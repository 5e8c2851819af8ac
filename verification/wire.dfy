/** What any program puts on the wire, by its own calls and those of its callbacks, whatever it is answered. */
module Wire {
  import opened Bytes
  import opened Protocol
  import opened Packet
  import opened Network
  import opened Machine
  import opened Events
  import opened Alignment
  import opened Registry
  import Records
  import Lists

  /** The requests of the calls made so far: those whose arguments were accepted, in order. */
  function RequestsOf(calls: seq<Made>): (rs: seq<Request>)
    ensures AllBuildable(rs)
  {
    if calls == [] then []
    else
      var last := calls[|calls| - 1];
      var sent := Sends(last.call, last.noack);
      RequestsOf(calls[..|calls| - 1]) + if sent.Some? then [sent.value] else []
  }

  /** The part of a request that is built in the request buffer. */
  function FrameOf(r: Request): bytes
    requires Buildable(r.code, r.args)
  {
    Frame(r.code, r.noack, r.args, |r.payload|)
  }

  /** The frame of the last request among the calls made so far. */
  function LastFrame(calls: seq<Made>): bytes {
    if calls == [] then []
    else
      var last := calls[|calls| - 1];
      var sent := Sends(last.call, last.noack);
      if sent.Some? then FrameOf(sent.value) else LastFrame(calls[..|calls| - 1])
  }

  /** The commands among the calls made so far that succeeded. */
  function SuccessesOf(calls: seq<Made>): seq<Command> {
    if calls == [] then []
    else
      var last := calls[|calls| - 1];
      SuccessesOf(calls[..|calls| - 1])
      + if last.call.Do? && (last.result.Switched? || (last.result.Status? && last.result.ok)) then [last.call.cmd]
        else []
  }

  /** The request buffer holds the last request, the history is that of the calls that succeeded; and, if the kernel
      takes everything, all requests and nothing else are on the wire. */
  ghost predicate Faithful(s: State, taken: bool) {
    && s.core.frame == LastFrame(s.calls)
    && s.history == SuccessesOf(s.calls)
    && (taken ==> s.core.out == Outbound(EncodeRequests(RequestsOf(s.calls)), [], []))
  }

  // ----- one call -----

  /** A step from one core to another sends exactly one request, or nothing. */
  ghost predicate Sending(c: Core, d: Core, sent: Option<Request>)
    requires sent.Some? ==> Buildable(sent.value.code, sent.value.args)
  {
    && d.frame == (if sent.Some? then FrameOf(sent.value) else c.frame)
    && (c.out == Outbound(c.out.wire, [], []) ==>
          d.out == Outbound(c.out.wire + if sent.Some? then EncodeRequest(sent.value) else [], [], []))
  }

  lemma SubmitSends(c: Core, code: byte, args: seq<Value>, payload: Option<bytes>)
    requires Accepts(code, args)
    ensures Sending(c, Submit(c, code, args, payload).0,
      if Buildable(code, args) then
        Some(Request(code, c.noack, args, if payload.Some? then payload.value else []))
      else None)
  {
    hide LayoutOf, Accepts, Buildable, Frame;
    assert c.out.wire + [] == c.out.wire;
    if Buildable(code, args) {
      assert Frame(code, c.noack, args, 0) + [] == Frame(code, c.noack, args, 0);
    }
  }

  lemma ReceiveSendsNothing(c: Core, code: byte, bodylen: Option<nat>)
    ensures var d := Receive(c, code, bodylen).0; d.frame == c.frame && d.out == c.out
  {
    hide ReadExact, HeaderError, DecodeHeader;
  }

  lemma CommandSends(c: Core, cmd: Command)
    ensures Sending(c, Converse(c, cmd).0, Sends(Do(cmd), c.noack))
  {
    hide Submit, Receive, RequestOf, PayloadOf, ReplyCode, Buildable, FrameOf, EncodeRequest, Accepts;
    assert c.out.wire + [] == c.out.wire;
    if !cmd.SetNoack? && !Refused(cmd) {
      var (code, args) := RequestOf(cmd);
      SubmitSends(c, code, args, PayloadOf(cmd));
      var bodylen := if cmd.Plain? && code == QUEUE_CONFIRM then None else Some(0);
      ReceiveSendsNothing(Submit(c, code, args, PayloadOf(cmd)).0, ReplyCode(cmd), bodylen);
    }
  }

  lemma QuerySends(c: Core, q: Query)
    ensures Sending(c, Inquire(c, q).0, Sends(Ask(q), c.noack))
  {
    hide Submit, Receive, QueryOf, Buildable, FrameOf, EncodeRequest, Accepts, ReadExact, HeaderError, DecodeHeader,
      FromLE, Records.DecodeRecords, Lists.Reverse, ToInt32;
    var (code, args) := QueryOf(q);
    SubmitSends(c, code, args, None);
    var d := Submit(c, code, args, None).0;
    ReceiveSendsNothing(d, code, if q.Number? then Some(4) else None);
  }

  lemma ExecuteFaithful(s: State, call: Call, taken: bool)
    requires Faithful(s, taken)
    ensures Faithful(Execute(s, call).0, taken)
  {
    hide Perform, Inquire, Sends, FrameOf, EncodeRequest, EncodeRequests, RequestsOf, LastFrame, SuccessesOf;
    var sent := Sends(call, s.core.noack);
    var (t, result) := Attempt(s, call);
    match call {
      case Do(cmd) =>
        CommandSends(s.core, cmd);
        PerformCore(s, cmd);
        PerformHistory(s, cmd);
      case Ask(q) => QuerySends(s.core, q);
    }
    Entered(s.calls, Made(call, s.core.noack, result));
    OneRequest(s.calls, sent);
  }

  lemma PerformCore(s: State, cmd: Command)
    ensures Perform(s, cmd).0.core == Converse(s.core, cmd).0
  {
    hide Converse, QueuesAfter, ChannelsAfter, QueuesFreed, ChannelsFreed;
  }

  lemma PerformHistory(s: State, cmd: Command)
    ensures var (t, ok) := Perform(s, cmd);
      (cmd.SetNoack? ==> ok) && t.history == s.history + if ok then [cmd] else []
  {
    hide Exchange, QueuesAfter, ChannelsAfter, QueuesFreed, ChannelsFreed;
  }

  lemma Entered(calls: seq<Made>, made: Made)
    ensures var sent := Sends(made.call, made.noack); var all := calls + [made];
      && RequestsOf(all) == RequestsOf(calls) + (if sent.Some? then [sent.value] else [])
      && LastFrame(all) == (if sent.Some? then FrameOf(sent.value) else LastFrame(calls))
      && SuccessesOf(all) == SuccessesOf(calls)
         + if made.call.Do? && (made.result.Switched? || (made.result.Status? && made.result.ok)) then [made.call.cmd]
           else []
  {
    hide Sends, FrameOf;
    assert (calls + [made])[..|calls|] == calls;
  }

  lemma OneRequest(calls: seq<Made>, sent: Option<Request>)
    requires sent.Some? ==> Buildable(sent.value.code, sent.value.args)
    ensures EncodeRequests(RequestsOf(calls) + if sent.Some? then [sent.value] else [])
         == EncodeRequests(RequestsOf(calls)) + if sent.Some? then EncodeRequest(sent.value) else []
  {
    hide EncodeRequest, EncodeRequests, RequestsOf, Buildable;
    EncodeOne(sent);
    EncodeRequestsAppend(RequestsOf(calls), if sent.Some? then [sent.value] else []);
  }

  // ----- the event loop -----

  lemma {:induction false} CallbackFaithful(h: Handler, s: State, limit: nat, taken: bool)
    requires Faithful(s, taken)
    ensures Faithful(RunCallback(h, s, limit).0, taken)
    decreases limit
  {
    hide Faithful, Execute;
    match h.next(s.log, s.calls) {
      case Return(_) =>
      case Issue(call) =>
        if limit > 0 {
          ExecuteFaithful(s, call, taken);
          CallbackFaithful(h, Execute(s, call).0, limit - 1, taken);
        }
    }
  }

  lemma InvokesFaithful(h: Handler, taken: bool)
    ensures forall s: State, call {:trigger Invoke(h, s, call)} ::
      Faithful(s, taken) ==> Faithful(Invoke(h, s, call).0, taken)
  {
    hide RunCallback, LastFrame, RequestsOf, EncodeRequests, SuccessesOf;
    forall s: State, call | Faithful(s, taken) ensures Faithful(Invoke(h, s, call).0, taken) {
      var t := s.(log := s.log + [call]);
      assert Faithful(t, taken);
      CallbackFaithful(h, t, h.limit(t.log, t.calls), taken);
    }
  }

  lemma TakesFaithful(taken: bool)
    ensures forall s: State, count: int {:trigger Take(s, count)} ::
      Faithful(s, taken) ==> Faithful(Take(s, count).0, taken)
  {
    hide ReadExact, LastFrame, RequestsOf, EncodeRequests, SuccessesOf;
  }

  lemma TurnFaithful(h: Handler, s: State, taken: bool)
    requires Faithful(s, taken)
    ensures Faithful(Turn(h, s).0, taken)
  {
    hide Take, CStr, Newest, ToInt32, NameOf, DecodeHeader, EventMatches, Invoke, Faithful;
    InvokesFaithful(h, taken);
    TakesFaithful(taken);
    ErrorFaithful(taken);
  }

  lemma ErrorFaithful(taken: bool)
    ensures forall s: State, e: ErrorIndex {:trigger s.(core := s.core.(error := e))} ::
      Faithful(s, taken) ==> Faithful(s.(core := s.core.(error := e)), taken)
  {
    hide LastFrame, RequestsOf, EncodeRequests, SuccessesOf;
  }

  lemma StatusFaithful(s: State, status: int, taken: bool)
    requires Faithful(s, taken)
    ensures Faithful(WithStatus(s, status), taken) && Faithful(Cleared(s), taken)
  {
    hide LastFrame, RequestsOf, EncodeRequests, SuccessesOf;
  }

  lemma {:induction false} LoopFaithful(h: Handler, s: State, taken: bool)
    requires Faithful(s, taken)
    ensures Faithful(Loop(h, s).0, taken)
    decreases |s.core.inp.input|
  {
    hide Turn, Faithful, WithStatus;
    StatusFaithful(s, OK, taken);
    if !(s.queues == [] && s.channels == []) {
      TurnFaithful(h, s, taken);
      var (t, verdict) := Turn(h, s);
      StatusFaithful(t, OK, taken);
      StatusFaithful(t, ERR, taken);
      if verdict == GO {
        LoopFaithful(h, t, taken);
      }
    }
  }
}
