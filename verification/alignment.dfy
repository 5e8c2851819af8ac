/** Whole runs of calls against a server that answers each request it owes an answer with one frame:
    every call reads its own reply and nothing else, and the requests on the wire are the calls. */
module Alignment {
  import opened Bytes
  import opened Protocol
  import opened Packet
  import opened Network
  import opened Records
  import opened Machine
  import Lists
  import Registry

  function ExecuteAll(s: State, calls: seq<Call>): (State, seq<Result>)
    decreases |calls|
  {
    if calls == [] then (s, [])
    else
      var (t, result) := Execute(s, calls[0]);
      var (u, results) := ExecuteAll(t, calls[1..]);
      (u, [result] + results)
  }

  // ----- the server's side -----

  datatype Reply = Reply(status: byte, body: bytes)

  /** The request a call puts on the wire in a given mode, if it puts one there. */
  function Sends(call: Call, noack: bool): (r: Option<Request>)
    ensures r.Some? ==> Buildable(r.value.code, r.value.args)
  {
    match call
    case Do(cmd) =>
      if cmd.SetNoack? || Refused(cmd) || !Buildable(RequestOf(cmd).0, RequestOf(cmd).1) then None
      else
        var payload := PayloadOf(cmd);
        Some(Request(RequestOf(cmd).0, noack, RequestOf(cmd).1, if payload.Some? then payload.value else []))
    case Ask(q) =>
      if !Buildable(QueryOf(q).0, QueryOf(q).1) then None
      else Some(Request(QueryOf(q).0, noack, QueryOf(q).1, []))
  }

  /** Requests for data are answered in either mode, commands only outside noack mode. */
  predicate Answered(call: Call, noack: bool) {
    Sends(call, noack).Some? && (call.Ask? || !noack)
  }

  function ModeAfter(call: Call, noack: bool): bool {
    if call.Do? && call.cmd.SetNoack? then call.cmd.on else noack
  }

  /** Error replies carry no body; a success carries what the call asks for. */
  predicate Conforms(call: Call, reply: Reply) {
    && |reply.body| < SIGN32
    && if reply.status != SUCCESS then reply.body == [] && call != Ask(Stat)
       else
         match call
         case Do(_) => reply.body == []
         case Ask(Stat) => |reply.body| == STAT_SIZE
         case Ask(Number(_, _)) => |reply.body| == 4
         case Ask(Listing(kind, _)) => |reply.body| % RecordSize(kind) == 0
         case Ask(Fetch(_, _)) => |reply.body| >= 8
  }

  function ReplyFrame(code: byte, reply: Reply): bytes {
    EncodeHeader(Header(RES, code, reply.status, |reply.body|)) + reply.body
  }

  /** The bytes the server owes for one call: a frame tagged with the code of its request, or nothing. */
  function Owed(call: Call, noack: bool, reply: Reply): bytes {
    if Answered(call, noack) then ReplyFrame(Sends(call, noack).value.code, reply) else []
  }

  function OwedAll(calls: seq<Call>, noack: bool, replies: seq<Reply>): bytes
    requires |calls| == |replies|
  {
    if calls == [] then []
    else Owed(calls[0], noack, replies[0]) + OwedAll(calls[1..], ModeAfter(calls[0], noack), replies[1..])
  }

  /** The requests of a run of calls, in order. */
  function SentAll(calls: seq<Call>, noack: bool): (rs: seq<Request>)
    ensures AllBuildable(rs)
  {
    if calls == [] then []
    else
      var sent := Sends(calls[0], noack);
      (if sent.Some? then [sent.value] else []) + SentAll(calls[1..], ModeAfter(calls[0], noack))
  }

  /** What a call returns, told from its own reply alone. A pattern unsubscribe that is answered fails,
      even on success: the client looks for the code of a plain channel unsubscribe. */
  function Meaning(call: Call, noack: bool, reply: Reply): Result
    requires Conforms(call, reply)
  {
    match call
    case Do(cmd) =>
      if cmd.SetNoack? then Switched
      else if Sends(call, noack).None? then Status(false, ERROR_DATA)
      else if noack then Status(true, NO_ERROR)
      else if cmd.UnsubscribeChannel? && cmd.pattern then Status(false, ERROR_RESPONSE)
      else if reply.status != SUCCESS then Status(false, ErrorOf(reply.status))
      else Status(true, NO_ERROR)
    case Ask(q) =>
      if Sends(call, noack).None? then Data(Failed, ERROR_DATA)
      else if reply.status != SUCCESS then
        Data(Failed, if q.Number? then ERROR_RESPONSE else ErrorOf(reply.status))
      else
        Data(match q
             case Stat => Stats(reply.body)
             case Number(_, _) => Value(FromLE(reply.body))
             case Listing(kind, _) => Listed(Lists.Reverse(DecodeRecords(kind, reply.body)))
             case Fetch(_, _) => Message(FromLE(reply.body[..8]), reply.body[8..]), NO_ERROR)
  }

  function Meanings(calls: seq<Call>, noack: bool, replies: seq<Reply>): seq<Result>
    requires |calls| == |replies| && AllConform(calls, replies)
  {
    if calls == [] then []
    else [Meaning(calls[0], noack, replies[0])] + Meanings(calls[1..], ModeAfter(calls[0], noack), replies[1..])
  }

  predicate AllConform(calls: seq<Call>, replies: seq<Reply>)
    requires |calls| == |replies|
  {
    forall i :: 0 <= i < |calls| ==> Conforms(calls[i], replies[i])
  }

  // ----- one call -----

  /** A connection with these bytes to come and this log of bytes written, on which nothing is refused. */
  predicate Link(c: Core, input: bytes, wire: bytes) {
    c.inp == Inbound(input, []) && c.out == Outbound(wire, [], [])
  }

  lemma ReadWhole(a: bytes, b: bytes)
    ensures ReadExact(Inbound(a + b, []), |a|) == (Inbound(b, []), Some(a))
  {
    assert (a + b)[..|a|] == a && (a + b)[|a|..] == b;
  }

  lemma SubmitWrites(c: Core, code: byte, args: seq<Value>, payload: Option<bytes>, input: bytes, wire: bytes)
    requires Link(c, input, wire) && Accepts(code, args)
    ensures var (d, sent) := Submit(c, code, args, payload);
      && (sent <==> Buildable(code, args)) && d.noack == c.noack
      && d.error == (if sent then NO_ERROR else ERROR_DATA)
      && Link(d, input, wire + if sent then
           EncodeRequest(Request(code, c.noack, args, if payload.Some? then payload.value else [])) else [])
  {
    hide LayoutOf, Accepts, Buildable, Frame;
    if Buildable(code, args) {
      assert Frame(code, c.noack, args, 0) + [] == Frame(code, c.noack, args, 0);
    }
  }

  lemma ReceiveReply(c: Core, code: byte, tag: byte, reply: Reply, bodylen: Option<nat>, rest: bytes, wire: bytes)
    requires Link(c, ReplyFrame(tag, reply) + rest, wire) && |reply.body| < SIGN32
    ensures var (d, h) := Receive(c, code, bodylen);
      && d.noack == c.noack && Link(d, reply.body + rest, wire)
      && (h.Some? <==> code == tag && reply.status == SUCCESS && (bodylen.Some? ==> bodylen.value == |reply.body|))
      && (h.Some? ==> h.value.bodylen == |reply.body| && d.error == c.error)
      && (h.None? ==>
            d.error == (if code != tag || (bodylen.Some? && bodylen.value != |reply.body|) then ERROR_RESPONSE
                        else ErrorOf(reply.status)))
  {
    hide ReadExact, EncodeHeader, DecodeHeader;
    var h := Header(RES, tag, reply.status, |reply.body|);
    HeaderRoundTrip(h);
    assert ReplyFrame(tag, reply) + rest == EncodeHeader(h) + (reply.body + rest);
    ReadWhole(EncodeHeader(h), reply.body + rest);
  }

  lemma CommandAligned(s: State, cmd: Command, reply: Reply, rest: bytes, wire: bytes)
    requires Conforms(Do(cmd), reply) && Link(s.core, Owed(Do(cmd), s.core.noack, reply) + rest, wire)
    ensures Aligned(s, Do(cmd), reply, rest, wire)
  {
    hide Submit, Receive, RequestOf, PayloadOf, LayoutOf, Buildable, ReplyFrame, EncodeRequest,
      QueuesAfter, ChannelsAfter;
    assert wire + [] == wire && [] + rest == rest;
    if !cmd.SetNoack? && !Refused(cmd) {
      var (code, args) := RequestOf(cmd);
      SubmitWrites(s.core, code, args, PayloadOf(cmd), s.core.inp.input, wire);
      var (c, sent) := Submit(s.core, code, args, PayloadOf(cmd));
      if sent && !c.noack {
        var bodylen := if cmd.Plain? && code == QUEUE_CONFIRM then None else Some(0);
        ReceiveReply(c, ReplyCode(cmd), code, reply, bodylen, rest, c.out.wire);
        CodesAgree(cmd);
      }
    }
  }

  lemma CodesAgree(cmd: Command)
    requires !cmd.SetNoack?
    ensures ReplyCode(cmd) == RequestOf(cmd).0 <==> !(cmd.UnsubscribeChannel? && cmd.pattern)
  {
  }

  lemma QueryAligned(s: State, q: Query, reply: Reply, rest: bytes, wire: bytes)
    requires Conforms(Ask(q), reply) && Link(s.core, Owed(Ask(q), s.core.noack, reply) + rest, wire)
    ensures Aligned(s, Ask(q), reply, rest, wire)
  {
    hide Submit, Receive, QueryOf, LayoutOf, Buildable, ReplyFrame, EncodeRequest, ReceiveStat, ReceiveNumber,
      ReceiveList, ReceiveTagged, FromLE, DecodeRecords;
    assert wire + [] == wire && [] + rest == rest;
    var (code, args) := QueryOf(q);
    SubmitWrites(s.core, code, args, None, s.core.inp.input, wire);
    var (c, sent) := Submit(s.core, code, args, None);
    if sent {
      if q.Stat? {
        StatCode();
        StatAligned(c, reply, rest, c.out.wire);
      } else {
        var bodylen := if q.Number? then Some(4) else None;
        ReceiveReply(c, code, code, reply, bodylen, rest, c.out.wire);
        var (d, h) := Receive(c, code, bodylen);
        QueryCodes(q);
        if h.Some? { BodyAligned(d, q, reply, rest, d.out.wire); }
      }
    }
  }

  lemma StatCode()
    ensures QueryOf(Stat).0 == STAT
  {
  }

  lemma QueryCodes(q: Query)
    ensures q.Number? || q.Fetch? ==> QueryOf(q).0 == q.code
    ensures q.Listing? ==> QueryOf(q).0 == ListCode(q.kind)
  {
  }

  lemma StatAligned(c: Core, reply: Reply, rest: bytes, wire: bytes)
    requires Link(c, ReplyFrame(STAT, reply) + rest, wire)
    requires reply.status == SUCCESS && |reply.body| == STAT_SIZE
    ensures var (d, answer) := ReceiveStat(c);
      answer == Stats(reply.body) && Link(d, rest, wire) && d.noack == c.noack && d.error == c.error
  {
    hide ReadExact, EncodeHeader, DecodeHeader;
    var h := Header(RES, STAT, reply.status, |reply.body|);
    HeaderRoundTrip(h);
    var frame := ReplyFrame(STAT, reply);
    ReadWhole(frame, rest);
    assert frame[..HEADER_SIZE] == EncodeHeader(h) && frame[HEADER_SIZE..] == reply.body;
  }

  lemma BodyAligned(c: Core, q: Query, reply: Reply, rest: bytes, wire: bytes)
    requires Link(c, reply.body + rest, wire)
    requires Conforms(Ask(q), reply) && reply.status == SUCCESS && !q.Stat?
    ensures var (d, answer) :=
        if q.Number? then ReceiveNumber(c)
        else if q.Listing? then ReceiveList(c, q.kind, |reply.body|)
        else ReceiveTagged(c, |reply.body|);
      && Link(d, rest, wire) && d.noack == c.noack && d.error == c.error
      && answer ==
        if q.Number? then Value(FromLE(reply.body))
        else if q.Listing? then Listed(Lists.Reverse(DecodeRecords(q.kind, reply.body)))
        else Message(FromLE(reply.body[..8]), reply.body[8..])
  {
    hide ReadExact, FromLE, DecodeRecords, ReceiveTagged, Lists.Reverse;
    ReadWhole(reply.body, rest);
    if q.Fetch? { TaggedAligned(c, reply.body, rest, wire); }
  }

  lemma TaggedAligned(c: Core, body: bytes, rest: bytes, wire: bytes)
    requires Link(c, body + rest, wire) && 8 <= |body| < SIGN32
    ensures var (d, answer) := ReceiveTagged(c, |body|);
      && Link(d, rest, wire) && d.noack == c.noack && d.error == c.error
      && answer == Message(FromLE(body[..8]), body[8..])
  {
    hide ReadExact, FromLE;
    var tag, data := body[..8], body[8..];
    assert body + rest == tag + (data + rest);
    ReadWhole(tag, data + rest);
    ReadWhole(data, rest);
  }

  /** One call against its own reply: it returns what that reply means, leaves the input right behind
      it, and adds exactly its own request to the wire. */
  ghost predicate Aligned(s: State, call: Call, reply: Reply, rest: bytes, wire: bytes)
    requires Conforms(call, reply)
  {
    var (t, result) := Execute(s, call);
    var sent := Sends(call, s.core.noack);
    && result == Meaning(call, s.core.noack, reply)
    && t.core.noack == ModeAfter(call, s.core.noack)
    && Link(t.core, rest, wire + if sent.Some? then EncodeRequest(sent.value) else [])
  }

  // ----- whole runs -----

  /** Request and reply stay aligned over any run of calls, in any mixture of modes and with any error
      replies: the k-th call returns what the k-th reply means, the input ends at a frame boundary, and
      the wire has gained exactly the requests of the calls. */
  lemma {:induction false} RunAligned(s: State, calls: seq<Call>, replies: seq<Reply>, rest: bytes, wire: bytes)
    requires |calls| == |replies| && AllConform(calls, replies)
    requires Link(s.core, OwedAll(calls, s.core.noack, replies) + rest, wire)
    ensures var (t, results) := ExecuteAll(s, calls);
      && results == Meanings(calls, s.core.noack, replies)
      && Link(t.core, rest, wire + EncodeRequests(SentAll(calls, s.core.noack)))
    decreases |calls|
  {
    hide Execute, Meaning, Owed, Sends, Conforms, EncodeRequest, ModeAfter, EncodeRequests;
    if calls == [] {
      NothingSent(wire);
      assert [] + rest == rest;
    } else {
      var noack := s.core.noack;
      var more := OwedAll(calls[1..], ModeAfter(calls[0], noack), replies[1..]);
      assert OwedAll(calls, noack, replies) + rest == Owed(calls[0], noack, replies[0]) + (more + rest);
      CallAligned(s, calls[0], replies[0], more + rest, wire);
      var (t, _) := Execute(s, calls[0]);
      RunAligned(t, calls[1..], replies[1..], rest, t.core.out.wire);
      WireGrows(wire, Sends(calls[0], noack), SentAll(calls[1..], ModeAfter(calls[0], noack)));
    }
  }

  lemma NothingSent(wire: bytes)
    ensures wire + EncodeRequests([]) == wire
  {
  }

  lemma WireGrows(wire: bytes, sent: Option<Request>, others: seq<Request>)
    requires (sent.Some? ==> Buildable(sent.value.code, sent.value.args)) && AllBuildable(others)
    ensures var first := if sent.Some? then [sent.value] else [];
      wire + (if sent.Some? then EncodeRequest(sent.value) else []) + EncodeRequests(others)
      == wire + EncodeRequests(first + others)
  {
    hide EncodeRequest, EncodeRequests, Buildable;
    var first := if sent.Some? then [sent.value] else [];
    EncodeOne(sent);
    EncodeRequestsAppend(first, others);
    assert wire + EncodeRequests(first) + EncodeRequests(others)
        == wire + (EncodeRequests(first) + EncodeRequests(others));
  }

  lemma CallAligned(s: State, call: Call, reply: Reply, rest: bytes, wire: bytes)
    requires Conforms(call, reply) && Link(s.core, Owed(call, s.core.noack, reply) + rest, wire)
    ensures Aligned(s, call, reply, rest, wire)
  {
    match call
    case Do(cmd) => CommandAligned(s, cmd, reply, rest, wire);
    case Ask(q) => QueryAligned(s, q, reply, rest, wire);
  }

  lemma EncodeOne(sent: Option<Request>)
    requires sent.Some? ==> Buildable(sent.value.code, sent.value.args)
    ensures EncodeRequests(if sent.Some? then [sent.value] else [])
         == if sent.Some? then EncodeRequest(sent.value) else []
  {
    hide EncodeRequest, Buildable;
    if sent.Some? {
      var one := [sent.value];
      assert one[1..] == [];
      assert EncodeRequests(one) == EncodeRequest(one[0]) + EncodeRequests(one[1..]);
    }
  }

  /** The peer, reading the wire of a whole run from its start, recovers exactly the requests of the
      calls, provided no message is so large that its frame's length wraps. */
  lemma WireDecodes(s: State, calls: seq<Call>, replies: seq<Reply>, rest: bytes)
    requires |calls| == |replies| && AllConform(calls, replies)
    requires Link(s.core, OwedAll(calls, s.core.noack, replies) + rest, [])
    requires AllValid(SentAll(calls, s.core.noack))
    ensures DecodeRequests(ExecuteAll(s, calls).0.core.out.wire) == Some(SentAll(calls, s.core.noack))
  {
    hide ExecuteAll, Meanings, OwedAll, SentAll, EncodeRequests, DecodeRequests, AllValid, AllConform;
    RunAligned(s, calls, replies, rest, []);
    RequestsRoundTrip(SentAll(calls, s.core.noack));
    assert [] + EncodeRequests(SentAll(calls, s.core.noack)) == EncodeRequests(SentAll(calls, s.core.noack));
  }

  /** Against a server that tags each reply with the code of its request, a pattern unsubscribe takes
      effect exactly in noack mode; acknowledged, it fails and leaves the registries as they were, even
      when the server reports success. */
  lemma PatternUnsubscribe(s: State, name: CString, pattern: CString, reply: Reply, rest: bytes)
    requires Buildable(CHANNEL_PUNSUBSCRIBE, [Text(name), Text(pattern)])
    requires var call := Do(UnsubscribeChannel(true, name, pattern));
      Conforms(call, reply) && Link(s.core, Owed(call, s.core.noack, reply) + rest, s.core.out.wire)
    ensures var (t, ok) := Perform(s, UnsubscribeChannel(true, name, pattern));
      && (ok <==> s.core.noack)
      && t.channels == (if s.core.noack then Registry.Without(s.channels, name) else s.channels)
      && t.queues == s.queues
  {
    hide Converse, Owed, Conforms, Buildable, ReplyFrame;
    var cmd: Command := UnsubscribeChannel(true, name, pattern);
    CommandAligned(s, cmd, reply, rest, s.core.out.wire);
  }

  /** The one exception: an error reply to a status query. The query reads 63 bytes before it looks at
      the header, so the input stays aligned exactly when nothing follows the eight bytes of the reply. */
  lemma StatErrorAlignment(s: State, status: byte, rest: bytes)
    requires status != SUCCESS && Link(s.core, ReplyFrame(STAT, Reply(status, [])) + rest, s.core.out.wire)
    ensures var (t, result) := Execute(s, Ask(Stat));
      && result == Data(Failed, if |rest| < STAT_SIZE then ERROR_READ else ERROR_RESPONSE)
      && (t.core.inp.input == rest <==> rest == [])
  {
    hide LayoutOf, EncodeHeader, DecodeHeader, Frame;
    var reply := Reply(status, []);
    var h := Header(RES, STAT, status, 0);
    HeaderRoundTrip(h);
    var input := ReplyFrame(STAT, reply) + rest;
    assert Buildable(STAT, []) by { StatBuildable(); }
    assert |input| == HEADER_SIZE + |rest| && input[..HEADER_SIZE] == EncodeHeader(h);
    if |rest| >= STAT_SIZE {
      assert input[..HEADER_SIZE + STAT_SIZE][..HEADER_SIZE] == EncodeHeader(h);
    }
  }

  lemma StatBuildable()
    ensures Buildable(STAT, [])
  {
    assert LayoutOf(STAT) == Some([]);
  }
}
