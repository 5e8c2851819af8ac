/** The event loop over bytes is the event loop over events. */
module Dispatching {
  import opened Bytes
  import opened Protocol
  import opened Packet
  import opened Network
  import opened Registry
  import opened Machine
  import opened Events
  import opened History

  // ----- one turn -----

  lemma TakeWhole(s: State, a: bytes, b: bytes)
    ensures Take(WithInput(s, a + b), |a|) == (WithInput(s, b), Some(a))
  {
    assert (a + b)[..|a|] == a && (a + b)[|a|..] == b;
  }

  lemma InvokeQuietly(h: Handler, s: State, call: Invocation, input: bytes)
    requires QuietCall(h, s, s.log + [call])
    ensures Invoke(h, WithInput(s, input), call) == (WithInput(Invoke(h, s, call).0, input), Invoke(h, s, call).1)
  {
    QuietCallback(h, s.(log := s.log + [call]), h.limit(s.log + [call], s.calls), input);
  }

  lemma Joined(a: bytes, b: bytes, c: bytes)
    ensures a + b + c == a + (b + c)
  {
  }

  lemma EventHeader(e: Event)
    requires ValidEvent(e)
    ensures DecodeHeader(EncodeHeader(HeaderOf(e))) == HeaderOf(e)
    ensures EventMatches(HeaderOf(e), NOTIFY, MESSAGE)
    ensures ToInt32((HeaderOf(e).bodylen - |Preamble(e)|) % WORD32) == |MessageOf(e)|
  {
    hide EncodeHeader, DecodeHeader, Preamble;
    HeaderRoundTrip(HeaderOf(e));
  }

  /** The fact about an event that its turn has to establish, for the input that follows its header. */
  ghost predicate Delivered(h: Handler, s: State, e: Event, tail: bytes, r: (State, int))
    requires ValidEvent(e)
  {
    match Deliver(h, s, e)
    case None => r == (WithInput(s, MessageOf(e) + tail), BROKEN)
    case Some((t, verdict)) =>
      QuietCall(h, s, t.log) ==> r == (WithInput(t, tail), verdict)
  }

  lemma QueueTurn(h: Handler, s: State, e: Event, tail: bytes)
    requires ValidEvent(e) && e.QueueEvent?
    ensures Delivered(h, s, e, tail,
                      ProcessQueue(h, WithInput(s, Preamble(e) + (MessageOf(e) + tail)), HeaderOf(e)))
  {
    hide Take, Invoke, Newest, CStr, Pad, ToInt32, QuietCall, NameOf;
    EventHeader(e);
    PadRoundTrip(e.name, 64);
    TakeWhole(s, Pad(e.name, 64), MessageOf(e) + tail);
    TakeWhole(s, MessageOf(e), tail);
    var found := Newest(s.queues, e.name);
    if found.Some? {
      var call := OnQueue(found.value.callback, NameOf(found.value), e.msg);
      if QuietCall(h, s, s.log + [call]) {
        InvokeQuietly(h, s, call, tail);
      }
      assert [] + tail == tail;
    }
  }

  lemma MessageTurn(h: Handler, s: State, e: Event, tail: bytes)
    requires ValidEvent(e) && e.ChannelEvent?
    ensures Delivered(h, s, e, tail,
                      DeliverMessage(h, WithInput(s, MessageOf(e) + tail), Pad(e.name, 64), Pad(e.topic, 32),
                                     if e.pattern.Some? then Some(Pad(e.pattern.value, 32)) else None,
                                     HeaderOf(e).bodylen - |Preamble(e)|))
  {
    hide Take, Invoke, Newest, CStr, Pad, ToInt32, QuietCall, NameOf, HeaderOf, Preamble, EventMatches;
    EventHeader(e);
    PadRoundTrip(e.name, 64);
    TakeWhole(s, MessageOf(e), tail);
    var found := Newest(s.channels, e.name);
    if found.Some? {
      var call := OnChannel(found.value.callback, NameOf(found.value), Pad(e.topic, 32),
                            if e.pattern.Some? then Some(Pad(e.pattern.value, 32)) else None, e.data);
      if QuietCall(h, s, s.log + [call]) {
        InvokeQuietly(h, s, call, tail);
      }
    }
  }

  lemma ChannelTurn(h: Handler, s: State, e: Event, tail: bytes)
    requires ValidEvent(e) && e.ChannelEvent?
    ensures Delivered(h, s, e, tail,
                      ProcessChannel(h, WithInput(s, Preamble(e) + (MessageOf(e) + tail)), HeaderOf(e),
                                     e.pattern.Some?))
  {
    hide Take, DeliverMessage, Delivered, Pad, HeaderOf, MessageOf;
    var name, topic, message := Pad(e.name, 64), Pad(e.topic, 32), MessageOf(e);
    var pattern := if e.pattern.Some? then Pad(e.pattern.value, 32) else [];
    assert Preamble(e) + (message + tail) == name + (topic + (pattern + (message + tail)));
    assert [] + (message + tail) == message + tail;
    TakeWhole(s, name, topic + (pattern + (message + tail)));
    TakeWhole(s, topic, pattern + (message + tail));
    TakeWhole(s, pattern, message + tail);
    MessageTurn(h, s, e, tail);
  }

  /** One turn over the bytes of an event is one delivery, and leaves the input at the next event;
      an event nobody subscribes to breaks the loop before its message is read. */
  lemma TurnDelivers(h: Handler, s: State, e: Event, tail: bytes)
    requires ValidEvent(e)
    ensures Delivered(h, s, e, tail, Turn(h, WithInput(s, EncodeEvent(e) + tail)))
  {
    hide Take, ProcessQueue, ProcessChannel, Delivered, EncodeHeader, DecodeHeader, Preamble;
    EventHeader(e);
    var header, preamble, message := EncodeHeader(HeaderOf(e)), Preamble(e), MessageOf(e);
    assert EncodeEvent(e) + tail == header + (preamble + (message + tail));
    TakeWhole(s, header, preamble + (message + tail));
    if e.QueueEvent? {
      QueueTurn(h, s, e, tail);
    } else {
      ChannelTurn(h, s, e, tail);
    }
  }

  // ----- the whole loop -----

  /** The event loop on any well-formed events, followed by any further bytes, does what the run over
      the events does: the same callbacks with the same payloads in the same order, the same registries,
      the same result. It stops exactly where the run stops, or else goes on with the further bytes. */
  lemma {:induction false} LoopIsDispatch(h: Handler, s: State, es: seq<Event>, tail: bytes)
    requires AllValidEvents(es) && QuietRun(h, s, es)
    ensures AllValidEvents(Dispatch(h, s, es).rest)
    ensures var run := Dispatch(h, s, es);
      Loop(h, WithInput(s, EncodeEvents(es) + tail)) ==
      match run.result
      case None => Loop(h, WithInput(run.state, tail))
      case Some(result) => (WithInput(run.state, run.unread + EncodeEvents(run.rest) + tail), result)
    decreases |es|
  {
    hide Turn, Deliver, QuietCall, EncodeEvent;
    if s.queues == [] && s.channels == [] {
      assert [] + EncodeEvents(es) == EncodeEvents(es);
    } else if es == [] {
      assert EncodeEvents(es) + tail == tail;
    } else {
      var rest := EncodeEvents(es[1..]) + tail;
      Joined(EncodeEvent(es[0]), EncodeEvents(es[1..]), tail);
      TurnDelivers(h, s, es[0], rest);
      match Deliver(h, s, es[0]) {
        case None => Joined(MessageOf(es[0]), EncodeEvents(es[1..]), tail);
        case Some((t, verdict)) =>
          if verdict == STOP {
            assert [] + EncodeEvents(es[1..]) == EncodeEvents(es[1..]);
          } else {
            LoopIsDispatch(h, t, es[1..], tail);
          }
      }
    }
  }

  /** emq_process on a stream of events that ends with the last of them. A run that has not ended by
      itself delivers every event and then fails on its next read. */
  lemma ProcessIsDispatch(h: Handler, s: State, es: seq<Event>)
    requires AllValidEvents(es) && QuietRun(h, Cleared(s), es)
    ensures AllValidEvents(Dispatch(h, Cleared(s), es).rest)
    ensures var run := Dispatch(h, Cleared(s), es);
      Process(h, WithInput(s, EncodeEvents(es))) ==
      match run.result
      case None => (WithInput(run.state.(core := Fail(run.state.core, ERROR_READ)), []), ERR)
      case Some(result) => (WithInput(run.state, run.unread + EncodeEvents(run.rest)), result)
  {
    hide Dispatch, QuietRun, EncodeEvents, AllValidEvents, Loop, WithInput, Cleared;
    LoopIsDispatch(h, Cleared(s), es, []);
    assert EncodeEvents(es) + [] == EncodeEvents(es);
    ClearedInput(s, EncodeEvents(es));
    DispatchGoesOn(h, Cleared(s), es);
    var run := Dispatch(h, Cleared(s), es);
    match run.result {
      case None => NothingLeft(h, run.state);
      case Some(_) => assert run.unread + EncodeEvents(run.rest) + [] == run.unread + EncodeEvents(run.rest);
    }
  }

  lemma ClearedInput(s: State, input: bytes)
    ensures Cleared(WithInput(s, input)) == WithInput(Cleared(s), input)
  {
  }

  lemma NothingLeft(h: Handler, s: State)
    requires s.queues != [] || s.channels != []
    ensures Loop(h, WithInput(s, [])) == (WithInput(s.(core := Fail(s.core, ERROR_READ)), []), ERR)
  {
    hide ProcessQueue, ProcessChannel;
    var t := WithInput(s, []);
    assert Take(t, HEADER_SIZE) == (t.(core := t.core.(error := ERROR_READ)), None);
  }

  lemma {:induction false} DispatchGoesOn(h: Handler, s: State, es: seq<Event>)
    requires AllValidEvents(es)
    ensures var run := Dispatch(h, s, es); run.result.None? ==> run.state.queues != [] || run.state.channels != []
    decreases |es|
  {
    hide Deliver;
    if !(s.queues == [] && s.channels == []) && es != [] {
      match Deliver(h, s, es[0])
      case None =>
      case Some((t, _)) => DispatchGoesOn(h, t, es[1..]);
    }
  }

  /** Why callbacks have to keep to noack mode: a command that waits for its reply while events are
      arriving takes the header of the next event for it, fails, and leaves the input inside that event. */
  lemma AcknowledgedInCallback(s: State, cmd: Command, e: Event, tail: bytes)
    requires ValidEvent(e) && !cmd.SetNoack? && !s.core.noack
    requires !Refused(cmd) && Buildable(RequestOf(cmd).0, RequestOf(cmd).1)
    requires s.core.out == Outbound(s.core.out.wire, [], []) && s.core.inp == Inbound(EncodeEvent(e) + tail, [])
    ensures var (t, ok) := Perform(s, cmd);
      && !ok && t.core.error == ERROR_RESPONSE && t.queues == s.queues && t.channels == s.channels
      && t.core.inp == Inbound(Preamble(e) + MessageOf(e) + tail, [])
      && t.core.inp.input != EncodeEvent(e) + tail && t.core.inp.input != tail
  {
    hide Buildable, RequestOf, Frame, ReplyCode, EncodeHeader, DecodeHeader, Preamble, MessageOf;
    EventHeader(e);
    var header, rest := EncodeHeader(HeaderOf(e)), Preamble(e) + MessageOf(e) + tail;
    assert EncodeEvent(e) + tail == header + rest;
    assert (header + rest)[..HEADER_SIZE] == header && (header + rest)[HEADER_SIZE..] == rest;
    assert |rest| > |tail|;
  }

  // ----- what holds after any run, on any input and with any callbacks -----

  lemma TakeKeeps(s: State, count: int)
    ensures Take(s, count).0 == s.(core := Take(s, count).0.core)
  {
    hide ReadExact;
  }

  lemma {:induction false} CallbackTracks(h: Handler, s: State, limit: nat)
    requires Tracks(s)
    ensures Tracks(RunCallback(h, s, limit).0)
    decreases limit
  {
    hide Tracks, Execute;
    match h.next(s.log, s.calls) {
      case Return(_) =>
      case Issue(call) =>
        if limit > 0 {
          ExecuteTracks(s, call);
          CallbackTracks(h, Execute(s, call).0, limit - 1);
        }
    }
  }

  lemma InvokeTracks(h: Handler, s: State, call: Invocation)
    requires Tracks(s)
    ensures Tracks(Invoke(h, s, call).0)
  {
    hide RunCallback, Tracks;
    var s1 := s.(log := s.log + [call]);
    var limit := h.limit(s1.log, s1.calls);
    LogTracks(s, s1.log, s.returned, s.calls);
    CallbackTracks(h, s1, limit);
    var (t, nonzero) := RunCallback(h, s1, limit);
    LogTracks(t, t.log, t.returned + [nonzero], t.calls);
  }

  lemma TakeTracks(s: State, count: int)
    requires Tracks(s)
    ensures Tracks(Take(s, count).0)
  {
    hide Tracks;
    TakeKeeps(s, count);
    CoreTracks(s, Take(s, count).0.core);
  }

  lemma TurnTracks(h: Handler, s: State)
    requires Tracks(s)
    ensures Tracks(Turn(h, s).0)
  {
    hide Take, Tracks, ProcessQueue, ProcessChannel, DecodeHeader;
    TakeTracks(s, HEADER_SIZE);
    var (t, data) := Take(s, HEADER_SIZE);
    CoreTracks(t, t.core.(error := ERROR_READ));
    if data.Some? {
      var e := DecodeHeader(data.value);
      QueueTracks(h, t, e);
      ChannelTracks(h, t, e, false);
      ChannelTracks(h, t, e, true);
    }
  }

  lemma QueueTracks(h: Handler, s: State, e: Header)
    requires Tracks(s)
    ensures Tracks(ProcessQueue(h, s, e).0)
  {
    hide Take, Tracks, Invoke, CStr, Newest, ToInt32, NameOf;
    TakeTracks(s, 64);
    var (t, name) := Take(s, 64);
    if name.Some? {
      var found := Newest(t.queues, CStr(name.value));
      var count := ToInt32((e.bodylen - 64) % WORD32);
      TakeTracks(t, count);
      if found.Some? {
        var call := msg => OnQueue(found.value.callback, NameOf(found.value), msg);
        InvokeTracks(h, t, call(None));
        InvokeTracks(h, Take(t, count).0, call(Take(t, count).1));
      }
    }
  }

  lemma ChannelTracks(h: Handler, s: State, e: Header, extended: bool)
    requires Tracks(s)
    ensures Tracks(ProcessChannel(h, s, e, extended).0)
  {
    hide Take, Tracks, DeliverMessage;
    TakeTracks(s, 64);
    var (s1, name) := Take(s, 64);
    TakeTracks(s1, 32);
    var (s2, topic) := Take(s1, 32);
    TakeTracks(s2, 32);
    var (s3, pattern) := if extended then Take(s2, 32) else (s2, None);
    if name.Some? && topic.Some? {
      MessageTracks(h, s3, name.value, topic.value, pattern, e.bodylen - (if extended then 128 else 96));
    }
  }

  lemma MessageTracks(h: Handler, s: State, name: bytes, topic: bytes, pattern: Option<bytes>, length: int)
    requires Tracks(s)
    ensures Tracks(DeliverMessage(h, s, name, topic, pattern, length).0)
  {
    hide Take, Tracks, Invoke, CStr, Newest, ToInt32, NameOf;
    var count := ToInt32(length % WORD32);
    TakeTracks(s, count);
    var (t, msg) := Take(s, count);
    var found := Newest(s.channels, CStr(name));
    if found.Some? && msg.Some? {
      InvokeTracks(h, t, OnChannel(found.value.callback, NameOf(found.value), topic, pattern, msg.value));
    }
  }

  /** The registries are the history of successful subscriptions after any run of the event loop too,
      whatever bytes it read and whatever its callbacks did. */
  lemma {:induction false} LoopTracks(h: Handler, s: State)
    requires Tracks(s)
    ensures Tracks(Loop(h, s).0)
    decreases |s.core.inp.input|
  {
    hide Turn, Tracks;
    CoreTracks(s, WithStatus(s, OK).core);
    if !(s.queues == [] && s.channels == []) {
      TurnTracks(h, s);
      var (t, verdict) := Turn(h, s);
      CoreTracks(t, WithStatus(t, OK).core);
      CoreTracks(t, WithStatus(t, ERR).core);
      if verdict == GO {
        LoopTracks(h, t);
      }
    }
  }

  /** A turn that breaks off has touched nothing but the core. Any other has made one callback, and stops the
      loop exactly when that returned nonzero and left no queue subscription. */
  lemma TurnShape(h: Handler, s: State)
    ensures var (t, verdict) := Turn(h, s);
      if verdict == BROKEN then t == s.(core := t.core)
      else
        && (verdict == GO || verdict == STOP)
        && |t.log| == |s.log| + 1 && s.log <= t.log && s.history <= t.history
        && |t.returned| == |s.returned| + 1
        && (verdict == STOP <==> t.returned[|s.returned|] && t.queues == [])
  {
    hide Take, CStr, Newest, ToInt32, NameOf, DecodeHeader, EventMatches, Invoke;
    TakesKeep();
  }

  lemma TakesKeep()
    ensures forall s: State, count: int {:trigger Take(s, count)} ::
      Take(s, count).0 == s.(core := Take(s, count).0.core)
  {
    forall s: State, count: int ensures Take(s, count).0 == s.(core := Take(s, count).0.core) {
      TakeKeeps(s, count);
    }
  }

  /** A callback made since the log was n long returned nonzero, was the last, and left no queue subscription. */
  predicate StoppedBy(t: State, n: nat) {
    |t.returned| > n && t.returned[|t.returned| - 1] && t.queues == []
  }

  lemma {:induction false} LoopResultFrom(h: Handler, s: State, n: nat)
    requires n <= |s.returned| && !StoppedBy(s, n)
    ensures var (t, result) := Loop(h, s);
      && (result == OK || result == ERR) && t.core.status == result
      && (result == OK <==> (t.queues == [] && t.channels == []) || StoppedBy(t, n))
    decreases |s.core.inp.input|
  {
    hide Turn;
    if !(s.queues == [] && s.channels == []) {
      TurnShape(h, s);
      var (t, verdict) := Turn(h, s);
      if verdict == GO {
        LoopResultFrom(h, t, n);
      }
    }
  }

  /** The loop returns OK exactly when it ends with no subscription left, or when the last callback it made
      returned nonzero and left no queue subscription - whatever channel subscriptions there are; and the
      result is the status. */
  lemma LoopResult(h: Handler, s: State)
    ensures var (t, result) := Loop(h, s);
      && (result == OK || result == ERR) && t.core.status == result
      && (result == OK <==> (t.queues == [] && t.channels == []) || StoppedBy(t, |s.returned|))
  {
    hide Loop;
    LoopResultFrom(h, s, |s.returned|);
  }

  /** Channel subscriptions do not keep the loop going: it ends well with some of them left exactly when the
      last callback it made returned nonzero and left no queue subscription. */
  lemma EndsWithChannels(h: Handler, s: State)
    ensures var (t, result) := Loop(h, s);
      result == OK && t.channels != [] <==> t.channels != [] && StoppedBy(t, |s.returned|)
  {
    hide Loop;
    LoopResult(h, s);
  }

  /** One delivery of any event to any callback: it stops the loop exactly when the callback returned nonzero
      and left no queue subscription, whether the event was a queue's or a channel's. */
  lemma DeliveryStops(h: Handler, s: State, e: Event)
    requires ValidEvent(e) && Deliver(h, s, e).Some?
    ensures var (t, verdict) := Deliver(h, s, e).value;
      && t.returned != []
      && (verdict == STOP <==> t.returned[|t.returned| - 1] && t.queues == [])
  {
    hide Newest, Invoke, NameOf;
  }

  // ----- who is called -----

  /** A callback is the one given with the last live subscription of the name it is called for. */
  predicate NamesNewest(call: Invocation, history: seq<Command>) {
    LiveCallback(history, call.OnQueue?, call.name) == Some(call.callback)
  }

  lemma {:induction false} NamedHasName(subs: seq<Subscription>, name: CString)
    ensures Named(subs, name) != [] ==> NameOf(Named(subs, name)[0]) == name
  {
    hide NameOf;
    if subs != [] {
      NamedHasName(subs[1..], name);
    }
  }

  lemma NewestNames(s: State, name: CString)
    requires Tracks(s)
    ensures var found := Newest(s.queues, name); found.Some? ==>
      && NameOf(found.value) == name
      && forall msg :: NamesNewest(OnQueue(found.value.callback, name, msg), s.history)
    ensures var found := Newest(s.channels, name); found.Some? ==>
      && NameOf(found.value) == name
      && forall topic, pattern, data ::
        NamesNewest(OnChannel(found.value.callback, name, topic, pattern, data), s.history)
  {
    hide Named, LiveQueues, LiveChannels, LiveCallback, NameOf, Owned, AllWellFormed;
    NewestIsLive(s, name);
    LiveCallbackIsFirst(s.history, name);
    NamedHasName(s.queues, name);
    NamedHasName(s.channels, name);
  }

  lemma TakeReads(s: State, count: int)
    ensures var (t, data) := Take(s, count); data.Some? ==>
      && 0 <= count <= |s.core.inp.input| && data.value == s.core.inp.input[..count]
      && t.core.inp.input == s.core.inp.input[count..]
  {
    hide ReadExact;
  }

  /** What a step of the loop that started in s owes: if it made a callback, then one of the form and name given,
      to the newest live subscription. */
  ghost predicate NamesWell(s: State, r: (State, int), queue: bool, name: CString) {
    r.1 != BROKEN ==>
      && |r.0.log| == |s.log| + 1
      && var call := r.0.log[|s.log|]; call.OnQueue? == queue && call.name == name && NamesNewest(call, s.history)
  }

  lemma QueueNames(h: Handler, s: State, e: Header)
    requires Tracks(s)
    ensures var r := ProcessQueue(h, s, e); r.1 != BROKEN ==>
      |s.core.inp.input| >= 64 && NamesWell(s, r, true, CStr(s.core.inp.input[..64]))
  {
    hide Take, Tracks, CStr, Newest, ToInt32, NameOf, Invoke, NamesNewest, AllSucceeded;
    TracksSucceeded(s);
    TakeTracks(s, 64);
    TakeKeeps(s, 64);
    TakeReads(s, 64);
    var (t, name) := Take(s, 64);
    TakeKeeps(t, ToInt32((e.bodylen - 64) % WORD32));
    if name.Some? { NewestNames(t, CStr(name.value)); }
  }

  lemma MessageNames(h: Handler, s: State, name: bytes, topic: bytes, pattern: Option<bytes>, length: int)
    requires Tracks(s)
    ensures NamesWell(s, DeliverMessage(h, s, name, topic, pattern, length), false, CStr(name))
  {
    hide Take, Tracks, CStr, Newest, ToInt32, NameOf, Invoke, NamesNewest, AllSucceeded;
    TracksSucceeded(s);
    TakeKeeps(s, ToInt32(length % WORD32));
    NewestNames(s, CStr(name));
  }

  lemma ChannelNames(h: Handler, s: State, e: Header, extended: bool)
    requires Tracks(s)
    ensures var r := ProcessChannel(h, s, e, extended); r.1 != BROKEN ==>
      |s.core.inp.input| >= 64 && NamesWell(s, r, false, CStr(s.core.inp.input[..64]))
  {
    hide Take, Tracks, DeliverMessage, NamesNewest, AllSucceeded, CStr;
    TracksSucceeded(s);
    TakeTracks(s, 64); TakeKeeps(s, 64); TakeReads(s, 64);
    var (s1, name) := Take(s, 64);
    TakeTracks(s1, 32); TakeKeeps(s1, 32);
    var (s2, topic) := Take(s1, 32);
    TakeTracks(s2, 32); TakeKeeps(s2, 32);
    var (s3, pattern) := if extended then Take(s2, 32) else (s2, None);
    if name.Some? && topic.Some? {
      MessageNames(h, s3, name.value, topic.value, pattern, e.bodylen - (if extended then 128 else 96));
    }
  }

  /** The callback that a turn begun in a state owes: for the kind of event that its header announces and for the
      name in the 64 bytes after the header, made to the newest subscription of that name then live. */
  predicate Owes(s: State, call: Invocation) {
    var input := s.core.inp.input;
    && |input| >= HEADER_SIZE + 64
    && call.OnQueue? == (DecodeHeader(input[..HEADER_SIZE]).code == QUEUE_SUBSCRIBE)
    && call.name == CStr(input[HEADER_SIZE..HEADER_SIZE + 64])
    && NamesNewest(call, s.history)
  }

  /** A turn that makes a callback makes the one that it owes. */
  lemma TurnNames(h: Handler, s: State)
    requires Tracks(s)
    ensures AllSucceeded(s.history)
    ensures var (t, verdict) := Turn(h, s); verdict != BROKEN ==> |t.log| == |s.log| + 1 && Owes(s, t.log[|s.log|])
  {
    hide Take, Tracks, ProcessQueue, ProcessChannel, DecodeHeader, NamesNewest, AllSucceeded, CStr;
    TracksSucceeded(s);
    TakeTracks(s, HEADER_SIZE);
    TakeKeeps(s, HEADER_SIZE);
    TakeReads(s, HEADER_SIZE);
    var (t, data) := Take(s, HEADER_SIZE);
    if data.Some? {
      var e := DecodeHeader(data.value);
      QueueNames(h, t, e);
      ChannelNames(h, t, e, false);
      ChannelNames(h, t, e, true);
      NameBytes(s.core.inp.input);
    }
  }

  lemma NameBytes(input: bytes)
    ensures |input| >= HEADER_SIZE + 64 ==>
      input[HEADER_SIZE..][..64] == input[HEADER_SIZE..HEADER_SIZE + 64]
  {
  }

  lemma TracksSucceeded(s: State)
    requires Tracks(s)
    ensures AllSucceeded(s.history)
  {
  }

  /** The states in which a run of the loop began the turns that made a callback. */
  function Turns(h: Handler, s: State): seq<State>
    decreases |s.core.inp.input|
  {
    if s.queues == [] && s.channels == [] then []
    else
      var (t, verdict) := Turn(h, s);
      if verdict == BROKEN then []
      else if verdict == STOP then [s]
      else [s] + Turns(h, t)
  }

  /** A turn seen from a later state: its callback is the next one after those made before it, and it is the one
      that the turn owed, by the history as it was then. */
  ghost predicate Happened(turn: State, end: State) {
    && turn.log < end.log && turn.history <= end.history
    && AllSucceeded(turn.history) && Owes(turn, end.log[|turn.log|])
  }

  /** Every callback between two states was made by one of the turns given, in order. */
  ghost predicate AllHappened(s: State, turns: seq<State>, end: State) {
    && s.log <= end.log && s.history <= end.history && |end.log| == |s.log| + |turns|
    && forall k :: 0 <= k < |turns| ==> |turns[k].log| == |s.log| + k && Happened(turns[k], end)
  }

  lemma OneMore(s: State, t: State, more: seq<State>, end: State)
    requires AllHappened(t, more, end)
    requires s.log <= t.log && |t.log| == |s.log| + 1 && s.history <= t.history
    requires AllSucceeded(s.history) && Owes(s, t.log[|s.log|])
    ensures AllHappened(s, [s] + more, end)
  {
    hide Owes, AllSucceeded;
    assert s.log < end.log && end.log[|s.log|] == t.log[|s.log|];
    var turns := [s] + more;
    forall k | 0 <= k < |turns|
      ensures |turns[k].log| == |s.log| + k && Happened(turns[k], end)
    {
      if k > 0 { assert turns[k] == more[k - 1]; }
    }
  }

  /** Over any run of the event loop, on any input and with any callbacks: the callbacks made are, one for one and
      in order, those that its turns owed, each by the registrations as they were when its turn began. */
  lemma {:induction false} LoopNames(h: Handler, s: State)
    requires Tracks(s)
    ensures AllHappened(s, Turns(h, s), Loop(h, s).0)
    decreases |s.core.inp.input|
  {
    hide Turn, Tracks, AllSucceeded, Owes, AllHappened;
    var end := Loop(h, s).0;
    if s.queues == [] && s.channels == [] {
      NoTurn(s, end);
    } else {
      TurnShape(h, s);
      TurnNames(h, s);
      var (t, verdict) := Turn(h, s);
      if verdict == GO {
        TurnTracks(h, s);
        LoopNames(h, t);
        OneMore(s, t, Turns(h, t), end);
      } else if verdict == STOP {
        NoTurn(t, end);
        OneMore(s, t, [], end);
        assert [s] + [] == [s];
      } else {
        NoTurn(s, end);
      }
    }
  }

  lemma NoTurn(s: State, t: State)
    requires s.log == t.log && s.history <= t.history
    ensures AllHappened(s, [], t)
  {
  }

  /** Each of those turns begins where the one before it ended. */
  lemma {:induction false} TurnsFollow(h: Handler, s: State, k: nat)
    requires k < |Turns(h, s)|
    ensures Turns(h, s)[k] == if k == 0 then s else Turn(h, Turns(h, s)[k - 1]).0
    decreases k
  {
    hide Turn;
    if k > 1 {
      TurnsFollow(h, Turn(h, s).0, k - 1);
    }
  }
}
