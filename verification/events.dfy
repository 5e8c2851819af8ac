/** The event loop: reading framed events, delivering each to the newest subscription of its name,
    running a callback that may use the client again, and deciding whether to go on. */
module Events {
  import opened Bytes
  import opened Protocol
  import opened Packet
  import opened Network
  import opened Registry
  import opened Machine

  // ----- user callbacks -----

  /** What a callback does next. */
  datatype Action = Return(nonzero: bool) | Issue(call: Call)

  /** The user's callbacks. What a callback does next is any function of all the callbacks made so far, the last
      of them itself, and of all the calls made so far with all they returned. Every callback returns: it
      says at its start how many calls it makes at most, and returns zero if it would make more. */
  datatype Handler = Handler(next: (seq<Invocation>, seq<Made>) -> Action,
                             limit: (seq<Invocation>, seq<Made>) -> nat)

  function RunCallback(h: Handler, s: State, limit: nat): (r: (State, bool))
    ensures |r.0.core.inp.input| <= |s.core.inp.input|
    ensures r.0.log == s.log && r.0.returned == s.returned && s.history <= r.0.history
    decreases limit
  {
    match h.next(s.log, s.calls)
    case Return(nonzero) => (s, nonzero)
    case Issue(call) => if limit == 0 then (s, false) else RunCallback(h, Execute(s, call).0, limit - 1)
  }

  function Invoke(h: Handler, s: State, call: Invocation): (r: (State, bool))
    ensures |r.0.core.inp.input| <= |s.core.inp.input|
    ensures r.0.log == s.log + [call] && r.0.returned == s.returned + [r.1] && s.history <= r.0.history
  {
    var s := s.(log := s.log + [call]);
    var (t, nonzero) := RunCallback(h, s, h.limit(s.log, s.calls));
    (t.(returned := t.returned + [nonzero]), nonzero)
  }

  // ----- emq_queue_process, emq_channel_process, emq_process -----

  function Take(s: State, count: int): (r: (State, Option<bytes>))
    ensures r.1.Some? ==> count >= 0 && |r.1.value| == count && |r.0.core.inp.input| + count == |s.core.inp.input|
    ensures |r.0.core.inp.input| <= |s.core.inp.input|
    ensures r.0.log == s.log
  {
    var (inp, data) := ReadExact(s.core.inp, count);
    (s.(core := s.core.(inp := inp, error := if data.None? then ERROR_READ else s.core.error)), data)
  }

  const GO := 0
  const STOP := 1
  const BROKEN := -1

  /** Zero to go on, 1 when the callback returned nonzero and no queue subscription is left. */
  function Verdict(s: State, nonzero: bool): int {
    if nonzero && s.queues == [] then STOP else GO
  }

  function ProcessQueue(h: Handler, s: State, e: Header): (r: (State, int))
    ensures |r.0.core.inp.input| <= |s.core.inp.input|
    ensures r.1 != BROKEN ==> |r.0.core.inp.input| + 64 <= |s.core.inp.input|
  {
    var (s, name) := Take(s, 64);
    if name.None? then (s, BROKEN)
    else
      match Newest(s.queues, CStr(name.value))
      case None => (s, BROKEN)
      case Some(record) =>
        var (s, msg) := if e.aux == MESSAGE then Take(s, ToInt32((e.bodylen - 64) % WORD32)) else (s, None);
        if e.aux == MESSAGE && msg.None? then (s, BROKEN)
        else
          var (s, nonzero) := Invoke(h, s, OnQueue(record.callback, NameOf(record), msg));
          (s, Verdict(s, nonzero))
  }

  function ProcessChannel(h: Handler, s: State, e: Header, extended: bool): (r: (State, int))
    ensures |r.0.core.inp.input| <= |s.core.inp.input|
    ensures r.1 != BROKEN ==> |r.0.core.inp.input| + 96 <= |s.core.inp.input|
  {
    var (s, name) := Take(s, 64);
    if name.None? then (s, BROKEN)
    else
      var (s, topic) := Take(s, 32);
      if topic.None? then (s, BROKEN)
      else
        var (s, pattern) := if extended then Take(s, 32) else (s, None);
        if extended && pattern.None? then (s, BROKEN)
        else DeliverMessage(h, s, name.value, topic.value, pattern, e.bodylen - (if extended then 128 else 96))
  }

  /** The rest of emq_channel_process: the lookup by name alone, the message, and the callback. */
  function DeliverMessage(h: Handler, s: State, name: bytes, topic: bytes, pattern: Option<bytes>, length: int)
    : (r: (State, int))
    ensures |r.0.core.inp.input| <= |s.core.inp.input|
  {
    match Newest(s.channels, CStr(name))
    case None => (s, BROKEN)
    case Some(record) =>
      var (s, msg) := Take(s, ToInt32(length % WORD32));
      if msg.None? then (s, BROKEN)
      else
        var (s, nonzero) := Invoke(h, s, OnChannel(record.callback, NameOf(record), topic, pattern, msg.value));
        (s, Verdict(s, nonzero))
  }

  /** One turn of the loop: an event header is read and checked, and the event processed. */
  function Turn(h: Handler, s: State): (r: (State, int))
    ensures |r.0.core.inp.input| <= |s.core.inp.input|
    ensures r.1 != BROKEN ==> |r.0.core.inp.input| + 72 <= |s.core.inp.input|
  {
    var (s, data) := Take(s, HEADER_SIZE);
    if data.None? then (s, BROKEN)
    else
      var e := DecodeHeader(data.value);
      if !EventMatches(e, NOTIFY, MESSAGE) then (s.(core := s.core.(error := ERROR_READ)), BROKEN)
      else if e.code == QUEUE_SUBSCRIBE then ProcessQueue(h, s, e)
      else if e.code == CHANNEL_SUBSCRIBE then ProcessChannel(h, s, e, false)
      else if e.code == CHANNEL_PSUBSCRIBE then ProcessChannel(h, s, e, true)
      else (s.(core := s.core.(error := ERROR_READ)), BROKEN)
  }

  function WithStatus(s: State, status: int): State {
    s.(core := s.core.(status := status))
  }

  /** The loop of emq_process. Every turn that goes on has consumed at least 72 bytes, so it ends. */
  function Loop(h: Handler, s: State): (r: (State, int))
    decreases |s.core.inp.input|
  {
    if s.queues == [] && s.channels == [] then (WithStatus(s, OK), OK)
    else
      var (t, verdict) := Turn(h, s);
      if verdict == GO then Loop(h, t)
      else if verdict == STOP then (WithStatus(t, OK), OK)
      else (WithStatus(t, ERR), ERR)
  }

  function Cleared(s: State): State {
    s.(core := s.core.(error := NO_ERROR))
  }

  function Process(h: Handler, s: State): (State, int) {
    Loop(h, Cleared(s))
  }

  // ----- events without bytes -----

  /** The events a server sends. */
  datatype Event =
    | QueueEvent(name: CString, msg: Option<bytes>)
    | ChannelEvent(name: CString, topic: CString, pattern: Option<CString>, data: bytes)

  /** Names and topics fit their arrays, and no message is larger than the documented maximum. */
  predicate ValidEvent(e: Event) {
    match e
    case QueueEvent(name, msg) => |name| < 64 && (msg.Some? ==> |msg.value| < SIGN32)
    case ChannelEvent(name, topic, pattern, data) =>
      |name| < 64 && |topic| < 32 && (pattern.Some? ==> |pattern.value| < 32) && |data| < SIGN32
  }

  predicate AllValidEvents(es: seq<Event>) {
    forall i :: 0 <= i < |es| ==> ValidEvent(es[i])
  }

  /** The fixed part of an event's body: everything before the message. */
  function Preamble(e: Event): (b: bytes)
    requires ValidEvent(e)
    ensures |b| == if e.QueueEvent? then 64 else if e.pattern.None? then 96 else 128
  {
    match e
    case QueueEvent(name, _) => Pad(name, 64)
    case ChannelEvent(name, topic, pattern, _) =>
      Pad(name, 64) + Pad(topic, 32) + if pattern.Some? then Pad(pattern.value, 32) else []
  }

  function MessageOf(e: Event): bytes {
    match e
    case QueueEvent(_, msg) => if msg.Some? then msg.value else []
    case ChannelEvent(_, _, _, data) => data
  }

  function HeaderOf(e: Event): Header
    requires ValidEvent(e)
  {
    var code := if e.QueueEvent? then QUEUE_SUBSCRIBE
                else if e.pattern.None? then CHANNEL_SUBSCRIBE else CHANNEL_PSUBSCRIBE;
    Header(EVENT, code, if e.QueueEvent? && e.msg.None? then NOTIFY else MESSAGE, |Preamble(e)| + |MessageOf(e)|)
  }

  function EncodeEvent(e: Event): bytes
    requires ValidEvent(e)
  {
    EncodeHeader(HeaderOf(e)) + Preamble(e) + MessageOf(e)
  }

  function EncodeEvents(es: seq<Event>): bytes
    requires AllValidEvents(es)
  {
    if es == [] then [] else EncodeEvent(es[0]) + EncodeEvents(es[1..])
  }

  /** Delivery of one event; None when no subscription has its name. */
  function Deliver(h: Handler, s: State, e: Event): (r: Option<(State, int)>)
    requires ValidEvent(e)
    ensures r.Some? ==> r.value.1 == GO || r.value.1 == STOP
  {
    match Newest(if e.QueueEvent? then s.queues else s.channels, e.name)
    case None => None
    case Some(record) =>
      var call := match e
        case QueueEvent(_, msg) => OnQueue(record.callback, NameOf(record), msg)
        case ChannelEvent(_, topic, pattern, data) =>
          OnChannel(record.callback, NameOf(record), Pad(topic, 32),
                    if pattern.Some? then Some(Pad(pattern.value, 32)) else None, data);
      var (t, nonzero) := Invoke(h, s, call);
      Some((t, Verdict(t, nonzero)))
  }

  /** Where a run over events stands: the client, its result once it has one, the bytes of an event it
      broke off in, and the events it has not begun. */
  datatype Run = Run(state: State, result: Option<int>, unread: bytes, rest: seq<Event>)

  /** The event loop over a list of events, with neither bytes nor reads. */
  function Dispatch(h: Handler, s: State, es: seq<Event>): Run
    requires AllValidEvents(es)
    decreases |es|
  {
    if s.queues == [] && s.channels == [] then Run(WithStatus(s, OK), Some(OK), [], es)
    else if es == [] then Run(s, None, [], [])
    else
      match Deliver(h, s, es[0])
      case None => Run(WithStatus(s, ERR), Some(ERR), MessageOf(es[0]), es[1..])
      case Some((t, verdict)) =>
        if verdict == STOP then Run(WithStatus(t, OK), Some(OK), [], es[1..]) else Dispatch(h, t, es[1..])
  }

  // ----- callbacks that keep to noack mode -----

  /** A callback that from here on issues commands only, and all in noack mode. */
  predicate Quiet(h: Handler, s: State, limit: nat)
    decreases limit
  {
    match h.next(s.log, s.calls)
    case Return(_) => true
    case Issue(call) =>
      limit == 0 || (call.Do? && (call.cmd.SetNoack? || s.core.noack) && Quiet(h, Execute(s, call).0, limit - 1))
  }

  /** The callback that is last in a log, made in a given state. */
  predicate QuietCall(h: Handler, s: State, log: seq<Invocation>) {
    Quiet(h, s.(log := log), h.limit(log, s.calls))
  }

  /** Every callback made in a run over events issues its commands in noack mode. */
  predicate QuietRun(h: Handler, s: State, es: seq<Event>)
    requires AllValidEvents(es)
    decreases |es|
  {
    if (s.queues == [] && s.channels == []) || es == [] then true
    else
      match Deliver(h, s, es[0])
      case None => true
      case Some((t, verdict)) =>
        QuietCall(h, s, t.log) && (verdict == STOP || QuietRun(h, t, es[1..]))
  }

  function WithInput(s: State, input: bytes): State {
    s.(core := s.core.(inp := Inbound(input, [])))
  }

  /** A noack command neither reads the input nor depends on it. */
  lemma QuietCommand(s: State, cmd: Command, input: bytes)
    requires s.core.noack || cmd.SetNoack?
    ensures Perform(WithInput(s, input), cmd) == (WithInput(Perform(s, cmd).0, input), Perform(s, cmd).1)
    ensures Perform(s, cmd).0.core.noack == if cmd.SetNoack? then cmd.on else true
  {
    hide WriteAll, WriteGathered, Frame, RequestOf, PayloadOf, ReplyCode, QueuesAfter, ChannelsAfter;
  }

  lemma {:induction false} QuietCallback(h: Handler, s: State, limit: nat, input: bytes)
    requires Quiet(h, s, limit)
    ensures RunCallback(h, WithInput(s, input), limit)
         == (WithInput(RunCallback(h, s, limit).0, input), RunCallback(h, s, limit).1)
    decreases limit
  {
    hide Perform;
    match h.next(s.log, s.calls) {
      case Return(_) =>
      case Issue(call) =>
        if limit > 0 {
          QuietCommand(s, call.cmd, input);
          QuietCallback(h, Execute(s, call).0, limit - 1, input);
        }
    }
  }
}
