/** The client as a state machine over an inbound byte stream and an outbound byte log: what every
    command and query does to it, one step of the source at a time. */
module Machine {
  import opened Bytes
  import opened Protocol
  import opened Packet
  import opened Network
  import opened Registry
  import opened Records
  import Lists

  const OK := 0
  const ERR := -1

  /** The client without its registries. The frame is the part of the request buffer in use. */
  datatype Core = Core(status: int, error: ErrorIndex, frame: bytes, noack: bool, inp: Inbound, out: Outbound)

  // ----- the steps that all calls share -----

  function Fail(c: Core, e: ErrorIndex): Core {
    c.(error := e, status := ERR)
  }

  function Finish(c: Core): Core {
    c.(status := OK)
  }

  /** Clear the error, build the request, and write it: alone, or gathered with a payload. */
  function Submit(c: Core, code: byte, args: seq<Value>, payload: Option<bytes>): (r: (Core, bool))
    requires Accepts(code, args)
    ensures r.1 ==> Buildable(code, args)
    ensures r.0.inp == c.inp && r.0.noack == c.noack
  {
    var c := c.(error := NO_ERROR);
    if !Buildable(code, args) then (Fail(c, ERROR_DATA), false)
    else
      var extra := if payload.Some? then |payload.value| else 0;
      var c := c.(frame := Frame(code, c.noack, args, extra));
      var (out, n) :=
        if payload.Some? then WriteGathered(c.out, c.frame + payload.value) else WriteAll(c.out, c.frame);
      var c := c.(out := out);
      if n == -1 then (Fail(c, ERROR_WRITE), false) else (c, true)
  }

  /** The checks of a reply header: magic, command and - unless left open - length, then the status. */
  function HeaderError(h: Header, code: byte, bodylen: Option<nat>): Option<ErrorIndex> {
    if !(if bodylen.Some? then ResponseMatches(h, code, bodylen.value) else ResponseMatchesMini(h, code)) then
      Some(ERROR_RESPONSE)
    else if h.aux != SUCCESS then Some(ErrorOf(h.aux))
    else None
  }

  /** Read a reply header and check it. */
  function Receive(c: Core, code: byte, bodylen: Option<nat>): (r: (Core, Option<Header>))
    ensures |r.0.inp.input| <= |c.inp.input|
    ensures r.1.Some? ==> r.1.value.bodylen < WORD32
  {
    var (inp, data) := ReadExact(c.inp, HEADER_SIZE);
    var c := c.(inp := inp);
    if data.None? then (Fail(c, ERROR_READ), None)
    else
      var h := DecodeHeader(data.value);
      match HeaderError(h, code, bodylen)
      case Some(e) => (Fail(c, e), None)
      case None => (c, Some(h))
  }

  /** A request whose reply, if the client is in acknowledged mode, is a header without a body. */
  function Exchange(c: Core, code: byte, args: seq<Value>, payload: Option<bytes>, reply: byte,
                    bodylen: Option<nat>): (r: (Core, bool))
    requires Accepts(code, args)
    ensures r.1 ==> Buildable(code, args)
    ensures |r.0.inp.input| <= |c.inp.input| && r.0.noack == c.noack
  {
    var (c, sent) := Submit(c, code, args, payload);
    if !sent then (c, false)
    else if c.noack then (Finish(c), true)
    else
      var (c, h) := Receive(c, reply, bodylen);
      if h.None? then (c, false) else (Finish(c), true)
  }

  // ----- commands: calls that return a status -----

  datatype RawCommand =
    | Plain(code: byte, args: seq<Value>)
    | Push(code: byte, args: seq<Value>, expire: Option<nat>, data: bytes)
    | SubscribeQueue(name: CString, flags: nat, callback: Option<Callback>)
    | SubscribeChannel(pattern: bool, name: CString, topic: CString, callback: Option<Callback>)
    | UnsubscribeQueue(name: CString)
    | UnsubscribeChannel(pattern: bool, name: CString, topic: CString)
    | SetNoack(on: bool)

  /** The commands that only exchange a request for a status. */
  predicate PlainCode(code: byte) {
    || code == AUTH || code == PING || code == SAVE || code == FLUSH
    || code == USER_CREATE || code == USER_RENAME || code == USER_SET_PERM || code == USER_DELETE
    || code == QUEUE_CREATE || code == QUEUE_DECLARE || code == QUEUE_RENAME || code == QUEUE_CONFIRM
    || code == QUEUE_PURGE || code == QUEUE_DELETE
    || code == ROUTE_CREATE || code == ROUTE_RENAME || code == ROUTE_BIND || code == ROUTE_UNBIND
    || code == ROUTE_DELETE
    || code == CHANNEL_CREATE || code == CHANNEL_RENAME || code == CHANNEL_DELETE
  }

  /** The C types of the parameters: strings are terminated, integers unsigned of their width. */
  predicate Legal(c: RawCommand) {
    match c
    case Plain(code, args) => PlainCode(code) && Accepts(code, args)
    case Push(code, args, expire, _) =>
      && HasPayload(code) && Accepts(code, args)
      && (expire.Some? <==> code != CHANNEL_PUBLISH) && (expire.Some? ==> expire.value < Pow256(4))
    case SubscribeQueue(_, flags, _) => flags < Pow256(4)
    case _ => true
  }

  type Command = c: RawCommand | Legal(c) witness SetNoack(false)

  /** The request a command sends: its code and arguments. */
  function RequestOf(c: Command): (r: (byte, seq<Value>))
    requires !c.SetNoack?
    ensures Accepts(r.0, r.1)
  {
    match c
    case Plain(code, args) => (code, args)
    case Push(code, args, _, _) => (code, args)
    case SubscribeQueue(name, flags, _) => (QUEUE_SUBSCRIBE, [Text(name), Int(flags)])
    case SubscribeChannel(pattern, name, topic, _) =>
      (if pattern then CHANNEL_PSUBSCRIBE else CHANNEL_SUBSCRIBE, [Text(name), Text(topic)])
    case UnsubscribeQueue(name) => (QUEUE_UNSUBSCRIBE, [Text(name)])
    case UnsubscribeChannel(pattern, name, topic) =>
      (if pattern then CHANNEL_PUNSUBSCRIBE else CHANNEL_UNSUBSCRIBE, [Text(name), Text(topic)])
  }

  /** What is gathered behind the frame of a push or publish: the expiration time, if any, and the data. */
  function PayloadOf(c: Command): Option<bytes> {
    match c
    case Push(_, _, expire, data) => Some((if expire.Some? then LE(expire.value, 4) else []) + data)
    case _ => None
  }

  /** The code the reply is checked against: the request's own, except that a pattern unsubscribe
      looks for the code of a plain channel unsubscribe. */
  function ReplyCode(c: Command): byte
    requires !c.SetNoack?
  {
    if c.UnsubscribeChannel? then CHANNEL_UNSUBSCRIBE else RequestOf(c).0
  }

  /** Arguments refused before a request is built: an empty message, a null callback. */
  predicate Refused(c: Command) {
    match c
    case Push(_, _, _, data) => |data| < 1
    case SubscribeQueue(_, _, callback) => callback.None?
    case SubscribeChannel(_, _, _, callback) => callback.None?
    case _ => false
  }

  /** The whole of a command except what it does to the registries. */
  function Converse(c: Core, cmd: Command): (r: (Core, bool))
    ensures r.1 && !cmd.SetNoack? ==> Buildable(RequestOf(cmd).0, RequestOf(cmd).1)
    ensures |r.0.inp.input| <= |c.inp.input|
  {
    if cmd.SetNoack? then (c.(noack := cmd.on), true)
    else if Refused(cmd) then (Fail(c, ERROR_DATA), false)
    else
      var (code, args) := RequestOf(cmd);
      var bodylen := if cmd.Plain? && code == QUEUE_CONFIRM then None else Some(0);
      Exchange(c, code, args, PayloadOf(cmd), ReplyCode(cmd), bodylen)
  }

  /** The client with its registries, the records its free handlers were given, the callbacks it has made
      and whether each returned nonzero, the calls made on it, and the commands that succeeded. */
  datatype State = State(core: Core, queues: seq<Subscription>, channels: seq<Subscription>,
                         freedQueues: seq<Subscription>, freedChannels: seq<Subscription>,
                         log: seq<Invocation>, returned: seq<bool>, calls: seq<Made>,
                         history: seq<Command>)

  /** One call of a user callback. */
  datatype Invocation =
    | OnQueue(callback: Callback, name: CString, msg: Option<bytes>)
    | OnChannel(callback: Callback, name: CString, topic: bytes, pattern: Option<bytes>, data: bytes)

  function QueuesAfter(queues: seq<Subscription>, cmd: Command): seq<Subscription>
    requires !cmd.SetNoack? ==> Buildable(RequestOf(cmd).0, RequestOf(cmd).1)
    requires !Refused(cmd)
  {
    match cmd
    case SubscribeQueue(name, flags, callback) =>
      NameFits(cmd);
      [QueueRecord(name, callback.value)] + queues
    case UnsubscribeQueue(name) => Without(queues, name)
    case _ => queues
  }

  function ChannelsAfter(channels: seq<Subscription>, cmd: Command): seq<Subscription>
    requires !cmd.SetNoack? ==> Buildable(RequestOf(cmd).0, RequestOf(cmd).1)
    requires !Refused(cmd)
  {
    match cmd
    case SubscribeChannel(_, name, topic, callback) =>
      NameFits(cmd);
      [ChannelRecord(name, topic, callback.value)] + channels
    case UnsubscribeChannel(_, name, _) => Without(channels, name)
    case _ => channels
  }

  function QueuesFreed(queues: seq<Subscription>, cmd: Command): seq<Subscription> {
    if cmd.UnsubscribeQueue? then Named(queues, cmd.name) else []
  }

  function ChannelsFreed(channels: seq<Subscription>, cmd: Command): seq<Subscription> {
    if cmd.UnsubscribeChannel? then Named(channels, cmd.name) else []
  }

  lemma NameFits(cmd: Command)
    requires cmd.SubscribeQueue? || cmd.SubscribeChannel? || cmd.UnsubscribeQueue? || cmd.UnsubscribeChannel?
    requires Buildable(RequestOf(cmd).0, RequestOf(cmd).1)
    ensures |cmd.name| < 64
    ensures cmd.SubscribeChannel? || cmd.UnsubscribeChannel? ==> |cmd.topic| < 32
  {
    var (code, args) := RequestOf(cmd);
    assert LayoutOf(code).value[0] == Str(64) && args[0] == Text(cmd.name);
    if cmd.SubscribeChannel? || cmd.UnsubscribeChannel? {
      assert LayoutOf(code).value[1] == Str(32) && args[1] == Text(cmd.topic);
    }
  }

  /** A whole command: a registry changes only when the exchange has succeeded. */
  function Perform(s: State, cmd: Command): (r: (State, bool))
    ensures |r.0.core.inp.input| <= |s.core.inp.input|
    ensures r.0.log == s.log && r.0.returned == s.returned && r.0.calls == s.calls && s.history <= r.0.history
  {
    var (core, ok) := Converse(s.core, cmd);
    if !ok then (s.(core := core), false)
    else
      (State(core, QueuesAfter(s.queues, cmd), ChannelsAfter(s.channels, cmd),
             s.freedQueues + QueuesFreed(s.queues, cmd), s.freedChannels + ChannelsFreed(s.channels, cmd),
             s.log, s.returned, s.calls, s.history + [cmd]), true)
  }

  // ----- queries: calls that return data, in either mode -----

  datatype RawQuery =
    | Stat
    | Number(code: byte, args: seq<Value>)
    | Listing(kind: Kind, args: seq<Value>)
    | Fetch(code: byte, args: seq<Value>)

  function ListCode(kind: Kind): byte {
    match kind
    case Users => USER_LIST
    case Queues => QUEUE_LIST
    case Routes => ROUTE_LIST
    case RouteKeys => ROUTE_KEYS
    case Channels => CHANNEL_LIST
  }

  function QueryOf(q: RawQuery): (byte, seq<Value>) {
    match q
    case Stat => (STAT, [])
    case Number(code, args) => (code, args)
    case Listing(kind, args) => (ListCode(kind), args)
    case Fetch(code, args) => (code, args)
  }

  predicate LegalQuery(q: RawQuery) {
    && Accepts(QueryOf(q).0, QueryOf(q).1)
    && (q.Number? ==> q.code == QUEUE_EXIST || q.code == QUEUE_SIZE || q.code == ROUTE_EXIST || q.code == CHANNEL_EXIST)
    && (q.Fetch? ==> q.code == QUEUE_GET || q.code == QUEUE_POP)
  }

  type Query = q: RawQuery | LegalQuery(q) witness Stat

  const STAT_QUERY: Query := Stat

  /** What a query hands to its caller; Undefined where the source reads past a buffer or
      dereferences a null message. */
  datatype Answer =
    | Failed
    | Stats(body: bytes)
    | Value(n: nat)
    | Listed(records: seq<Record>)
    | Message(tag: nat, data: bytes)
    | Undefined

  const STAT_SIZE: nat := 55

  function Inquire(c: Core, q: Query): (r: (Core, Answer))
    ensures |r.0.inp.input| <= |c.inp.input|
  {
    var (code, args) := QueryOf(q);
    var (c, sent) := Submit(c, code, args, None);
    if !sent then (c, Failed)
    else
      match q
      case Stat => ReceiveStat(c)
      case Number(_, _) =>
        var (c, h) := Receive(c, code, Some(4));
        if h.None? then (c, Failed) else ReceiveNumber(c)
      case Listing(kind, _) =>
        var (c, h) := Receive(c, code, None);
        if h.None? then (c, Failed) else ReceiveList(c, kind, h.value.bodylen)
      case Fetch(_, _) =>
        var (c, h) := Receive(c, code, None);
        if h.None? then (c, Failed) else ReceiveTagged(c, h.value.bodylen)
  }

  /** The status query reads header and body at once and checks them afterwards. */
  function ReceiveStat(c: Core): (r: (Core, Answer))
    ensures |r.0.inp.input| <= |c.inp.input|
  {
    var (inp, data) := ReadExact(c.inp, HEADER_SIZE + STAT_SIZE);
    var c := c.(inp := inp);
    if data.None? then (Fail(c, ERROR_READ), Failed)
    else
      match HeaderError(DecodeHeader(data.value[..HEADER_SIZE]), STAT, Some(STAT_SIZE))
      case Some(e) => (Fail(c, e), Failed)
      case None => (Finish(c), Stats(data.value[HEADER_SIZE..]))
  }

  function ReceiveNumber(c: Core): (r: (Core, Answer))
    ensures |r.0.inp.input| <= |c.inp.input|
  {
    var (inp, data) := ReadExact(c.inp, 4);
    var c := c.(inp := inp);
    if data.None? then (Fail(c, ERROR_READ), Failed) else (Finish(c), Value(FromLE(data.value)))
  }

  function ReceiveList(c: Core, kind: Kind, bodylen: nat): (r: (Core, Answer))
    ensures |r.0.inp.input| <= |c.inp.input|
  {
    var (inp, data) := ReadExact(c.inp, ToInt32(bodylen));
    var c := c.(inp := inp);
    if data.None? then (Fail(c, ERROR_READ), Failed)
    else if bodylen % RecordSize(kind) != 0 then (c, Undefined)
    else (Finish(c), Listed(Lists.Reverse(DecodeRecords(kind, data.value))))
  }

  /** emq_read_message: the size is what an unsigned subtraction left, and the read takes it as an int. */
  function ReadMessage(c: Core, size: nat): (r: (Core, Option<bytes>))
    ensures |r.0.inp.input| <= |c.inp.input|
  {
    var (inp, data) := ReadExact(c.inp, ToInt32(size));
    var c := c.(inp := inp);
    if data.None? then (c.(error := ERROR_READ), None) else (c, data)
  }

  /** emq_read_message_tag: a tag, then a message of the remaining bytes. A missing tag fails without
      an error text; a missing message, or a body too short for the tag, is dereferenced all the same. */
  function ReceiveTagged(c: Core, bodylen: nat): (r: (Core, Answer))
    ensures |r.0.inp.input| <= |c.inp.input|
  {
    var (inp, tag) := ReadExact(c.inp, 8);
    var c := c.(inp := inp);
    if tag.None? then (c.(status := ERR), Failed)
    else if bodylen < 8 then (c, Undefined)
    else
      var (c, msg) := ReadMessage(c, bodylen - 8);
      if msg.None? then (c, Undefined) else (Finish(c), Message(FromLE(tag.value), msg.value))
  }

  /** What the functions answered by one number return: the number as an int, or on failure -1 for a queue's
      size and 0 for an existence test. */
  function ReturnValue(code: byte, answer: Answer): int {
    match answer
    case Value(n) => ToInt32(n)
    case _ => if code == QUEUE_SIZE then -1 else 0
  }

  // ----- calls of either kind -----

  datatype Call = Do(cmd: Command) | Ask(q: Query)

  /** What a call returns, and the error it leaves; a switch of the noack mode returns nothing. */
  datatype Result = Switched | Status(ok: bool, error: ErrorIndex) | Data(answer: Answer, error: ErrorIndex)

  /** A call that was made, the mode it was made in, and what it returned. */
  datatype Made = Made(call: Call, noack: bool, result: Result)

  function Attempt(s: State, call: Call): (r: (State, Result))
    ensures |r.0.core.inp.input| <= |s.core.inp.input|
    ensures r.0.log == s.log && r.0.returned == s.returned && r.0.calls == s.calls && s.history <= r.0.history
  {
    match call
    case Do(cmd) =>
      var (t, ok) := Perform(s, cmd);
      (t, if cmd.SetNoack? then Switched else Status(ok, t.core.error))
    case Ask(q) =>
      var (core, answer) := Inquire(s.core, q);
      (s.(core := core), Data(answer, core.error))
  }

  /** A call of either kind, entered in the record of calls. */
  function Execute(s: State, call: Call): (r: (State, Result))
    ensures |r.0.core.inp.input| <= |s.core.inp.input|
    ensures r.0.log == s.log && r.0.returned == s.returned && s.history <= r.0.history
    ensures r.0.calls == s.calls + [Made(call, s.core.noack, r.1)]
  {
    var (t, result) := Attempt(s, call);
    (t.(calls := s.calls + [Made(call, s.core.noack, result)]), result)
  }
}
