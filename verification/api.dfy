/** The functions of the library with their C parameters, and for each, in literal bytes, what it writes, what
    replies it accepts, what it returns and what it registers. */
module Api {
  import opened Bytes
  import opened Formats
  import opened Protocol
  import opened Packet
  import opened Network
  import opened Registry
  import opened Records
  import opened Machine
  import opened History
  import opened Alignment
  import opened Wire
  import Lists

  type uint8 = n: nat | n < 0x100
  type uint32 = n: nat | n < 0x1_0000_0000
  type uint64 = n: nat | n < 0x1_0000_0000_0000_0000

  datatype Function =
    | Auth(name: CString, password: CString)
    | Ping
    | ServerStat
    | Save(async: uint8)
    | Flush(flags: uint32)
    | UserCreate(name: CString, password: CString, perm: uint64)
    | UserList
    | UserRename(from: CString, to: CString)
    | UserSetPerm(name: CString, perm: uint64)
    | UserDelete(name: CString)
    | QueueCreate(name: CString, maxMsg: uint32, maxMsgSize: uint32, flags: uint32)
    | QueueDeclare(name: CString)
    | QueueExist(name: CString)
    | QueueList
    | QueueRename(from: CString, to: CString)
    | QueueSize(name: CString)
    | QueuePush(name: CString, expire: uint32, data: bytes)
    | QueueGet(name: CString)
    | QueuePop(name: CString, timeout: uint32)
    | QueueConfirm(name: CString, tag: uint64)
    | QueueSubscribe(name: CString, flags: uint32, callback: Option<Callback>)
    | QueueUnsubscribe(name: CString)
    | QueuePurge(name: CString)
    | QueueDelete(name: CString)
    | RouteCreate(name: CString, flags: uint32)
    | RouteExist(name: CString)
    | RouteList
    | KeysOfRoute(name: CString)
    | RouteRename(from: CString, to: CString)
    | RouteBind(name: CString, queue: CString, key: CString)
    | RouteUnbind(name: CString, queue: CString, key: CString)
    | RoutePush(name: CString, key: CString, expire: uint32, data: bytes)
    | RouteDelete(name: CString)
    | ChannelCreate(name: CString, flags: uint32)
    | ChannelExist(name: CString)
    | ChannelList
    | ChannelRename(from: CString, to: CString)
    | ChannelPublish(name: CString, topic: CString, data: bytes)
    | ChannelSubscribe(name: CString, topic: CString, callback: Option<Callback>)
    | ChannelPsubscribe(name: CString, topic: CString, callback: Option<Callback>)
    | ChannelUnsubscribe(name: CString, topic: CString)
    | ChannelPunsubscribe(name: CString, topic: CString)
    | ChannelDelete(name: CString)
    | NoackEnable
    | NoackDisable

  // ----- what a function writes -----

  /** A member of a packed body with its value: a string in an array, or an integer of so many bytes. */
  datatype Param = S(s: CString, width: nat) | N(n: nat, width: nat)

  predicate InRange(p: Param) {
    p.N? ==>
      && (p.width == 1 || p.width == 4 || p.width == 8)
      && (p.width == 1 ==> p.n < 0x100)
      && (p.width == 4 ==> p.n < 0x1_0000_0000)
      && (p.width == 8 ==> p.n < 0x1_0000_0000_0000_0000)
  }

  predicate AllInRange(ps: seq<Param>) {
    forall i :: 0 <= i < |ps| ==> InRange(ps[i])
  }

  /** A request as its struct has it: the code, the members of the body, and what is gathered behind it. */
  datatype Row = Row(code: byte, params: seq<Param>, payload: bytes)

  predicate Switch(f: Function) {
    f.NoackEnable? || f.NoackDisable?
  }

  /** The table of all requests. */
  function RowOf(f: Function): (r: Row)
    requires !Switch(f)
    ensures AllInRange(r.params)
  {
    match f
    case Auth(name, password) => Row(0x0A, [S(name, 32), S(password, 32)], [])
    case Ping => Row(0x0B, [], [])
    case ServerStat => Row(0x0C, [], [])
    case Save(async) => Row(0x0D, [N(async, 1)], [])
    case Flush(flags) => Row(0x0E, [N(flags, 4)], [])
    case UserCreate(name, password, perm) => Row(0x1E, [S(name, 32), S(password, 32), N(perm, 8)], [])
    case UserList => Row(0x1F, [], [])
    case UserRename(from, to) => Row(0x20, [S(from, 32), S(to, 32)], [])
    case UserSetPerm(name, perm) => Row(0x21, [S(name, 32), N(perm, 8)], [])
    case UserDelete(name) => Row(0x22, [S(name, 32)], [])
    case QueueCreate(name, maxMsg, maxMsgSize, flags) =>
      Row(0x23, [S(name, 64), N(maxMsg, 4), N(maxMsgSize, 4), N(flags, 4)], [])
    case QueueDeclare(name) => Row(0x24, [S(name, 64)], [])
    case QueueExist(name) => Row(0x25, [S(name, 64)], [])
    case QueueList => Row(0x26, [], [])
    case QueueRename(from, to) => Row(0x27, [S(from, 64), S(to, 64)], [])
    case QueueSize(name) => Row(0x28, [S(name, 64)], [])
    case QueuePush(name, expire, data) => Row(0x29, [S(name, 64)], Bytes4(expire) + data)
    case QueueGet(name) => Row(0x2A, [S(name, 64)], [])
    case QueuePop(name, timeout) => Row(0x2B, [S(name, 64), N(timeout, 4)], [])
    case QueueConfirm(name, tag) => Row(0x2C, [S(name, 64), N(tag, 8)], [])
    case QueueSubscribe(name, flags, _) => Row(0x2D, [S(name, 64), N(flags, 4)], [])
    case QueueUnsubscribe(name) => Row(0x2E, [S(name, 64)], [])
    case QueuePurge(name) => Row(0x2F, [S(name, 64)], [])
    case QueueDelete(name) => Row(0x30, [S(name, 64)], [])
    case RouteCreate(name, flags) => Row(0x31, [S(name, 64), N(flags, 4)], [])
    case RouteExist(name) => Row(0x32, [S(name, 64)], [])
    case RouteList => Row(0x33, [], [])
    case KeysOfRoute(name) => Row(0x34, [S(name, 64)], [])
    case RouteRename(from, to) => Row(0x35, [S(from, 64), S(to, 64)], [])
    case RouteBind(name, queue, key) => Row(0x36, [S(name, 64), S(queue, 64), S(key, 32)], [])
    case RouteUnbind(name, queue, key) => Row(0x37, [S(name, 64), S(queue, 64), S(key, 32)], [])
    case RoutePush(name, key, expire, data) => Row(0x38, [S(name, 64), S(key, 32)], Bytes4(expire) + data)
    case RouteDelete(name) => Row(0x39, [S(name, 64)], [])
    case ChannelCreate(name, flags) => Row(0x3A, [S(name, 64), N(flags, 4)], [])
    case ChannelExist(name) => Row(0x3B, [S(name, 64)], [])
    case ChannelList => Row(0x3C, [], [])
    case ChannelRename(from, to) => Row(0x3D, [S(from, 64), S(to, 64)], [])
    case ChannelPublish(name, topic, data) => Row(0x3E, [S(name, 64), S(topic, 32)], data)
    case ChannelSubscribe(name, topic, _) => Row(0x3F, [S(name, 64), S(topic, 32)], [])
    case ChannelPsubscribe(name, topic, _) => Row(0x40, [S(name, 64), S(topic, 32)], [])
    case ChannelUnsubscribe(name, topic) => Row(0x41, [S(name, 64), S(topic, 32)], [])
    case ChannelPunsubscribe(name, topic) => Row(0x42, [S(name, 64), S(topic, 32)], [])
    case ChannelDelete(name) => Row(0x43, [S(name, 64)], [])
  }

  /** Every string fits its array with its terminator. */
  predicate AllFit(ps: seq<Param>) {
    forall i :: 0 <= i < |ps| && ps[i].S? ==> |ps[i].s| < ps[i].width
  }

  /** The functions that check an argument of another kind: a message of no bytes, a callback of NULL. */
  predicate Accepted(f: Function)
    requires !Switch(f)
  {
    && AllFit(RowOf(f).params)
    && (f.QueuePush? || f.RoutePush? || f.ChannelPublish? ==> |f.data| >= 1)
    && (f.QueueSubscribe? || f.ChannelSubscribe? || f.ChannelPsubscribe? ==> f.callback.Some?)
  }

  function Member(p: Param): (b: bytes)
    requires InRange(p)
    ensures |b| == p.width
  {
    match p
    case S(s, width) => Chars(s, width)
    case N(n, width) => if width == 1 then [n] else if width == 4 then Bytes4(n) else Bytes8(n)
  }

  function Body(ps: seq<Param>): bytes
    requires AllInRange(ps)
  {
    if ps == [] then [] else Member(ps[0]) + Body(ps[1..])
  }

  /** All that a function writes. */
  function Written(f: Function, noack: bool): bytes
    requires !Switch(f)
  {
    var r := RowOf(f);
    [0x70, 0, r.code, if noack then 1 else 0] + Bytes4(|Body(r.params)| + |r.payload|) + Body(r.params) + r.payload
  }

  // ----- the call of the machine that a function is -----

  function FieldOf(p: Param): Field {
    if p.S? then Str(p.width) else Num(p.width)
  }

  function ArgOf(p: Param): Value {
    if p.S? then Text(p.s) else Int(p.n)
  }

  function FieldsOf(ps: seq<Param>): (fs: Layout)
    ensures |fs| == |ps|
  {
    seq(|ps|, i requires 0 <= i < |ps| => FieldOf(ps[i]))
  }

  function ArgsOf(ps: seq<Param>): (args: seq<Value>)
    ensures |args| == |ps|
  {
    seq(|ps|, i requires 0 <= i < |ps| => ArgOf(ps[i]))
  }

  lemma ParamsTyped(ps: seq<Param>)
    requires AllInRange(ps)
    ensures Typed(FieldsOf(ps), ArgsOf(ps))
    ensures Fits(FieldsOf(ps), ArgsOf(ps)) <==> AllFit(ps)
  {
    hide Pow256;
    Widths();
    var fs, args := FieldsOf(ps), ArgsOf(ps);
    forall i | 0 <= i < |ps| ensures TypedField(fs[i], args[i]) {
      assert InRange(ps[i]);
    }
    if Fits(fs, args) {
      forall i | 0 <= i < |ps| && ps[i].S? ensures |ps[i].s| < ps[i].width {
        assert fs[i].Str? && |args[i].s| + 1 <= fs[i].width;
      }
    }
  }

  lemma MemberEncodes(p: Param)
    requires InRange(p) && (p.S? ==> |p.s| < p.width)
    ensures TypedField(FieldOf(p), ArgOf(p)) && EncodeField(FieldOf(p), ArgOf(p)) == Member(p)
  {
    hide LE, Pow256, Pad, Chars;
    Widths();
    match p {
      case S(s, width) => PadIsChars(s, width);
      case N(n, _) => LEIsBytes(n);
    }
  }

  /** The layout driven encoder and the packed struct agree on any row. */
  lemma {:induction false} BodyEncodes(ps: seq<Param>)
    requires AllInRange(ps) && AllFit(ps)
    ensures Typed(FieldsOf(ps), ArgsOf(ps)) && Fits(FieldsOf(ps), ArgsOf(ps))
    ensures EncodeFields(FieldsOf(ps), ArgsOf(ps)) == Body(ps)
    ensures SizeOf(FieldsOf(ps)) == |Body(ps)|
  {
    hide EncodeField, Member, TypedField, InRange;
    ParamsTyped(ps);
    if ps != [] {
      MemberEncodes(ps[0]);
      BodyEncodes(ps[1..]);
      assert FieldsOf(ps)[1..] == FieldsOf(ps[1..]) && ArgsOf(ps)[1..] == ArgsOf(ps[1..]);
    }
  }

  lemma FieldsListed(ps: seq<Param>)
    ensures |ps| == 0 ==> FieldsOf(ps) == []
    ensures |ps| == 1 ==> FieldsOf(ps) == [FieldOf(ps[0])]
    ensures |ps| == 2 ==> FieldsOf(ps) == [FieldOf(ps[0]), FieldOf(ps[1])]
    ensures |ps| == 3 ==> FieldsOf(ps) == [FieldOf(ps[0]), FieldOf(ps[1]), FieldOf(ps[2])]
    ensures |ps| == 4 ==> FieldsOf(ps) == [FieldOf(ps[0]), FieldOf(ps[1]), FieldOf(ps[2]), FieldOf(ps[3])]
  {
  }

  /** The layout table of the model is the table of all requests. */
  lemma LayoutsMatch(f: Function)
    requires !Switch(f)
    ensures LayoutOf(RowOf(f).code) == Some(FieldsOf(RowOf(f).params))
  {
    hide FieldsOf, InRange;
    FieldsListed(RowOf(f).params);
  }

  lemma RowAccepted(f: Function)
    requires !Switch(f)
    ensures Accepts(RowOf(f).code, ArgsOf(RowOf(f).params))
    ensures Buildable(RowOf(f).code, ArgsOf(RowOf(f).params)) <==> AllFit(RowOf(f).params)
  {
    hide LayoutOf, RowOf, Typed, Fits, FieldsOf, ArgsOf;
    LayoutsMatch(f);
    ParamsTyped(RowOf(f).params);
  }

  predicate Query(f: Function) {
    || f.ServerStat? || f.UserList? || f.QueueExist? || f.QueueList? || f.QueueSize? || f.QueueGet? || f.QueuePop?
    || f.RouteExist? || f.RouteList? || f.KeysOfRoute? || f.ChannelExist? || f.ChannelList?
  }

  predicate NumberQuery(f: Function) {
    f.QueueExist? || f.QueueSize? || f.RouteExist? || f.ChannelExist?
  }

  /** The name of the code that a function sends. */
  function CodeOf(f: Function): byte
    requires !Switch(f)
  {
    match f
    case Auth(_, _) => AUTH
    case Ping => PING
    case ServerStat => STAT
    case Save(_) => SAVE
    case Flush(_) => FLUSH
    case UserCreate(_, _, _) => USER_CREATE
    case UserList => USER_LIST
    case UserRename(_, _) => USER_RENAME
    case UserSetPerm(_, _) => USER_SET_PERM
    case UserDelete(_) => USER_DELETE
    case QueueCreate(_, _, _, _) => QUEUE_CREATE
    case QueueDeclare(_) => QUEUE_DECLARE
    case QueueExist(_) => QUEUE_EXIST
    case QueueList => QUEUE_LIST
    case QueueRename(_, _) => QUEUE_RENAME
    case QueueSize(_) => QUEUE_SIZE
    case QueuePush(_, _, _) => QUEUE_PUSH
    case QueueGet(_) => QUEUE_GET
    case QueuePop(_, _) => QUEUE_POP
    case QueueConfirm(_, _) => QUEUE_CONFIRM
    case QueueSubscribe(_, _, _) => QUEUE_SUBSCRIBE
    case QueueUnsubscribe(_) => QUEUE_UNSUBSCRIBE
    case QueuePurge(_) => QUEUE_PURGE
    case QueueDelete(_) => QUEUE_DELETE
    case RouteCreate(_, _) => ROUTE_CREATE
    case RouteExist(_) => ROUTE_EXIST
    case RouteList => ROUTE_LIST
    case KeysOfRoute(_) => ROUTE_KEYS
    case RouteRename(_, _) => ROUTE_RENAME
    case RouteBind(_, _, _) => ROUTE_BIND
    case RouteUnbind(_, _, _) => ROUTE_UNBIND
    case RoutePush(_, _, _, _) => ROUTE_PUSH
    case RouteDelete(_) => ROUTE_DELETE
    case ChannelCreate(_, _) => CHANNEL_CREATE
    case ChannelExist(_) => CHANNEL_EXIST
    case ChannelList => CHANNEL_LIST
    case ChannelRename(_, _) => CHANNEL_RENAME
    case ChannelPublish(_, _, _) => CHANNEL_PUBLISH
    case ChannelSubscribe(_, _, _) => CHANNEL_SUBSCRIBE
    case ChannelPsubscribe(_, _, _) => CHANNEL_PSUBSCRIBE
    case ChannelUnsubscribe(_, _) => CHANNEL_UNSUBSCRIBE
    case ChannelPunsubscribe(_, _) => CHANNEL_PUNSUBSCRIBE
    case ChannelDelete(_) => CHANNEL_DELETE
  }

  lemma CodesMatch(f: Function)
    requires !Switch(f)
    ensures CodeOf(f) == RowOf(f).code
  {
  }

  function CommandOf(f: Function): Command
    requires !Query(f)
  {
    hide LayoutOf, Typed, Pow256, ArgsOf;
    if Switch(f) then SetNoack(f.NoackEnable?)
    else
      RowAccepted(f);
      CodesMatch(f);
      Widths();
      var code, args := CodeOf(f), ArgsOf(RowOf(f).params);
      if f.QueuePush? || f.RoutePush? then RawCommand.Push(code, args, Some(f.expire), f.data)
      else if f.ChannelPublish? then RawCommand.Push(code, args, None, f.data)
      else if f.QueueSubscribe? then RawCommand.SubscribeQueue(f.name, f.flags, f.callback)
      else if f.QueueUnsubscribe? then RawCommand.UnsubscribeQueue(f.name)
      else if f.ChannelSubscribe? || f.ChannelPsubscribe? then
        RawCommand.SubscribeChannel(f.ChannelPsubscribe?, f.name, f.topic, f.callback)
      else if f.ChannelUnsubscribe? || f.ChannelPunsubscribe? then
        RawCommand.UnsubscribeChannel(f.ChannelPunsubscribe?, f.name, f.topic)
      else RawCommand.Plain(code, args)
  }

  function QueryFor(f: Function): Machine.Query
    requires Query(f)
  {
    hide LayoutOf, Typed, ArgsOf;
    RowAccepted(f);
    CodesMatch(f);
    var code, args := CodeOf(f), ArgsOf(RowOf(f).params);
    if f.ServerStat? then RawQuery.Stat
    else if NumberQuery(f) then RawQuery.Number(code, args)
    else if f.QueueGet? || f.QueuePop? then RawQuery.Fetch(code, args)
    else RawQuery.Listing(KindOf(f), args)
  }

  function KindOf(f: Function): Kind {
    if f.UserList? then Kind.Users
    else if f.QueueList? then Kind.Queues
    else if f.RouteList? then Kind.Routes
    else if f.KeysOfRoute? then Kind.RouteKeys
    else Kind.Channels
  }

  /** The functions of the library among the calls of the machine. */
  function CallOf(f: Function): Call {
    if Query(f) then Ask(QueryFor(f)) else Do(CommandOf(f))
  }

  // ----- what it writes -----

  lemma HeadIsBytes(code: byte, noack: bool, size: nat, extra: nat)
    ensures EncodeHeader(Header(REQ, code, if noack then 1 else 0, (size + extra % WORD32) % WORD32))
         == [0x70, 0, code, if noack then 1 else 0] + Bytes4(size + extra)
  {
    hide EncodeHeader, Bytes4;
    var length := (size + extra % WORD32) % WORD32;
    HeaderIsBytes(Header(REQ, code, if noack then 1 else 0, length));
    Wrapped(size, extra);
  }

  lemma Wrapped(size: nat, extra: nat)
    ensures Bytes4((size + extra % WORD32) % WORD32) == Bytes4(size + extra)
  {
    var n, m := size + extra, (size + extra % WORD32) % WORD32;
    assert m == n % WORD32;
    Low(n);
  }

  lemma Low(n: nat)
    ensures Bytes4(n % WORD32) == Bytes4(n)
  {
    var q, m := n / WORD32, n % WORD32;
    LowByte(q, m, 0x1, 0x100_0000);
    LowByte(q, m, 0x100, 0x1_0000);
    LowByte(q, m, 0x1_0000, 0x100);
    LowByte(q, m, 0x100_0000, 0x1);
  }

  /** A byte of a number is that of its lower part, if what is above is a multiple of all it takes. */
  lemma LowByte(q: nat, m: nat, k: nat, j: nat)
    requires k > 0 && k * j * 0x100 == 0x1_0000_0000
    ensures (q * 0x1_0000_0000 + m) / k % 0x100 == m / k % 0x100
  {
    var high := q * j * 0x100;
    assert q * 0x1_0000_0000 == high * k;
    DivAdd(high, m, k);
    assert (high + m / k) % 0x100 == m / k % 0x100 by { ModAdd(q * j, m / k); }
  }

  lemma DivAdd(h: nat, m: nat, k: nat)
    requires k > 0
    ensures (h * k + m) / k == h + m / k
  {
    var x, r := m / k, m % k;
    assert h * k + m == (h + x) * k + r;
    var d: int := (h * k + m) / k - (h + x);
    assert d * k + (h * k + m) % k == r;
    assert d >= 1 ==> d * k >= k;
    assert d <= -1 ==> d * k + k <= 0;
  }

  lemma ModAdd(a: nat, b: nat)
    ensures (a * 0x100 + b) % 0x100 == b % 0x100
  {
  }

  lemma FrameIsBytes(f: Function, noack: bool, extra: nat)
    requires !Switch(f) && AllFit(RowOf(f).params)
    ensures var r := RowOf(f);
      && Buildable(r.code, ArgsOf(r.params))
      && Frame(r.code, noack, ArgsOf(r.params), extra)
         == [0x70, 0, r.code, if noack then 1 else 0] + Bytes4(|Body(r.params)| + extra) + Body(r.params)
  {
    hide RowOf, LayoutOf, EncodeHeader, EncodeFields, Body, FieldsOf, ArgsOf, Bytes4, Typed, Fits;
    var r := RowOf(f);
    LayoutsMatch(f);
    RowAccepted(f);
    BodyEncodes(r.params);
    HeadIsBytes(r.code, noack, |Body(r.params)|, extra);
  }

  lemma QueryIsRow(f: Function)
    requires Query(f)
    ensures var r := RowOf(f);
      QueryOf(QueryFor(f)) == (r.code, ArgsOf(r.params)) && r.payload == [] && (Accepted(f) <==> AllFit(r.params))
  {
    hide ArgsOf, LayoutOf, Typed, CodeOf;
    CodesMatch(f);
    ArgsListed(RowOf(f).params);
  }

  lemma CommandIsRow(f: Function)
    requires !Switch(f) && !Query(f)
    ensures var r, c := RowOf(f), CommandOf(f);
      !c.SetNoack? && RequestOf(c) == (r.code, ArgsOf(r.params)) && (Accepted(f) <==> AllFit(r.params) && !Refused(c))
  {
    hide ArgsOf, LayoutOf, Typed, AllFit, Bytes4, CodeOf;
    CodesMatch(f);
    ArgsListed(RowOf(f).params);
  }

  lemma PayloadIsRow(f: Function)
    requires !Switch(f) && !Query(f)
    ensures var c := CommandOf(f); RowOf(f).payload == if PayloadOf(c).Some? then PayloadOf(c).value else []
  {
    hide ArgsOf, LayoutOf, Typed, AllFit, Bytes4, LE, AllInRange, CodeOf;
    if f.QueuePush? || f.RoutePush? { LEIsBytes(f.expire); }
  }

  lemma ArgsListed(ps: seq<Param>)
    ensures |ps| == 0 ==> ArgsOf(ps) == []
    ensures |ps| == 1 ==> ArgsOf(ps) == [ArgOf(ps[0])]
    ensures |ps| == 2 ==> ArgsOf(ps) == [ArgOf(ps[0]), ArgOf(ps[1])]
  {
  }

  /** What a function puts on the wire: nothing if its arguments are refused, and otherwise these bytes. */
  lemma SendsWritten(f: Function, noack: bool)
    requires !Switch(f)
    ensures var sent := Sends(CallOf(f), noack);
      && (sent.Some? <==> Accepted(f))
      && (sent.Some? ==> sent.value.code == RowOf(f).code && EncodeRequest(sent.value) == Written(f, noack))
  {
    hide RowOf, ArgsOf, RequestOf, PayloadOf, QueryOf, Refused, CommandOf, QueryFor, Frame, LayoutOf, Body, Bytes4,
      Query, Buildable, Accepted, AllFit;
    var r := RowOf(f);
    if Query(f) {
      QueryIsRow(f);
    } else {
      CommandIsRow(f);
      PayloadIsRow(f);
    }
    RowAccepted(f);
    if AllFit(r.params) { FrameIsBytes(f, noack, |r.payload|); }
  }

  /** On a connection that takes all it is given, a function adds exactly these bytes to the wire. */
  lemma FunctionWrites(s: State, f: Function)
    requires s.core.out == Outbound(s.core.out.wire, [], [])
    ensures Execute(s, CallOf(f)).0.core.out ==
      Outbound(s.core.out.wire + if !Switch(f) && Accepted(f) then Written(f, s.core.noack) else [], [], [])
  {
    hide Sends, FrameOf, EncodeRequest, Written, Inquire, Perform, Accepted, Converse, CommandOf, QueryFor;
    assert s.core.out.wire + [] == s.core.out.wire;
    if Switch(f) {
      SwitchIsSwitch(f);
    } else {
      SendsWritten(f, s.core.noack);
    }
    CallSends(s, CallOf(f));
  }

  lemma SwitchIsSwitch(f: Function)
    requires Switch(f)
    ensures CallOf(f) == Do(SetNoack(f.NoackEnable?)) && Sends(CallOf(f), true) == Sends(CallOf(f), false) == None
  {
  }

  lemma CallSends(s: State, call: Call)
    ensures Sending(s.core, Execute(s, call).0.core, Sends(call, s.core.noack))
  {
    hide Sending, Inquire, Perform, Sends, Converse;
    match call {
      case Do(cmd) =>
        CommandSends(s.core, cmd);
        PerformCore(s, cmd);
      case Ask(q) => QuerySends(s.core, q);
    }
  }

  // ----- what it returns -----

  /** A reply of the server. */
  function ReplyBytes(code: byte, status: byte, body: bytes): bytes {
    [0x80, 0, code, status] + Bytes4(|body|) + body
  }

  lemma ReplyIsBytes(code: byte, status: byte, body: bytes)
    ensures ReplyFrame(code, Reply(status, body)) == ReplyBytes(code, status, body)
  {
    hide EncodeHeader, Bytes4;
    HeaderIsBytes(Header(RES, code, status, |body|));
  }

  /** The text that goes with a status. */
  function StatusText(status: byte): string {
    match status
    case 0x3 => "Packet error"
    case 0x4 => "Command error"
    case 0x5 => "Access error"
    case 0x6 => "Memory error"
    case 0x8 => "Value not declared"
    case 0x9 => "Value not found"
    case 0xA => "No data"
    case _ => ""
  }

  lemma TextOfStatus(status: byte)
    ensures ErrorText(ErrorOf(status)) == StatusText(status)
  {
  }

  lemma OwnTexts()
    ensures ErrorText(NO_ERROR) == ""
    ensures ErrorText(ERROR_DATA) == "Error input data"
    ensures ErrorText(ERROR_WRITE) == "Error write request"
    ensures ErrorText(ERROR_READ) == "Error read request"
    ensures ErrorText(ERROR_RESPONSE) == "Response error"
  {
  }

  /** What a function that returns a status leaves: its result, the text of emq_last_error, the status field. */
  predicate ReturnsStatus(s: State, f: Function, ok: bool, text: string) {
    var (t, r) := Execute(s, CallOf(f));
    && r.Status? && r.ok == ok && r.error == t.core.error
    && ErrorText(t.core.error) == text && t.core.status == if ok then 0 else -1
  }

  lemma OutWilling(c: Core, cmd: Command)
    requires c.out == Outbound(c.out.wire, [], []) && !cmd.SetNoack?
    ensures !WriteRefused(c.out, cmd)
  {
    hide RequestOf, PayloadOf;
  }

  lemma CommandExecutes(s: State, cmd: Command)
    requires !cmd.SetNoack?
    ensures var (t, r) := Execute(s, Do(cmd));
      && r == Status(Perform(s, cmd).1, Perform(s, cmd).0.core.error)
      && t.core == Perform(s, cmd).0.core
      && (r.ok ==> t.core.status == 0 && t.core.error == NO_ERROR) && (!r.ok ==> t.core.status == -1)
  {
    hide Converse, QueuesAfter, ChannelsAfter, QueuesFreed, ChannelsFreed, Perform;
    ResultIsStatus(s, cmd);
  }

  /** In noack mode, on a connection that takes all it is given, a function returns OK if and only if its arguments
      are accepted, and reads nothing. */
  lemma NoackReturns(s: State, f: Function)
    requires s.core.noack && s.core.out == Outbound(s.core.out.wire, [], []) && !Switch(f) && !Query(f)
    ensures ReturnsStatus(s, f, Accepted(f), if Accepted(f) then "" else "Error input data")
    ensures Execute(s, CallOf(f)).0.core.inp == s.core.inp
  {
    hide RowOf, ArgsOf, RequestOf, PayloadOf, Refused, CommandOf, LayoutOf, Query, Buildable, Accepted, AllFit, Execute,
      Perform, WriteRefused, ErrorText, ReadExact, DecodeHeader;
    var cmd := CommandOf(f);
    CommandIsRow(f);
    RowAccepted(f);
    OutWilling(s.core, cmd);
    NoackResult(s, cmd);
    CommandExecutes(s, cmd);
    OwnTexts();
    if !Perform(s, cmd).1 { FailureText(s, cmd); }
  }

  /** The code that a reply has to carry: the request's own, but for one function that of another. */
  function ReplyCodeOf(f: Function): byte
    requires !Switch(f)
  {
    if f.ChannelPunsubscribe? then 0x41 else RowOf(f).code
  }

  lemma ReplyCodes(f: Function)
    requires !Switch(f) && !Query(f)
    ensures ReplyCode(CommandOf(f)) == ReplyCodeOf(f)
  {
    hide ArgsOf, LayoutOf, Typed, AllFit, Bytes4, AllInRange, CodeOf;
    CodesMatch(f);
  }

  /** In acknowledged mode, a function that is answered with a bare status returns OK exactly on status 1, and else
      leaves the text of the status; it reads its reply and nothing else. */
  lemma CommandReturns(s: State, f: Function, status: byte, rest: bytes)
    requires !s.core.noack && s.core.out == Outbound(s.core.out.wire, [], [])
    requires !Switch(f) && !Query(f) && Accepted(f)
    requires s.core.inp == Inbound(ReplyBytes(ReplyCodeOf(f), status, []) + rest, [])
    ensures ReturnsStatus(s, f, status == 1, if status == 1 then "" else StatusText(status))
    ensures Execute(s, CallOf(f)).0.core.inp == Inbound(rest, [])
  {
    hide RowOf, ArgsOf, RequestOf, Refused, CommandOf, Query, Buildable, Accepted, AllFit, Execute, Converse, Perform,
      ErrorText, ErrorOf, ReplyCode, ReplyCodeOf, StatusText, ReplyBytes, ReplyFrame;
    var cmd := CommandOf(f);
    CommandIsRow(f);
    RowAccepted(f);
    ReplyCodes(f);
    ReplyIsBytes(ReplyCodeOf(f), status, []);
    CommandAnswered(s.core, cmd, status, rest);
    CommandExecutes(s, cmd);
    PerformConverses(s, cmd);
    TextOfStatus(status);
    OwnTexts();
  }

  lemma PerformConverses(s: State, cmd: Command)
    ensures Perform(s, cmd).0.core == Converse(s.core, cmd).0 && Perform(s, cmd).1 == Converse(s.core, cmd).1
  {
    hide Converse, QueuesAfter, ChannelsAfter, QueuesFreed, ChannelsFreed;
  }

  /** A command whose reply carries the code it looks for and no body. */
  lemma CommandAnswered(c: Core, cmd: Command, status: byte, rest: bytes)
    requires !c.noack && c.out == Outbound(c.out.wire, [], [])
    requires !cmd.SetNoack? && !Refused(cmd) && Buildable(RequestOf(cmd).0, RequestOf(cmd).1)
    requires c.inp == Inbound(ReplyFrame(ReplyCode(cmd), Reply(status, [])) + rest, [])
    ensures var (d, ok) := Converse(c, cmd);
      && (ok <==> status == 1) && d.inp == Inbound(rest, [])
      && (!ok ==> d.error == ErrorOf(status))
  {
    hide RequestOf, PayloadOf, Buildable, ErrorOf, Submit, Receive, ReplyCode, ReplyFrame;
    var (code, args) := RequestOf(cmd);
    SubmitWrites(c, code, args, PayloadOf(cmd), c.inp.input, c.out.wire);
    var (d, sent) := Submit(c, code, args, PayloadOf(cmd));
    var bodylen := if cmd.Plain? && code == QUEUE_CONFIRM then None else Some(0);
    ReceiveReply(d, ReplyCode(cmd), ReplyCode(cmd), Reply(status, []), bodylen, rest, d.out.wire);
    assert [] + rest == rest;
  }

  // ----- what a query returns -----

  function RecordLength(kind: Kind): (n: nat)
    ensures n > 0
  {
    match kind
    case Users => 72
    case Queues => 88
    case Routes => 72
    case RouteKeys => 96
    case Channels => 76
  }

  function RecordFrom(kind: Kind, b: bytes): Record
    requires |b| == RecordLength(kind)
  {
    match kind
    case Users => UserRecord(b[0..32], b[32..64], Number8(b, 64))
    case Queues => QueueInfo(b[0..64], Number4(b, 64), Number4(b, 68), Number4(b, 72), Number4(b, 76),
                             Number4(b, 80), Number4(b, 84))
    case Routes => RouteInfo(b[0..64], Number4(b, 64), Number4(b, 68))
    case RouteKeys => RouteKey(b[0..32], b[32..96])
    case Channels => ChannelInfo(b[0..64], Number4(b, 64), Number4(b, 68), Number4(b, 72))
  }

  lemma NumbersAt(b: bytes, i: nat)
    requires i + 4 <= |b|
    ensures FromLE(b[i..i + 4]) == Number4(b, i)
    ensures i + 4 == |b| ==> FromLE(b[i..]) == Number4(b, i)
    ensures i + 8 == |b| ==> FromLE(b[i..]) == Number8(b, i)
  {
    hide FromLE;
    FromLEIsNumber(b[i..i + 4]);
    if i + 4 == |b| || i + 8 == |b| { FromLEIsNumber(b[i..]); }
  }

  /** The decoder of the model reads a record off its bytes. */
  lemma RecordIsBytes(kind: Kind, b: bytes)
    requires |b| == RecordLength(kind)
    ensures RecordSize(kind) == RecordLength(kind) && DecodeRecord(kind, b) == RecordFrom(kind, b)
  {
    hide FromLE, Number4, Number8;
    match kind {
      case Users => NumbersAt(b, 64);
      case Queues =>
        NumbersAt(b, 64); NumbersAt(b, 68); NumbersAt(b, 72);
        NumbersAt(b, 76); NumbersAt(b, 80); NumbersAt(b, 84);
      case Routes => NumbersAt(b, 64); NumbersAt(b, 68);
      case RouteKeys =>
      case Channels => NumbersAt(b, 64); NumbersAt(b, 68); NumbersAt(b, 72);
    }
  }

  /** The k-th record of a body. */
  function RecordAt(kind: Kind, body: bytes, k: nat): Record
    requires (k + 1) * RecordLength(kind) <= |body|
  {
    var n := RecordLength(kind);
    assert (k + 1) * n == k * n + n;
    RecordFrom(kind, body[k * n..k * n + n])
  }

  lemma {:induction false} RecordsAt(kind: Kind, body: bytes, k: nat)
    requires (k + 1) * RecordLength(kind) <= |body|
    ensures k < |DecodeRecords(kind, body)| && DecodeRecords(kind, body)[k] == RecordAt(kind, body, k)
    decreases k
  {
    hide DecodeRecord, RecordFrom, RecordLength, RecordSize;
    var n := RecordLength(kind);
    assert (k + 1) * n == k * n + n && k * n >= 0;
    RecordIsBytes(kind, body[..n]);
    if k == 0 {
      assert body[0 * n..0 * n + n] == body[..n];
    } else {
      assert k * n == (k - 1) * n + n;
      RecordsAt(kind, body[n..], k - 1);
      assert body[n..][(k - 1) * n..(k - 1) * n + n] == body[k * n..k * n + n];
    }
  }

  lemma {:induction false} ReverseAt<T>(s: seq<T>, i: nat)
    requires i < |s|
    ensures Lists.Reverse(s)[i] == s[|s| - 1 - i]
  {
    if i < |s| - 1 { ReverseAt(s[1..], i); }
  }

  /** What the caller of a query is handed, told from the body of the reply; a list has the last record first. */
  ghost predicate Answers(f: Function, body: bytes, answer: Answer)
    requires Query(f)
  {
    if f.ServerStat? then answer == Stats(body)
    else if NumberQuery(f) then |body| == 4 && answer == Value(Number4(body, 0))
    else if f.QueueGet? || f.QueuePop? then |body| >= 8 && answer == Message(Number8(body, 0), body[8..])
    else
      var kind := KindOf(f); var n := RecordLength(kind);
      && answer.Listed? && |answer.records| * n == |body|
      && forall i :: 0 <= i < |answer.records| ==>
           var k := |answer.records| - 1 - i;
           (k + 1) * n <= |body| && answer.records[i] == RecordAt(kind, body, k)
  }

  /** A body that fits the query. */
  predicate FitsQuery(f: Function, body: bytes)
    requires Query(f)
  {
    && |body| < 0x8000_0000
    && if f.ServerStat? then |body| == 55
       else if NumberQuery(f) then |body| == 4
       else if f.QueueGet? || f.QueuePop? then |body| >= 8
       else |body| % RecordLength(KindOf(f)) == 0
  }

  lemma ListingAnswers(f: Function, body: bytes)
    requires Query(f) && FitsQuery(f, body)
    requires !f.ServerStat? && !NumberQuery(f) && !f.QueueGet? && !f.QueuePop?
    ensures Answers(f, body, Listed(Lists.Reverse(DecodeRecords(KindOf(f), body))))
  {
    hide DecodeRecords, DecodeRecord, RecordFrom, RecordAt, RecordLength, Lists.Reverse, KindOf;
    var kind := KindOf(f);
    var n, rs := RecordLength(kind), DecodeRecords(kind, body);
    Sizes(kind);
    assert |rs| == |body| / n && |rs| * n == |body|;
    var records := Lists.Reverse(rs);
    forall i | 0 <= i < |records|
      ensures var k := |records| - 1 - i; (k + 1) * n <= |body| && records[i] == RecordAt(kind, body, k)
    {
      var k := |records| - 1 - i;
      assert (k + 1) * n <= |rs| * n by { Monotone(k + 1, |rs|, n); }
      RecordsAt(kind, body, k);
      ReverseAt(rs, i);
    }
  }

  lemma Sizes(kind: Kind)
    ensures RecordSize(kind) == RecordLength(kind)
  {
  }

  lemma Monotone(a: nat, b: nat, n: nat)
    requires a <= b
    ensures a * n <= b * n
  {
  }

  lemma QueryShape(f: Function)
    requires Query(f)
    ensures var q := QueryFor(f);
      && (q.Stat? <==> f.ServerStat?) && (q.Number? <==> NumberQuery(f))
      && (q.Fetch? <==> f.QueueGet? || f.QueuePop?) && (q.Listing? ==> q.kind == KindOf(f))
  {
    hide ArgsOf, LayoutOf, Typed, RowOf, CodeOf;
  }

  /** What the machine says that a reply means is what its bytes say. */
  lemma MeaningAnswers(f: Function, noack: bool, body: bytes)
    requires Query(f) && Accepted(f) && FitsQuery(f, body)
    ensures var call, reply := CallOf(f), Reply(1, body);
      && Conforms(call, reply)
      && var m := Meaning(call, noack, reply);
      m.Data? && m.error == NO_ERROR && Answers(f, body, m.answer)
  {
    hide RowOf, Accepted, DecodeRecords, Lists.Reverse, FromLE, Number4, Number8, QueryFor, Sends, RecordAt;
    SendsWritten(f, noack);
    QueryShape(f);
    Sizes(KindOf(f));
    if NumberQuery(f) {
      FromLEIsNumber(body);
    } else if f.QueueGet? || f.QueuePop? {
      FromLEIsNumber(body[..8]);
      FirstEight(body);
    } else if !f.ServerStat? {
      ListingAnswers(f, body);
    }
  }

  lemma FirstEight(body: bytes)
    requires |body| >= 8
    ensures Number8(body[..8], 0) == Number8(body, 0)
  {
  }

  /** A query that is answered on status 1 with a body that fits it hands over what the body says, in either mode;
      it reads its reply and nothing else. */
  lemma QueryReturns(s: State, f: Function, body: bytes, rest: bytes)
    requires s.core.out == Outbound(s.core.out.wire, [], []) && Query(f) && Accepted(f) && FitsQuery(f, body)
    requires s.core.inp == Inbound(ReplyBytes(RowOf(f).code, 1, body) + rest, [])
    ensures var (t, r) := Execute(s, CallOf(f));
      && r.Data? && Answers(f, body, r.answer) && t.core.status == 0 && ErrorText(t.core.error) == ""
      && t.core.inp == Inbound(rest, [])
  {
    hide RowOf, Accepted, QueryFor, Sends, Conforms, Meaning, Answers, FitsQuery, ReplyFrame, ReplyBytes, Inquire;
    var q, reply := QueryFor(f), Reply(1, body);
    MeaningAnswers(f, s.core.noack, body);
    SendsWritten(f, s.core.noack);
    ReplyIsBytes(RowOf(f).code, 1, body);
    QueryAligned(s, q, reply, rest, s.core.out.wire);
    AnswersDefined(f, body, Meaning(Ask(q), s.core.noack, reply).answer);
    AnswerIsStatus(s.core, q);
  }

  lemma AnswersDefined(f: Function, body: bytes, answer: Answer)
    requires Query(f) && Answers(f, body, answer)
    ensures answer != Undefined && answer != Failed
  {
  }

  /** A query, other than that of the server's status, that is answered with another status fails with its text; the
      short reply is a response error where a number is due. */
  lemma QueryFails(s: State, f: Function, status: byte, rest: bytes)
    requires s.core.out == Outbound(s.core.out.wire, [], []) && Query(f) && Accepted(f) && !f.ServerStat?
    requires status != 1 && s.core.inp == Inbound(ReplyBytes(RowOf(f).code, status, []) + rest, [])
    ensures var (t, r) := Execute(s, CallOf(f));
      && r.Data? && r.answer == Failed && t.core.status == -1
      && ErrorText(t.core.error) == (if NumberQuery(f) then "Response error" else StatusText(status))
      && t.core.inp == Inbound(rest, [])
  {
    hide RowOf, Accepted, QueryFor, Sends, ReplyFrame, ReplyBytes, Inquire, ErrorText, ErrorOf, StatusText;
    var q, reply := QueryFor(f), Reply(status, []);
    SendsWritten(f, s.core.noack);
    QueryShape(f);
    ReplyIsBytes(RowOf(f).code, status, []);
    QueryAligned(s, q, reply, rest, s.core.out.wire);
    AnswerIsStatus(s.core, q);
    TextOfStatus(status);
    OwnTexts();
  }

  /** The int that a function answered by one number returns: the four bytes of the reply as a signed number. */
  lemma NumberReturns(s: State, f: Function, body: bytes, rest: bytes)
    requires s.core.out == Outbound(s.core.out.wire, [], []) && NumberQuery(f) && Accepted(f) && |body| == 4
    requires s.core.inp == Inbound(ReplyBytes(RowOf(f).code, 1, body) + rest, [])
    ensures var r := Execute(s, CallOf(f)).1; var n := Number4(body, 0);
      r.Data? && ReturnValue(RowOf(f).code, r.answer) == if n < 0x8000_0000 then n else n - 0x1_0000_0000
  {
    hide RowOf, Accepted, CallOf, ReplyBytes, Execute, Number4;
    QueryReturns(s, f, body, rest);
  }

  /** The header of a reply is accepted exactly when it arrives and has these bytes; and otherwise this is why. */
  lemma ReplyAccepted(c: Core, code: byte, bodylen: Option<nat>)
    ensures var (d, h) := Receive(c, code, bodylen); var b := c.inp.input;
      if Available(c.inp) < 8 then h.None? && ErrorText(d.error) == "Error read request" && d.status == -1
      else if !(b[0] == 0x80 && b[1] == 0 && b[2] == code && (bodylen.Some? ==> Number4(b, 4) == bodylen.value)) then
        h.None? && ErrorText(d.error) == "Response error" && d.status == -1
      else if b[3] != 1 then h.None? && ErrorText(d.error) == StatusText(b[3]) && d.status == -1
      else h == Some(Header(0x80, code, 1, Number4(b, 4))) && d.error == c.error && d.status == c.status
  {
    hide DecodeHeader, ErrorText, StatusText, ErrorOf, Number4;
    OwnTexts();
    if Available(c.inp) >= 8 {
      var b := c.inp.input;
      HeaderIsNumbers(b[..8]);
      TextOfStatus(b[3]);
      assert Number4(b[..8], 4) == Number4(b, 4) && Number2(b[..8], 0) == Number2(b, 0) by { FirstNumbers(b); }
    }
  }

  lemma FirstNumbers(b: bytes)
    requires |b| >= 8
    ensures Number4(b[..8], 4) == Number4(b, 4) && Number2(b[..8], 0) == Number2(b, 0)
  {
  }

  // ----- what it registers -----

  /** A function that returns OK puts its record - name, topic and callback - at the head of its list, or removes
      the records of its name; nothing else touches a list. */
  lemma FunctionRegisters(s: State, f: Function)
    ensures var (t, r) := Execute(s, CallOf(f)); var ok := r.Status? && r.ok;
      && t.queues == (
           if ok && f.QueueSubscribe? then
             [QueueSubscription(Chars(f.name, 64), if f.callback.Some? then f.callback.value else 0)] + s.queues
           else if ok && f.QueueUnsubscribe? then Without(s.queues, f.name)
           else s.queues)
      && t.channels == (
           if ok && (f.ChannelSubscribe? || f.ChannelPsubscribe?) then
             [ChannelSubscription(Chars(f.name, 64), Chars(f.topic, 32),
                                  if f.callback.Some? then f.callback.value else 0)] + s.channels
           else if ok && (f.ChannelUnsubscribe? || f.ChannelPunsubscribe?) then Without(s.channels, f.name)
           else s.channels)
      && (ok && (f.QueueSubscribe? || f.ChannelSubscribe? || f.ChannelPsubscribe?) ==> f.callback.Some?)
  {
    hide Converse, RowOf, ArgsOf, LayoutOf, Typed, Buildable, RequestOf, Inquire, QueryFor, Pad, Chars, Without,
      Query, CommandOf;
    if !Query(f) {
      var cmd := CommandOf(f);
      CommandKinds(f);
      if Converse(s.core, cmd).1 {
        ConverseSucceeds(s.core, cmd);
        if cmd.SubscribeQueue? || cmd.SubscribeChannel? {
          NameFits(cmd);
          PadIsChars(f.name, 64);
          if cmd.SubscribeChannel? { PadIsChars(f.topic, 32); }
        }
      }
    } else {
      QueryKinds(f);
    }
  }

  lemma QueryKinds(f: Function)
    requires Query(f)
    ensures !f.QueueSubscribe? && !f.QueueUnsubscribe? && !f.ChannelSubscribe? && !f.ChannelPsubscribe?
    ensures !f.ChannelUnsubscribe? && !f.ChannelPunsubscribe?
  {
  }

  lemma CommandKinds(f: Function)
    requires !Query(f)
    ensures var c := CommandOf(f);
      && (f.QueueSubscribe? <==> c.SubscribeQueue?)
      && (f.QueueSubscribe? ==> c == RawCommand.SubscribeQueue(f.name, f.flags, f.callback))
      && (f.QueueUnsubscribe? <==> c.UnsubscribeQueue?)
      && (f.QueueUnsubscribe? ==> c == RawCommand.UnsubscribeQueue(f.name))
      && (f.ChannelSubscribe? || f.ChannelPsubscribe? <==> c.SubscribeChannel?)
      && (c.SubscribeChannel? ==> c == RawCommand.SubscribeChannel(f.ChannelPsubscribe?, f.name, f.topic, f.callback))
      && (f.ChannelUnsubscribe? || f.ChannelPunsubscribe? <==> c.UnsubscribeChannel?)
      && (c.UnsubscribeChannel? ==> c == RawCommand.UnsubscribeChannel(f.ChannelPunsubscribe?, f.name, f.topic))
      && (Switch(f) <==> c.SetNoack?)
  {
    hide ArgsOf, LayoutOf, Typed, RowOf, CodeOf;
  }

  /** The switches change the mode, and nothing else but the records of calls. */
  lemma FunctionSwitches(s: State, f: Function)
    requires Switch(f)
    ensures var t := Execute(s, CallOf(f)).0;
      t == s.(core := s.core.(noack := f.NoackEnable?), calls := t.calls, history := t.history)
  {
    SwitchIsSwitch(f);
    assert s.freedQueues + [] == s.freedQueues && s.freedChannels + [] == s.freedChannels;
  }

  // ----- runs -----

  function Calls(fs: seq<Function>): (calls: seq<Call>)
    ensures |calls| == |fs|
  {
    seq(|fs|, i requires 0 <= i < |fs| => CallOf(fs[i]))
  }

  /** All that a run of functions writes, from a mode on. */
  function WrittenAll(fs: seq<Function>, noack: bool): bytes {
    if fs == [] then []
    else if Switch(fs[0]) then WrittenAll(fs[1..], fs[0].NoackEnable?)
    else (if Accepted(fs[0]) then Written(fs[0], noack) else []) + WrittenAll(fs[1..], noack)
  }

  lemma FunctionKeepsMode(s: State, f: Function)
    ensures Execute(s, CallOf(f)).0.core.noack == if Switch(f) then f.NoackEnable? else s.core.noack
  {
    hide CommandOf, QueryFor, Inquire, Converse, Perform, Query, RowOf;
    if Switch(f) {
      FunctionSwitches(s, f);
    } else if Query(f) {
      QueryKeepsMode(s.core, QueryFor(f));
    } else {
      CommandKinds(f);
      PerformConverses(s, CommandOf(f));
      CommandKeepsMode(s.core, CommandOf(f));
    }
  }

  lemma CommandKeepsMode(c: Core, cmd: Command)
    requires !cmd.SetNoack?
    ensures Converse(c, cmd).0.noack == c.noack
  {
    hide Exchange, RequestOf, ReplyCode, PayloadOf;
  }

  lemma QueryKeepsMode(c: Core, q: Machine.Query)
    ensures Inquire(c, q).0.noack == c.noack
  {
    hide Submit, Receive, ReceiveStat, ReceiveNumber, ReceiveList, ReceiveTagged, QueryOf;
    ReceivesKeepMode();
  }

  lemma ReceivesKeepMode()
    ensures forall c: Core {:trigger ReceiveStat(c)} :: ReceiveStat(c).0.noack == c.noack
    ensures forall c: Core {:trigger ReceiveNumber(c)} :: ReceiveNumber(c).0.noack == c.noack
    ensures forall c: Core, kind, n {:trigger ReceiveList(c, kind, n)} :: ReceiveList(c, kind, n).0.noack == c.noack
    ensures forall c: Core, n {:trigger ReceiveTagged(c, n)} :: ReceiveTagged(c, n).0.noack == c.noack
    ensures forall c: Core, code, n {:trigger Receive(c, code, n)} :: Receive(c, code, n).0.noack == c.noack
  {
    hide ReadExact, HeaderError, DecodeHeader, DecodeRecords, Lists.Reverse, FromLE, ToInt32;
  }

  /** Whatever a run of functions is answered, on a connection that takes all it is given. */
  lemma {:induction false} RunWrites(s: State, fs: seq<Function>)
    requires s.core.out == Outbound(s.core.out.wire, [], [])
    ensures ExecuteAll(s, Calls(fs)).0.core.out
         == Outbound(s.core.out.wire + WrittenAll(fs, s.core.noack), [], [])
    decreases |fs|
  {
    hide Execute, CallOf, Written, Accepted;
    var wire := s.core.out.wire;
    if fs == [] {
      assert wire + [] == wire;
    } else {
      var t := Execute(s, CallOf(fs[0])).0;
      FunctionWrites(s, fs[0]);
      FunctionKeepsMode(s, fs[0]);
      assert Calls(fs)[0] == CallOf(fs[0]) && Calls(fs)[1..] == Calls(fs[1..]);
      RunWrites(t, fs[1..]);
      var first := if !Switch(fs[0]) && Accepted(fs[0]) then Written(fs[0], s.core.noack) else [];
      var rest := WrittenAll(fs[1..], t.core.noack);
      assert wire + first + rest == wire + (first + rest);
      assert [] + rest == rest;
    }
  }
}
