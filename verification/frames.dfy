/** What single commands put on the wire: the layouts of some frames spelled out, the frames that go on
    with a message, and when a command that succeeds has sent all of its frame. */
module Frames {
  import opened Bytes
  import opened Protocol
  import opened Packet
  import opened Network
  import opened Machine
  import opened Formats

  // ----- layouts spelled out -----

  function Head(code: byte, noack: bool, bodylen: byte): bytes {
    [0x70, 0, code, if noack then 1 else 0, bodylen, 0, 0, 0]
  }

  lemma HeadEncodes(code: byte, noack: bool, bodylen: byte)
    ensures EncodeHeader(Header(REQ, code, if noack then 1 else 0, bodylen)) == Head(code, noack, bodylen)
  {
    HeaderIsBytes(Header(REQ, code, if noack then 1 else 0, bodylen));
  }

  lemma ConsField(f: Field, fs: Layout, v: Value, vs: seq<Value>)
    requires TypedField(f, v) && (f.Str? ==> |v.s| < f.width) && Typed(fs, vs) && Fits(fs, vs)
    ensures Typed([f] + fs, [v] + vs) && Fits([f] + fs, [v] + vs)
    ensures EncodeFields([f] + fs, [v] + vs) == EncodeField(f, v) + EncodeFields(fs, vs)
    ensures SizeOf([f] + fs) == f.width + SizeOf(fs)
  {
    hide EncodeField, TypedField;
    assert ([f] + fs)[1..] == fs && ([v] + vs)[1..] == vs;
  }

  lemma FrameOf(code: byte, noack: bool, fields: Layout, args: seq<Value>)
    requires LayoutOf(code) == Some(fields) && Typed(fields, args) && Fits(fields, args) && SizeOf(fields) < 256
    ensures Frame(code, noack, args, 0) == Head(code, noack, SizeOf(fields)) + EncodeFields(fields, args)
  {
    hide EncodeHeader, EncodeFields, Head;
    LayoutBound(code);
    HeadEncodes(code, noack, SizeOf(fields));
  }

  lemma AuthFrame(noack: bool, name: CString, password: CString)
    requires |name| < 32 && |password| < 32
    ensures Buildable(0x0A, [Text(name), Text(password)])
    ensures Frame(0x0A, noack, [Text(name), Text(password)], 0)
         == [0x70, 0, 0x0A, if noack then 1 else 0, 64, 0, 0, 0] + (Pad(name, 32) + Pad(password, 32))
  {
    hide EncodeHeader, Pad;
    var f1, v1 := [Str(32)] + [], [Text(password)] + [];
    var fs, vs := [Str(32)] + f1, [Text(name)] + v1;
    assert fs == [Str(32), Str(32)] && vs == [Text(name), Text(password)];
    ConsField(Str(32), [], Text(password), []);
    ConsField(Str(32), f1, Text(name), v1);
    FrameOf(AUTH, noack, fs, vs);
    assert Pad(password, 32) + [] == Pad(password, 32);
  }

  lemma NumField(n: nat)
    requires n < Pow256(4)
    ensures TypedField(Num(4), Int(n)) && EncodeField(Num(4), Int(n)) == LE(n, 4)
  {
  }

  lemma NameField(name: CString)
    requires |name| < 64
    ensures TypedField(Str(64), Text(name)) && EncodeField(Str(64), Text(name)) == Pad(name, 64)
  {
  }

  lemma NoField()
    ensures Typed([], []) && Fits([], []) && EncodeFields([], []) == [] && SizeOf([]) == 0
  {
  }

  lemma QueueCreateFrame(noack: bool, name: CString, maxMsg: nat, maxMsgSize: nat, flags: nat)
    requires |name| < 64 && maxMsg < Pow256(4) && maxMsgSize < Pow256(4) && flags < Pow256(4)
    ensures Buildable(0x23, [Text(name), Int(maxMsg), Int(maxMsgSize), Int(flags)])
    ensures Frame(0x23, noack, [Text(name), Int(maxMsg), Int(maxMsgSize), Int(flags)], 0)
         == [0x70, 0, 0x23, if noack then 1 else 0, 76, 0, 0, 0]
          + (Pad(name, 64) + (LE(maxMsg, 4) + (LE(maxMsgSize, 4) + LE(flags, 4))))
  {
    hide Pow256, LE, EncodeHeader, Pad, EncodeFields, EncodeField, SizeOf, Typed, Fits, TypedField;
    NumField(maxMsg); NumField(maxMsgSize); NumField(flags);
    NameField(name);
    NoField();
    var w := Num(4);
    var f2, v2 := [w] + [], [Int(flags)] + [];
    var f1, v1 := [w] + f2, [Int(maxMsgSize)] + v2;
    var f0, v0 := [w] + f1, [Int(maxMsg)] + v1;
    var fs, vs := [Str(64)] + f0, [Text(name)] + v0;
    assert fs == [Str(64), w, w, w] && vs == [Text(name), Int(maxMsg), Int(maxMsgSize), Int(flags)];
    ConsField(w, [], Int(flags), []);
    ConsField(w, f2, Int(maxMsgSize), v2);
    ConsField(w, f1, Int(maxMsg), v1);
    ConsField(Str(64), f0, Text(name), v0);
    FrameOf(QUEUE_CREATE, noack, fs, vs);
    assert LE(flags, 4) + [] == LE(flags, 4);
  }

  lemma RouteBindFrame(noack: bool, name: CString, queue: CString, key: CString)
    requires |name| < 64 && |queue| < 64 && |key| < 32
    ensures Buildable(0x36, [Text(name), Text(queue), Text(key)])
    ensures Frame(0x36, noack, [Text(name), Text(queue), Text(key)], 0)
         == [0x70, 0, 0x36, if noack then 1 else 0, 160, 0, 0, 0] + (Pad(name, 64) + (Pad(queue, 64) + Pad(key, 32)))
  {
    hide EncodeHeader, Pad;
    var f1, v1 := [Str(32)] + [], [Text(key)] + [];
    var f0, v0 := [Str(64)] + f1, [Text(queue)] + v1;
    var fs, vs := [Str(64)] + f0, [Text(name)] + v0;
    assert fs == [Str(64), Str(64), Str(32)] && vs == [Text(name), Text(queue), Text(key)];
    ConsField(Str(32), [], Text(key), []);
    ConsField(Str(64), f1, Text(queue), v1);
    ConsField(Str(64), f0, Text(name), v0);
    FrameOf(ROUTE_BIND, noack, fs, vs);
    assert Pad(key, 32) + [] == Pad(key, 32);
  }

  // ----- frames that go on with a message -----

  /** The bytes between the header and the data of a message. */
  function Overhead(code: byte): nat
    requires HasPayload(code)
  {
    if code == QUEUE_PUSH then 64 + 4 else if code == ROUTE_PUSH then 96 + 4 else 96
  }

  function PushRequest(cmd: Command, noack: bool): (r: Request)
    requires cmd.Push? && Buildable(cmd.code, cmd.args)
    ensures Buildable(r.code, r.args)
  {
    Request(cmd.code, noack, cmd.args, PayloadOf(cmd).value)
  }

  lemma PushSize(cmd: Command)
    requires cmd.Push?
    ensures SizeOf(LayoutOf(cmd.code).value) + |PayloadOf(cmd).value| == Overhead(cmd.code) + |cmd.data|
  {
    assert SizeOf(NAME) == 64 && SizeOf(NAME_TOPIC[1..]) == 32 && SizeOf(NAME_TOPIC) == 96;
  }

  /** A push or publish announces exactly the bytes behind its header if and only if they are fewer than
      2^32; and then the peer recovers the name, the key or topic, the expiration time and the data. */
  lemma PushRoundTrip(cmd: Command, noack: bool, rest: bytes)
    requires cmd.Push? && Buildable(cmd.code, cmd.args)
    ensures var f := EncodeRequest(PushRequest(cmd, noack));
      |f| >= HEADER_SIZE &&
      (DecodeHeader(f[..HEADER_SIZE]).bodylen == |f| - HEADER_SIZE
       <==> Overhead(cmd.code) + |cmd.data| < WORD32)
    ensures Overhead(cmd.code) + |cmd.data| < WORD32 ==>
      var r := PushRequest(cmd, noack);
      && DecodeRequest(EncodeRequest(r) + rest) == Some((r, rest))
      && r.args == cmd.args
      && (cmd.expire.Some? ==> FromLE(r.payload[..4]) == cmd.expire.value && r.payload[4..] == cmd.data)
      && (cmd.expire.None? ==> r.payload == cmd.data)
  {
    hide LayoutOf, Buildable, EncodeRequest, DecodeRequest, LE, FromLE, Pow256, DecodeHeader, Accepts, Overhead;
    var r := PushRequest(cmd, noack);
    PushSize(cmd);
    BodyLengthExact(r);
    if Overhead(cmd.code) + |cmd.data| < WORD32 {
      RequestRoundTrip(r, rest);
      if cmd.expire.Some? { LERoundTrip(cmd.expire.value, 4); }
    }
  }

  // ----- success and the wire -----

  lemma {:induction false} GatheredWhole(s: Outbound, data: bytes)
    ensures WriteGathered(s, data).1 == |data| <==>
      (Settled(s.gathers) == None || (Settled(s.gathers).value.Takes? && Settled(s.gathers).value.count >= |data|))
    decreases |s.gathers|
  {
    if s.gathers != [] && s.gathers[0].Interrupted? {
      GatheredWhole(s.(gathers := s.gathers[1..]), data);
    }
  }

  /** All that a command has to send. */
  function Whole(cmd: Command, noack: bool): bytes
    requires !cmd.SetNoack? && Buildable(RequestOf(cmd).0, RequestOf(cmd).1)
  {
    var (code, args) := RequestOf(cmd);
    var payload := PayloadOf(cmd);
    EncodeRequest(Request(code, noack, args, if payload.Some? then payload.value else []))
  }

  /** The kernel takes these bytes, written alone or gathered, without stopping short. */
  predicate TakesWhole(o: Outbound, data: bytes, gathered: bool) {
    if gathered then
      var end := Settled(o.gathers); end == None || (end.value.Takes? && end.value.count >= |data|)
    else o.stalls == [] || |data| <= o.stalls[0].room
  }

  /** The callers take any write that is not an error for a full one: a command that succeeds, in either
      mode, has its whole frame on the wire if and only if the kernel did not stop short. */
  lemma SuccessSendsWhole(s: State, cmd: Command)
    requires !cmd.SetNoack? && Perform(s, cmd).1
    ensures Buildable(RequestOf(cmd).0, RequestOf(cmd).1)
    ensures var t := Perform(s, cmd).0;
      t.core.out.wire == s.core.out.wire + Whole(cmd, s.core.noack)
      <==> TakesWhole(s.core.out, Whole(cmd, s.core.noack), PayloadOf(cmd).Some?)
  {
    hide Buildable, RequestOf, Frame, QueuesAfter, ChannelsAfter, ReplyCode, Settled, WriteAll, WriteGathered,
      ReadExact, DecodeHeader;
    var (code, args) := RequestOf(cmd);
    var payload := PayloadOf(cmd);
    var o, data := s.core.out, Whole(cmd, s.core.noack);
    assert Frame(code, s.core.noack, args, 0) + [] == Frame(code, s.core.noack, args, 0);
    if payload.Some? {
      GatheredWhole(o, data);
      WrittenPrefix(o.wire, data, WriteGathered(o, data).1);
    } else {
      WriteCompletes(o, data);
      WrittenPrefix(o.wire, data, WriteAll(o, data).1);
    }
  }

  lemma WrittenPrefix(wire: bytes, data: bytes, n: int)
    requires 0 <= n <= |data|
    ensures wire + data[..n] == wire + data <==> n == |data|
  {
    if n < |data| {
      assert |wire + data[..n]| < |wire + data|;
    }
  }

  /** A noack command that succeeds with half a header on the wire. */
  lemma SuccessCanStopShort(s: State)
    requires s.core.noack && s.core.out == Outbound([], [Stall(4, true)], [])
    ensures var (t, ok) := Perform(s, Plain(PING, [])); ok && |t.core.out.wire| == 4
  {
    assert LayoutOf(PING) == Some([]);
  }
}
