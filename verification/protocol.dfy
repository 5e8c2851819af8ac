/** Constants, packed headers and request layouts of the EagleMQ binary protocol. */
module Protocol {
  import opened Bytes

  const REQ := 0x70
  const RES := 0x80
  const EVENT := 0x90

  const AUTH: byte := 0x0A
  const PING: byte := 0x0B
  const STAT: byte := 0x0C
  const SAVE: byte := 0x0D
  const FLUSH: byte := 0x0E

  const USER_CREATE: byte := 0x1E
  const USER_LIST: byte := 0x1F
  const USER_RENAME: byte := 0x20
  const USER_SET_PERM: byte := 0x21
  const USER_DELETE: byte := 0x22

  const QUEUE_CREATE: byte := 0x23
  const QUEUE_DECLARE: byte := 0x24
  const QUEUE_EXIST: byte := 0x25
  const QUEUE_LIST: byte := 0x26
  const QUEUE_RENAME: byte := 0x27
  const QUEUE_SIZE: byte := 0x28
  const QUEUE_PUSH: byte := 0x29
  const QUEUE_GET: byte := 0x2A
  const QUEUE_POP: byte := 0x2B
  const QUEUE_CONFIRM: byte := 0x2C
  const QUEUE_SUBSCRIBE: byte := 0x2D
  const QUEUE_UNSUBSCRIBE: byte := 0x2E
  const QUEUE_PURGE: byte := 0x2F
  const QUEUE_DELETE: byte := 0x30

  const ROUTE_CREATE: byte := 0x31
  const ROUTE_EXIST: byte := 0x32
  const ROUTE_LIST: byte := 0x33
  const ROUTE_KEYS: byte := 0x34
  const ROUTE_RENAME: byte := 0x35
  const ROUTE_BIND: byte := 0x36
  const ROUTE_UNBIND: byte := 0x37
  const ROUTE_PUSH: byte := 0x38
  const ROUTE_DELETE: byte := 0x39

  const CHANNEL_CREATE: byte := 0x3A
  const CHANNEL_EXIST: byte := 0x3B
  const CHANNEL_LIST: byte := 0x3C
  const CHANNEL_RENAME: byte := 0x3D
  const CHANNEL_PUBLISH: byte := 0x3E
  const CHANNEL_SUBSCRIBE: byte := 0x3F
  const CHANNEL_PSUBSCRIBE: byte := 0x40
  const CHANNEL_UNSUBSCRIBE: byte := 0x41
  const CHANNEL_PUNSUBSCRIBE: byte := 0x42
  const CHANNEL_DELETE: byte := 0x43

  const SUCCESS: byte := 0x1

  const NOTIFY: byte := 0x1
  const MESSAGE: byte := 0x2

  // ----- headers -----

  /** The common shape of request, response and event headers; aux is noack, status or type. */
  datatype Header = Header(magic: nat, code: byte, aux: byte, bodylen: nat)

  const HEADER_SIZE: nat := 8

  function EncodeHeader(h: Header): (b: bytes)
    ensures |b| == HEADER_SIZE
  {
    LE(h.magic, 2) + [h.code, h.aux] + LE(h.bodylen, 4)
  }

  function DecodeHeader(b: bytes): (h: Header)
    requires |b| == HEADER_SIZE
    ensures h.magic < 0x1_0000 && h.bodylen < WORD32
  {
    Widths();
    Header(FromLE(b[..2]), b[2], b[3], FromLE(b[4..]))
  }

  lemma HeaderRoundTrip(h: Header)
    requires h.magic < 0x1_0000 && h.bodylen < WORD32
    ensures DecodeHeader(EncodeHeader(h)) == h
  {
    Widths();
    LERoundTrip(h.magic, 2);
    LERoundTrip(h.bodylen, 4);
    var b := EncodeHeader(h);
    assert b[..2] == LE(h.magic, 2) && b[4..] == LE(h.bodylen, 4);
  }

  // ----- request bodies -----

  /** A member of a packed request body: a char array, or an unsigned integer of so many bytes. */
  datatype Field = Str(width: nat) | Num(width: nat)

  /** An argument of a request builder. */
  datatype Value = Text(s: CString) | Int(n: nat)

  type Layout = seq<Field>

  const NAME: Layout := [Str(64)]
  const USER: Layout := [Str(32)]
  const NAME_FLAGS: Layout := [Str(64), Num(4)]
  const NAME_TOPIC: Layout := [Str(64), Str(32)]
  const TWO_NAMES: Layout := [Str(64), Str(64)]

  predicate EmptyBody(code: byte) {
    || code == PING || code == STAT || code == USER_LIST || code == QUEUE_LIST || code == ROUTE_LIST
    || code == CHANNEL_LIST
  }

  predicate NameBody(code: byte) {
    || code == QUEUE_DECLARE || code == QUEUE_EXIST || code == QUEUE_SIZE || code == QUEUE_PUSH
    || code == QUEUE_GET || code == QUEUE_UNSUBSCRIBE || code == QUEUE_PURGE || code == QUEUE_DELETE
    || code == ROUTE_EXIST || code == ROUTE_KEYS || code == ROUTE_DELETE || code == CHANNEL_EXIST
    || code == CHANNEL_DELETE
  }

  predicate NameFlagsBody(code: byte) {
    || code == QUEUE_POP || code == QUEUE_SUBSCRIBE || code == ROUTE_CREATE
    || code == CHANNEL_CREATE
  }

  predicate NameTopicBody(code: byte) {
    || code == ROUTE_PUSH || code == CHANNEL_PUBLISH || code == CHANNEL_SUBSCRIBE
    || code == CHANNEL_PSUBSCRIBE || code == CHANNEL_UNSUBSCRIBE || code == CHANNEL_PUNSUBSCRIBE
  }

  /** The body layout of every request the client can build; None for any other code. */
  function LayoutOf(code: byte): Option<Layout> {
    if EmptyBody(code) then Some([])
    else if NameBody(code) then Some(NAME)
    else if NameFlagsBody(code) then Some(NAME_FLAGS)
    else if NameTopicBody(code) then Some(NAME_TOPIC)
    else if code == QUEUE_RENAME || code == ROUTE_RENAME || code == CHANNEL_RENAME then Some(TWO_NAMES)
    else if code == AUTH || code == USER_RENAME then Some([Str(32), Str(32)])
    else if code == SAVE then Some([Num(1)])
    else if code == FLUSH then Some([Num(4)])
    else if code == USER_CREATE then Some([Str(32), Str(32), Num(8)])
    else if code == USER_SET_PERM then Some([Str(32), Num(8)])
    else if code == USER_DELETE then Some(USER)
    else if code == QUEUE_CREATE then Some([Str(64), Num(4), Num(4), Num(4)])
    else if code == QUEUE_CONFIRM then Some([Str(64), Num(8)])
    else if code == ROUTE_BIND || code == ROUTE_UNBIND then Some([Str(64), Str(64), Str(32)])
    else None
  }

  /** The commands whose frame continues with a payload gathered from the message. */
  predicate HasPayload(code: byte) {
    code == QUEUE_PUSH || code == ROUTE_PUSH || code == CHANNEL_PUBLISH
  }

  function SizeOf(fields: Layout): nat {
    if fields == [] then 0 else fields[0].width + SizeOf(fields[1..])
  }

  /** The C types of a builder's parameters: a string for a char array, an unsigned integer otherwise. */
  predicate Typed(fields: Layout, args: seq<Value>) {
    && |fields| == |args|
    && forall i :: 0 <= i < |fields| ==> TypedField(fields[i], args[i])
  }

  predicate TypedField(f: Field, v: Value) {
    match f
    case Str(_) => v.Text?
    case Num(w) => v.Int? && v.n < Pow256(w)
  }

  /** The test every builder makes first: each string fits its array with its terminator. */
  predicate Fits(fields: Layout, args: seq<Value>)
    requires Typed(fields, args)
  {
    forall i :: 0 <= i < |fields| && fields[i].Str? ==> |args[i].s| + 1 <= fields[i].width
  }

  function EncodeField(f: Field, v: Value): (b: bytes)
    requires TypedField(f, v) && (f.Str? ==> |v.s| < f.width)
    ensures |b| == f.width
  {
    match f
    case Str(w) => Pad(v.s, w)
    case Num(w) => LE(v.n, w)
  }

  function DecodeField(f: Field, b: bytes): Value
    requires |b| == f.width
  {
    match f
    case Str(w) => Text(CStr(b))
    case Num(w) => Int(FromLE(b))
  }

  function EncodeFields(fields: Layout, args: seq<Value>): (b: bytes)
    requires Typed(fields, args) && Fits(fields, args)
    ensures |b| == SizeOf(fields)
  {
    if fields == [] then []
    else EncodeField(fields[0], args[0]) + EncodeFields(fields[1..], args[1..])
  }

  function DecodeFields(fields: Layout, b: bytes): seq<Value>
    requires |b| == SizeOf(fields)
  {
    if fields == [] then []
    else
      var w := fields[0].width;
      [DecodeField(fields[0], b[..w])] + DecodeFields(fields[1..], b[w..])
  }

  lemma {:induction false} FieldsRoundTrip(fields: Layout, args: seq<Value>)
    requires Typed(fields, args) && Fits(fields, args)
    ensures DecodeFields(fields, EncodeFields(fields, args)) == args
  {
    hide EncodeField, DecodeField, TypedField;
    if fields != [] {
      var w := fields[0].width;
      var b := EncodeFields(fields, args);
      assert b[..w] == EncodeField(fields[0], args[0]);
      assert b[w..] == EncodeFields(fields[1..], args[1..]);
      FieldRoundTrip(fields[0], args[0]);
      FieldsRoundTrip(fields[1..], args[1..]);
    }
  }

  lemma FieldRoundTrip(f: Field, v: Value)
    requires TypedField(f, v) && (f.Str? ==> |v.s| < f.width)
    ensures DecodeField(f, EncodeField(f, v)) == v
  {
    hide Pad, LE, CStr, FromLE, Pow256;
    match f {
      case Str(w) => PadRoundTrip(v.s, w);
      case Num(w) => LERoundTrip(v.n, w);
    }
  }

  /** No body is longer than the 160 bytes of a route binding. */
  lemma LayoutBound(code: byte)
    requires LayoutOf(code).Some?
    ensures SizeOf(LayoutOf(code).value) <= 160
  {
    var f := LayoutOf(code).value;
    assert |f| <= 4;
    assert SizeOf(f) == if f == [] then 0 else f[0].width + SizeOf(f[1..]);
    if |f| >= 2 {
      assert SizeOf(f[1..]) == f[1].width + SizeOf(f[1..][1..]);
      if |f| >= 3 {
        assert SizeOf(f[1..][1..]) == f[2].width + SizeOf(f[1..][1..][1..]);
        if |f| == 4 {
          assert SizeOf(f[1..][1..][1..]) == f[3].width + SizeOf(f[1..][1..][1..][1..]);
        }
      }
    }
  }
}
