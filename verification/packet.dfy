/** Request frames, reply checks and the mapping of server statuses to error texts. */
module Packet {
  import opened Bytes
  import opened Protocol

  // ----- errors -----

  type ErrorIndex = e: int | 0 <= e < 13

  const NO_ERROR: ErrorIndex := 0
  const ERROR_ALLOC: ErrorIndex := 1
  const ERROR_DATA: ErrorIndex := 2
  const ERROR_WRITE: ErrorIndex := 3
  const ERROR_READ: ErrorIndex := 4
  const ERROR_RESPONSE: ErrorIndex := 5

  /** The text stored in the client for each error; every index is inside the table. */
  function ErrorText(e: ErrorIndex): (t: string)
    ensures |t| < 256
    ensures t == "" <==> e == NO_ERROR
  {
    [
      "", "Error allocate memory", "Error input data", "Error write request", "Error read request",
      "Response error", "Packet error", "Command error", "Access error", "Memory error",
      "Value not declared", "Value not found", "No data"
    ][e]
  }

  function ErrorOf(status: byte): ErrorIndex {
    match status
    case 0x3 => 6
    case 0x4 => 7
    case 0x5 => 8
    case 0x6 => 9
    case 0x8 => 10
    case 0x9 => 11
    case 0xA => 12
    case _ => NO_ERROR
  }

  /** Over all 256 statuses: seven have an error of their own, no two the same, and every other
      status - the generic error 0x2 and the value error 0x7 among them - maps to the empty text. */
  lemma ErrorOfStatuses(s: byte, t: byte)
    ensures ErrorOf(s) == NO_ERROR <==> s !in {0x3, 0x4, 0x5, 0x6, 0x8, 0x9, 0xA}
    ensures ErrorOf(s) == ErrorOf(t) != NO_ERROR ==> s == t
    ensures ErrorOf(s) !in {ERROR_ALLOC, ERROR_DATA, ERROR_WRITE, ERROR_READ, ERROR_RESPONSE}
    ensures ErrorText(ErrorOf(0x2)) == "" == ErrorText(ErrorOf(0x7))
  {
  }

  // ----- reply and event checks -----

  predicate ResponseMatches(h: Header, code: byte, bodylen: nat) {
    h.magic == RES && h.code == code && h.bodylen == bodylen
  }

  predicate ResponseMatchesMini(h: Header, code: byte) {
    h.magic == RES && h.code == code
  }

  predicate EventMatches(h: Header, type1: byte, type2: byte) {
    h.magic == EVENT && (h.aux == type1 || h.aux == type2)
  }

  // ----- request frames -----

  /** One request as the peer sees it; the payload is what follows the packed body. */
  datatype Request = Request(code: byte, noack: bool, args: seq<Value>, payload: bytes)

  predicate Accepts(code: byte, args: seq<Value>) {
    LayoutOf(code).Some? && Typed(LayoutOf(code).value, args)
  }

  predicate Buildable(code: byte, args: seq<Value>) {
    Accepts(code, args) && Fits(LayoutOf(code).value, args)
  }

  /** The bodylen a builder writes, for a body followed by extra bytes: a 32-bit sum of 32-bit terms. */
  function BodyLength(code: byte, extra: nat): (n: nat)
    requires LayoutOf(code).Some?
    ensures n < WORD32
  {
    (SizeOf(LayoutOf(code).value) + extra % WORD32) % WORD32
  }

  function RequestHeader(code: byte, noack: bool, extra: nat): (h: Header)
    requires LayoutOf(code).Some?
    ensures SizeOf(LayoutOf(code).value) + extra < WORD32
      ==> h.bodylen == SizeOf(LayoutOf(code).value) + extra
  {
    Header(REQ, code, if noack then 1 else 0, BodyLength(code, extra))
  }

  /** The frame a builder leaves in the request buffer: header and packed body. */
  function Frame(code: byte, noack: bool, args: seq<Value>, extra: nat): (f: bytes)
    requires Buildable(code, args)
    ensures |f| == HEADER_SIZE + SizeOf(LayoutOf(code).value)
  {
    EncodeHeader(RequestHeader(code, noack, extra)) + EncodeFields(LayoutOf(code).value, args)
  }

  predicate ValidRequest(r: Request) {
    && Buildable(r.code, r.args)
    && (r.payload != [] ==> HasPayload(r.code))
    && SizeOf(LayoutOf(r.code).value) + |r.payload| < WORD32
  }

  function EncodeRequest(r: Request): (f: bytes)
    requires Buildable(r.code, r.args)
    ensures |f| == HEADER_SIZE + SizeOf(LayoutOf(r.code).value) + |r.payload|
  {
    Frame(r.code, r.noack, r.args, |r.payload|) + r.payload
  }

  /** A peer's reader: header, then bodylen bytes, split by the layout of the command code. */
  function DecodeRequest(s: bytes): (r: Option<(Request, bytes)>)
    ensures r.Some? ==> |r.value.1| < |s|
  {
    if |s| < HEADER_SIZE then None
    else
      var h := DecodeHeader(s[..HEADER_SIZE]);
      if h.magic != REQ || h.aux > 1 || LayoutOf(h.code).None? then None
      else
        var fields := LayoutOf(h.code).value;
        var n := SizeOf(fields);
        var end := HEADER_SIZE + h.bodylen;
        if h.bodylen < n || (h.bodylen > n && !HasPayload(h.code)) || |s| < end then None
        else
          var args := DecodeFields(fields, s[HEADER_SIZE..HEADER_SIZE + n]);
          Some((Request(h.code, h.aux == 1, args, s[HEADER_SIZE + n..end]), s[end..]))
  }

  predicate AllBuildable(rs: seq<Request>) {
    forall i :: 0 <= i < |rs| ==> Buildable(rs[i].code, rs[i].args)
  }

  predicate AllValid(rs: seq<Request>) {
    forall i :: 0 <= i < |rs| ==> ValidRequest(rs[i])
  }

  function EncodeRequests(rs: seq<Request>): bytes
    requires AllBuildable(rs)
  {
    if rs == [] then [] else EncodeRequest(rs[0]) + EncodeRequests(rs[1..])
  }

  function DecodeRequests(s: bytes): Option<seq<Request>>
    decreases |s|
  {
    if s == [] then Some([])
    else
      match DecodeRequest(s)
      case None => None
      case Some((r, rest)) =>
        match DecodeRequests(rest)
        case None => None
        case Some(rs) => Some([r] + rs)
  }

  /** The header announces exactly the bytes that follow it if and only if they number below 2^32. */
  lemma BodyLengthExact(r: Request)
    requires Buildable(r.code, r.args)
    ensures var f := EncodeRequest(r);
      DecodeHeader(f[..HEADER_SIZE]).bodylen == |f| - HEADER_SIZE
      <==> SizeOf(LayoutOf(r.code).value) + |r.payload| < WORD32
  {
    var h := RequestHeader(r.code, r.noack, |r.payload|);
    HeaderRoundTrip(h);
    assert EncodeRequest(r)[..HEADER_SIZE] == EncodeHeader(h);
    LayoutBound(r.code);
  }

  lemma Slices(a: bytes, b: bytes, c: bytes, d: bytes)
    ensures var s := a + b + c + d; var i := |a| + |b|; var j := i + |c|;
      s[..|a|] == a && s[|a|..i] == b && s[i..j] == c && s[j..] == d
  {
  }

  lemma DecodeParts(h: Header, fields: Layout, body: bytes, payload: bytes, rest: bytes)
    requires h.magic == REQ && h.aux <= 1 && h.bodylen == |body| + |payload| < WORD32
    requires LayoutOf(h.code) == Some(fields) && |body| == SizeOf(fields)
    requires payload != [] ==> HasPayload(h.code)
    ensures DecodeRequest(EncodeHeader(h) + body + payload + rest)
         == Some((Request(h.code, h.aux == 1, DecodeFields(fields, body), payload), rest))
  {
    HeaderRoundTrip(h);
    Slices(EncodeHeader(h), body, payload, rest);
  }

  lemma RequestRoundTrip(r: Request, rest: bytes)
    requires ValidRequest(r)
    ensures DecodeRequest(EncodeRequest(r) + rest) == Some((r, rest))
  {
    var fields := LayoutOf(r.code).value;
    var body := EncodeFields(fields, r.args);
    FieldsRoundTrip(fields, r.args);
    DecodeParts(RequestHeader(r.code, r.noack, |r.payload|), fields, body, r.payload, rest);
  }

  /** A stream of requests decodes to exactly the requests that produced it. */
  lemma {:induction false} RequestsRoundTrip(rs: seq<Request>)
    requires AllValid(rs)
    ensures DecodeRequests(EncodeRequests(rs)) == Some(rs)
  {
    hide EncodeRequest, DecodeRequest, LayoutOf, Fits, Typed;
    if rs != [] {
      RequestRoundTrip(rs[0], EncodeRequests(rs[1..]));
      RequestsRoundTrip(rs[1..]);
      assert [rs[0]] + rs[1..] == rs;
    }
  }

  /** Unique decoding: no two sequences of requests produce the same bytes. */
  lemma RequestsInjective(rs: seq<Request>, qs: seq<Request>)
    requires AllBuildable(rs) && AllBuildable(qs)
    ensures AllValid(rs) && AllValid(qs) && EncodeRequests(rs) == EncodeRequests(qs) ==> rs == qs
  {
    if AllValid(rs) && AllValid(qs) {
      RequestsRoundTrip(rs);
      RequestsRoundTrip(qs);
    }
  }

  lemma {:induction false} EncodeRequestsAppend(rs: seq<Request>, qs: seq<Request>)
    requires AllBuildable(rs) && AllBuildable(qs)
    ensures EncodeRequests(rs + qs) == EncodeRequests(rs) + EncodeRequests(qs)
  {
    if rs == [] {
      assert rs + qs == qs;
    } else {
      assert (rs + qs)[0] == rs[0] && (rs + qs)[1..] == rs[1..] + qs;
      EncodeRequestsAppend(rs[1..], qs);
    }
  }

  // ----- the builders -----

  /** The body of every request builder after its length test: a struct is zeroed, its header set,
      and each argument copied to its offset - a string with its terminator, an integer as it is. */
  method BuildFrame(code: byte, noack: bool, args: seq<Value>, extra: nat) returns (req: array<byte>)
    requires Buildable(code, args)
    ensures fresh(req) && req[..] == Frame(code, noack, args, extra)
  {
    var fields := LayoutOf(code).value;
    req := new byte[HEADER_SIZE + SizeOf(fields)](_ => 0);
    var header := EncodeHeader(RequestHeader(code, noack, extra));
    forall i | 0 <= i < HEADER_SIZE { req[i] := header[i]; }
    assert req[..HEADER_SIZE] == header;
    FillBody(req, fields, args);
    assert req[..] == req[..HEADER_SIZE] + req[HEADER_SIZE..];
  }

  lemma SuffixStep(fields: Layout, args: seq<Value>, k: nat)
    requires Typed(fields, args) && Fits(fields, args) && k < |fields|
    ensures TypedField(fields[k], args[k]) && (fields[k].Str? ==> |args[k].s| < fields[k].width)
    ensures SizeOf(fields[k..]) == fields[k].width + SizeOf(fields[k + 1..])
    ensures EncodeFields(fields[k..], args[k..])
         == EncodeField(fields[k], args[k]) + EncodeFields(fields[k + 1..], args[k + 1..])
  {
    assert fields[k..][1..] == fields[k + 1..] && args[k..][1..] == args[k + 1..];
  }

  lemma Extended(a: bytes, done: bytes, next: bytes, more: bytes, whole: bytes)
    requires a == done + next && done + (next + more) == whole
    ensures a + more == whole
  {
  }

  method FillBody(req: array<byte>, fields: Layout, args: seq<Value>)
    requires Typed(fields, args) && Fits(fields, args)
    requires req.Length == HEADER_SIZE + SizeOf(fields)
    requires forall i :: HEADER_SIZE <= i < req.Length ==> req[i] == 0
    modifies req
    ensures req[..HEADER_SIZE] == old(req[..HEADER_SIZE])
    ensures req[HEADER_SIZE..] == EncodeFields(fields, args)
  {
    hide LE, EncodeFields, EncodeField, SizeOf, TypedField, Pow256;
    ghost var whole := EncodeFields(fields, args);
    var k, offset := 0, HEADER_SIZE;
    assert fields[0..] == fields && args[0..] == args;
    while k < |fields|
      invariant 0 <= k <= |fields| && HEADER_SIZE <= offset
      invariant offset + SizeOf(fields[k..]) == req.Length
      invariant req[..HEADER_SIZE] == old(req[..HEADER_SIZE])
      invariant forall i :: offset <= i < req.Length ==> req[i] == 0
      invariant req[HEADER_SIZE..offset] + EncodeFields(fields[k..], args[k..]) == whole
    {
      SuffixStep(fields, args, k);
      var next := offset + fields[k].width;
      ghost var done := req[HEADER_SIZE..offset];
      CopyField(req, offset, fields[k], args[k]);
      Extended(req[HEADER_SIZE..next], done, EncodeField(fields[k], args[k]),
               EncodeFields(fields[k + 1..], args[k + 1..]), whole);
      offset, k := next, k + 1;
    }
    NoFields(fields[k..], args[k..]);
  }

  lemma NoFields(fields: Layout, args: seq<Value>)
    requires fields == [] && args == []
    ensures SizeOf(fields) == 0 && EncodeFields(fields, args) == []
  {
  }

  /** memcpy of one argument into a field that is still zero: a string with its terminator, or the
      bytes of an integer. */
  method CopyField(req: array<byte>, offset: nat, f: Field, v: Value)
    requires TypedField(f, v) && (f.Str? ==> |v.s| < f.width)
    requires HEADER_SIZE <= offset && offset + f.width <= req.Length
    requires forall i :: offset <= i < req.Length ==> req[i] == 0
    modifies req
    ensures req[..offset] == old(req[..offset])
    ensures req[offset..offset + f.width] == EncodeField(f, v)
    ensures forall i :: offset + f.width <= i < req.Length ==> req[i] == 0
    ensures req[..HEADER_SIZE] == old(req[..HEADER_SIZE])
    ensures req[HEADER_SIZE..offset + f.width] == old(req[HEADER_SIZE..offset]) + EncodeField(f, v)
  {
    hide LE;
    var source := match v case Text(s) => s + [0] case Int(n) => LE(n, f.width);
    forall i | 0 <= i < |source| { req[offset + i] := source[i]; }
    assert req[HEADER_SIZE..offset + f.width] == req[..offset][HEADER_SIZE..] + req[offset..offset + f.width];
    assert req[..offset][HEADER_SIZE..] == old(req[..offset])[HEADER_SIZE..];
    assert req[..HEADER_SIZE] == req[..offset][..HEADER_SIZE];
  }
}
