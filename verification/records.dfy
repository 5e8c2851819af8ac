/** The record arrays in the bodies of list replies. */
module Records {
  import opened Bytes
  import opened Lists

  datatype Kind = Users | Queues | Routes | RouteKeys | Channels

  /** One record as the client stores it; char arrays are copied whole, terminated or not. */
  datatype Record =
    | UserRecord(name: bytes, password: bytes, perm: nat)
    | QueueInfo(name: bytes, maxMsg: nat, maxMsgSize: nat, flags: nat, size: nat, declared: nat, subscribed: nat)
    | RouteInfo(name: bytes, flags: nat, keys: nat)
    | RouteKey(key: bytes, queue: bytes)
    | ChannelInfo(name: bytes, flags: nat, topics: nat, patterns: nat)

  function RecordSize(kind: Kind): (n: nat)
    ensures n > 0
  {
    match kind
    case Users => 72
    case Queues => 88
    case Routes => 72
    case RouteKeys => 96
    case Channels => 76
  }

  /** The memcpy calls of one turn of a decode loop, from the start of the record. */
  function DecodeRecord(kind: Kind, b: bytes): Record
    requires |b| == RecordSize(kind)
  {
    match kind
    case Users => UserRecord(b[..32], b[32..64], FromLE(b[64..]))
    case Queues => QueueInfo(b[..64], FromLE(b[64..68]), FromLE(b[68..72]), FromLE(b[72..76]),
                             FromLE(b[76..80]), FromLE(b[80..84]), FromLE(b[84..]))
    case Routes => RouteInfo(b[..64], FromLE(b[64..68]), FromLE(b[68..]))
    case RouteKeys => RouteKey(b[..32], b[32..])
    case Channels => ChannelInfo(b[..64], FromLE(b[64..68]), FromLE(b[68..72]), FromLE(b[72..]))
  }

  predicate Word(n: nat) {
    n < Pow256(4)
  }

  /** The field widths of a record of a kind. */
  predicate OfKind(kind: Kind, r: Record) {
    match kind
    case Users => r.UserRecord? && |r.name| == 32 && |r.password| == 32 && r.perm < Pow256(8)
    case Queues => r.QueueInfo? && |r.name| == 64 && Word(r.maxMsg) && Word(r.maxMsgSize) && Word(r.flags)
                   && Word(r.size) && Word(r.declared) && Word(r.subscribed)
    case Routes => r.RouteInfo? && |r.name| == 64 && Word(r.flags) && Word(r.keys)
    case RouteKeys => r.RouteKey? && |r.key| == 32 && |r.queue| == 64
    case Channels => r.ChannelInfo? && |r.name| == 64 && Word(r.flags) && Word(r.topics) && Word(r.patterns)
  }

  /** A record as the server writes it. */
  function EncodeRecord(r: Record): bytes {
    match r
    case UserRecord(name, password, perm) => name + password + LE(perm, 8)
    case QueueInfo(name, m, ms, f, s, d, c) =>
      name + LE(m, 4) + LE(ms, 4) + LE(f, 4) + LE(s, 4) + LE(d, 4) + LE(c, 4)
    case RouteInfo(name, flags, keys) => name + LE(flags, 4) + LE(keys, 4)
    case RouteKey(key, queue) => key + queue
    case ChannelInfo(name, flags, topics, patterns) => name + LE(flags, 4) + LE(topics, 4) + LE(patterns, 4)
  }

  lemma WordRoundTrip(n: nat)
    requires Word(n)
    ensures FromLE(LE(n, 4)) == n
  {
    LERoundTrip(n, 4);
  }

  lemma RecordRoundTrip(kind: Kind, r: Record)
    requires OfKind(kind, r)
    ensures |EncodeRecord(r)| == RecordSize(kind)
    ensures DecodeRecord(kind, EncodeRecord(r)) == r
  {
    hide LE, FromLE, Pow256;
    var b := EncodeRecord(r);
    match r {
      case UserRecord(name, password, perm) =>
        LERoundTrip(perm, 8);
        assert b[..32] == name && b[32..64] == password && b[64..] == LE(perm, 8);
      case QueueInfo(name, m, ms, f, s, d, c) =>
        WordRoundTrip(m); WordRoundTrip(ms); WordRoundTrip(f);
        WordRoundTrip(s); WordRoundTrip(d); WordRoundTrip(c);
        assert b[..64] == name && b[64..68] == LE(m, 4) && b[68..72] == LE(ms, 4) && b[72..76] == LE(f, 4);
        assert b[76..80] == LE(s, 4) && b[80..84] == LE(d, 4) && b[84..] == LE(c, 4);
      case RouteInfo(name, flags, keys) =>
        WordRoundTrip(flags); WordRoundTrip(keys);
        assert b[..64] == name && b[64..68] == LE(flags, 4) && b[68..] == LE(keys, 4);
      case RouteKey(key, queue) =>
        assert b[..32] == key && b[32..] == queue;
      case ChannelInfo(name, flags, topics, patterns) =>
        WordRoundTrip(flags); WordRoundTrip(topics); WordRoundTrip(patterns);
        assert b[..64] == name && b[64..68] == LE(flags, 4) && b[68..72] == LE(topics, 4);
        assert b[72..] == LE(patterns, 4);
    }
  }

  /** The records of a body in wire order; only whole records are there to be read. */
  function DecodeRecords(kind: Kind, b: bytes): (rs: seq<Record>)
    ensures |rs| == |b| / RecordSize(kind)
    decreases |b|
  {
    var n := RecordSize(kind);
    if |b| < n then []
    else [DecodeRecord(kind, b[..n])] + DecodeRecords(kind, b[n..])
  }

  predicate AllOfKind(kind: Kind, rs: seq<Record>) {
    forall i :: 0 <= i < |rs| ==> OfKind(kind, rs[i])
  }

  function EncodeRecords(rs: seq<Record>): bytes {
    if rs == [] then [] else EncodeRecord(rs[0]) + EncodeRecords(rs[1..])
  }

  lemma {:induction false} RecordsRoundTrip(kind: Kind, rs: seq<Record>)
    requires AllOfKind(kind, rs)
    ensures |EncodeRecords(rs)| == |rs| * RecordSize(kind)
    ensures DecodeRecords(kind, EncodeRecords(rs)) == rs
  {
    hide DecodeRecord, EncodeRecord, OfKind;
    if rs != [] {
      RecordRoundTrip(kind, rs[0]);
      RecordsRoundTrip(kind, rs[1..]);
      var b, n := EncodeRecords(rs), RecordSize(kind);
      assert b[..n] == EncodeRecord(rs[0]) && b[n..] == EncodeRecords(rs[1..]);
      assert |rs| * n == n + (|rs| - 1) * n;
    }
  }

  lemma Reencoded(b: bytes, i: nat, j: nat)
    requires i + 4 == j <= |b|
    ensures LE(FromLE(b[i..j]), 4) == b[i..j] && Word(FromLE(b[i..j]))
  {
    FromLERoundTrip(b[i..j]);
  }

  lemma QueueReencodes(b: bytes)
    requires |b| == RecordSize(Queues)
    ensures OfKind(Queues, DecodeRecord(Queues, b)) && EncodeRecord(DecodeRecord(Queues, b)) == b
  {
    hide LE, FromLE, Pow256;
    Reencoded(b, 64, 68); Reencoded(b, 68, 72); Reencoded(b, 72, 76);
    Reencoded(b, 76, 80); Reencoded(b, 80, 84); Reencoded(b, 84, 88);
    assert b[84..] == b[84..88];
  }

  /** Every block of the right size is one record, and encodes back to itself. */
  lemma RecordReencodes(kind: Kind, b: bytes)
    requires |b| == RecordSize(kind)
    ensures OfKind(kind, DecodeRecord(kind, b)) && EncodeRecord(DecodeRecord(kind, b)) == b
  {
    hide LE, FromLE, Pow256;
    match kind {
      case Users => FromLERoundTrip(b[64..]);
      case Queues => QueueReencodes(b);
      case Routes =>
        Reencoded(b, 64, 68); Reencoded(b, 68, 72);
        assert b[68..] == b[68..72];
      case RouteKeys =>
      case Channels =>
        Reencoded(b, 64, 68); Reencoded(b, 68, 72); Reencoded(b, 72, 76);
        assert b[72..] == b[72..76];
    }
  }

  /** Nothing is lost in decoding: the records of any body encode back to its whole records. */
  lemma {:induction false} RecordsReencode(kind: Kind, b: bytes)
    ensures AllOfKind(kind, DecodeRecords(kind, b))
    ensures EncodeRecords(DecodeRecords(kind, b)) == b[..|b| - |b| % RecordSize(kind)]
    decreases |b|
  {
    hide DecodeRecord, EncodeRecord, OfKind, RecordSize;
    var n := RecordSize(kind);
    if |b| < n {
      Remainder(|b|, n, 0, |b|);
    } else {
      RecordReencodes(kind, b[..n]);
      RecordsReencode(kind, b[n..]);
      var record, rest := DecodeRecord(kind, b[..n]), DecodeRecords(kind, b[n..]);
      assert DecodeRecords(kind, b) == [record] + rest && ([record] + rest)[1..] == rest;
      SameRemainder(|b|, n);
      assert b[..n] + b[n..][..|b| - n - |b| % n] == b[..|b| - |b| % n];
    }
  }

  lemma SameRemainder(m: int, n: int)
    requires 0 < n <= m
    ensures (m - n) % n == m % n <= m - n
  {
    var q, r := (m - n) / n, (m - n) % n;
    assert (q + 1) * n == q * n + n;
    Remainder(m, n, q + 1, r);
    assert q >= 0;
    assert q * n >= 0;
  }

  /** The decode loop of every list reply. The 32-bit index meets bodylen exactly when the body is a
      whole number of records; otherwise the last turn reads past the buffer, and the model stops. */
  method DecodeList(kind: Kind, buffer: array<byte>, bodylen: nat) returns (list: List<Record>, inside: bool)
    requires bodylen <= buffer.Length && bodylen < WORD32
    ensures fresh(list) && fresh(list.repr) && list.Valid() && list.free
    ensures inside <==> bodylen % RecordSize(kind) == 0
    ensures inside ==> list.Values() == Reverse(DecodeRecords(kind, buffer[..bodylen]))
  {
    hide DecodeRecord, DecodeRecords, RecordSize, Multiple, List.Valid;
    list := new List();
    list.SetFreeMethod();
    var body := buffer[..bodylen];
    var size, i := RecordSize(kind), 0;
    ghost var turns := 0;
    NoTurn(size);
    assert body[0..] == body;
    while i < bodylen
      invariant 0 <= i <= bodylen && Multiple(i, size, turns)
      invariant fresh(list.repr) && list.Valid() && list.free
      invariant Reverse(DecodeRecords(kind, body))
             == Reverse(DecodeRecords(kind, body[i..])) + list.Values()
    {
      if i + size > bodylen {
        Remainder(bodylen, size, turns, bodylen - i);
        return list, false;
      }
      var record := DecodeRecord(kind, body[i..i + size]);
      DecodeTurn(kind, body, i, list.Values());
      list.AddValue(record);
      Remainder(i, size, turns, 0);
      i, turns := (i + size) % WORD32, turns + 1;
    }
    Remainder(bodylen, size, turns, 0);
    NoRecords(kind, body[i..]);
    inside := true;
  }

  lemma NoRecords(kind: Kind, b: bytes)
    requires b == []
    ensures DecodeRecords(kind, b) == []
  {
  }

  lemma DecodeTurn(kind: Kind, body: bytes, i: nat, done: seq<Record>)
    requires i + RecordSize(kind) <= |body|
    ensures var n := RecordSize(kind); var record := DecodeRecord(kind, body[i..i + n]);
      Reverse(DecodeRecords(kind, body[i..])) + done
      == Reverse(DecodeRecords(kind, body[i + n..])) + ([record] + done)
  {
    hide DecodeRecord;
    var n := RecordSize(kind);
    var record, rest := DecodeRecord(kind, body[i..i + n]), DecodeRecords(kind, body[i + n..]);
    assert body[i..][..n] == body[i..i + n] && body[i..][n..] == body[i + n..];
    assert DecodeRecords(kind, body[i..]) == [record] + rest;
    assert ([record] + rest)[1..] == rest;
  }

  ghost predicate Multiple(n: int, size: int, turns: int) {
    n == turns * size
  }

  lemma NoTurn(size: int)
    ensures Multiple(0, size, 0)
  {
  }

  lemma Remainder(n: int, size: int, turns: int, r: int)
    requires 0 <= r < size && Multiple(n - r, size, turns)
    ensures n % size == r
    ensures Multiple(n - r + size, size, turns + 1)
  {
    var d: int := turns - n / size;
    assert d * size + r == n % size;
    assert d >= 1 ==> d * size >= size;
    assert d <= -1 ==> d * size <= -size;
  }

  /** Encoding any records and running the decode loop on them gives the same records, last first. */
  method DecodeEncoded(kind: Kind, rs: seq<Record>) returns (list: List<Record>)
    requires AllOfKind(kind, rs) && |EncodeRecords(rs)| < WORD32
    ensures list.Valid() && list.Values() == Reverse(rs)
  {
    hide DecodeRecord, EncodeRecord, OfKind, List.Valid, DecodeRecords;
    var body := EncodeRecords(rs);
    RecordsRoundTrip(kind, rs);
    var buffer := new byte[|body|](i requires 0 <= i < |body| => body[i]);
    assert buffer[..|body|] == body;
    Remainder(|body|, RecordSize(kind), |rs|, 0);
    var inside;
    list, inside := DecodeList(kind, buffer, |body|);
  }
}
