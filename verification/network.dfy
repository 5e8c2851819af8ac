/** The read and write loops over a socket that splits transfers as it likes. */
module Network {
  import opened Bytes

  /** What is still to come on the inbound side: the bytes the peer sends before it closes, and, for
      each read the kernel is going to refuse, how many bytes it delivers before that refusal. */
  datatype Inbound = Inbound(input: bytes, refusals: seq<nat>)

  /** How one gathering write ends: interrupted, refused, or with so many bytes taken. */
  datatype Gather = Interrupted | Rejected | Takes(count: nat)

  /** How many bytes the kernel takes before a write makes no progress, and whether that write
      returns zero or an error. */
  datatype Stall = Stall(room: nat, zero: bool)

  /** The outbound side: every byte put on the wire so far, the stalls still to come on plain writes
      and the outcomes still to come of gathering writes. */
  datatype Outbound = Outbound(wire: bytes, stalls: seq<Stall>, gathers: seq<Gather>)

  // ----- reading -----

  /** The bytes that reads deliver before one of them delivers none. */
  function Available(s: Inbound): (n: nat)
    ensures n <= |s.input|
  {
    if s.refusals == [] || s.refusals[0] > |s.input| then |s.input| else s.refusals[0]
  }

  function Advance(s: Inbound, k: nat): (t: Inbound)
    requires k <= Available(s)
    ensures Available(t) == Available(s) - k
  {
    Inbound(s.input[k..], if s.refusals == [] then [] else [s.refusals[0] - k] + s.refusals[1..])
  }

  /** The stream after a read that delivers nothing. */
  function Refuse(s: Inbound): Inbound
    requires Available(s) == 0
  {
    if s.refusals != [] && s.refusals[0] == 0 then s.(refusals := s.refusals[1..]) else s
  }

  /** The result of an exact read: all count bytes and nothing more, or nothing. A negative count
      reaches the kernel as a size above SSIZE_MAX, which it refuses. */
  function ReadExact(s: Inbound, count: int): (r: (Inbound, Option<bytes>))
    ensures r.1.Some? ==> |r.1.value| == count && s.input == r.1.value + r.0.input
    ensures |r.0.input| <= |s.input| && r.0.input == s.input[|s.input| - |r.0.input|..]
  {
    if count < 0 then (s, None)
    else if count <= Available(s) then (Advance(s, count), Some(s.input[..count]))
    else (Refuse(Advance(s, Available(s))), None)
  }

  // ----- writing -----

  /** The outbound side after the kernel took all of data without stalling. */
  function Accept(s: Outbound, data: bytes): Outbound
    requires s.stalls == [] || |data| <= s.stalls[0].room
  {
    var stalls := if s.stalls == [] then []
                  else [s.stalls[0].(room := s.stalls[0].room - |data|)] + s.stalls[1..];
    s.(wire := s.wire + data, stalls := stalls)
  }

  /** The result of a full write: count, fewer when a write returned zero, or -1. */
  function WriteAll(s: Outbound, data: bytes): (r: (Outbound, int))
    ensures -1 <= r.1 <= |data|
    ensures r.1 >= 0 ==> r.0.wire == s.wire + data[..r.1]
  {
    if s.stalls == [] || |data| <= s.stalls[0].room then (Accept(s, data), |data|)
    else
      var k := s.stalls[0].room;
      (s.(wire := s.wire + data[..k], stalls := s.stalls[1..]), if s.stalls[0].zero then k else -1)
  }

  /** The result of a gathering write, retried for as long as it is interrupted. */
  function WriteGathered(s: Outbound, data: bytes): (r: (Outbound, int))
    ensures -1 <= r.1 <= |data|
    ensures r.0.wire == s.wire + data[..if r.1 < 0 then 0 else r.1]
    decreases |s.gathers|
  {
    if s.gathers == [] then (s.(wire := s.wire + data), |data|)
    else
      var t := s.(gathers := s.gathers[1..]);
      match s.gathers[0]
      case Interrupted => WriteGathered(t, data)
      case Rejected => (t, -1)
      case Takes(n) => var k := if n < |data| then n else |data|; (t.(wire := t.wire + data[..k]), k)
  }

  // ----- laws of the two specifications -----

  /** Reading m bytes and then n more is reading m + n bytes at once. */
  lemma ReadsCompose(s: Inbound, m: nat, n: nat)
    requires ReadExact(s, m).1.Some?
    ensures var (t, x) := ReadExact(s, m); var (u, y) := ReadExact(t, n); var (v, z) := ReadExact(s, m + n);
      && u == v
      && (z.Some? <==> y.Some?)
      && (z.Some? ==> z.value == x.value + y.value)
  {
    var t := Advance(s, m);
    if m + n <= Available(s) {
      assert s.input[..m + n] == s.input[..m] + s.input[m..][..n];
      assert s.input[m..][n..] == s.input[m + n..];
    } else {
      var k := Available(s);
      assert t.input[k - m..] == s.input[k..];
    }
  }

  lemma AdvanceNothing(s: Inbound)
    ensures Advance(s, 0) == s
  {
  }

  lemma AdvanceComposes(s: Inbound, k: nat, n: nat)
    requires k + n <= Available(s)
    ensures Advance(Advance(s, k), n) == Advance(s, k + n)
    ensures s.input[..k] + Advance(s, k).input[..n] == s.input[..k + n]
  {
    assert s.input[k..][n..] == s.input[k + n..];
    assert s.input[..k] + s.input[k..][..n] == s.input[..k + n];
  }

  /** What a read that stops after k bytes has done. */
  lemma ReadStops(s: Inbound, k: nat, count: int)
    requires k <= Available(s) && (k <= count || k == 0)
    ensures k == count ==> ReadExact(s, count) == (Advance(s, k), Some(s.input[..k]))
    ensures count < 0 ==> ReadExact(s, count) == (Advance(s, k), None)
    ensures k < count && Available(Advance(s, k)) == 0 ==> ReadExact(s, count) == (Refuse(Advance(s, k)), None)
  {
    AdvanceNothing(s);
  }

  /** A read fails exactly when the stream ends, or the kernel refuses a read, before its last byte. */
  lemma ReadFails(s: Inbound, count: nat)
    ensures ReadExact(s, count).1.None?
       <==> |s.input| < count || (s.refusals != [] && s.refusals[0] < count)
  {
  }

  /** A write puts the whole buffer on the wire exactly when no stall comes before its last byte. */
  lemma WriteCompletes(s: Outbound, data: bytes)
    ensures WriteAll(s, data).1 == |data| <==> s.stalls == [] || |data| <= s.stalls[0].room
    ensures WriteAll(s, data).1 == |data| ==> WriteAll(s, data).0.wire == s.wire + data
  {
  }

  /** What the kernel does with a gathering write once it is no longer interrupted; None takes all. */
  function Settled(gathers: seq<Gather>): Option<Gather> {
    if gathers == [] then None
    else if gathers[0].Interrupted? then Settled(gathers[1..])
    else Some(gathers[0])
  }

  /** What is left of the outcomes after the one that settles a gathering write. */
  function Unsettled(gathers: seq<Gather>): seq<Gather> {
    if gathers == [] then []
    else if gathers[0].Interrupted? then Unsettled(gathers[1..])
    else gathers[1..]
  }

  lemma {:induction false} GatherRejected(s: Outbound, data: bytes)
    ensures WriteGathered(s, data).1 == -1 <==> Settled(s.gathers) == Some(Rejected)
    decreases |s.gathers|
  {
    if s.gathers != [] && s.gathers[0].Interrupted? {
      GatherRejected(s.(gathers := s.gathers[1..]), data);
    }
  }

  /** A gathering write puts all it has on the wire, or nothing, or the start that the kernel takes; and it has used
      up the interruptions and the outcome that ended it. */
  lemma {:induction false} GatheredOutcome(s: Outbound, data: bytes)
    ensures var (t, n) := WriteGathered(s, data);
      && t.stalls == s.stalls && t.gathers == Unsettled(s.gathers)
      && match Settled(s.gathers)
         case None => n == |data| && t.wire == s.wire + data
         case Some(Takes(c)) => n == (if c < |data| then c else |data|) && t.wire == s.wire + data[..n]
         case Some(_) => n == -1 && t.wire == s.wire
    decreases |s.gathers|
  {
    if s.gathers != [] && s.gathers[0].Interrupted? {
      GatheredOutcome(s.(gathers := s.gathers[1..]), data);
    }
  }

  lemma AcceptNothing(s: Outbound)
    ensures Accept(s, []) == s
  {
  }

  lemma AcceptComposes(s: Outbound, data: bytes, k: nat, n: nat)
    requires k + n <= |data| && (s.stalls == [] || k + n <= s.stalls[0].room)
    ensures Accept(Accept(s, data[..k]), data[k..][..n]) == Accept(s, data[..k + n])
  {
    SlicesJoin(data, k, n);
    AcceptTwice(s, data[..k], data[k..][..n]);
  }

  lemma SlicesJoin(data: bytes, k: nat, n: nat)
    requires k + n <= |data|
    ensures data[..k] + data[k..][..n] == data[..k + n]
  {
  }

  lemma AcceptTwice(s: Outbound, a: bytes, b: bytes)
    requires s.stalls == [] || |a| + |b| <= s.stalls[0].room
    ensures Accept(Accept(s, a), b) == Accept(s, a + b)
  {
    assert s.wire + a + b == s.wire + (a + b);
  }

  // ----- the socket -----

  class Socket {
    var inbound: Inbound
    var outbound: Outbound

    constructor (i: Inbound, o: Outbound)
      ensures inbound == i && outbound == o
    {
      inbound, outbound := i, o;
    }

    /** read(2): any positive number of the bytes that are available, up to count; when there are none,
        zero or -1, which the callers do not tell apart; -1 when count is not a valid size. */
    method OsRead(buf: array<byte>, offset: nat, count: int) returns (n: int)
      requires count != 0 && offset <= buf.Length && offset + count <= buf.Length
      modifies this`inbound, buf
      ensures count < 0 ==> n == -1 && inbound == old(inbound)
      ensures count > 0 && Available(old(inbound)) == 0 ==> (n == 0 || n == -1) && inbound == Refuse(old(inbound))
      ensures count > 0 && Available(old(inbound)) > 0 ==>
        && 0 < n <= count && n <= Available(old(inbound)) && inbound == Advance(old(inbound), n)
        && buf[offset..offset + n] == old(inbound).input[..n]
      ensures buf[..offset] == old(buf[..offset])
    {
      var available := Available(inbound);
      if count < 0 {
        n := -1;
      } else if available == 0 {
        n := *;
        if n != 0 { n := -1; }
        inbound := Refuse(inbound);
      } else {
        n := *;
        if !(1 <= n <= count && n <= available) { n := 1; }
        var chunk := inbound.input[..n];
        forall i | 0 <= i < n { buf[offset + i] := chunk[i]; }
        inbound := Advance(inbound, n);
      }
    }

    /** write(2): any positive number of bytes up to count and to the room that is left; when there is
        no room, zero or -1 as the stall says. */
    method OsWrite(data: bytes) returns (n: int)
      requires data != []
      modifies this`outbound
      ensures var o := old(outbound);
        if o.stalls != [] && o.stalls[0].room == 0 then
          n == (if o.stalls[0].zero then 0 else -1) && outbound == o.(stalls := o.stalls[1..])
        else
          && 0 < n <= |data| && (o.stalls == [] || n <= o.stalls[0].room)
          && outbound == Accept(o, data[..n])
    {
      if outbound.stalls != [] && outbound.stalls[0].room == 0 {
        n := if outbound.stalls[0].zero then 0 else -1;
        outbound := outbound.(stalls := outbound.stalls[1..]);
      } else {
        n := *;
        if !(1 <= n <= |data| && (outbound.stalls == [] || n <= outbound.stalls[0].room)) { n := 1; }
        outbound := Accept(outbound, data[..n]);
      }
    }

    /** emq_client_read: whatever the sizes of the single reads, count bytes in order or a failure. */
    method Read(buf: array<byte>, count: int) returns (r: int)
      requires count <= buf.Length
      modifies this`inbound, buf
      ensures var (s, data) := ReadExact(old(inbound), count);
        && inbound == s
        && (data.Some? ==> r == count && buf[..count] == data.value)
        && (data.None? ==> r == -1)
    {
      hide Advance, Available, Refuse, ReadExact;
      ghost var s := inbound;
      var totlen := 0;
      AdvanceNothing(s);
      while totlen != count
        invariant 0 <= totlen <= Available(s) && (totlen <= count || totlen == 0)
        invariant inbound == Advance(s, totlen)
        invariant totlen <= buf.Length && buf[..totlen] == s.input[..totlen]
        decreases count - totlen
      {
        ReadStops(s, totlen, count);
        var nread := OsRead(buf, totlen, count - totlen);
        if nread == -1 || nread == 0 { return -1; }
        AdvanceComposes(s, totlen, nread);
        assert buf[..totlen + nread] == buf[..totlen] + buf[totlen..totlen + nread];
        totlen := totlen + nread;
      }
      ReadStops(s, totlen, count);
      return totlen;
    }

    /** emq_client_write: a result r >= 0 means that exactly the first r bytes are on the wire. */
    method Write(buf: array<byte>, count: nat) returns (r: int)
      requires count <= buf.Length
      modifies this`outbound
      ensures (outbound, r) == WriteAll(old(outbound), buf[..count])
    {
      ghost var o, data := outbound, buf[..count];
      var totlen := 0;
      AcceptNothing(o);
      while totlen != count
        invariant 0 <= totlen <= count
        invariant o.stalls == [] || totlen <= o.stalls[0].room
        invariant outbound == Accept(o, data[..totlen])
      {
        assert buf[totlen..count] == data[totlen..];
        var nwritten := OsWrite(buf[totlen..count]);
        if nwritten == 0 { return totlen; }
        if nwritten == -1 { return -1; }
        AcceptComposes(o, data, totlen, nwritten);
        totlen := totlen + nwritten;
      }
      return totlen;
    }

    /** One writev(2) call. */
    method OsWritev(data: bytes) returns (n: int, interrupted: bool)
      modifies this`outbound
      ensures var o := old(outbound);
        if o.gathers != [] && o.gathers[0].Interrupted? then
          n == -1 && interrupted && outbound == o.(gathers := o.gathers[1..])
        else
          (outbound, n) == WriteGathered(o, data) && !interrupted
    {
      interrupted := outbound.gathers != [] && outbound.gathers[0].Interrupted?;
      if interrupted {
        n, outbound := -1, outbound.(gathers := outbound.gathers[1..]);
      } else {
        var r := WriteGathered(outbound, data);
        outbound, n := r.0, r.1;
      }
    }

    /** emq_client_writev: one gathering write, retried for as long as it is interrupted. */
    method Writev(data: bytes) returns (r: int)
      modifies this`outbound
      ensures (outbound, r) == WriteGathered(old(outbound), data)
    {
      var interrupted;
      r, interrupted := OsWritev(data);
      while r == -1 && interrupted
        invariant interrupted ==> r == -1 && WriteGathered(outbound, data) == WriteGathered(old(outbound), data)
        invariant !interrupted ==> (outbound, r) == WriteGathered(old(outbound), data)
        decreases |outbound.gathers| + if interrupted then 1 else 0
      {
        r, interrupted := OsWritev(data);
      }
    }
  }
}
