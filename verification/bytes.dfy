/** Bytes, C strings and little-endian integers: what a packed struct on the wire is made of. */
module Bytes {

  datatype Option<+T> = None | Some(value: T)

  type byte = x: int | 0 <= x < 256
  type bytes = seq<byte>

  /** A C string without its terminator: no byte of it is NUL. */
  type CString = s: bytes | NulFree(s)

  const WORD32: int := 0x1_0000_0000
  const SIGN32: int := 0x8000_0000

  predicate NulFree(s: bytes) {
    forall i :: 0 <= i < |s| ==> s[i] != 0
  }

  /** The conversion of an unsigned 32-bit (or wider) value to a C int. */
  function ToInt32(n: nat): (r: int)
    ensures -SIGN32 <= r < SIGN32
    ensures n < SIGN32 ==> r == n
    ensures (r - n) % WORD32 == 0
  {
    var m := n % WORD32;
    if m < SIGN32 then m else m - WORD32
  }

  // ----- little-endian integers -----

  function Pow256(w: nat): (p: nat)
    ensures p > 0
  {
    if w == 0 then 1 else 256 * Pow256(w - 1)
  }

  function LE(n: nat, w: nat): (b: bytes)
    ensures |b| == w
  {
    if w == 0 then [] else [n % 256] + LE(n / 256, w - 1)
  }

  function FromLE(b: bytes): (n: nat)
    ensures n < Pow256(|b|)
  {
    if b == [] then 0 else b[0] + 256 * FromLE(b[1..])
  }

  lemma {:induction false} LERoundTrip(n: nat, w: nat)
    requires n < Pow256(w)
    ensures FromLE(LE(n, w)) == n
  {
    if w > 0 {
      LERoundTrip(n / 256, w - 1);
      assert LE(n, w)[1..] == LE(n / 256, w - 1);
    }
  }

  lemma {:induction false} FromLERoundTrip(b: bytes)
    ensures LE(FromLE(b), |b|) == b
  {
    if b != [] {
      FromLERoundTrip(b[1..]);
      assert FromLE(b) / 256 == FromLE(b[1..]) && FromLE(b) % 256 == b[0];
    }
  }

  lemma Widths()
    ensures Pow256(1) == 256 && Pow256(2) == 0x1_0000 && Pow256(4) == WORD32
    ensures Pow256(8) == 0x1_0000_0000_0000_0000
  {
    assert Pow256(1) == 256;
    assert Pow256(2) == 0x1_0000;
    assert Pow256(3) == 0x100_0000;
    assert Pow256(4) == WORD32;
    assert Pow256(5) == 0x100_0000_0000;
    assert Pow256(6) == 0x1_0000_0000_0000;
    assert Pow256(7) == 0x100_0000_0000_0000;
  }

  // ----- NUL-padded fields -----

  function Zeros(n: nat): (z: bytes)
    ensures |z| == n && forall i :: 0 <= i < n ==> z[i] == 0
  {
    seq(n, _ => 0)
  }

  /** A string copied with its terminator into a zeroed field of n bytes. */
  function Pad(s: CString, n: nat): (b: bytes)
    requires |s| < n
    ensures |b| == n
  {
    s + Zeros(n - |s|)
  }

  predicate Terminated(b: bytes) {
    0 in b
  }

  /** What a C program reads from a buffer as a string: everything before the first NUL. */
  function CStr(b: bytes): (s: CString)
    ensures |s| <= |b| && s == b[..|s|]
    ensures |s| < |b| ==> b[|s|] == 0
    ensures Terminated(b) <==> |s| < |b|
  {
    if b == [] || b[0] == 0 then []
    else
      assert forall x :: x in b <==> x == b[0] || x in b[1..];
      [b[0]] + CStr(b[1..])
  }

  lemma {:induction false} CStrUnique(b: bytes, s: CString)
    requires |s| < |b| && b[..|s|] == s && b[|s|] == 0
    ensures CStr(b) == s
  {
    if s != [] {
      assert b[0] == s[0] && b[1..][..|s| - 1] == s[1..];
      CStrUnique(b[1..], s[1..]);
    }
  }

  lemma PadRoundTrip(s: CString, n: nat)
    requires |s| < n
    ensures CStr(Pad(s, n)) == s && Terminated(Pad(s, n))
  {
    CStrUnique(Pad(s, n), s);
  }

  /** strcmp(a, b) == 0, reading both buffers from index i on; both reads stay inside the buffers
      because the first buffer holds a terminator that is inside the second one too. */
  predicate StrEq(a: bytes, b: bytes, i: nat)
    requires i < |a| && |a| <= |b| && 0 in a[i..]
    decreases |a| - i
  {
    if a[i] != b[i] then false
    else if a[i] == 0 then true
    else
      assert a[i..] == [a[i]] + a[i + 1..];
      StrEq(a, b, i + 1)
  }

  lemma {:induction false} StrEqIsEquality(a: bytes, b: bytes, i: nat)
    requires i < |a| && |a| <= |b| && 0 in a[i..]
    ensures StrEq(a, b, i) <==> CStr(a[i..]) == CStr(b[i..])
    decreases |a| - i
  {
    if a[i] == b[i] && a[i] != 0 {
      assert a[i..] == [a[i]] + a[i + 1..] && b[i..] == [b[i]] + b[i + 1..];
      assert a[i..][1..] == a[i + 1..] && b[i..][1..] == b[i + 1..];
      StrEqIsEquality(a, b, i + 1);
      assert CStr(a[i..])[1..] == CStr(a[i + 1..]) && CStr(b[i..])[1..] == CStr(b[i + 1..]);
    } else if a[i] != b[i] {
      assert a[i..][0] == a[i] && b[i..][0] == b[i];
    }
  }
}
