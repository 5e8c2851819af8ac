/** Packed values spelled out byte by byte, and the codecs of the model read off them. */
module Formats {
  import opened Bytes
  import opened Protocol

  /** A char array: the string, then zeros. */
  function Chars(s: CString, n: nat): (b: bytes)
    ensures |b| == n
  {
    seq(n, i requires 0 <= i < n => if i < |s| then s[i] else 0)
  }

  function Bytes4(n: nat): (b: bytes)
    ensures |b| == 4
  {
    [n % 0x100, n / 0x100 % 0x100, n / 0x1_0000 % 0x100, n / 0x100_0000 % 0x100]
  }

  function Bytes8(n: nat): (b: bytes)
    ensures |b| == 8
  {
    Bytes4(n) + Bytes4(n / 0x1_0000_0000)
  }

  function Number2(b: bytes, i: nat): (n: nat)
    requires i + 2 <= |b|
    ensures n < 0x1_0000
  {
    b[i] as int + 0x100 * b[i + 1] as int
  }

  function Number4(b: bytes, i: nat): (n: nat)
    requires i + 4 <= |b|
    ensures n < 0x1_0000_0000
  {
    Number2(b, i) + 0x1_0000 * Number2(b, i + 2)
  }

  function Number8(b: bytes, i: nat): nat
    requires i + 8 <= |b|
  {
    Number4(b, i) + 0x1_0000_0000 * Number4(b, i + 4)
  }

  lemma PadIsChars(s: CString, n: nat)
    requires |s| < n
    ensures Pad(s, n) == Chars(s, n)
  {
  }

  lemma LESteps(n: nat, w: nat)
    requires w >= 2
    ensures LE(n, w) == [n % 0x100, n / 0x100 % 0x100] + LE(n / 0x100 / 0x100, w - 2)
  {
    assert LE(n, w) == [n % 0x100] + LE(n / 0x100, w - 1);
    assert LE(n / 0x100, w - 1) == [n / 0x100 % 0x100] + LE(n / 0x100 / 0x100, w - 2);
  }

  lemma LEIsBytes(n: nat)
    ensures LE(n, 0) == [] && LE(n, 1) == [n % 0x100]
    ensures LE(n, 2) == [n % 0x100, n / 0x100 % 0x100]
    ensures LE(n, 4) == Bytes4(n)
    ensures LE(n, 8) == Bytes8(n)
  {
    hide LE;
    Four(n, 4);
    Four(n, 8);
    Four(n / 0x1_0000_0000, 4);
    NoBytes(n);
    NoBytes(n / 0x1_0000_0000);
    NoBytes(n / 0x1_0000_0000 / 0x1_0000_0000);
    LESteps(n, 2);
    NoBytes(n / 0x100 / 0x100);
    assert [n % 0x100, n / 0x100 % 0x100] + [] == [n % 0x100, n / 0x100 % 0x100];
    assert Bytes4(n) + [] == Bytes4(n);
    assert Bytes4(n / 0x1_0000_0000) + [] == Bytes4(n / 0x1_0000_0000);
  }

  lemma NoBytes(n: nat)
    ensures LE(n, 0) == [] && LE(n, 1) == [n % 0x100]
  {
  }

  lemma Four(n: nat, w: nat)
    requires w >= 4
    ensures LE(n, w) == Bytes4(n) + LE(n / 0x1_0000_0000, w - 4)
  {
    hide LE;
    LESteps(n, w);
    LESteps(n / 0x100 / 0x100, w - 2);
    Quotients(n);
  }

  lemma Quotients(n: nat)
    ensures n / 0x100 / 0x100 == n / 0x1_0000
    ensures n / 0x1_0000 / 0x100 == n / 0x100_0000
    ensures n / 0x1_0000 / 0x100 / 0x100 == n / 0x1_0000_0000
  {
  }

  lemma FromLEStep(b: bytes)
    requires |b| >= 1
    ensures FromLE(b) == b[0] as int + 0x100 * FromLE(b[1..])
    ensures FromLE([]) == 0
  {
  }

  lemma FromLEFour(b: bytes)
    requires |b| >= 4
    ensures FromLE(b) == Number4(b, 0) + 0x1_0000_0000 * FromLE(b[4..])
  {
    hide FromLE;
    FromLEStep(b);
    FromLEStep(b[1..]);
    FromLEStep(b[2..]);
    FromLEStep(b[3..]);
    assert b[1..][1..] == b[2..] && b[2..][1..] == b[3..] && b[3..][1..] == b[4..];
  }

  lemma FromLEIsNumber(b: bytes)
    ensures |b| == 2 ==> FromLE(b) == Number2(b, 0)
    ensures |b| == 4 ==> FromLE(b) == Number4(b, 0)
    ensures |b| == 8 ==> FromLE(b) == Number8(b, 0)
  {
    hide FromLE;
    if |b| == 2 {
      FromLEStep(b);
      FromLEStep(b[1..]);
      assert b[1..][1..] == [];
    } else if |b| == 4 {
      FromLEFour(b);
      FromLEStep(b);
      assert b[4..] == [];
    } else if |b| == 8 {
      FromLEFour(b);
      FromLEFour(b[4..]);
      FromLEStep(b);
      assert b[4..][4..] == [];
    }
  }

  /** A header is eight bytes: magic, code, the byte that is the noack flag, status or type, and the length. */
  lemma HeaderIsBytes(h: Header)
    ensures EncodeHeader(h) == [h.magic % 0x100, h.magic / 0x100 % 0x100, h.code, h.aux] + Bytes4(h.bodylen)
  {
    hide LE;
    LEIsBytes(h.magic);
    LEIsBytes(h.bodylen);
  }

  lemma HeaderIsNumbers(b: bytes)
    requires |b| == 8
    ensures DecodeHeader(b) == Header(Number2(b, 0), b[2], b[3], Number4(b, 4))
  {
    hide FromLE;
    FromLEIsNumber(b[..2]);
    FromLEIsNumber(b[4..]);
  }
}
