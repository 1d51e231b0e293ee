/** Little-endian words inside byte buffers: the view every C struct overlay and
    `memcpy` of this program takes of its packets. */
module Bytes {
  type byte = x: int | 0 <= x < 0x100
  type word = x: int | 0 <= x < 0x1_0000
  type dword = x: int | 0 <= x < 0x1_0000_0000

  /** The value of four bytes, least significant first. */
  function Value(a: int, b: int, c: int, d: int): int {
    a + 0x100 * b + 0x1_0000 * c + 0x100_0000 * d
  }

  function U16(s: seq<byte>, i: nat): word
    requires i + 2 <= |s|
  {
    Value(s[i], s[i + 1], 0, 0)
  }

  function U32(s: seq<byte>, i: nat): dword
    requires i + 4 <= |s|
  {
    Value(s[i], s[i + 1], s[i + 2], s[i + 3])
  }

  function Bytes16(v: word): (r: seq<byte>)
    ensures |r| == 2
  {
    [v % 0x100, v / 0x100]
  }

  function Bytes32(v: dword): (r: seq<byte>)
    ensures |r| == 4
  {
    [v % 0x100, v / 0x100 % 0x100, v / 0x1_0000 % 0x100, v / 0x100_0000]
  }

  /** `memcpy(s + i, d, |d|)`. */
  function Splice(s: seq<byte>, i: nat, d: seq<byte>): (r: seq<byte>)
    requires i + |d| <= |s|
    ensures |r| == |s|
    ensures r[i..i + |d|] == d
    ensures forall k :: 0 <= k < |s| && !(i <= k < i + |d|) ==> r[k] == s[k]
  {
    s[..i] + d + s[i + |d|..]
  }

  lemma U16RoundTrip(v: word)
    ensures U16(Bytes16(v), 0) == v
  {
  }

  /** A field reads back from where it was put. */
  lemma U32Inside(before: seq<byte>, v: dword, behind: seq<byte>)
    ensures U32(before + Bytes32(v) + behind, |before|) == v
  {
    DwordRoundTrip(v);
    U32Shift(before, Bytes32(v) + behind, 0);
    assert before + Bytes32(v) + behind == before + (Bytes32(v) + behind);
  }

  lemma LowDigit(q: int, r: int)
    requires 0 <= r < 0x100
    ensures (r + 0x100 * q) % 0x100 == r && (r + 0x100 * q) / 0x100 == q
  {
  }

  lemma DigitsOf(a: byte, b: byte, c: byte, d: byte)
    ensures Bytes32(Value(a, b, c, d)) == [a, b, c, d]
  {
    Quotients(a, b, c, d);
    LowDigit(Value(c, d, 0, 0), b);
    LowDigit(d, c);
  }

  lemma Quotients(a: byte, b: byte, c: byte, d: byte)
    ensures var v := Value(a, b, c, d);
      v % 0x100 == a && v / 0x100 == Value(b, c, d, 0) && v / 0x1_0000 == Value(c, d, 0, 0) && v / 0x100_0000 == d
  {
    LowDigit(Value(b, c, d, 0), a);
    LowDigit(Value(c, d, 0, 0), b);
    LowDigit(d, c);
    DivTwice(Value(a, b, c, d));
  }

  lemma DivTwice(v: int)
    ensures v / 0x1_0000 == v / 0x100 / 0x100 && v / 0x100_0000 == v / 0x100 / 0x100 / 0x100
  {
  }

  lemma DwordRoundTrip(v: dword)
    ensures U32(Bytes32(v), 0) == v
  {
    var b, c, d := v / 0x100, v / 0x1_0000, v / 0x100_0000;
    assert c == b / 0x100 && d == c / 0x100;
    assert v == v % 0x100 + 0x100 * b && b == b % 0x100 + 0x100 * c && c == c % 0x100 + 0x100 * d;
  }

  /** A header of 32-bit fields, laid out one after the other. */
  function Dwords(vs: seq<dword>): (r: seq<byte>)
    ensures |r| == 4 * |vs|
  {
    if vs == [] then [] else Bytes32(vs[0]) + Dwords(vs[1..])
  }

  lemma {:induction false} DwordAt(vs: seq<dword>, k: nat)
    requires k < |vs|
    ensures U32(Dwords(vs), 4 * k) == vs[k]
  {
    var head, tail := Bytes32(vs[0]), Dwords(vs[1..]);
    if k == 0 {
      DwordRoundTrip(vs[0]);
      assert (head + tail)[..4] == head;
    } else {
      DwordAt(vs[1..], k - 1);
      assert Dwords(vs) == head + tail;
      U32Shift(head, tail, 4 * (k - 1));
    }
  }

  lemma U32Shift(head: seq<byte>, tail: seq<byte>, i: nat)
    requires i + 4 <= |tail|
    ensures U32(head + tail, |head| + i) == U32(tail, i)
  {
  }
}
