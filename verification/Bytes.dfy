/**
 * Byte strings, and the byte helpers of packages/crypto-core/src/utils.ts: concatenation,
 * big-endian 32-bit integers and UTF-8.
 */
module Bytes {

  type Byte = x: int | 0 <= x < 256

  type ByteString = seq<Byte>

  const TWO_TO_THE_32: int := 0x1_0000_0000

  /** The concatenation of a list of byte strings. */
  function Concat(parts: seq<ByteString>): (r: ByteString)
  {
    if parts == [] then [] else parts[0] + Concat(parts[1..])
  }

  /** Equal concatenations with heads of one length have equal heads and equal tails. */
  lemma ConcatCancel(a: ByteString, x: ByteString, b: ByteString, y: ByteString)
    requires |a| == |b| && a + x == b + y
    ensures a == b && x == y
  {
    assert a == (a + x)[..|a|] && b == (b + y)[..|b|];
    assert x == (a + x)[|a|..] && y == (b + y)[|b|..];
  }

  function TotalLength(parts: seq<ByteString>): (r: nat)
    ensures r == |Concat(parts)|
  {
    if parts == [] then 0 else |parts[0]| + TotalLength(parts[1..])
  }

  lemma {:induction false} ConcatAppend(a: seq<ByteString>, b: seq<ByteString>)
    ensures Concat(a + b) == Concat(a) + Concat(b)
  {
    if a == [] {
      assert a + b == b;
    } else {
      assert (a + b)[1..] == a[1..] + b;
      ConcatAppend(a[1..], b);
    }
  }

  lemma ConcatSnoc(a: seq<ByteString>, x: ByteString)
    ensures Concat(a + [x]) == Concat(a) + x
  {
    ConcatAppend(a, [x]);
    assert Concat([x]) == x + Concat([]);
  }

  /** `concatBytes`: one pass for the total length, one pass copying each part at a running offset. */
  method ConcatBytes(parts: seq<ByteString>) returns (r: ByteString)
    ensures r == Concat(parts)
  {
    var total := 0;
    for k := 0 to |parts|
      invariant total == |Concat(parts[..k])|
    {
      assert parts[..k + 1] == parts[..k] + [parts[k]];
      ConcatSnoc(parts[..k], parts[k]);
      total := total + |parts[k]|;
    }
    assert parts[..|parts|] == parts;
    var out := new Byte[total](_ => 0);
    var offset := 0;
    for k := 0 to |parts|
      invariant offset == |Concat(parts[..k])| <= total
      invariant out[..offset] == Concat(parts[..k])
    {
      assert parts[..k + 1] == parts[..k] + [parts[k]];
      ConcatSnoc(parts[..k], parts[k]);
      assert parts == parts[..k + 1] + parts[k + 1..];
      ConcatAppend(parts[..k + 1], parts[k + 1..]);
      var a := parts[k];
      ghost var before := out[..offset];
      for j := 0 to |a|
        invariant out[..offset] == before
        invariant out[offset..offset + j] == a[..j]
      {
        out[offset + j] := a[j];
      }
      assert out[..offset + |a|] == out[..offset] + out[offset..offset + |a|];
      offset := offset + |a|;
    }
    r := out[..];
    assert out[..] == out[..offset];
  }

  /** Four big-endian bytes of a number taken modulo 2^32, as the unsigned shifts of the source do. */
  function U32(n: nat): (r: ByteString)
    ensures |r| == 4
  {
    [n / 256 / 256 / 256 % 256, n / 256 / 256 % 256, n / 256 % 256, n % 256]
  }

  /** The number four big-endian bytes stand for. */
  function FromU32(b: ByteString): (r: nat)
    requires |b| == 4
    ensures r < TWO_TO_THE_32
  {
    var b0: int, b1: int, b2: int, b3: int := b[0], b[1], b[2], b[3];
    ((b0 * 256 + b1) * 256 + b2) * 256 + b3
  }

  lemma U32RoundTrip(n: nat)
    ensures FromU32(U32(n)) == n % TWO_TO_THE_32
  {
    var n1 := n / 256;
    var n2 := n1 / 256;
    var n3 := n2 / 256;
    var n4 := n3 / 256;
    assert n == n4 * TWO_TO_THE_32 + FromU32(U32(n));
  }

  /** Two numbers share their four bytes exactly when they agree modulo 2^32. */
  lemma U32Injective(m: nat, n: nat)
    ensures U32(m) == U32(n) <==> m % TWO_TO_THE_32 == n % TWO_TO_THE_32
  {
    U32RoundTrip(m);
    U32RoundTrip(n);
    if m % TWO_TO_THE_32 == n % TWO_TO_THE_32 {
      FromU32Injective(U32(m), U32(n));
    }
  }

  lemma FromU32Injective(a: ByteString, b: ByteString)
    requires |a| == 4 && |b| == 4 && FromU32(a) == FromU32(b)
    ensures a == b
  {
    var a0: int, a1: int, a2: int, a3: int := a[0], a[1], a[2], a[3];
    var b0: int, b1: int, b2: int, b3: int := b[0], b[1], b[2], b[3];
    SameDigits((a0 * 256 + a1) * 256 + a2, a3, (b0 * 256 + b1) * 256 + b2, b3);
    SameDigits(a0 * 256 + a1, a2, b0 * 256 + b1, b2);
    SameDigits(a0, a1, b0, b1);
  }

  lemma SameDigits(hi: int, lo: Byte, hi': int, lo': Byte)
    requires hi * 256 + lo == hi' * 256 + lo'
    ensures hi == hi' && lo == lo'
  {
  }

  /** `uint32ToBytesBE`: the four bytes written one by one into a fresh buffer. */
  method Uint32ToBytesBE(n: nat) returns (r: ByteString)
    ensures |r| == 4
    ensures FromU32(r) == n % TWO_TO_THE_32
    ensures r == U32(n)
  {
    var out := new Byte[4](_ => 0);
    out[0] := n / 256 / 256 / 256 % 256;
    out[1] := n / 256 / 256 % 256;
    out[2] := n / 256 % 256;
    out[3] := n % 256;
    r := out[..];
    assert r == U32(n);
    U32RoundTrip(n);
  }

  /** UTF-8 of one Unicode scalar value. */
  function Utf8Char(c: char): (r: ByteString)
    ensures 1 <= |r| <= 4
  {
    var n := c as int;
    if n < 0x80 then [n]
    else if n < 0x800 then [0xC0 + n / 64, 0x80 + n % 64]
    else if n < 0x1_0000 then [0xE0 + n / 64 / 64, 0x80 + n / 64 % 64, 0x80 + n % 64]
    else [0xF0 + n / 64 / 64 / 64, 0x80 + n / 64 / 64 % 64, 0x80 + n / 64 % 64, 0x80 + n % 64]
  }

  /** `stringToBytes`: the UTF-8 encoding of a string. */
  function Utf8(s: string): (r: ByteString)
    ensures |r| >= |s|
  {
    if s == "" then [] else Utf8Char(s[0]) + Utf8(s[1..])
  }

  predicate IsAscii(s: string) {
    forall k :: 0 <= k < |s| ==> s[k] < 128 as char
  }

  lemma {:induction false} AsciiLength(s: string)
    requires IsAscii(s)
    ensures |Utf8(s)| == |s|
  {
    if s != "" {
      assert IsAscii(s[1..]);
      AsciiLength(s[1..]);
    }
  }

  /** The continuation bytes are the base-64 digits of the scalar value under the leading byte's top digit. */
  lemma SameScalar(m: nat, n: nat, u: ByteString, v: ByteString)
    requires u == v && |u| <= 4
    requires |u| == 1 ==> u == [m] && v == [n]
    requires |u| == 2 ==> u[0] == 0xC0 + m / 64 && v[0] == 0xC0 + n / 64
    requires |u| == 3 ==> u[0] == 0xE0 + m / 64 / 64 && v[0] == 0xE0 + n / 64 / 64
    requires |u| == 4 ==> u[0] == 0xF0 + m / 64 / 64 / 64 && v[0] == 0xF0 + n / 64 / 64 / 64
    requires |u| >= 2 ==> u[|u| - 1] == 0x80 + m % 64 && v[|v| - 1] == 0x80 + n % 64
    requires |u| >= 3 ==> u[|u| - 2] == 0x80 + m / 64 % 64 && v[|v| - 2] == 0x80 + n / 64 % 64
    requires |u| == 4 ==> u[1] == 0x80 + m / 64 / 64 % 64 && v[1] == 0x80 + n / 64 / 64 % 64
    ensures |u| >= 1 ==> m == n
  {
    if |u| == 1 {
      assert u[0] == m && v[0] == n;
    }
    if |u| == 4 {
      assert m / 64 / 64 == n / 64 / 64;
    }
    if |u| >= 3 {
      assert m / 64 == n / 64;
    }
  }

  /** No character's code is a proper prefix of another's, so the head of a UTF-8 text fixes its first character. */
  lemma Utf8CharPrefixFree(c: char, d: char, x: ByteString, y: ByteString)
    requires Utf8Char(c) + x == Utf8Char(d) + y
    ensures c == d && x == y
  {
    var u, v := Utf8Char(c), Utf8Char(d);
    var m, n := c as int, d as int;
    assert u[0] == (u + x)[0] == (v + y)[0] == v[0];
    assert |u| == |v|;
    forall k | 0 <= k < |u|
      ensures u[k] == v[k]
    {
      assert u[k] == (u + x)[k] && v[k] == (v + y)[k];
    }
    SameScalar(m, n, u, v);
    assert x == (u + x)[|u|..] && y == (v + y)[|v|..];
  }

  lemma {:induction false} Utf8Injective(s: string, t: string)
    requires Utf8(s) == Utf8(t)
    ensures s == t
  {
    if s != "" && t != "" {
      Utf8CharPrefixFree(s[0], t[0], Utf8(s[1..]), Utf8(t[1..]));
      Utf8Injective(s[1..], t[1..]);
      assert s == [s[0]] + s[1..] && t == [t[0]] + t[1..];
    }
  }
}
