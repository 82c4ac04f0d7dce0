/**
 * base64url without padding (section 5 of RFC 4648): the encoding as arithmetic on 24-bit
 * groups, its meaning as a regrouping of one bit stream, and its inverse.
 */
module Base64Url {
  import opened Wrappers
  import opened Bytes

  type Sextet = x: int | 0 <= x < 64

  /** Each three bytes become four six-bit digits; a tail of two gives three digits, a tail of one gives two. */
  function Digits(b: ByteString): (r: seq<Sextet>)
    ensures |r| == (4 * |b| + 2) / 3
  {
    if |b| == 0 then []
    else
      var x: int := b[0];
      if |b| == 1 then [x / 4, x % 4 * 16]
      else
        var y: int := b[1];
        if |b| == 2 then [x / 4, x % 4 * 16 + y / 16, y % 16 * 4]
        else
          var z: int := b[2];
          [x / 4, x % 4 * 16 + y / 16, y % 16 * 4 + z / 64, z % 64] + Digits(b[3..])
  }

  /** The bytes a digit string stands for; spare low bits, and a lone last digit, carry no byte. */
  function Undigits(d: seq<Sextet>): (r: ByteString)
    ensures |r| == 3 * |d| / 4
  {
    if |d| <= 1 then []
    else
      var p: int, q: int := d[0], d[1];
      if |d| == 2 then [p * 4 + q / 16]
      else
        var s: int := d[2];
        if |d| == 3 then [p * 4 + q / 16, q % 16 * 16 + s / 4]
        else
          var t: int := d[3];
          [p * 4 + q / 16, q % 16 * 16 + s / 4, s % 4 * 64 + t] + Undigits(d[4..])
  }

  lemma GroupArithmetic(x: Byte, y: Byte, z: Byte)
    ensures x / 4 * 4 + (x % 4 * 16 + y / 16) / 16 == x
    ensures (x % 4 * 16 + y / 16) % 16 * 16 + (y % 16 * 4 + z / 64) / 4 == y
    ensures (y % 16 * 4 + z / 64) % 4 * 64 + z % 64 == z
  {
    assert (x % 4 * 16 + y / 16) / 16 == x % 4 && (x % 4 * 16 + y / 16) % 16 == y / 16;
    assert (y % 16 * 4 + z / 64) / 4 == y % 16 && (y % 16 * 4 + z / 64) % 4 == z / 64;
  }

  lemma {:induction false} UndigitsDigits(b: ByteString)
    ensures Undigits(Digits(b)) == b
  {
    if b != [] {
      GroupArithmetic(b[0], if |b| > 1 then b[1] else 0, if |b| > 2 then b[2] else 0);
    }
    if |b| >= 3 {
      UndigitsDigits(b[3..]);
      assert Digits(b)[4..] == Digits(b[3..]);
      assert b == [b[0], b[1], b[2]] + b[3..];
    } else if |b| == 2 {
      assert b == [b[0], b[1]];
    } else if |b| == 1 {
      assert b == [b[0]];
    }
  }

  // ---- The meaning of the digits: the same bits, regrouped ----

  function BitAt(x: int, j: nat): bool
    decreases j
  {
    if j == 0 then x % 2 == 1 else BitAt(x / 2, j - 1)
  }

  /** The low `w` bits of `x`, most significant first. */
  function Bits(x: int, w: nat): (r: seq<bool>)
    ensures |r| == w
  {
    seq(w, k requires 0 <= k < w => BitAt(x, w - 1 - k))
  }

  function ByteBits(b: ByteString): (r: seq<bool>)
    ensures |r| == 8 * |b|
  {
    if b == [] then [] else Bits(b[0], 8) + ByteBits(b[1..])
  }

  function DigitBits(d: seq<Sextet>): (r: seq<bool>)
    ensures |r| == 6 * |d|
  {
    if d == [] then [] else Bits(d[0], 6) + DigitBits(d[1..])
  }

  function Zeros(n: nat): (r: seq<bool>)
    ensures |r| == n
  {
    seq(n, _ => false)
  }

  /** Bit `j` of `hi * 2^w + lo` is a bit of `lo` below `w` and a bit of `hi` from `w` on. */
  lemma {:induction false} BitAtSplit(hi: nat, lo: nat, w: nat, j: nat)
    requires lo < Pow2(w)
    ensures BitAt(hi * Pow2(w) + lo, j) == if j < w then BitAt(lo, j) else BitAt(hi, j - w)
  {
    if w > 0 {
      var p := Pow2(w - 1);
      assert hi * Pow2(w) == 2 * (hi * p);
      assert (hi * Pow2(w) + lo) / 2 == hi * p + lo / 2;
      assert (hi * Pow2(w) + lo) % 2 == lo % 2;
      if j > 0 {
        BitAtSplit(hi, lo / 2, w - 1, j - 1);
      }
    }
  }

  function Pow2(n: nat): nat
  {
    if n == 0 then 1 else 2 * Pow2(n - 1)
  }

  lemma SplitAt(x: nat, p: nat, v: nat, w: nat, t: nat)
    requires w in {2, 4, 6} && p == (if w == 2 then 4 else if w == 4 then 16 else 64) && t == v + w
    ensures Bits(x, t) == Bits(x / p, v) + Bits(x % p, w)
  {
    assert p == Pow2(w);
    assert x == x / p * p + x % p;
    forall k | 0 <= k < t
      ensures Bits(x, t)[k] == (Bits(x / p, v) + Bits(x % p, w))[k]
    {
      BitAtSplit(x / p, x % p, w, t - 1 - k);
    }
  }

  lemma BitsOfZero(w: nat)
    ensures Bits(0, w) == Zeros(w)
  {
    forall j: nat
      ensures !BitAt(0, j)
    {
      BitAtZero(j);
    }
  }

  lemma {:induction false} BitAtZero(j: nat)
    ensures !BitAt(0, j)
  {
    if j > 0 {
      BitAtZero(j - 1);
    }
  }

  /** Cutting eight bits 6+2, 4+4 and 2+6 is what the digit arithmetic does to three bytes. */
  lemma GroupBits(x: Byte, y: Byte, z: Byte)
    ensures Bits(x, 8) == Bits(x / 4, 6) + Bits(x % 4, 2)
    ensures Bits(x % 4 * 16 + y / 16, 6) == Bits(x % 4, 2) + Bits(y / 16, 4)
    ensures Bits(y, 8) == Bits(y / 16, 4) + Bits(y % 16, 4)
    ensures Bits(y % 16 * 4 + z / 64, 6) == Bits(y % 16, 4) + Bits(z / 64, 2)
    ensures Bits(z, 8) == Bits(z / 64, 2) + Bits(z % 64, 6)
  {
    SplitAt(x, 4, 6, 2, 8);
    SplitAt(x % 4 * 16 + y / 16, 16, 2, 4, 6);
    SplitAt(y, 16, 4, 4, 8);
    SplitAt(y % 16 * 4 + z / 64, 4, 4, 2, 6);
    SplitAt(z, 64, 2, 6, 8);
  }

  /**
   * What RFC 4648 asks of the digits: they carry the input's bits in order, filled up with zero
   * bits to a whole number of digits.
   */
  lemma {:induction false} DigitsAreTheBitStream(b: ByteString)
    ensures DigitBits(Digits(b)) == ByteBits(b) + Zeros(6 * |Digits(b)| - 8 * |b|)
  {
    hide Bits;
    if b == [] {
      assert Zeros(0) == [];
    } else {
      var x: int := b[0];
      var y: int := if |b| > 1 then b[1] else 0;
      var z: int := if |b| > 2 then b[2] else 0;
      GroupBits(x, y, z);
      var d := Digits(b);
      if |b| == 1 {
        assert b[1..] == [] && d[1..] == [x % 4 * 16] && d[1..][1..] == [];
        BitsOfZero(4);
      } else if |b| == 2 {
        assert b[1..] == [y] && b[1..][1..] == [];
        assert d[1..] == [x % 4 * 16 + y / 16, y % 16 * 4] && d[1..][1..] == [y % 16 * 4] && d[1..][1..][1..] == [];
        assert ByteBits(b) == Bits(x, 8) + Bits(y, 8);
        assert DigitBits(d[1..]) == Bits(d[1], 6) + Bits(d[2], 6);
        BitsOfZero(2);
      } else {
        DigitsAreTheBitStream(b[3..]);
        assert b == [x, y, z] + b[3..];
        UnfoldByteBits(x, y, z, b[3..]);
        UnfoldDigitBits(d[0], d[1], d[2], d[3], Digits(b[3..]));
      }
    }
  }

  lemma UnfoldByteBits(x: Byte, y: Byte, z: Byte, rest: ByteString)
    ensures ByteBits([x, y, z] + rest) == Bits(x, 8) + Bits(y, 8) + Bits(z, 8) + ByteBits(rest)
  {
    var b := [x, y, z] + rest;
    assert b[1..] == [y, z] + rest && b[1..][1..] == [z] + rest && b[1..][1..][1..] == rest;
    assert ByteBits(b[1..]) == Bits(y, 8) + ByteBits(b[1..][1..]);
  }

  lemma UnfoldDigitBits(p: Sextet, q: Sextet, s: Sextet, t: Sextet, rest: seq<Sextet>)
    ensures DigitBits([p, q, s, t] + rest) == Bits(p, 6) + Bits(q, 6) + Bits(s, 6) + Bits(t, 6) + DigitBits(rest)
  {
    var d := [p, q, s, t] + rest;
    assert d[1..] == [q, s, t] + rest && d[1..][1..] == [s, t] + rest && d[1..][1..][1..] == [t] + rest;
    assert d[1..][1..][1..][1..] == rest;
    assert DigitBits(d[1..][1..]) == Bits(s, 6) + DigitBits(d[1..][1..][1..]);
    assert DigitBits(d[1..]) == Bits(q, 6) + DigitBits(d[1..][1..]);
  }

  // ---- The two alphabets ----

  function StdChar(d: Sextet): (c: char)
  {
    if d < 26 then ('A' as int + d) as char
    else if d < 52 then ('a' as int + d - 26) as char
    else if d < 62 then ('0' as int + d - 52) as char
    else if d == 62 then '+' else '/'
  }

  function StdDigit(c: char): (r: Option<Sextet>)
    ensures r.Some? ==> StdChar(r.value) == c
  {
    var n := c as int;
    if 'A' <= c <= 'Z' then Some(n - 'A' as int)
    else if 'a' <= c <= 'z' then Some(n - 'a' as int + 26)
    else if '0' <= c <= '9' then Some(n - '0' as int + 52)
    else if c == '+' then Some(62)
    else if c == '/' then Some(63)
    else None
  }

  lemma StdDigitOfChar(d: Sextet)
    ensures StdDigit(StdChar(d)) == Some(d)
  {
  }

  /** The URL and filename safe alphabet: `-` for 62 and `_` for 63. */
  function UrlChar(d: Sextet): (c: char)
  {
    if d == 62 then '-' else if d == 63 then '_' else StdChar(d)
  }

  predicate IsUrlChar(c: char)
  {
    'A' <= c <= 'Z' || 'a' <= c <= 'z' || '0' <= c <= '9' || c == '-' || c == '_'
  }

  predicate IsUrlText(s: string)
  {
    forall k :: 0 <= k < |s| ==> IsUrlChar(s[k])
  }

  function UrlText(d: seq<Sextet>): (s: string)
    ensures |s| == |d| && IsUrlText(s)
  {
    seq(|d|, k requires 0 <= k < |d| => UrlChar(d[k]))
  }

  function StdText(d: seq<Sextet>): (s: string)
    ensures |s| == |d|
  {
    seq(|d|, k requires 0 <= k < |d| => StdChar(d[k]))
  }

  /** base64url without padding. */
  function UrlEncode(b: ByteString): (s: string)
    ensures |s| == (4 * |b| + 2) / 3 && IsUrlText(s)
  {
    UrlText(Digits(b))
  }

  /** Every url text is the text of exactly one digit string. */
  function UrlDigits(s: string): (d: seq<Sextet>)
    requires IsUrlText(s)
    ensures |d| == |s| && UrlText(d) == s
  {
    seq(|s|, k requires 0 <= k < |s| =>
      if s[k] == '-' then 62 else if s[k] == '_' then 63 else StdDigit(s[k]).value)
  }

  lemma UrlDigitsOfText(d: seq<Sextet>)
    ensures UrlDigits(UrlText(d)) == d
  {
    var s := UrlText(d);
    forall k | 0 <= k < |d|
      ensures UrlDigits(s)[k] == d[k]
    {
      assert s[k] == UrlChar(d[k]);
    }
  }
}
