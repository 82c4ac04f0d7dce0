/**
 * The three base64url implementations: packages/crypto-core/src/utils.ts (browser), the helpers of
 * apps/api-gateway/src/routes/shares.ts (Node) and the ingest endpoints (.NET). The platform calls they
 * rest on (`btoa`/`atob`, `Buffer`, `Convert`) are written out from their public contracts.
 */
module Codecs {
  import opened Wrappers
  import opened Bytes
  import opened Base64Url

  // ---- String helpers of the three runtimes ----

  function Replace(s: string, from: char, to: char): (r: string)
    ensures |r| == |s|
    ensures forall k :: 0 <= k < |s| ==> r[k] == if s[k] == from then to else s[k]
  {
    seq(|s|, k requires 0 <= k < |s| => if s[k] == from then to else s[k])
  }

  function Repeat(c: char, n: nat): (r: string)
    ensures |r| == n && forall k :: 0 <= k < n ==> r[k] == c
  {
    seq(n, _ => c)
  }

  /** The string without the longest run of `c` at its end. */
  function TrimEnd(s: string, c: char): (r: string)
    ensures r <= s
  {
    if s != "" && s[|s| - 1] == c then TrimEnd(s[..|s| - 1], c) else s
  }

  /** The string without up to `n` trailing `=`. */
  function DropPadding(s: string, n: nat): (r: string)
    ensures r <= s && |s| - n <= |r|
  {
    if n > 0 && s != "" && s[|s| - 1] == '=' then DropPadding(s[..|s| - 1], n - 1) else s
  }

  predicate IsSpace(c: char)
  {
    c == ' ' || c == '\t' || c == '\n' || c == '\r'
  }

  function DropSpace(s: string, formFeed: bool): (r: string)
  {
    if s == "" then ""
    else if IsSpace(s[0]) || (formFeed && s[0] as int == 12) then DropSpace(s[1..], formFeed)
    else [s[0]] + DropSpace(s[1..], formFeed)
  }

  predicate IsStdText(s: string)
  {
    forall k :: 0 <= k < |s| ==> StdDigit(s[k]).Some?
  }

  function StdDigits(s: string): (d: seq<Sextet>)
    requires IsStdText(s)
    ensures |d| == |s| && StdText(d) == s
  {
    seq(|s|, k requires 0 <= k < |s| => StdDigit(s[k]).value)
  }

  // ---- Platform calls ----

  /** Standard base64 with `=` padding: `btoa`, `Buffer.toString("base64")` and `Convert.ToBase64String`. */
  function StdEncode(b: ByteString): (s: string)
  {
    StdText(Digits(b)) + Repeat('=', (3 - |b| % 3) % 3)
  }

  /** A browser "binary string": one character per byte. */
  function Latin1(b: ByteString): (s: string)
    ensures |s| == |b|
  {
    seq(|b|, k requires 0 <= k < |b| => b[k] as char)
  }

  /** The bytes of unpadded base64 digits. */
  function FromDigits(u: string): (r: Option<ByteString>)
  {
    if |u| % 4 == 1 || !IsStdText(u) then None else Some(Undigits(StdDigits(u)))
  }

  /** `atob`: spaces ignored, padding optional, the text must then be base64 digits, and not 4k+1 of them. */
  function Atob(s: string): (r: Option<string>)
  {
    var t := DropSpace(s, true);
    match FromDigits(if |t| % 4 == 0 then DropPadding(t, 2) else t)
    case None => None
    case Some(b) => Some(Latin1(b))
  }

  /** `Convert.FromBase64String`: spaces ignored, padding required. */
  function FromBase64String(s: string): (r: Option<ByteString>)
  {
    var t := DropSpace(s, false);
    if |t| % 4 != 0 then None else FromDigits(DropPadding(t, 2))
  }

  /** The digits `Buffer.from(s, "base64")` sees: both alphabets, other characters skipped, stopping at `=`. */
  function NodeDigits(s: string): (d: seq<Sextet>)
  {
    if s == "" || s[0] == '=' then []
    else if StdDigit(s[0]).Some? then [StdDigit(s[0]).value] + NodeDigits(s[1..])
    else if s[0] == '-' then [62] + NodeDigits(s[1..])
    else if s[0] == '_' then [63] + NodeDigits(s[1..])
    else NodeDigits(s[1..])
  }

  /** `charCodeAt` of every character of a binary string, as stored in a byte array. */
  function Codes(binary: string): (r: ByteString)
    ensures |r| == |binary|
  {
    seq(|binary|, k requires 0 <= k < |binary| => binary[k] as int % 256)
  }

  lemma CodesOfLatin1(b: ByteString)
    ensures Codes(Latin1(b)) == b
  {
    forall k | 0 <= k < |b|
      ensures Codes(Latin1(b))[k] == b[k]
    {
      var c := Latin1(b)[k];
      assert c == b[k] as char;
    }
  }

  // ---- The encoders ----

  /** `bytesToBase64Url`: a binary string built byte by byte, then `btoa` and three replacements. */
  method BytesToBase64Url(bytes: ByteString) returns (s: string)
    ensures s == UrlEncode(bytes)
  {
    var binary := "";
    for i := 0 to |bytes|
      invariant binary == Latin1(bytes[..i])
    {
      assert bytes[..i + 1] == bytes[..i] + [bytes[i]];
      binary := binary + [bytes[i] as char];
    }
    assert bytes[..|bytes|] == bytes;
    s := TrimEnd(Replace(Replace(Btoa(binary, bytes), '+', '-'), '/', '_'), '=');
    TranslatedIsUrlEncode(bytes);
  }

  /** `btoa` of the binary string of `bytes`. */
  function Btoa(binary: string, ghost bytes: ByteString): (s: string)
    requires binary == Latin1(bytes)
    ensures s == StdEncode(bytes)
  {
    var b: ByteString := seq(|binary|, k requires 0 <= k < |binary| => (assert binary[k] == bytes[k] as char; binary[k] as int));
    assert b == bytes;
    StdEncode(b)
  }

  /** `encodeBase64Url` of the gateway: replacements first, padding trimmed last. */
  function GatewayEncode(b: ByteString): (s: string)
    ensures s == UrlEncode(b)
  {
    TranslatedIsUrlEncode(b);
    TrimEnd(Replace(Replace(StdEncode(b), '+', '-'), '/', '_'), '=')
  }

  /** `EncodeBase64Url` of the ingest service: padding trimmed first. */
  function IngestEncode(b: ByteString): (s: string)
    ensures s == UrlEncode(b)
  {
    TrimPadding(StdText(Digits(b)), (3 - |b| % 3) % 3);
    Replace(Replace(TrimEnd(StdEncode(b), '='), '+', '-'), '/', '_')
  }

  lemma {:induction false} TrimPadding(s: string, n: nat)
    requires forall k :: 0 <= k < |s| ==> s[k] != '='
    ensures TrimEnd(s + Repeat('=', n), '=') == s
  {
    if n == 0 {
      assert s + Repeat('=', 0) == s;
    } else {
      var t := s + Repeat('=', n);
      assert t[..|t| - 1] == s + Repeat('=', n - 1);
      TrimPadding(s, n - 1);
    }
  }

  lemma TranslatedIsUrlEncode(b: ByteString)
    ensures TrimEnd(Replace(Replace(StdEncode(b), '+', '-'), '/', '_'), '=') == UrlEncode(b)
  {
    var n := (3 - |b| % 3) % 3;
    assert Replace(Replace(StdEncode(b), '+', '-'), '/', '_') == UrlEncode(b) + Repeat('=', n);
    TrimPadding(UrlEncode(b), n);
  }

  // ---- The decoders ----

  /** What `base64UrlToBytes` computes; None where `atob` throws. */
  function CryptoCoreDecode(s: string): (r: Option<ByteString>)
  {
    match Atob(Replace(Replace(s, '-', '+'), '_', '/') + Repeat('=', (4 - |s| % 4) % 4))
    case None => None
    case Some(binary) => Some(Codes(binary))
  }

  lemma PaddingSlice(n: nat)
    requires n <= 3
    ensures "==="[..n] == Repeat('=', n)
  {
  }

  /** The character codes of a binary string, stored one by one. */
  method StoreCharCodes(binary: string) returns (r: ByteString)
    ensures r == Codes(binary)
  {
    var out := new Byte[|binary|](_ => 0);
    for i := 0 to |binary|
      invariant forall k :: 0 <= k < i ==> out[k] == binary[k] as int % 256
    {
      out[i] := binary[i] as int % 256;
    }
    r := out[..];
  }

  method Base64UrlToBytes(s: string) returns (r: Option<ByteString>)
    ensures r == CryptoCoreDecode(s)
  {
    PaddingSlice((4 - |s| % 4) % 4);
    var padded := Replace(Replace(s, '-', '+'), '_', '/') + "==="[..(4 - |s| % 4) % 4];
    var decoded := Atob(padded);
    if decoded.None? {
      return None;
    }
    var out := StoreCharCodes(decoded.value);
    r := Some(out);
  }

  /** `decodeBase64Url` of the gateway; None where it answers 400. */
  function GatewayDecode(s: string): (r: Option<ByteString>)
  {
    if s == "" || !IsUrlText(s) then None
    else Some(Undigits(NodeDigits(Replace(Replace(s + Repeat('=', (4 - |s| % 4) % 4), '-', '+'), '_', '/'))))
  }

  /** What `TryDecodeBase64Url` computes; None where it returns false. */
  function IngestDecode(s: string): (r: Option<ByteString>)
  {
    if s == "" || |s| % 4 == 1 then None
    else FromBase64String(Replace(Replace(s, '-', '+'), '_', '/') + Repeat('=', (4 - |s| % 4) % 4))
  }

  method TryDecodeBase64Url(input: string) returns (ok: bool, decoded: ByteString)
    ensures ok == IngestDecode(input).Some?
    ensures decoded == if ok then IngestDecode(input).value else []
  {
    decoded := [];
    if input == "" {
      return false, decoded;
    }
    var s := Replace(Replace(input, '-', '+'), '_', '/');
    ghost var plain := s;
    var pad := |s| % 4;
    if pad == 2 {
      s := s + "==";
      assert s == plain + Repeat('=', 2);
    } else if pad == 3 {
      s := s + "=";
      assert s == plain + Repeat('=', 1);
    } else if pad != 0 {
      return false, decoded;
    } else {
      assert s == plain + Repeat('=', 0);
    }
    var r := FromBase64String(s);
    if r.None? {
      return false, decoded;
    }
    return true, r.value;
  }

  // ---- Decoding url texts ----

  lemma {:induction false} NoSpaceToDrop(s: string, formFeed: bool)
    requires forall k :: 0 <= k < |s| ==> StdDigit(s[k]).Some? || s[k] == '='
    ensures DropSpace(s, formFeed) == s
  {
    if s != "" {
      assert StdDigit(s[0]).Some? || s[0] == '=';
      NoSpaceToDrop(s[1..], formFeed);
    }
  }

  lemma {:induction false} NodeReadsDigits(d: seq<Sextet>, n: nat)
    ensures NodeDigits(StdText(d) + Repeat('=', n)) == d
  {
    var s := StdText(d) + Repeat('=', n);
    if d != [] {
      assert s[0] == StdChar(d[0]);
      assert s[1..] == StdText(d[1..]) + Repeat('=', n);
      NodeReadsDigits(d[1..], n);
    }
  }

  lemma PaddingDropped(d: seq<Sextet>, n: nat)
    ensures DropPadding(StdText(d) + Repeat('=', n), 2) == StdText(d) + Repeat('=', if n <= 2 then 0 else n - 2)
  {
    var s := StdText(d) + Repeat('=', n);
    var t := StdText(d);
    assert |t| > 0 ==> t[|t| - 1] == StdChar(d[|t| - 1]);
    if n == 0 {
      assert s == t + Repeat('=', 0);
    } else {
      var s1 := s[..|s| - 1];
      assert s1 == t + Repeat('=', n - 1);
      if n == 1 {
        assert s1 == t;
      } else {
        assert s1[..|s1| - 1] == t + Repeat('=', n - 2);
        assert DropPadding(s1, 1) == DropPadding(s1[..|s1| - 1], 0);
      }
    }
  }

  lemma UrlTextTranslated(s: string, n: nat)
    requires IsUrlText(s)
    ensures Replace(Replace(s, '-', '+'), '_', '/') == StdText(UrlDigits(s))
    ensures Replace(Replace(s + Repeat('=', n), '-', '+'), '_', '/') == StdText(UrlDigits(s)) + Repeat('=', n)
  {
    var d := UrlDigits(s);
    forall k | 0 <= k < |s|
      ensures s[k] == UrlChar(d[k])
    {
      assert s[k] == UrlText(d)[k];
    }
  }

  lemma FromDigitsOfText(d: seq<Sextet>)
    ensures FromDigits(StdText(d)) == if |d| % 4 == 1 then None else Some(Undigits(d))
  {
    forall k | 0 <= k < |d|
      ensures StdDigit(StdText(d)[k]) == Some(d[k])
    {
      StdDigitOfChar(d[k]);
      assert StdText(d)[k] == StdChar(d[k]);
    }
    assert StdDigits(StdText(d)) == d;
  }

  /** Up to two `=` after the digits are dropped; a third one is no digit, so the text is refused. */
  lemma PaddedDigits(d: seq<Sextet>, n: nat)
    requires n <= 3
    ensures FromDigits(DropPadding(StdText(d) + Repeat('=', n), 2)) == if n == 3 then None else FromDigits(StdText(d))
  {
    PaddingDropped(d, n);
    if n == 3 {
      var u := StdText(d) + Repeat('=', 1);
      assert u[|d|] == '=';
    } else {
      assert StdText(d) + Repeat('=', 0) == StdText(d);
    }
  }

  lemma PaddedLength(d: seq<Sextet>, n: nat)
    requires n == (4 - |d| % 4) % 4
    ensures n <= 3 && (n == 3 <==> |d| % 4 == 1)
    ensures |StdText(d) + Repeat('=', n)| % 4 == 0
  {
  }

  lemma PaddedDecodes(d: seq<Sextet>, n: nat)
    requires n <= 3 && (n == 3 <==> |d| % 4 == 1)
    ensures FromDigits(DropPadding(StdText(d) + Repeat('=', n), 2)) == if n == 3 then None else Some(Undigits(d))
  {
    PaddedDigits(d, n);
    FromDigitsOfText(d);
  }

  lemma NothingToDrop(d: seq<Sextet>, n: nat)
    ensures DropSpace(StdText(d) + Repeat('=', n), true) == StdText(d) + Repeat('=', n)
    ensures DropSpace(StdText(d) + Repeat('=', n), false) == StdText(d) + Repeat('=', n)
  {
    var t := StdText(d) + Repeat('=', n);
    forall k | 0 <= k < |t|
      ensures StdDigit(t[k]).Some? || t[k] == '='
    {
      if k < |d| {
        StdDigitOfChar(d[k]);
        assert t[k] == StdChar(d[k]);
      }
    }
    NoSpaceToDrop(t, true);
    NoSpaceToDrop(t, false);
  }

  /** `atob` and `FromBase64String` on a text without spaces whose length is a multiple of four. */
  lemma PlatformDecoders(t: string)
    requires DropSpace(t, true) == t == DropSpace(t, false) && |t| % 4 == 0
    ensures FromBase64String(t) == FromDigits(DropPadding(t, 2))
    ensures FromDigits(DropPadding(t, 2)).None? ==> Atob(t) == None
    ensures FromDigits(DropPadding(t, 2)).Some? ==> Atob(t) == Some(Latin1(FromDigits(DropPadding(t, 2)).value))
  {
  }

  /** What the three decoders answer on a text of the url alphabet, in terms of its digits. */
  lemma DecodersOnUrlText(s: string)
    requires IsUrlText(s)
    ensures CryptoCoreDecode(s) == if |s| % 4 == 1 then None else Some(Undigits(UrlDigits(s)))
    ensures IngestDecode(s) == if s == "" || |s| % 4 == 1 then None else Some(Undigits(UrlDigits(s)))
    ensures GatewayDecode(s) == if s == "" then None else Some(Undigits(UrlDigits(s)))
  {
    var d := UrlDigits(s);
    var n := (4 - |s| % 4) % 4;
    UrlTextTranslated(s, n);
    PaddedLength(d, n);
    PaddedDecodes(d, n);
    NothingToDrop(d, n);
    PlatformDecoders(StdText(d) + Repeat('=', n));
    NodeReadsDigits(d, n);
    CodesOfLatin1(Undigits(d));
  }

  /**
   * Decoding undoes encoding in every implementation, for every byte string the two servers see; the
   * empty byte string is the one exception: its encoding is "", which both servers refuse.
   */
  lemma RoundTrip(b: ByteString)
    ensures CryptoCoreDecode(UrlEncode(b)) == Some(b)
    ensures GatewayDecode(UrlEncode(b)) == if b == [] then None else Some(b)
    ensures IngestDecode(UrlEncode(b)) == if b == [] then None else Some(b)
  {
    UrlDigitsOfText(Digits(b));
    UndigitsDigits(b);
    DecodersOnUrlText(UrlEncode(b));
    EncodedLength(b);
  }

  /** Four characters for three bytes rounded up, so never one more than a multiple of four. */
  lemma EncodedLength(b: ByteString)
    ensures 3 * |UrlEncode(b)| >= 4 * |b| && 3 * (|UrlEncode(b)| - 1) < 4 * |b|
    ensures |UrlEncode(b)| % 4 != 1
    ensures forall k :: 0 <= k < |UrlEncode(b)| ==> UrlEncode(b)[k] != '=' && UrlEncode(b)[k] != '+' && UrlEncode(b)[k] != '/'
  {
    var q, m := |b| / 3, |b| % 3;
    assert |UrlEncode(b)| == 4 * q + (4 * m + 2) / 3;
  }

  /** Two byte strings never share their encoding. */
  lemma UrlEncodeInjective(a: ByteString, b: ByteString)
    requires UrlEncode(a) == UrlEncode(b)
    ensures a == b
  {
    RoundTrip(a);
    RoundTrip(b);
  }

  /**
   * The texts on which all three decoders accept and give the same bytes: the non-empty texts of the
   * url alphabet whose length is not one more than a multiple of four. The gateway alone takes the latter.
   */
  lemma DecodersAgreeExactly(s: string)
    ensures (GatewayDecode(s).Some? && CryptoCoreDecode(s) == GatewayDecode(s) == IngestDecode(s))
        <==> s != "" && IsUrlText(s) && |s| % 4 != 1
    ensures s != "" && IsUrlText(s) && |s| % 4 == 1 ==>
              GatewayDecode(s).Some? && CryptoCoreDecode(s).None? && IngestDecode(s).None?
  {
    if IsUrlText(s) {
      DecodersOnUrlText(s);
    }
  }
}
