/**
 * The byte framings of packages/crypto-core/src/symmetric.ts that bind a chunk to its share and index:
 * the associated data of the AEAD and the preimage of the chunk download token. Both are length-prefixed,
 * and both are shown to lose nothing.
 */
module Framing {
  import opened Wrappers
  import opened Bytes
  import opened Base64Url
  import opened Codecs

  const META_ID: string := "meta"
  const KEY_BYTES: nat := 32
  const MAX_ID_BYTES: nat := 0xffff

  function AadBytes(shareId: string, chunkIndex: nat): (r: ByteString)
  {
    LengthPrefix(|Utf8(shareId)|) + (Utf8(shareId) + U32(chunkIndex))
  }

  function LengthPrefix(n: nat): (r: ByteString)
    ensures |r| == 2
  {
    [n / 256 % 256, n % 256]
  }

  lemma LengthPrefixInjective(m: nat, n: nat)
    requires m <= MAX_ID_BYTES && n <= MAX_ID_BYTES && LengthPrefix(m) == LengthPrefix(n)
    ensures m == n
  {
    assert m / 256 % 256 == LengthPrefix(m)[0] == LengthPrefix(n)[0] == n / 256 % 256;
    assert m % 256 == LengthPrefix(m)[1] == LengthPrefix(n)[1] == n % 256;
  }

  /** `buildChunkAad`: a two-byte length, the id, a four-byte index; None where it throws. */
  function BuildChunkAad(shareId: string, chunkIndex: nat): (r: Option<ByteString>)
  {
    if |Utf8(shareId)| > MAX_ID_BYTES then None else Some(AadBytes(shareId, chunkIndex))
  }

  method BuildChunkAadBytes(shareId: string, chunkIndex: nat) returns (r: Option<ByteString>)
    ensures r == BuildChunkAad(shareId, chunkIndex)
  {
    var shareIdBytes := Utf8(shareId);
    if |shareIdBytes| > 0xffff {
      return None;
    }
    var lenPrefix := new Byte[2](_ => 0);
    lenPrefix[0] := |shareIdBytes| / 256 % 256;
    lenPrefix[1] := |shareIdBytes| % 256;
    var index := Uint32ToBytesBE(chunkIndex);
    var aad := ConcatBytes([lenPrefix[..], shareIdBytes, index]);
    ConcatThree(lenPrefix[..], shareIdBytes, index);
    assert lenPrefix[..] == LengthPrefix(|shareIdBytes|);
    r := Some(aad);
  }

  lemma ConcatThree(a: ByteString, b: ByteString, c: ByteString)
    ensures Concat([a, b, c]) == a + (b + c)
  {
    assert [a, b, c][1..] == [b, c] && [b, c][1..] == [c] && [c][1..] == [];
    assert Concat([c]) == c + Concat([]);
    assert Concat([b, c]) == b + Concat([c]);
  }

  /**
   * Nothing but the index modulo 2^32 is lost: associated data followed by anything is equal exactly
   * when the ids, the indexes modulo 2^32 and what follows are.
   */
  lemma AadPrefixFree(a: string, i: nat, b: string, j: nat, x: ByteString, y: ByteString)
    requires |Utf8(a)| <= MAX_ID_BYTES && |Utf8(b)| <= MAX_ID_BYTES
    requires AadBytes(a, i) + x == AadBytes(b, j) + y
    ensures a == b && i % TWO_TO_THE_32 == j % TWO_TO_THE_32 && x == y
  {
    hide Utf8, U32;
    var u, v := Utf8(a), Utf8(b);
    var l, m := LengthPrefix(|u|), LengthPrefix(|v|);
    assert AadBytes(a, i) + x == l + (u + (U32(i) + x));
    assert AadBytes(b, j) + y == m + (v + (U32(j) + y));
    ConcatCancel(l, u + (U32(i) + x), m, v + (U32(j) + y));
    LengthPrefixInjective(|u|, |v|);
    ConcatCancel(u, U32(i) + x, v, U32(j) + y);
    ConcatCancel(U32(i), x, U32(j), y);
    Utf8Injective(a, b);
    U32Injective(i, j);
  }

  /** The exact collisions of the associated data: equal ids, and indexes equal modulo 2^32. */
  lemma AadInjective(a: string, i: nat, b: string, j: nat)
    requires BuildChunkAad(a, i).Some? && BuildChunkAad(b, j).Some?
    ensures BuildChunkAad(a, i) == BuildChunkAad(b, j) <==> a == b && i % TWO_TO_THE_32 == j % TWO_TO_THE_32
  {
    if AadBytes(a, i) == AadBytes(b, j) {
      assert AadBytes(a, i) + [] == AadBytes(a, i) && AadBytes(b, j) + [] == AadBytes(b, j);
      AadPrefixFree(a, i, b, j, [], []);
    } else if a == b && i % TWO_TO_THE_32 == j % TWO_TO_THE_32 {
      U32Injective(i, j);
    }
  }

  /** The metadata blob's associated data is no chunk's, unless the share itself were named "meta". */
  lemma MetaAadIsApart(shareId: string, i: nat)
    requires BuildChunkAad(shareId, i).Some?
    ensures BuildChunkAad(META_ID, 0).Some?
    ensures shareId != META_ID ==> BuildChunkAad(shareId, i) != BuildChunkAad(META_ID, 0)
    ensures |shareId| == 12 ==> BuildChunkAad(shareId, i) != BuildChunkAad(META_ID, 0)
  {
    AsciiLength(META_ID);
    AadInjective(shareId, i, META_ID, 0);
  }

  // ---- Chunk download tokens ----

  /** The UTF-8 bytes of "slothbox-chunk-token-v1". */
  const CHUNK_TOKEN_LABEL: ByteString := [
    115, 108, 111, 116, 104, 98, 111, 120, 45, 99, 104, 117, 110, 107, 45, 116, 111, 107, 101, 110, 45, 118, 49
  ]

  /** The bytes `deriveChunkToken` hashes. */
  function TokenPreimage(fragmentKey: ByteString, shortId: string, chunkIndex: nat): (r: ByteString)
  {
    CHUNK_TOKEN_LABEL + ([0] + (fragmentKey + AadBytes(shortId, chunkIndex)))
  }

  /** `deriveChunkToken`; None where it throws. */
  function DeriveChunkToken(sha256: ByteString -> ByteString, fragmentKey: ByteString, shortId: string, chunkIndex: nat)
    : (r: Option<ByteString>)
  {
    if |fragmentKey| != KEY_BYTES || BuildChunkAad(shortId, chunkIndex).None? then None
    else Some(sha256(TokenPreimage(fragmentKey, shortId, chunkIndex)))
  }

  lemma TokenPreimageInjective(k: ByteString, a: string, i: nat, l: ByteString, b: string, j: nat)
    requires |k| == KEY_BYTES == |l| && |Utf8(a)| <= MAX_ID_BYTES && |Utf8(b)| <= MAX_ID_BYTES
    ensures TokenPreimage(k, a, i) == TokenPreimage(l, b, j)
        <==> k == l && a == b && i % TWO_TO_THE_32 == j % TWO_TO_THE_32
  {
    var p, q := AadBytes(a, i), AadBytes(b, j);
    if TokenPreimage(k, a, i) == TokenPreimage(l, b, j) {
      var tag := CHUNK_TOKEN_LABEL;
      ConcatCancel(tag, [0] + (k + p), tag, [0] + (l + q));
      ConcatCancel([0], k + p, [0], l + q);
      ConcatCancel(k, p, l, q);
    }
    AadInjective(a, i, b, j);
  }

  // ---- The ingest service's check of a presented token ----

  function TrimStart(s: string): (r: string)
  {
    if s != "" && IsSpace(s[0]) then TrimStart(s[1..]) else s
  }

  /** `ExtractChunkTokenHash`: the hash of a bearer token of 32 bytes; None for every malformed header. */
  function ExtractChunkTokenHash(sha256: ByteString -> ByteString, header: Option<string>): (r: Option<ByteString>)
  {
    var prefix := "Bearer ";
    if header.None? || !(prefix <= header.value) then None
    else
      match IngestDecode(TrimStart(header.value[|prefix|..]))
      case None => None
      case Some(raw) => if |raw| != 32 then None else Some(sha256(raw))
  }

  /** The header `fetchChunk` sends. */
  function BearerHeader(token: ByteString): (r: string)
  {
    "Bearer " + UrlEncode(token)
  }

  lemma BearerHeaderIsRead(sha256: ByteString -> ByteString, token: ByteString)
    requires |token| == 32
    ensures ExtractChunkTokenHash(sha256, Some(BearerHeader(token))) == Some(sha256(token))
  {
    var text := UrlEncode(token);
    assert BearerHeader(token)[|"Bearer "|..] == text;
    assert IsUrlChar(text[0]);
    assert TrimStart(text) == text;
    RoundTrip(token);
  }

  ghost predicate Collision(hash: ByteString -> ByteString, x: ByteString, y: ByteString)
  {
    x != y && hash(x) == hash(y)
  }

  /** The token gate of a chunk row that carries a commitment. */
  predicate Admits(sha256: ByteString -> ByteString, commitment: ByteString, header: Option<string>)
  {
    ExtractChunkTokenHash(sha256, header) == Some(commitment)
  }

  lemma GateComparesHashes(sha256: ByteString -> ByteString, sent: ByteString, presented: ByteString)
    requires |presented| == 32
    ensures Admits(sha256, sha256(sent), Some(BearerHeader(presented))) <==> sha256(presented) == sha256(sent)
  {
    BearerHeaderIsRead(sha256, presented);
  }

  lemma HashChainCollision(sha256: ByteString -> ByteString, p: ByteString, q: ByteString)
    requires p != q && sha256(sha256(p)) == sha256(sha256(q))
    ensures Collision(sha256, p, q) || Collision(sha256, sha256(p), sha256(q))
  {
  }

  lemma DerivedIsHash(sha256: ByteString -> ByteString, k: ByteString, a: string, i: nat)
    requires DeriveChunkToken(sha256, k, a, i).Some?
    ensures DeriveChunkToken(sha256, k, a, i).value == sha256(TokenPreimage(k, a, i))
    ensures |k| == KEY_BYTES && |Utf8(a)| <= MAX_ID_BYTES
  {
  }

  /**
   * The commitment a sender stores for its chunk is met by the token an honest receiver derives for the
   * same chunk; a token derived for any other (key, share, index) meets it only along with a SHA-256
   * collision, between the two preimages or the two tokens.
   */
  lemma CommitmentAdmitsOnlyItsChunk(
      sha256: ByteString -> ByteString,
      k: ByteString, a: string, i: nat, l: ByteString, b: string, j: nat)
    requires DeriveChunkToken(sha256, k, a, i).Some? && DeriveChunkToken(sha256, l, b, j).Some?
    requires |DeriveChunkToken(sha256, l, b, j).value| == 32
    requires i < TWO_TO_THE_32 && j < TWO_TO_THE_32
    ensures
      var sent := DeriveChunkToken(sha256, k, a, i).value;
      var presented := DeriveChunkToken(sha256, l, b, j).value;
      var admitted := Admits(sha256, sha256(sent), Some(BearerHeader(presented)));
      && (k == l && a == b && i == j ==> admitted)
      && (admitted && !(k == l && a == b && i == j) ==>
            || Collision(sha256, sent, presented)
            || Collision(sha256, TokenPreimage(k, a, i), TokenPreimage(l, b, j)))
  {
    hide *;
    DerivedIsHash(sha256, k, a, i);
    DerivedIsHash(sha256, l, b, j);
    TokenPreimageInjective(k, a, i, l, b, j);
    GateOnPreimages(sha256, TokenPreimage(k, a, i), TokenPreimage(l, b, j));
  }

  /** The gate opens for a token exactly when the hashes of the tokens agree, so for another preimage only by collision. */
  lemma GateOnPreimages(sha256: ByteString -> ByteString, p: ByteString, q: ByteString)
    requires |sha256(q)| == 32
    ensures
      var admitted := Admits(sha256, sha256(sha256(p)), Some(BearerHeader(sha256(q))));
      && (p == q ==> admitted)
      && (admitted && p != q ==> Collision(sha256, sha256(p), sha256(q)) || Collision(sha256, p, q))
  {
    hide Admits, BearerHeader;
    GateComparesHashes(sha256, sha256(p), sha256(q));
    if p != q && sha256(sha256(p)) == sha256(sha256(q)) {
      HashChainCollision(sha256, p, q);
    }
  }
}
