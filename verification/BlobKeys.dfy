/**
 * The object keys of the blob store, `BuildBlobKey` of services/ingest/Endpoints/UploadEndpoint.cs: why the blobs of
 * a share can be told from those of every other share by chunk index alone.
 */
module BlobKeys {

  /** A number in decimal digits. */
  function Decimal(n: nat): (s: string)
    ensures |s| >= 1 && forall k :: 0 <= k < |s| ==> '0' <= s[k] <= '9'
  {
    var digit := [(n % 10 + '0' as int) as char];
    if n < 10 then digit else Decimal(n / 10) + digit
  }

  /** `BuildBlobKey`: "{shortId}/{chunkIndex}". */
  function BuildBlobKey(shortId: string, chunkIndex: nat): (key: string)
  {
    shortId + "/" + Decimal(chunkIndex)
  }

  lemma {:induction false} DecimalInjective(m: nat, n: nat)
    requires Decimal(m) == Decimal(n)
    ensures m == n
  {
    var s, t := Decimal(m), Decimal(n);
    assert s[|s| - 1] == (m % 10 + '0' as int) as char && t[|t| - 1] == (n % 10 + '0' as int) as char;
    assert m % 10 == n % 10;
    if m >= 10 && n >= 10 {
      assert Decimal(m / 10) == s[..|s| - 1] == t[..|t| - 1] == Decimal(n / 10);
      DecimalInjective(m / 10, n / 10);
    }
  }

  /** Two chunks share an object key only if they are one chunk of one share, short ids holding no slash. */
  lemma BlobKeyInjective(a: string, i: nat, b: string, j: nat)
    requires '/' !in a && '/' !in b
    ensures BuildBlobKey(a, i) == BuildBlobKey(b, j) <==> a == b && i == j
  {
    if BuildBlobKey(a, i) == BuildBlobKey(b, j) {
      var k := BuildBlobKey(a, i);
      SlashAt(a, i);
      SlashAt(b, j);
      assert k[|a|] == '/';
      assert |a| == |b|;
      assert a == k[..|a|] && b == k[..|b|];
      assert Decimal(i) == k[|a| + 1..] && Decimal(j) == k[|b| + 1..];
      DecimalInjective(i, j);
    }
  }

  /** The only slash of a key stands after the short id. */
  lemma SlashAt(a: string, i: nat)
    requires '/' !in a
    ensures var k := BuildBlobKey(a, i); |a| < |k| && forall n :: 0 <= n < |k| ==> (k[n] == '/' <==> n == |a|)
  {
    var k := BuildBlobKey(a, i);
    forall n | 0 <= n < |k|
      ensures k[n] == '/' <==> n == |a|
    {
      if n < |a| {
        assert k[n] == a[n];
      } else if n > |a| {
        assert k[n] == Decimal(i)[n - |a| - 1];
      }
    }
  }
}
