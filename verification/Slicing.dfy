/**
 * Cutting a file into chunks, as `uploadFile` does, and the totals the gateway and the ingest service
 * check about the cut (apps/web/src/lib/upload.ts, apps/api-gateway/src/routes/shares.ts).
 */
module Slicing {
  import opened Bytes

  const AEAD_TAG_BYTES: nat := 16

  /** `Math.ceil(size / chunkSize)`. */
  function ChunkCount(size: nat, c: nat): (n: nat)
    requires c > 0
  {
    (size + c - 1) / c
  }

  /** The count is the least one whose chunks hold the file. */
  lemma ChunkCountIsLeast(size: nat, c: nat, k: nat)
    requires c > 0
    ensures k * c >= size <==> k >= ChunkCount(size, c)
  {
    var n := ChunkCount(size, c);
    var m := (size + c - 1) % c;
    assert size + c - 1 == n * c + m by {
      DivModDef(size + c - 1, c);
    }
    if k >= n {
      MulMonotone(n, k, c);
    } else {
      MulMonotone(k + 1, n, c);
      assert (k + 1) * c == k * c + c;
    }
  }

  lemma DivModDef(x: nat, c: nat)
    requires c > 0
    ensures x == x / c * c + x % c
  {
  }

  lemma MulMonotone(a: nat, b: nat, c: nat)
    requires a <= b
    ensures a * c <= b * c
  {
    assert b * c == a * c + (b - a) * c;
    assert (b - a) * c >= 0;
  }

  /** The end of the first `k` slices: `Math.min(k * chunkSize, file.size)`. */
  function Cut(size: nat, c: nat, k: nat): (r: nat)
    ensures r <= size
  {
    if k * c < size then k * c else size
  }

  lemma CutMonotone(size: nat, c: nat, k: nat)
    ensures Cut(size, c, k) <= Cut(size, c, k + 1) <= Cut(size, c, k) + c
    ensures c > 0 && k + 1 < ChunkCount(size, c) ==> Cut(size, c, k + 1) == Cut(size, c, k) + c
    ensures c > 0 && k < ChunkCount(size, c) ==> Cut(size, c, k) < Cut(size, c, k + 1)
    ensures c > 0 && k >= ChunkCount(size, c) ==> Cut(size, c, k) == size
  {
    assert (k + 1) * c == k * c + c;
    if c > 0 {
      ChunkCountIsLeast(size, c, k);
      ChunkCountIsLeast(size, c, k + 1);
    }
  }

  /** `file.slice(i * chunkSize, min((i + 1) * chunkSize, file.size))`. */
  function Slice(file: ByteString, c: nat, i: nat): (r: ByteString)
    ensures |r| <= c
  {
    CutMonotone(|file|, c, i);
    file[Cut(|file|, c, i)..Cut(|file|, c, i + 1)]
  }

  function Slices(file: ByteString, c: nat, k: nat): (r: seq<ByteString>)
    ensures |r| == k
  {
    seq(k, i requires 0 <= i < k => Slice(file, c, i))
  }

  /** The first `k` slices are the file up to the k-th cut; all of them are the file. */
  lemma {:induction false} SlicesAreAPrefix(file: ByteString, c: nat, k: nat)
    ensures Concat(Slices(file, c, k)) == file[..Cut(|file|, c, k)]
    ensures c > 0 && k >= ChunkCount(|file|, c) ==> Concat(Slices(file, c, k)) == file
  {
    CutMonotone(|file|, c, k);
    if k == 0 {
      assert Slices(file, c, 0) == [];
    } else {
      SlicesAreAPrefix(file, c, k - 1);
      CutMonotone(|file|, c, k - 1);
      assert Slices(file, c, k) == Slices(file, c, k - 1) + [Slice(file, c, k - 1)];
      ConcatSnoc(Slices(file, c, k - 1), Slice(file, c, k - 1));
    }
  }

  /** Every slice but the last is a full chunk; the last is not empty. */
  lemma SliceLengths(file: ByteString, c: nat, i: nat)
    requires c > 0 && i < ChunkCount(|file|, c)
    ensures i + 1 < ChunkCount(|file|, c) ==> |Slice(file, c, i)| == c
    ensures 1 <= |Slice(file, c, i)| <= c
  {
    CutMonotone(|file|, c, i);
  }

  // ---- The gateway's totals ----

  /** The three size rules of `CreateShareSchema`: file size, declared capacity against the cap, and against the file. */
  predicate GatewayAcceptsTotals(fileSize: nat, chunkCount: nat, chunkSize: nat, maxFile: nat)
  {
    && 0 < fileSize <= maxFile
    && 0 < chunkCount <= 100_000
    && chunkCount * chunkSize <= maxFile
    && chunkCount * chunkSize >= fileSize
  }

  /**
   * A file cut into `ceil(s / C)` chunks passes the totals exactly when it fits the largest whole number
   * of chunks under the cap: the cap is checked against whole chunks, the last one rounded up.
   */
  lemma AcceptedExactlyBelowWholeChunks(s: nat, c: nat, maxFile: nat)
    requires c > 0 && s > 0 && ChunkCount(s, c) <= 100_000
    ensures GatewayAcceptsTotals(s, ChunkCount(s, c), c, maxFile) <==> s <= maxFile / c * c
  {
    var n := ChunkCount(s, c);
    var q := maxFile / c;
    DivModDef(maxFile, c);
    ChunkCountIsLeast(s, c, n);
    ChunkCountIsLeast(s, c, 0);
    ChunkCountIsLeast(s, c, q);
    if n <= q {
      MulMonotone(n, q, c);
    } else {
      MulMonotone(q + 1, n, c);
      assert (q + 1) * c == q * c + c;
    }
  }

  /**
   * With the shipped constants (5 MiB chunks, 1 GiB cap on both sides) the accepted sizes end at
   * 1020 MiB: a file between 1020 and 1024 MiB passes the browser's own limit and is then refused.
   */
  lemma DefaultLimits(s: nat)
    requires 0 < s <= 1024 * 1024 * 1024
    ensures GatewayAcceptsTotals(s, ChunkCount(s, 5 * 1024 * 1024), 5 * 1024 * 1024, 1024 * 1024 * 1024)
        <==> s <= 1020 * 1024 * 1024
  {
    AcceptedExactlyBelowWholeChunks(s, 5 * 1024 * 1024, 1024 * 1024 * 1024);
  }
}
