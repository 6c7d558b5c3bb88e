/** How the browser client cuts a file into upload chunks: `total_chunks` and the byte range
    `[chunk_start, chunk_end)` of each chunk, which `file.slice` turns into the body of one part. */
module ChunkPlan {

  /** `upload_chunk_size`: 8 MiB. */
  const ChunkSize: nat := 8 * 1024 * 1024

  /** Half-open byte range `[start, end)` of a file. */
  datatype ByteRange = ByteRange(start: nat, end: nat)

  /** `Math.ceil(file.size / upload_chunk_size)`. The divisor is a power of two, so the
      floating-point quotient is exact for every size below 2^53 and this is the integer ceiling. */
  function ChunkCount(size: nat): (n: nat)
    ensures n * ChunkSize >= size
    ensures n > 0 ==> (n - 1) * ChunkSize < size
    ensures n == 0 <==> size == 0
  {
    if size % ChunkSize == 0 then size / ChunkSize else size / ChunkSize + 1
  }

  /** Range of chunk `i`: `chunk_start = i * upload_chunk_size`,
      `chunk_end = Math.min(chunk_start + upload_chunk_size, file.size)`. */
  function ChunkRange(size: nat, i: nat): (r: ByteRange)
    requires i < ChunkCount(size)
    ensures r.start == i * ChunkSize
    ensures r.start < r.end <= size
    ensures r.end - r.start <= ChunkSize
  {
    var start := i * ChunkSize;
    ByteRange(start, if start + ChunkSize < size then start + ChunkSize else size)
  }

  /** Byte length of chunk `i`, the amount its upload adds to the progress bar. */
  function ChunkLength(size: nat, i: nat): (len: nat)
    requires i < ChunkCount(size)
    ensures 0 < len <= ChunkSize
  {
    ChunkRange(size, i).end - ChunkRange(size, i).start
  }

  /** The ranges of all chunks, in chunk order. */
  function Plan(size: nat): (ranges: seq<ByteRange>)
    ensures |ranges| == ChunkCount(size)
  {
    seq(ChunkCount(size), i requires 0 <= i < ChunkCount(size) => ChunkRange(size, i))
  }

  /** The ranges tile `[0, size)`: the first starts at 0, the last ends at `size`, each one starts
      where the previous one ends, none is empty, and every one but the last is a full chunk. */
  lemma PlanTiles(size: nat)
    ensures var p := Plan(size);
      && (|p| > 0 ==> p[0].start == 0 && p[|p| - 1].end == size)
      && (forall i :: 0 <= i < |p| ==> p[i].start < p[i].end)
      && (forall i :: 0 <= i < |p| - 1 ==> p[i].end == p[i + 1].start)
      && (forall i :: 0 <= i < |p| - 1 ==> p[i].end - p[i].start == ChunkSize)
  {
    var p := Plan(size);
    var n := |p|;
    forall i | 0 <= i < n - 1
      ensures p[i].end == p[i + 1].start && p[i].end - p[i].start == ChunkSize
    {
      assert (i + 1) * ChunkSize == i * ChunkSize + ChunkSize;
      assert i + 1 <= n - 1;
      assert (n - 1) * ChunkSize <= size - 1;
      assert i * ChunkSize + ChunkSize <= (n - 1) * ChunkSize;
    }
    if n > 0 {
      assert (n - 1) * ChunkSize + ChunkSize == n * ChunkSize;
    }
  }

  /** Every byte of the file lies in exactly one chunk, chunk `b / upload_chunk_size`. */
  lemma ByteInOneChunk(size: nat, b: nat, i: nat)
    requires b < size && i < ChunkCount(size)
    ensures b / ChunkSize < ChunkCount(size)
    ensures ChunkRange(size, i).start <= b < ChunkRange(size, i).end <==> i == b / ChunkSize
  {
    var q := b / ChunkSize;
    assert q * ChunkSize <= b < q * ChunkSize + ChunkSize;
  }

  /** Sum of the lengths of the first `k` chunks. */
  function SumLengths(size: nat, k: nat): nat
    requires k <= ChunkCount(size)
  {
    if k == 0 then 0 else SumLengths(size, k - 1) + ChunkLength(size, k - 1)
  }

  /** The first `k` chunks cover `min(k * upload_chunk_size, size)` bytes; all chunks cover the file. */
  lemma {:induction false} SumLengthsCovers(size: nat, k: nat)
    requires k <= ChunkCount(size)
    ensures SumLengths(size, k) == if k * ChunkSize < size then k * ChunkSize else size
  {
    if k > 0 {
      SumLengthsCovers(size, k - 1);
      assert (k - 1) * ChunkSize + ChunkSize == k * ChunkSize;
      assert (k - 1) * ChunkSize < size;
    }
  }
}
