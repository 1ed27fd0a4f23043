/**
 * The upload progress counter (windows/progressreader.go): a reader wrapper
 * that adds every read's byte count to a running int64 total and reports the
 * new total to a callback.
 */
module ProgressReading {
  import opened Optional
  import opened Decimal

  const TwoTo64: int := 0x1_0000_0000_0000_0000

  /** Go's int64 addition: the exact sum, wrapped into the int64 range. */
  function AddInt64(a: int, b: int): (r: int)
    ensures MinInt64 <= r <= MaxInt64
    ensures MinInt64 <= a + b <= MaxInt64 ==> r == a + b
    ensures (r - (a + b)) % TwoTo64 == 0
  {
    (a + b - MinInt64) % TwoTo64 + MinInt64
  }

  /** The running total after reads of `counts` bytes, starting from `start`. */
  function Accumulated(start: int, counts: seq<int>): int
    decreases |counts|
  {
    if |counts| == 0 then start else Accumulated(AddInt64(start, counts[0]), counts[1..])
  }

  function Sum(counts: seq<int>): int
  {
    if |counts| == 0 then 0 else counts[0] + Sum(counts[1..])
  }

  /**
   * While the total stays in the int64 range, it is the start plus every
   * count read; with non-negative counts it never decreases.
   */
  lemma {:induction false} AccumulatedIsSum(start: int, counts: seq<int>)
    requires forall i :: 0 <= i < |counts| ==> counts[i] >= 0
    requires MinInt64 <= start && start + Sum(counts) <= MaxInt64
    ensures Accumulated(start, counts) == start + Sum(counts)
    ensures Accumulated(start, counts) >= start
    decreases |counts|
  {
    if |counts| > 0 {
      SumNonNegative(counts[1..]);
      AccumulatedIsSum(start + counts[0], counts[1..]);
    }
  }

  lemma {:induction false} SumNonNegative(counts: seq<int>)
    requires forall i :: 0 <= i < |counts| ==> counts[i] >= 0
    ensures Sum(counts) >= 0
  {
    if |counts| > 0 {
      SumNonNegative(counts[1..]);
    }
  }

  /** What the wrapped reader returned for one Read: a byte count and an error, if any. */
  datatype ReadResult = ReadResult(n: int, err: Option<string>)

  class ProgressReader {
    /** The wrapped reader, by identity; Read hands the call on to it. */
    var reader: nat
    /** The size of the upload, for the progress bar. */
    var total: int
    var bytesRead: int
    /** Whether OnProgress is set. */
    var hasCallback: bool
    /** The totals passed to OnProgress, oldest first. */
    var reported: seq<int>

    ghost predicate Valid()
      reads this`bytesRead
    {
      MinInt64 <= bytesRead <= MaxInt64
    }

    /** The struct literal the upload builds: nothing read, nothing reported yet. */
    constructor (reader: nat, total: int, hasCallback: bool)
      ensures Valid()
      ensures this.reader == reader && this.total == total && this.hasCallback == hasCallback
      ensures bytesRead == 0 && reported == []
    {
      this.reader := reader;
      this.total := total;
      this.hasCallback := hasCallback;
      bytesRead := 0;
      reported := [];
    }

    /**
     * Read: pass on the wrapped reader's result `inner` unchanged, add its
     * byte count to the total, and report the new total once if there is a
     * callback. The reader and the size are never touched.
     */
    method Read(inner: ReadResult) returns (result: ReadResult)
      requires Valid()
      modifies this`bytesRead, this`reported
      ensures Valid() && result == inner
      ensures bytesRead == AddInt64(old(bytesRead), inner.n)
      ensures 0 <= inner.n && old(bytesRead) + inner.n <= MaxInt64 ==> bytesRead == old(bytesRead) + inner.n >= old(bytesRead)
      ensures reported == old(reported) + (if hasCallback then [bytesRead] else [])
      ensures reader == old(reader) && total == old(total)
    {
      bytesRead := AddInt64(bytesRead, inner.n);
      if hasCallback {
        reported := reported + [bytesRead];
      }
      result := inner;
    }
  }
}
