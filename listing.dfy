/**
 * The object store as the browser sees it: a bucket is a list of object
 * records in key order, and one listing call returns the next page of the
 * records under a prefix that come after a cursor key ("StartAfter").
 */
module Listing {
  import opened Optional
  import opened Text

  /** The part of minio.ObjectInfo the browser's logic looks at. */
  datatype ObjectRecord = ObjectRecord(key: string, size: nat)

  /** Why a listing call failed: its context was canceled, or any other error. */
  datatype ListError = Canceled | Failed

  /** The outcome of one listing call. */
  datatype Page = Listed(records: seq<ObjectRecord>) | ListFailed(error: ListError)

  /**
   * What the outside world does during one loader run, indexed by the number
   * of the listing call (0, 1, 2, ...): whether the load's context is canceled
   * before that call, whether the call fails, and the clock reading in
   * milliseconds taken after it.
   */
  datatype LoadEnv = LoadEnv(canceledBefore: nat -> bool, fault: nat -> Option<ListError>, clock: nat -> int)

  /** Keys strictly increase along the list. */
  predicate Sorted(objs: seq<ObjectRecord>)
  {
    forall i, j :: 0 <= i < j < |objs| ==> KeyLess(objs[i].key, objs[j].key)
  }

  /** A bucket as the store lists it: object keys are non-empty and in key order. */
  predicate WellFormedBucket(objs: seq<ObjectRecord>)
  {
    Sorted(objs) && forall i :: 0 <= i < |objs| ==> objs[i].key != ""
  }

  /** In a sorted list no key appears twice. */
  lemma SortedDistinctKeys(objs: seq<ObjectRecord>, i: int, j: int)
    requires Sorted(objs)
    requires 0 <= i < |objs| && 0 <= j < |objs| && i != j
    ensures objs[i].key != objs[j].key
  {
    if i < j {
      KeyLessIrreflexive(objs[i].key);
    } else {
      KeyLessIrreflexive(objs[j].key);
    }
  }

  /** The records whose key starts with `prefix`, in order. */
  function Under(objs: seq<ObjectRecord>, prefix: string): (r: seq<ObjectRecord>)
    ensures |r| <= |objs|
  {
    if |objs| == 0 then []
    else if HasPrefix(objs[0].key, prefix) then [objs[0]] + Under(objs[1..], prefix)
    else Under(objs[1..], prefix)
  }

  /** The records whose key sorts after `cursor`, in order. */
  function After(objs: seq<ObjectRecord>, cursor: string): (r: seq<ObjectRecord>)
    ensures |r| <= |objs|
  {
    if |objs| == 0 then []
    else if KeyLess(cursor, objs[0].key) then [objs[0]] + After(objs[1..], cursor)
    else After(objs[1..], cursor)
  }

  /** Every record listed under a prefix is a record of the list, and its key starts with the prefix. */
  lemma {:induction false} UnderElements(objs: seq<ObjectRecord>, prefix: string)
    ensures forall i :: 0 <= i < |Under(objs, prefix)| ==>
      Under(objs, prefix)[i] in objs && HasPrefix(Under(objs, prefix)[i].key, prefix)
  {
    if |objs| > 0 {
      UnderElements(objs[1..], prefix);
    }
  }

  /** Listing under a prefix keeps a bucket well formed. */
  lemma {:induction false} UnderWellFormed(objs: seq<ObjectRecord>, prefix: string)
    requires WellFormedBucket(objs)
    ensures WellFormedBucket(Under(objs, prefix))
  {
    if |objs| > 0 {
      UnderWellFormed(objs[1..], prefix);
      UnderElements(objs[1..], prefix);
      var rest := Under(objs[1..], prefix);
      forall j | 0 <= j < |rest|
        ensures KeyLess(objs[0].key, rest[j].key)
      {
        var k :| 0 <= k < |objs[1..]| && objs[1..][k] == rest[j];
        assert objs[k + 1] == rest[j];
      }
    }
  }

  /** When every key is past the cursor, nothing is skipped. */
  lemma {:induction false} AfterAllGreater(objs: seq<ObjectRecord>, cursor: string)
    requires forall i :: 0 <= i < |objs| ==> KeyLess(cursor, objs[i].key)
    ensures After(objs, cursor) == objs
  {
    if |objs| > 0 {
      AfterAllGreater(objs[1..], cursor);
    }
  }

  /** On a sorted list, the records after a cursor form a suffix. */
  lemma {:induction false} AfterSuffix(objs: seq<ObjectRecord>, cursor: string)
    requires Sorted(objs)
    ensures After(objs, cursor) == objs[|objs| - |After(objs, cursor)|..]
  {
    if |objs| > 0 {
      if KeyLess(cursor, objs[0].key) {
        forall i | 0 <= i < |objs|
          ensures KeyLess(cursor, objs[i].key)
        {
          if i > 0 {
            KeyLessTransitive(cursor, objs[0].key, objs[i].key);
          }
        }
        AfterAllGreater(objs, cursor);
      } else {
        AfterSuffix(objs[1..], cursor);
      }
    }
  }

  /** On a sorted list, the records after the key of record `m` are exactly those behind it. */
  lemma {:induction false} AfterAtKey(objs: seq<ObjectRecord>, m: int)
    requires Sorted(objs) && 0 <= m < |objs|
    ensures After(objs, objs[m].key) == objs[m + 1..]
  {
    if m == 0 {
      KeyLessIrreflexive(objs[0].key);
      AfterAllGreater(objs[1..], objs[0].key);
    } else {
      KeyLessAsymmetric(objs[0].key, objs[m].key);
      AfterAtKey(objs[1..], m - 1);
    }
  }

  /**
   * Advancing the cursor to the last key of a page taken from the records
   * after `cursor` leaves exactly the records behind that page.
   */
  lemma AfterAdvance(objs: seq<ObjectRecord>, cursor: string, k: int)
    requires Sorted(objs)
    requires 1 <= k <= |After(objs, cursor)|
    ensures After(objs, After(objs, cursor)[k - 1].key) == After(objs, cursor)[k..]
  {
    AfterSuffix(objs, cursor);
    var a := |objs| - |After(objs, cursor)|;
    assert After(objs, cursor)[k - 1] == objs[a + k - 1];
    AfterAtKey(objs, a + k - 1);
  }

  /** The empty cursor lists a well-formed bucket from its first record. */
  lemma {:induction false} AfterEmptyCursor(objs: seq<ObjectRecord>)
    requires WellFormedBucket(objs)
    ensures After(objs, "") == objs
  {
    forall i | 0 <= i < |objs|
      ensures KeyLess("", objs[i].key)
    {
      assert objs[i].key != "";
    }
    AfterAllGreater(objs, "");
  }

  /**
   * Resuming after the last key of an already listed leading run lists the rest:
   * nothing is skipped and nothing is listed twice.
   */
  lemma ResumeAfterLastKey(objs: seq<ObjectRecord>, n: int)
    requires Sorted(objs) && 1 <= n <= |objs|
    ensures objs[..n] + After(objs, objs[n - 1].key) == objs
  {
    AfterAtKey(objs, n - 1);
    SplitAt(objs, n);
  }

  /**
   * A non-empty page taken from the front of the records after `cursor`,
   * followed by the records after the page's last key, is again everything
   * after `cursor`; and fewer records remain than before.
   */
  lemma PageAdvance(objs: seq<ObjectRecord>, cursor: string, page: seq<ObjectRecord>)
    requires Sorted(objs) && |page| > 0 && IsPrefixOf(page, After(objs, cursor))
    ensures page + After(objs, page[|page| - 1].key) == After(objs, cursor)
    ensures |After(objs, page[|page| - 1].key)| < |After(objs, cursor)|
  {
    var rest := After(objs, cursor);
    assert page[|page| - 1] == rest[|page| - 1];
    AfterAdvance(objs, cursor, |page|);
    SplitAt(rest, |page|);
  }

  lemma SplitAt<T>(s: seq<T>, n: int)
    requires 0 <= n <= |s|
    ensures s[..n] + s[n..] == s
  {
  }

  /**
   * How many records one call returns at most: the requested count, and one
   * record when the request is not positive (the truncation loop stops after
   * its first append in that case).
   */
  function PageCap(limit: int): (n: nat)
    ensures n >= 1 && (limit >= 1 ==> n == limit)
  {
    if limit <= 0 then 1 else limit
  }

  /** `p` is a leading run of `s`. */
  predicate IsPrefixOf<T(==)>(p: seq<T>, s: seq<T>)
  {
    |p| <= |s| && s[..|p|] == p
  }

  /**
   * One ListObjectsBatch call over `bucket`: the first records under `prefix`
   * after `startAfter`, cut at the page cap, unless the call fails.
   */
  function ListBatch(bucket: seq<ObjectRecord>, prefix: string, startAfter: string, limit: int,
                     fault: Option<ListError>): (p: Page)
    ensures p.ListFailed? <==> fault.Some?
    ensures p.ListFailed? ==> p.error == fault.value
    ensures p.Listed? ==> |p.records| <= PageCap(limit)
    ensures p.Listed? ==> IsPrefixOf(p.records, After(Under(bucket, prefix), startAfter))
    ensures p.Listed? && |p.records| < PageCap(limit) ==> p.records == After(Under(bucket, prefix), startAfter)
  {
    if fault.Some? then ListFailed(fault.value)
    else
      var rest := After(Under(bucket, prefix), startAfter);
      Listed(if |rest| <= PageCap(limit) then rest else rest[..PageCap(limit)])
  }
}
