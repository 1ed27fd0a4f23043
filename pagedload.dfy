/**
 * The batch loop of the two earlier window revisions (windows/mainwindow.go
 * and main.go): list a page after the cursor, append it, and go on while
 * pages come back full; a failing call ends the load. There is no ceiling and
 * no cancel check; the listing runs under the service's configured prefix.
 */
module PagedLoad {
  import opened Optional
  import opened Listing

  /** How a paged load ends: whether a listing call failed, and the records appended before that, in order. */
  datatype Outcome = Outcome(failed: bool, loaded: seq<ObjectRecord>)

  /** The outcome `o`, with `prefix` appended before it. */
  function Behind(prefix: seq<ObjectRecord>, o: Outcome): Outcome
  {
    Outcome(o.failed, prefix + o.loaded)
  }

  /**
   * The load from listing call number `call` on, with the cursor at
   * `lastKey`: a failing call ends it with nothing more appended, a page
   * shorter than `batchSize` is appended and ends it, a full page is
   * appended and the next call lists after its last key.
   */
  function PagedRun(fault: nat -> Option<ListError>, call: nat, store: seq<ObjectRecord>, prefix: string,
                    lastKey: string, batchSize: int): Outcome
    requires WellFormedBucket(store) && batchSize >= 1
    decreases |After(Under(store, prefix), lastKey)|
  {
    var page := ListBatch(store, prefix, lastKey, batchSize, fault(call));
    if page.ListFailed? then Outcome(true, [])
    else if |page.records| < batchSize then Outcome(false, page.records)
    else
      UnderWellFormed(store, prefix);
      PageAdvance(Under(store, prefix), lastKey, page.records);
      Behind(page.records, PagedRun(fault, call + 1, store, prefix, page.records[|page.records| - 1].key, batchSize))
  }

  /** One pass of the loop: the page listed, and how the rest of the load follows from it. */
  lemma PagedRunUnfold(fault: nat -> Option<ListError>, call: nat, store: seq<ObjectRecord>, prefix: string,
                       lastKey: string, batchSize: int, page: Page)
    requires WellFormedBucket(store) && batchSize >= 1
    requires page == ListBatch(store, prefix, lastKey, batchSize, fault(call))
    ensures page.ListFailed? ==> PagedRun(fault, call, store, prefix, lastKey, batchSize) == Outcome(true, [])
    ensures page.Listed? && |page.records| < batchSize ==>
      PagedRun(fault, call, store, prefix, lastKey, batchSize) == Outcome(false, page.records)
    ensures page.Listed? && |page.records| >= batchSize ==>
      && |page.records| > 0
      && PagedRun(fault, call, store, prefix, lastKey, batchSize)
         == Behind(page.records, PagedRun(fault, call + 1, store, prefix, page.records[|page.records| - 1].key, batchSize))
      && |After(Under(store, prefix), page.records[|page.records| - 1].key)| < |After(Under(store, prefix), lastKey)|
  {
    if page.Listed? && |page.records| >= batchSize {
      UnderWellFormed(store, prefix);
      PageAdvance(Under(store, prefix), lastKey, page.records);
    }
  }

  /**
   * One listing call of the loop and what it decides: a failing call ends the
   * load, a short page is the last one, a full page moves the cursor to its
   * last key and the load goes on from there.
   */
  method ListPage(fault: nat -> Option<ListError>, call: nat, store: seq<ObjectRecord>, prefix: string,
                  lastKey: string, batchSize: int)
    returns (batch: seq<ObjectRecord>, stop: Option<bool>, nextKey: string)
    requires WellFormedBucket(store) && batchSize >= 1
    ensures stop == Some(true) ==> batch == [] && PagedRun(fault, call, store, prefix, lastKey, batchSize) == Outcome(true, [])
    ensures stop == Some(false) ==> PagedRun(fault, call, store, prefix, lastKey, batchSize) == Outcome(false, batch)
    ensures stop.None? ==>
      && |batch| > 0 && nextKey == batch[|batch| - 1].key
      && PagedRun(fault, call, store, prefix, lastKey, batchSize)
         == Behind(batch, PagedRun(fault, call + 1, store, prefix, nextKey, batchSize))
      && |After(Under(store, prefix), nextKey)| < |After(Under(store, prefix), lastKey)|
  {
    var page := ListBatch(store, prefix, lastKey, batchSize, fault(call));
    PagedRunUnfold(fault, call, store, prefix, lastKey, batchSize, page);
    nextKey := lastKey;
    if page.ListFailed? {
      return [], Some(true), nextKey;
    }
    batch := page.records;
    if |batch| > 0 {
      nextKey := batch[|batch| - 1].key;
    }
    stop := if |batch| < batchSize then Some(false) else None;
  }

  lemma BehindBehind(a: seq<ObjectRecord>, b: seq<ObjectRecord>, o: Outcome)
    ensures Behind(a, Behind(b, o)) == Behind(a + b, o)
  {
    assert (a + b) + o.loaded == a + (b + o.loaded);
  }

  /**
   * A paged load appends a leading run of the records under the prefix after
   * the cursor, each once and in order; unless a call fails it appends all of them.
   */
  lemma {:induction false} PagedRunLists(fault: nat -> Option<ListError>, call: nat, store: seq<ObjectRecord>,
                                         prefix: string, lastKey: string, batchSize: int)
    requires WellFormedBucket(store) && batchSize >= 1
    ensures var o := PagedRun(fault, call, store, prefix, lastKey, batchSize);
      && IsPrefixOf(o.loaded, After(Under(store, prefix), lastKey))
      && (!o.failed ==> o.loaded == After(Under(store, prefix), lastKey))
    decreases |After(Under(store, prefix), lastKey)|
  {
    var page := ListBatch(store, prefix, lastKey, batchSize, fault(call));
    PagedRunUnfold(fault, call, store, prefix, lastKey, batchSize, page);
    if page.Listed? && |page.records| >= batchSize {
      var next := page.records[|page.records| - 1].key;
      var rest := After(Under(store, prefix), lastKey);
      UnderWellFormed(store, prefix);
      PageAdvance(Under(store, prefix), lastKey, page.records);
      PagedRunLists(fault, call + 1, store, prefix, next, batchSize);
      var o := PagedRun(fault, call + 1, store, prefix, next, batchSize);
      assert rest == page.records + After(Under(store, prefix), next);
      assert (page.records + After(Under(store, prefix), next))[..|page.records + o.loaded|]
             == page.records + After(Under(store, prefix), next)[..|o.loaded|];
    }
  }

  /** A load fails only when one of its listing calls fails, and never when none does. */
  lemma {:induction false} PagedRunFailure(fault: nat -> Option<ListError>, call: nat, store: seq<ObjectRecord>,
                                           prefix: string, lastKey: string, batchSize: int)
    requires WellFormedBucket(store) && batchSize >= 1
    ensures PagedRun(fault, call, store, prefix, lastKey, batchSize).failed ==>
      exists n: nat :: call <= n && fault(n).Some?
    ensures (forall n: nat :: call <= n ==> fault(n).None?) ==>
      !PagedRun(fault, call, store, prefix, lastKey, batchSize).failed
    decreases |After(Under(store, prefix), lastKey)|
  {
    var page := ListBatch(store, prefix, lastKey, batchSize, fault(call));
    PagedRunUnfold(fault, call, store, prefix, lastKey, batchSize, page);
    if page.Listed? && |page.records| >= batchSize {
      PagedRunFailure(fault, call + 1, store, prefix, page.records[|page.records| - 1].key, batchSize);
    }
  }

  /**
   * A load from the start of the listing appends a leading run of the objects
   * under the prefix, in key order, and all of them unless a call fails, which
   * happens only when one of its listing calls fails.
   */
  lemma FreshPagedRun(fault: nat -> Option<ListError>, store: seq<ObjectRecord>, prefix: string, batchSize: int)
    requires WellFormedBucket(store) && batchSize >= 1
    ensures var o := PagedRun(fault, 0, store, prefix, "", batchSize);
      && IsPrefixOf(o.loaded, Under(store, prefix))
      && (!o.failed ==> o.loaded == Under(store, prefix))
      && (o.failed ==> exists n: nat :: fault(n).Some?)
  {
    PagedRunLists(fault, 0, store, prefix, "", batchSize);
    PagedRunFailure(fault, 0, store, prefix, "", batchSize);
    UnderWellFormed(store, prefix);
    AfterEmptyCursor(Under(store, prefix));
  }
}
