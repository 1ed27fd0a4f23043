/**
 * The object browser window of the current revision (windows/filemanager.go):
 * the loaded index of objects, the projection shown in the table, the folder
 * tree, the row selection, and the batch loader that fills the index page by
 * page. The loader runs sequentially here; the listing call, the clock and
 * cancellation by the user are supplied by a `LoadEnv`.
 */
module FileManagerWindow {
  import opened Optional
  import opened Text
  import opened Decimal
  import opened Listing
  import opened ObjectIndex
  import opened Projection
  import opened DirTree

  /** Records requested per listing call. */
  const BatchSize: int := 500
  /** Minimum time between two table refreshes while loading, in milliseconds. */
  const UiUpdateIntervalMs: int := 500
  /** The ceiling a new window starts with; 0 would mean "no ceiling". */
  const MaxObjectsDefault: int := 50000

  /** What the status line under the table says. */
  datatype ItemsLabel =
    | Counts(shown: nat, total: nat, limit: Option<int>)
    | LoadingUnder(prefix: string)
    | LoadingAll
    | LoadingMore(loaded: nat)
    | LoadedSoFar(loaded: nat)
    | LoadCanceled(loaded: nat)
    | LoadFailed
    | NoObjectsFound

  /** Why a loader run ended. */
  datatype StopReason = StopCanceled | StopFailed | StopCeiling | StopEmpty | StopShort

  /** What a loader run may change besides `hasMoreObjects`: what the window shows and the running load. */
  datatype View = View(allObjects: seq<ObjectRecord>, prefixes: set<string>, currentObjects: seq<ObjectRecord>,
                       selectedIndex: set<int>, treeIds: map<string, seq<string>>, treeValues: map<string, string>,
                       itemsLabel: ItemsLabel, loadMoreShown: bool, loadHandle: Option<nat>, viewShared: bool)


  /** updateItemsLabel: shown and total counts, and the ceiling when the load stopped at it. */
  function CountsLabel(shown: nat, total: nat, hasMore: bool, maxObjects: int): ItemsLabel
  {
    Counts(shown, total, if hasMore then Some(maxObjects) else None)
  }

  /**
   * The deferred status of a finished run, by priority: canceled, then
   * failed, then the counts when anything is loaded, then "no objects".
   */
  function FinishLabel(reason: StopReason, shown: nat, total: nat, hasMore: bool, maxObjects: int): ItemsLabel
  {
    if reason == StopCanceled then LoadCanceled(total)
    else if reason == StopFailed then LoadFailed
    else if total > 0 then CountsLabel(shown, total, hasMore, maxObjects)
    else NoObjectsFound
  }

  /**
   * The "Max objects" field's change handler: an empty field means no
   * ceiling; a non-negative decimal becomes the ceiling; anything else
   * (junk, a negative number, an int64 overflow) keeps the current one.
   */
  function MaxObjectsAfterInput(current: int, input: string): (m: int)
    ensures input == "" ==> m == 0
    ensures current >= 0 ==> m >= 0
    ensures m != current ==> input == "" || Atoi(input) == Some(m)
  {
    if input == "" then 0
    else match Atoi(input)
      case Some(v) => if v >= 0 then v else current
      case None => current
  }

  /** The field starts out showing the default ceiling; reading any shown count back gives that count. */
  lemma ShownCountReadsBack(current: int, n: nat)
    requires n <= MaxInt64
    ensures MaxObjectsAfterInput(current, FormatDecimal(n)) == n
  {
    AtoiFormat(n);
  }

  /** A sign or a letter is never a ceiling: the field keeps its value. */
  lemma NegativeInputIgnored(current: int, n: nat)
    requires 0 < n <= MaxInt64
    ensures MaxObjectsAfterInput(current, "-" + FormatDecimal(n)) == current
  {
    var s := "-" + FormatDecimal(n);
    assert s[1..] == FormatDecimal(n);
    DigitsValueOfFormat(n);
  }

  /** The listing prefix after LoadObjects cleans it: surrounding white space and leading '/' removed. */
  function CleanPrefix(prefix: string): (clean: string)
    ensures |clean| <= |prefix|
  {
    TrimLeftSlashes(TrimSpace(prefix))
  }

  /** A cleaned prefix neither starts with '/' nor with white space, nor ends with white space. */
  lemma CleanPrefixShape(prefix: string)
    ensures var clean := CleanPrefix(prefix);
      && (|clean| == 0 || (clean[0] != '/' && !IsSpace(clean[|clean| - 1])))
      && (|TrimSpace(prefix)| == |clean| ==> |clean| == 0 || !IsSpace(clean[0]))
  {
    var lead := TrimLeadingSpace(prefix);
    var t := TrimSpace(prefix);
    TrimLeadingSpaceDrops(prefix);
    TrimTrailingSpaceDrops(lead);
    TrimLeftSlashesDrops(t);
  }

  /** The key an uploaded file gets: under the selected tree node, unless that is "root" or "all". */
  function UploadKey(selectedPrefix: string, name: string): (key: string)
    ensures key == name || key == selectedPrefix + "/" + name
  {
    if selectedPrefix != RootId && selectedPrefix != AllId then selectedPrefix + "/" + name else name
  }

  /** An upload lands in the selected folder: the folder the tree shows it under is the selected node. */
  lemma UploadLandsInSelectedFolder(selectedPrefix: string, name: string)
    requires '/' !in name
    ensures selectedPrefix != RootId && selectedPrefix != AllId ==> ParentPrefix(UploadKey(selectedPrefix, name)) == Some(selectedPrefix)
    ensures selectedPrefix == RootId || selectedPrefix == AllId ==> ParentPrefix(UploadKey(selectedPrefix, name)) == None
  {
    if selectedPrefix != RootId && selectedPrefix != AllId {
      ParentOfChild(selectedPrefix, name);
    }
  }

  /**
   * Whether a committed page also refreshes the tree and table: the first
   * page, the first refresh of the run, a short page, or the interval elapsed.
   */
  function ShouldUpdate(firstBatch: bool, lastStatus: Option<int>, now: int, got: nat, requested: int): (r: bool)
    ensures !r ==> !firstBatch && got >= requested && lastStatus.Some? && now - lastStatus.value < UiUpdateIntervalMs
  {
    firstBatch || lastStatus.None? || now - lastStatus.value >= UiUpdateIntervalMs || got < requested
  }

  /** The size of the next page: a full batch, or what is left under a positive ceiling. */
  function PageSize(maxObjects: int, loaded: nat): (size: int)
    ensures size <= BatchSize
    ensures maxObjects > 0 ==> size <= maxObjects - loaded
    ensures maxObjects > 0 && loaded < maxObjects ==> size >= 1
    ensures maxObjects <= 0 ==> size == BatchSize
  {
    if maxObjects > 0 && maxObjects - loaded < BatchSize then maxObjects - loaded else BatchSize
  }

  /** The decision of one pass of the loader's loop: why it stops, if it does, and the page listed. */
  datatype Step = Step(stop: Option<StopReason>, batch: seq<ObjectRecord>, size: int)

  /** Exactly a full and a short page carry records. */
  predicate Shaped(s: Step)
  {
    s.stop.None? || s.stop == Some(StopShort) <==> |s.batch| > 0
  }

  /**
   * One pass of the loader's loop before it touches the window: the cancel
   * check, the ceiling check, the page size, the listing call, and whether
   * the page ends the run (empty or short) or the loop goes on (full).
   */
  function PlanStep(canceled: bool, maxObjects: int, loaded: nat, store: seq<ObjectRecord>, basePrefix: string,
                    lastKey: string, fault: Option<ListError>): Step
  {
    if canceled then Step(Some(StopCanceled), [], 0)
    else if maxObjects > 0 && loaded >= maxObjects then Step(Some(StopCeiling), [], 0)
    else
      var size := PageSize(maxObjects, loaded);
      var page := ListBatch(store, basePrefix, lastKey, size, fault);
      if page.ListFailed? then Step(Some(if page.error == Canceled then StopCanceled else StopFailed), [], size)
      else if |page.records| == 0 then Step(Some(StopEmpty), [], size)
      else if |page.records| < size then Step(Some(StopShort), page.records, size)
      else Step(None, page.records, size)
  }

  /**
   * The page a step commits is a leading run of what remains after the
   * cursor; it is all of it when the step stops short, and there was nothing
   * left when the step stops empty. Only a full or a short page is committed,
   * and a page is short exactly when it holds fewer records than were asked for.
   */
  lemma PlanStepPage(canceled: bool, maxObjects: int, loaded: nat, store: seq<ObjectRecord>, basePrefix: string,
                     lastKey: string, fault: Option<ListError>)
    ensures var s := PlanStep(canceled, maxObjects, loaded, store, basePrefix, lastKey, fault);
      && IsPrefixOf(s.batch, After(Under(store, basePrefix), lastKey))
      && Shaped(s)
      && (s.stop == Some(StopShort) ==> s.batch == After(Under(store, basePrefix), lastKey))
      && (s.stop == Some(StopEmpty) ==> After(Under(store, basePrefix), lastKey) == [])
      && (s.stop.Some? && s.stop != Some(StopShort) ==> s.batch == [])
      && (|s.batch| > 0 ==> (s.stop == Some(StopShort) <==> |s.batch| < s.size))
  {
  }

  /**
   * Why a step stops: the ceiling exactly when the load is not canceled and
   * the index is full; canceled only after a cancellation, failed only after
   * a failing call. A step never takes the index past a positive ceiling.
   */
  lemma PlanStepStop(canceled: bool, maxObjects: int, loaded: nat, store: seq<ObjectRecord>, basePrefix: string,
                     lastKey: string, fault: Option<ListError>)
    ensures var s := PlanStep(canceled, maxObjects, loaded, store, basePrefix, lastKey, fault);
      && (s.stop == Some(StopCeiling) <==> !canceled && maxObjects > 0 && loaded >= maxObjects)
      && (maxObjects > 0 && loaded <= maxObjects ==> loaded + |s.batch| <= maxObjects)
      && (s.stop == Some(StopCanceled) ==> canceled || fault == Some(Canceled))
      && (s.stop == Some(StopFailed) ==> fault == Some(Failed))
  {
  }

  /** The cursor after a page: the page's last key, or unchanged when the page is empty. */
  function NextCursor(lastKey: string, batch: seq<ObjectRecord>): string
  {
    if |batch| > 0 then batch[|batch| - 1].key else lastKey
  }

  /**
   * Whether the pass that took `step` refreshes the window: it lists a page
   * and ShouldUpdate holds for it, with `now` the clock after the call.
   */
  predicate Refreshes(step: Step, now: int, firstBatch: bool, lastStatus: Option<int>)
  {
    |step.batch| > 0 && ShouldUpdate(firstBatch, lastStatus, now, |step.batch|, step.size)
  }

  /** A step that does not stop the run moves the cursor forward: fewer records remain after it. */
  lemma StepShrinks(canceled: bool, maxObjects: int, loaded: nat, store: seq<ObjectRecord>, basePrefix: string,
                    lastKey: string, fault: Option<ListError>)
    requires WellFormedBucket(store)
    ensures var s := PlanStep(canceled, maxObjects, loaded, store, basePrefix, lastKey, fault);
      s.stop.None? ==> |After(Under(store, basePrefix), NextCursor(lastKey, s.batch))| < |After(Under(store, basePrefix), lastKey)|
  {
    var s := PlanStep(canceled, maxObjects, loaded, store, basePrefix, lastKey, fault);
    PlanStepPage(canceled, maxObjects, loaded, store, basePrefix, lastKey, fault);
    if s.stop.None? {
      UnderWellFormed(store, basePrefix);
      PageAdvance(Under(store, basePrefix), lastKey, s.batch);
    }
  }

  /** How a loader run ends: why it stopped, and the records its listing calls returned, in order. */
  datatype Run = Run(reason: StopReason, loaded: seq<ObjectRecord>)

  /** The run `r`, with `prefix` listed before it. */
  function Then(prefix: seq<ObjectRecord>, r: Run): Run
  {
    Run(r.reason, prefix + r.loaded)
  }

  lemma ThenThen(a: seq<ObjectRecord>, b: seq<ObjectRecord>, r: Run)
    ensures Then(a, Then(b, r)) == Then(a + b, r)
  {
    AppendAssociates(a, b, r.loaded);
  }

  /**
   * The whole loader run from listing call number `call` on, with the cursor
   * at `lastKey` and `count` records in the index: step after step, until a
   * step stops the run. `pinned` is a cancellation that happened before the
   * run (the handle was already canceled); `grows` says whether the run's
   * pages land in the index, which is what the ceiling and the page size are
   * computed from.
   */
  function LoaderRun(pinned: bool, env: LoadEnv, call: nat, maxObjects: int, count: nat, grows: bool,
                     store: seq<ObjectRecord>, basePrefix: string, lastKey: string): Run
    requires WellFormedBucket(store)
    decreases |After(Under(store, basePrefix), lastKey)|, 1
  {
    RunStep(pinned, env, call, maxObjects, count, grows, store, basePrefix, lastKey)
  }

  /** The first step of a run, then (unless it stops the run) the rest of the run. */
  function RunStep(pinned: bool, env: LoadEnv, call: nat, maxObjects: int, count: nat, grows: bool,
                   store: seq<ObjectRecord>, basePrefix: string, lastKey: string): Run
    requires WellFormedBucket(store)
    decreases |After(Under(store, basePrefix), lastKey)|, 0
  {
    var step := PlanStep(pinned || env.canceledBefore(call), maxObjects, count, store, basePrefix, lastKey, env.fault(call));
    if step.stop.Some? then Run(step.stop.value, step.batch)
    else
      StepShrinks(pinned || env.canceledBefore(call), maxObjects, count, store, basePrefix, lastKey, env.fault(call));
      Then(step.batch, LoaderRun(pinned, env, call + 1, maxObjects, if grows then count + |step.batch| else count, grows,
                                 store, basePrefix, NextCursor(lastKey, step.batch)))
  }

  /** One step of a run: a stopping step ends it, any other step is followed by the rest of the run. */
  lemma LoaderRunUnfold(pinned: bool, env: LoadEnv, call: nat, maxObjects: int, count: nat, grows: bool,
                        store: seq<ObjectRecord>, basePrefix: string, lastKey: string, step: Step)
    requires WellFormedBucket(store)
    requires step == PlanStep(pinned || env.canceledBefore(call), maxObjects, count, store, basePrefix, lastKey, env.fault(call))
    ensures step.stop.Some? ==>
      LoaderRun(pinned, env, call, maxObjects, count, grows, store, basePrefix, lastKey) == Run(step.stop.value, step.batch)
    ensures step.stop.None? ==>
      LoaderRun(pinned, env, call, maxObjects, count, grows, store, basePrefix, lastKey)
      == Then(step.batch, LoaderRun(pinned, env, call + 1, maxObjects, if grows then count + |step.batch| else count, grows,
                                    store, basePrefix, NextCursor(lastKey, step.batch)))
  {
    assert LoaderRun(pinned, env, call, maxObjects, count, grows, store, basePrefix, lastKey)
           == RunStep(pinned, env, call, maxObjects, count, grows, store, basePrefix, lastKey);
  }

  /**
   * The decision half of one pass of the loader loop: the cancel check, the
   * ceiling check and the listing call, classified. Its result is the first
   * step of the run from this point.
   */
  method DecideStep(pinned: bool, env: LoadEnv, call: nat, maxObjects: int, count: nat, grows: bool,
                    store: seq<ObjectRecord>, basePrefix: string, lastKey: string)
    returns (step: Step)
    requires WellFormedBucket(store)
    ensures Shaped(step)
    ensures step.stop.Some? ==>
      LoaderRun(pinned, env, call, maxObjects, count, grows, store, basePrefix, lastKey) == Run(step.stop.value, step.batch)
    ensures step.stop.None? ==>
      && LoaderRun(pinned, env, call, maxObjects, count, grows, store, basePrefix, lastKey)
         == Then(step.batch, LoaderRun(pinned, env, call + 1, maxObjects, if grows then count + |step.batch| else count, grows,
                                       store, basePrefix, NextCursor(lastKey, step.batch)))
      && |After(Under(store, basePrefix), NextCursor(lastKey, step.batch))| < |After(Under(store, basePrefix), lastKey)|
  {
    var canceled := pinned || env.canceledBefore(call);
    step := PlanStep(canceled, maxObjects, count, store, basePrefix, lastKey, env.fault(call));
    PlanStepPage(canceled, maxObjects, count, store, basePrefix, lastKey, env.fault(call));
    StepShrinks(canceled, maxObjects, count, store, basePrefix, lastKey, env.fault(call));
    LoaderRunUnfold(pinned, env, call, maxObjects, count, grows, store, basePrefix, lastKey, step);
  }

  lemma PrefixOfExtend(a: seq<ObjectRecord>, p: seq<ObjectRecord>, s: seq<ObjectRecord>)
    requires IsPrefixOf(p, s)
    ensures IsPrefixOf(a + p, a + s)
  {
    assert (a + s)[..|a + p|] == a + s[..|p|];
  }

  /**
   * A run lists a leading run of the records under the prefix after the
   * cursor, each once and in order; when it stops on an empty or a short
   * page it has listed all of them.
   */
  lemma {:induction false} LoaderRunLists(pinned: bool, env: LoadEnv, call: nat, maxObjects: int, count: nat, grows: bool,
                                          store: seq<ObjectRecord>, basePrefix: string, lastKey: string)
    requires WellFormedBucket(store)
    ensures var r := LoaderRun(pinned, env, call, maxObjects, count, grows, store, basePrefix, lastKey);
      && IsPrefixOf(r.loaded, After(Under(store, basePrefix), lastKey))
      && (r.reason == StopEmpty || r.reason == StopShort ==> r.loaded == After(Under(store, basePrefix), lastKey))
    decreases |After(Under(store, basePrefix), lastKey)|
  {
    var canceled := pinned || env.canceledBefore(call);
    var step := PlanStep(canceled, maxObjects, count, store, basePrefix, lastKey, env.fault(call));
    PlanStepPage(canceled, maxObjects, count, store, basePrefix, lastKey, env.fault(call));
    LoaderRunUnfold(pinned, env, call, maxObjects, count, grows, store, basePrefix, lastKey, step);
    if step.stop.None? {
      var u := Under(store, basePrefix);
      var next := NextCursor(lastKey, step.batch);
      var count' := if grows then count + |step.batch| else count;
      StepShrinks(canceled, maxObjects, count, store, basePrefix, lastKey, env.fault(call));
      UnderWellFormed(store, basePrefix);
      PageAdvance(u, lastKey, step.batch);
      LoaderRunLists(pinned, env, call + 1, maxObjects, count', grows, store, basePrefix, next);
      var rest := LoaderRun(pinned, env, call + 1, maxObjects, count', grows, store, basePrefix, next);
      PrefixOfExtend(step.batch, rest.loaded, After(u, next));
    }
  }

  /** A run whose pages land in the index never takes it past a positive ceiling. */
  lemma {:induction false} LoaderRunWithinCeiling(pinned: bool, env: LoadEnv, call: nat, maxObjects: int, count: nat,
                                                  store: seq<ObjectRecord>, basePrefix: string, lastKey: string)
    requires WellFormedBucket(store) && maxObjects > 0 && count <= maxObjects
    ensures count + |LoaderRun(pinned, env, call, maxObjects, count, true, store, basePrefix, lastKey).loaded| <= maxObjects
    decreases |After(Under(store, basePrefix), lastKey)|
  {
    var step := PlanStep(pinned || env.canceledBefore(call), maxObjects, count, store, basePrefix, lastKey, env.fault(call));
    PlanStepPage(pinned || env.canceledBefore(call), maxObjects, count, store, basePrefix, lastKey, env.fault(call));
    PlanStepStop(pinned || env.canceledBefore(call), maxObjects, count, store, basePrefix, lastKey, env.fault(call));
    if step.stop.None? {
      StepShrinks(pinned || env.canceledBefore(call), maxObjects, count, store, basePrefix, lastKey, env.fault(call));
      LoaderRunWithinCeiling(pinned, env, call + 1, maxObjects, count + |step.batch|, store, basePrefix,
                             NextCursor(lastKey, step.batch));
    }
  }

  /** A run stops at the ceiling only once the index holds at least that many records. */
  lemma {:induction false} LoaderRunCeiling(pinned: bool, env: LoadEnv, call: nat, maxObjects: int, count: nat, grows: bool,
                                            store: seq<ObjectRecord>, basePrefix: string, lastKey: string)
    requires WellFormedBucket(store)
    ensures var r := LoaderRun(pinned, env, call, maxObjects, count, grows, store, basePrefix, lastKey);
      r.reason == StopCeiling ==> maxObjects > 0 && count + (if grows then |r.loaded| else 0) >= maxObjects
    decreases |After(Under(store, basePrefix), lastKey)|
  {
    var step := PlanStep(pinned || env.canceledBefore(call), maxObjects, count, store, basePrefix, lastKey, env.fault(call));
    PlanStepPage(pinned || env.canceledBefore(call), maxObjects, count, store, basePrefix, lastKey, env.fault(call));
    PlanStepStop(pinned || env.canceledBefore(call), maxObjects, count, store, basePrefix, lastKey, env.fault(call));
    if step.stop.None? {
      StepShrinks(pinned || env.canceledBefore(call), maxObjects, count, store, basePrefix, lastKey, env.fault(call));
      LoaderRunCeiling(pinned, env, call + 1, maxObjects, if grows then count + |step.batch| else count, grows,
                       store, basePrefix, NextCursor(lastKey, step.batch));
    }
  }

  /**
   * With no ceiling, no cancellation and no failing call, a run goes on until
   * the listing is exhausted: it stops on an empty or a short page.
   */
  lemma {:induction false} LoaderRunUndisturbed(env: LoadEnv, call: nat, count: nat, grows: bool,
                                                store: seq<ObjectRecord>, basePrefix: string, lastKey: string)
    requires WellFormedBucket(store)
    requires forall n: nat :: call <= n ==> !env.canceledBefore(n) && env.fault(n).None?
    ensures var r := LoaderRun(false, env, call, 0, count, grows, store, basePrefix, lastKey);
      r.reason == StopEmpty || r.reason == StopShort
    decreases |After(Under(store, basePrefix), lastKey)|
  {
    var step := PlanStep(env.canceledBefore(call), 0, count, store, basePrefix, lastKey, env.fault(call));
    PlanStepPage(env.canceledBefore(call), 0, count, store, basePrefix, lastKey, env.fault(call));
    PlanStepStop(env.canceledBefore(call), 0, count, store, basePrefix, lastKey, env.fault(call));
    if step.stop.None? {
      StepShrinks(env.canceledBefore(call), 0, count, store, basePrefix, lastKey, env.fault(call));
      LoaderRunUndisturbed(env, call + 1, if grows then count + |step.batch| else count, grows,
                           store, basePrefix, NextCursor(lastKey, step.batch));
    }
  }

  /**
   * A run ends canceled only when the handle was canceled or some listing
   * call was canceled, and ends failed only when some listing call failed.
   */
  lemma {:induction false} LoaderRunStopCause(pinned: bool, env: LoadEnv, call: nat, maxObjects: int, count: nat, grows: bool,
                                              store: seq<ObjectRecord>, basePrefix: string, lastKey: string)
    requires WellFormedBucket(store)
    ensures var r := LoaderRun(pinned, env, call, maxObjects, count, grows, store, basePrefix, lastKey);
      && (r.reason == StopCanceled ==>
            pinned || exists n: nat :: call <= n && (env.canceledBefore(n) || env.fault(n) == Some(Canceled)))
      && (r.reason == StopFailed ==> exists n: nat :: call <= n && env.fault(n) == Some(Failed))
    decreases |After(Under(store, basePrefix), lastKey)|
  {
    var step := PlanStep(pinned || env.canceledBefore(call), maxObjects, count, store, basePrefix, lastKey, env.fault(call));
    PlanStepPage(pinned || env.canceledBefore(call), maxObjects, count, store, basePrefix, lastKey, env.fault(call));
    PlanStepStop(pinned || env.canceledBefore(call), maxObjects, count, store, basePrefix, lastKey, env.fault(call));
    if step.stop.None? {
      StepShrinks(pinned || env.canceledBefore(call), maxObjects, count, store, basePrefix, lastKey, env.fault(call));
      LoaderRunStopCause(pinned, env, call + 1, maxObjects, if grows then count + |step.batch| else count, grows,
                         store, basePrefix, NextCursor(lastKey, step.batch));
    }
  }

  /**
   * A cancellation seen at a call's check stops the run right there: the run
   * ends canceled and lists nothing more.
   */
  lemma LoaderRunCanceledStops(pinned: bool, env: LoadEnv, call: nat, maxObjects: int, count: nat, grows: bool,
                               store: seq<ObjectRecord>, basePrefix: string, lastKey: string)
    requires WellFormedBucket(store) && (pinned || env.canceledBefore(call))
    ensures LoaderRun(pinned, env, call, maxObjects, count, grows, store, basePrefix, lastKey) == Run(StopCanceled, [])
  {
    var step := PlanStep(pinned || env.canceledBefore(call), maxObjects, count, store, basePrefix, lastKey, env.fault(call));
    LoaderRunUnfold(pinned, env, call, maxObjects, count, grows, store, basePrefix, lastKey, step);
  }

  /** A loader goroutine as LoadObjects and continueLoading start it: its token and the key it lists after. */
  datatype Launch = Launch(handle: nat, startAfter: string)

  /** The cursor a continuation starts from: the key of the last loaded record, or the very start. */
  function ResumeKey(loaded: seq<ObjectRecord>): string
  {
    if |loaded| > 0 then loaded[|loaded| - 1].key else ""
  }

  /**
   * A fresh load lists a leading run of the objects under the prefix, in key
   * order; no more than the ceiling when there is one; and all of them when
   * it stops on an empty or a short page.
   */
  lemma FreshLoadLists(pinned: bool, env: LoadEnv, maxObjects: int, store: seq<ObjectRecord>, basePrefix: string)
    requires WellFormedBucket(store)
    ensures var r := LoaderRun(pinned, env, 0, maxObjects, 0, true, store, basePrefix, "");
      && IsPrefixOf(r.loaded, Under(store, basePrefix))
      && (r.reason == StopEmpty || r.reason == StopShort ==> r.loaded == Under(store, basePrefix))
      && (maxObjects > 0 ==> |r.loaded| <= maxObjects)
  {
    LoaderRunLists(pinned, env, 0, maxObjects, 0, true, store, basePrefix, "");
    UnderWellFormed(store, basePrefix);
    AfterEmptyCursor(Under(store, basePrefix));
    if maxObjects > 0 {
      LoaderRunWithinCeiling(pinned, env, 0, maxObjects, 0, store, basePrefix, "");
    }
  }

  /** With no ceiling and nothing canceled or failing, a fresh load lists exactly the objects under the prefix. */
  lemma UndisturbedLoadListsAll(env: LoadEnv, store: seq<ObjectRecord>, basePrefix: string)
    requires WellFormedBucket(store)
    requires forall n: nat :: !env.canceledBefore(n) && env.fault(n).None?
    ensures LoaderRun(false, env, 0, 0, 0, true, store, basePrefix, "").loaded == Under(store, basePrefix)
  {
    LoaderRunUndisturbed(env, 0, 0, true, store, basePrefix, "");
    FreshLoadLists(false, env, 0, store, basePrefix);
  }

  /**
   * Load More resumes after the last loaded key: when the index is a leading
   * run of the listing, it still is after the continuation, with nothing
   * skipped and nothing listed twice; and it is the whole listing when the
   * continuation stops on an empty or a short page.
   */
  lemma ContinuationExtends(pinned: bool, env: LoadEnv, maxObjects: int, prev: seq<ObjectRecord>,
                            store: seq<ObjectRecord>, basePrefix: string)
    requires WellFormedBucket(store) && IsPrefixOf(prev, Under(store, basePrefix))
    ensures var r := LoaderRun(pinned, env, 0, maxObjects, |prev|, true, store, basePrefix, ResumeKey(prev));
      && IsPrefixOf(prev + r.loaded, Under(store, basePrefix))
      && (r.reason == StopEmpty || r.reason == StopShort ==> prev + r.loaded == Under(store, basePrefix))
  {
    var u := Under(store, basePrefix);
    var r := LoaderRun(pinned, env, 0, maxObjects, |prev|, true, store, basePrefix, ResumeKey(prev));
    UnderWellFormed(store, basePrefix);
    LoaderRunLists(pinned, env, 0, maxObjects, |prev|, true, store, basePrefix, ResumeKey(prev));
    if |prev| > 0 {
      ResumeAfterLastKey(u, |prev|);
    } else {
      AfterEmptyCursor(u);
      assert prev + After(u, ResumeKey(prev)) == u;
    }
    PrefixOfExtend(prev, r.loaded, After(u, ResumeKey(prev)));
  }

  /** The index and the prefix set are the starting ones with `loaded` committed on top. */
  ghost predicate Grown(all: seq<ObjectRecord>, ps: set<string>, all0: seq<ObjectRecord>, ps0: set<string>,
                        loaded: seq<ObjectRecord>)
  {
    all == all0 + loaded && ps == ps0 + ParentSet(loaded)
  }

  /** Committing one more page keeps the index "the start plus everything loaded". */
  lemma GrownStep(all: seq<ObjectRecord>, ps: set<string>, all0: seq<ObjectRecord>, ps0: set<string>,
                  loaded: seq<ObjectRecord>, batch: seq<ObjectRecord>)
    requires Grown(all, ps, all0, ps0, loaded)
    ensures Grown(all + batch, ps + ParentSet(batch), all0, ps0, loaded + batch)
  {
    ParentSetAppend(loaded, batch);
    UnionAssociates(ps0, ParentSet(loaded), ParentSet(batch));
    AppendAssociates(all0, loaded, batch);
  }

  lemma UnionAssociates<T>(a: set<T>, b: set<T>, c: set<T>)
    ensures (a + b) + c == a + (b + c)
  {
  }

  lemma AppendAssociates<T>(a: seq<T>, b: seq<T>, c: seq<T>)
    ensures (a + b) + c == a + (b + c)
  {
  }

  class FileManager {
    /** Every record loaded so far, in listing order. */
    var allObjects: seq<ObjectRecord>
    /** The projection shown in the table. */
    var currentObjects: seq<ObjectRecord>
    /**
     * The table's slice is the index's own: filterObjectsLocked returned
     * `allObjects` itself, so a splice of the index moves the rows shown too.
     * The index is then a prefix of the table.
     */
    var viewShared: bool
    /** The checked table rows; Go's nil map is the empty set. */
    var selectedIndex: set<int>
    /** Whether Delete, Download and Link are enabled (they always change together). */
    var actionsEnabled: bool
    /** The folder prefix of every loaded key that has one. */
    var prefixes: set<string>
    /** The cleaned prefix the current load lists under. */
    var basePrefix: string
    /** The tree node selected: "all", "root" or a cumulative folder path. */
    var selectedPrefix: string
    var searchTerm: string
    /** The ceiling on loaded records; 0 means none. */
    var maxObjects: int
    /** The last run stopped at the ceiling. */
    var hasMoreObjects: bool
    /** The token of the running load, if any. */
    var loadHandle: Option<nat>
    /** The next token to hand out. */
    var nextHandle: nat
    /** The tokens whose cancel function has been called. */
    var canceledHandles: set<nat>
    /** A load has been started, so the window holds a context to load with. */
    var connected: bool
    /** The folder tree: child lists and captions by node id. */
    var treeIds: map<string, seq<string>>
    var treeValues: map<string, string>
    var itemsLabel: ItemsLabel
    var loadMoreShown: bool

    ghost predicate Valid()
      reads this`maxObjects, this`selectedIndex, this`actionsEnabled, this`loadHandle, this`nextHandle,
            this`canceledHandles, this`viewShared, this`allObjects, this`currentObjects
    {
      && maxObjects >= 0
      && (viewShared ==> allObjects <= currentObjects)
      && (selectedIndex != {} ==> actionsEnabled)
      && (loadHandle.Some? ==> loadHandle.value < nextHandle)
      && (forall h :: h in canceledHandles ==> h < nextHandle)
    }

    function Snapshot(): View
      reads this`allObjects, this`prefixes, this`currentObjects, this`selectedIndex, this`treeIds, this`treeValues,
            this`itemsLabel, this`loadMoreShown, this`loadHandle, this`viewShared
    {
      View(allObjects, prefixes, currentObjects, selectedIndex, treeIds, treeValues, itemsLabel, loadMoreShown, loadHandle,
           viewShared)
    }

    /** What a refresh redraws: the tree, the table, the checked rows and the status line. */
    function TableView(): (map<string, seq<string>>, map<string, string>, seq<ObjectRecord>, set<int>, ItemsLabel)
      reads this`treeIds, this`treeValues, this`currentObjects, this`selectedIndex, this`itemsLabel
    {
      (treeIds, treeValues, currentObjects, selectedIndex, itemsLabel)
    }

    /**
     * The tree shows the collected prefixes and the table shows the
     * projection, nothing checked; the table is the index's own slice
     * exactly when the projection took the unfiltered shortcut.
     */
    ghost predicate Refreshed()
      reads this`prefixes, this`treeIds, this`treeValues, this`currentObjects, this`allObjects, this`selectedPrefix,
            this`searchTerm, this`selectedIndex, this`viewShared
    {
      && ValidTree(prefixes, treeIds, treeValues)
      && currentObjects == ScopedFilter(allObjects, selectedPrefix, searchTerm) && selectedIndex == {}
      && viewShared == (searchTerm == "" && AllScope(selectedPrefix))
    }

    /** NewFileManager and setupUI: the tree holds only its two fixed nodes and "all" is selected. */
    constructor ()
      ensures Valid()
      ensures allObjects == [] && currentObjects == [] && viewShared && selectedIndex == {} && !actionsEnabled
      ensures prefixes == {} && basePrefix == "" && selectedPrefix == AllId && searchTerm == ""
      ensures maxObjects == MaxObjectsDefault && !hasMoreObjects
      ensures loadHandle == None && canceledHandles == {} && !connected
      ensures treeIds == map["" := [AllId, RootId]] && treeValues == map[AllId := AllLabel, RootId := RootLabel]
      ensures itemsLabel == Counts(0, 0, None) && !loadMoreShown
    {
      allObjects := [];
      currentObjects := [];
      viewShared := true;
      selectedIndex := {};
      actionsEnabled := false;
      prefixes := {};
      basePrefix := "";
      selectedPrefix := AllId;
      searchTerm := "";
      maxObjects := MaxObjectsDefault;
      hasMoreObjects := false;
      loadHandle := None;
      nextHandle := 0;
      canceledHandles := {};
      connected := false;
      treeIds := map["" := [AllId, RootId]];
      treeValues := map[AllId := AllLabel, RootId := RootLabel];
      itemsLabel := Counts(0, 0, None);
      loadMoreShown := false;
    }

    /** updateObjectListLocked: re-project the index, clear the selection, recount. */
    method UpdateObjectList()
      requires Valid()
      modifies this`currentObjects, this`viewShared, this`selectedIndex, this`itemsLabel
      ensures Valid()
      ensures currentObjects == ScopedFilter(allObjects, selectedPrefix, searchTerm)
      ensures viewShared == (searchTerm == "" && AllScope(selectedPrefix))
      ensures selectedIndex == {}
      ensures itemsLabel == CountsLabel(|currentObjects|, |allObjects|, hasMoreObjects, maxObjects)
    {
      currentObjects := FilterObjects(allObjects, selectedPrefix, searchTerm);
      viewShared := searchTerm == "" && AllScope(selectedPrefix);
      selectedIndex := {};
      itemsLabel := CountsLabel(|currentObjects|, |allObjects|, hasMoreObjects, maxObjects);
    }

    /** updateTree: rebuild the folder tree from the collected prefixes. */
    method UpdateTree()
      modifies this`treeIds, this`treeValues
      ensures ValidTree(prefixes, treeIds, treeValues)
    {
      treeIds, treeValues := BuildTree(prefixes);
    }

    /** The tree's selection handler. */
    method OnTreeSelected(id: string)
      requires Valid()
      modifies this`selectedPrefix, this`currentObjects, this`viewShared, this`selectedIndex, this`itemsLabel
      ensures Valid()
      ensures selectedPrefix == id && selectedIndex == {}
      ensures currentObjects == ScopedFilter(allObjects, id, searchTerm)
      ensures viewShared == (searchTerm == "" && AllScope(id))
      ensures itemsLabel == CountsLabel(|currentObjects|, |allObjects|, hasMoreObjects, maxObjects)
    {
      selectedPrefix := id;
      UpdateObjectList();
    }

    /** The search field's change handler, once its debounce delay has passed. */
    method OnSearchChanged(term: string)
      requires Valid()
      modifies this`searchTerm, this`currentObjects, this`viewShared, this`selectedIndex, this`itemsLabel
      ensures Valid()
      ensures searchTerm == term && selectedIndex == {}
      ensures currentObjects == ScopedFilter(allObjects, selectedPrefix, term)
      ensures viewShared == (term == "" && AllScope(selectedPrefix))
      ensures itemsLabel == CountsLabel(|currentObjects|, |allObjects|, hasMoreObjects, maxObjects)
    {
      searchTerm := term;
      UpdateObjectList();
    }

    /** The "Max objects" field's change handler. */
    method OnMaxObjectsChanged(input: string)
      requires Valid()
      modifies this`maxObjects
      ensures Valid()
      ensures maxObjects == MaxObjectsAfterInput(old(maxObjects), input)
    {
      maxObjects := MaxObjectsAfterInput(maxObjects, input);
    }

    /**
     * updateSelect: check or uncheck one row. The actions are enabled on a
     * check and disabled once the last row is unchecked.
     */
    method UpdateSelect(idx: int, selected: bool)
      requires Valid()
      modifies this`selectedIndex, this`actionsEnabled
      ensures Valid()
      ensures selectedIndex == if selected then old(selectedIndex) + {idx} else old(selectedIndex) - {idx}
      ensures actionsEnabled <==> selectedIndex != {}
    {
      if selected {
        selectedIndex := selectedIndex + {idx};
        actionsEnabled := true;
      } else {
        selectedIndex := selectedIndex - {idx};
        if selectedIndex == {} {
          actionsEnabled := false;
        }
      }
    }

    /** The table's selection handler: a click toggles the row. */
    method OnRowSelected(row: int)
      requires Valid()
      modifies this`selectedIndex, this`actionsEnabled
      ensures Valid()
      ensures row in selectedIndex <==> row !in old(selectedIndex)
      ensures selectedIndex - {row} == old(selectedIndex) - {row}
      ensures actionsEnabled <==> selectedIndex != {}
    {
      UpdateSelect(row, row !in selectedIndex);
    }

    /**
     * removeObject: drop the first loaded record with this key. The splice
     * works in place, so a table that shares the index's array shows the
     * records behind the removed one a row higher.
     */
    method RemoveObject(key: string)
      requires Valid()
      modifies this`allObjects, this`currentObjects
      ensures Valid()
      ensures allObjects == WithoutFirstKey(old(allObjects), key)
      ensures currentObjects == if viewShared then SplicedView(old(allObjects), old(currentObjects), key)
                                else old(currentObjects)
    {
      var shortened := RemoveFirstKey(allObjects, key);
      if viewShared {
        currentObjects := SplicedView(allObjects, currentObjects, key);
      }
      allObjects := shortened;
    }

    /**
     * handleDelete once confirmed, with the checked rows' keys read before
     * anything is removed: for each checked row, in the order `rows` in which
     * Go's map hands them out, request the deletion of its key, remove the
     * key from the index when the request succeeds (`ok`), and uncheck the
     * row; then re-project the table. With no row checked nothing happens.
     */
    method DeleteSelected(rows: seq<int>, ok: seq<bool>) returns (requested: seq<string>)
      requires Valid() && |ok| == |rows| && RowSet(rows) == selectedIndex
      requires forall k :: 0 <= k < |rows| ==> 0 <= rows[k] < |currentObjects|
      modifies this`allObjects, this`currentObjects, this`viewShared, this`selectedIndex, this`actionsEnabled,
               this`itemsLabel
      ensures Valid()
      ensures old(selectedIndex) == {} ==> requested == [] && unchanged(this)
      ensures old(selectedIndex) != {} ==>
        && requested == RowKeys(old(currentObjects), rows)
        && allObjects == WithoutKeys(old(allObjects), Succeeded(requested, ok))
        && currentObjects == ScopedFilter(allObjects, selectedPrefix, searchTerm)
        && selectedIndex == {} && !actionsEnabled
        && itemsLabel == CountsLabel(|currentObjects|, |allObjects|, hasMoreObjects, maxObjects)
    {
      if selectedIndex == {} {
        return [];
      }
      requested := RowKeys(currentObjects, rows);
      DeleteRows(requested, rows, ok);
      UpdateObjectList();
    }

    /** The loop of DeleteSelected over the keys read beforehand. */
    method DeleteRows(keys: seq<string>, rows: seq<int>, ok: seq<bool>)
      requires Valid() && |keys| == |rows| == |ok| && rows != []
      modifies this`allObjects, this`currentObjects, this`selectedIndex, this`actionsEnabled
      ensures Valid()
      ensures allObjects == WithoutKeys(old(allObjects), Succeeded(keys, ok))
      ensures selectedIndex == old(selectedIndex) - RowSet(rows)
      ensures actionsEnabled <==> selectedIndex != {}
    {
      var k := 0;
      while k < |rows|
        invariant 0 <= k <= |rows| && Valid()
        invariant allObjects == WithoutKeys(old(allObjects), Succeeded(keys[..k], ok[..k]))
        invariant selectedIndex == old(selectedIndex) - RowSet(rows[..k])
        invariant k > 0 ==> (actionsEnabled <==> selectedIndex != {})
      {
        WithoutKeysStep(old(allObjects), keys, ok, k);
        RowSetStep(rows, k);
        DeleteRow(keys[k], rows[k], ok[k]);
        k := k + 1;
      }
      assert keys[..k] == keys && ok[..k] == ok && rows[..k] == rows;
    }

    /** One pass of that loop: remove the key when its deletion succeeded, and uncheck the row. */
    method DeleteRow(key: string, row: int, deleted: bool)
      requires Valid()
      modifies this`allObjects, this`currentObjects, this`selectedIndex, this`actionsEnabled
      ensures Valid()
      ensures allObjects == if deleted then WithoutFirstKey(old(allObjects), key) else old(allObjects)
      ensures selectedIndex == old(selectedIndex) - {row}
      ensures actionsEnabled <==> selectedIndex != {}
    {
      if deleted {
        RemoveObject(key);
      }
      UpdateSelect(row, false);
    }

    /** cancelLoad: cancel the running load's context, if there is one. */
    method CancelLoad()
      requires Valid()
      modifies this`canceledHandles
      ensures Valid()
      ensures canceledHandles == old(canceledHandles) + (if loadHandle.Some? then {loadHandle.value} else {})
    {
      if loadHandle.Some? {
        canceledHandles := canceledHandles + {loadHandle.value};
      }
    }

    /** The refresh the loader's UI closures perform: the tree and the table together. */
    method Refresh()
      requires Valid()
      modifies this`treeIds, this`treeValues, this`currentObjects, this`viewShared, this`selectedIndex, this`itemsLabel
      ensures Valid() && Refreshed()
      ensures itemsLabel == CountsLabel(|currentObjects|, |allObjects|, hasMoreObjects, maxObjects)
    {
      UpdateTree();
      UpdateObjectList();
    }

    /** The refresh a run performs when it stops, unless a newer load has taken over. */
    method RefreshIfCurrent(handle: nat)
      requires Valid()
      modifies this`treeIds, this`treeValues, this`currentObjects, this`viewShared, this`selectedIndex, this`itemsLabel
      ensures Valid()
      ensures loadHandle == Some(handle) ==> Refreshed() && itemsLabel == CountsLabel(|currentObjects|, |allObjects|, hasMoreObjects, maxObjects)
      ensures loadHandle != Some(handle) ==> unchanged(this)
    {
      if loadHandle == Some(handle) {
        Refresh();
      }
    }

    /**
     * The commit of one page: append it and its folder prefixes to the index,
     * and refresh when asked to, unless a newer load has taken over.
     */
    method CommitBatch(handle: nat, batch: seq<ObjectRecord>, batchPrefixes: set<string>, shouldUpdate: bool)
      requires Valid()
      modifies this`allObjects, this`prefixes, this`treeIds, this`treeValues, this`currentObjects, this`viewShared,
               this`selectedIndex, this`itemsLabel
      ensures Valid()
      ensures loadHandle == Some(handle) ==>
        allObjects == old(allObjects) + batch && prefixes == old(prefixes) + batchPrefixes
      ensures loadHandle == Some(handle) && shouldUpdate ==> Refreshed() && itemsLabel == LoadedSoFar(|allObjects|)
      ensures loadHandle == Some(handle) && !shouldUpdate ==> TableView() == old(TableView()) && !viewShared
      ensures loadHandle != Some(handle) ==> unchanged(this)
    {
      if loadHandle == Some(handle) {
        allObjects := allObjects + batch;
        // The append is taken to move the index to an array of its own.
        viewShared := false;
        prefixes := prefixes + batchPrefixes;
        if shouldUpdate {
          Refresh();
          itemsLabel := LoadedSoFar(|allObjects|);
        }
      }
    }

    /** The deferred end of a run: status line, "Load More", and the handle released. */
    method FinishLoad(handle: nat, reason: StopReason)
      requires Valid()
      modifies this`itemsLabel, this`loadMoreShown, this`loadHandle
      ensures Valid()
      ensures old(loadHandle) == Some(handle) ==>
        && loadHandle == None
        && itemsLabel == FinishLabel(reason, |currentObjects|, |allObjects|, hasMoreObjects, maxObjects)
        && loadMoreShown == (old(loadMoreShown) || hasMoreObjects)
      ensures old(loadHandle) != Some(handle) ==> unchanged(this)
    {
      if loadHandle == Some(handle) {
        if hasMoreObjects {
          loadMoreShown := true;
        }
        itemsLabel := FinishLabel(reason, |currentObjects|, |allObjects|, hasMoreObjects, maxObjects);
        loadHandle := None;
      }
    }

    /**
     * The effect of one pass of the loader's loop on the window, once the
     * pass's decision `step` is known: the ceiling sets `hasMoreObjects`, a
     * listed page is committed, and a short page clears `hasMoreObjects`.
     * The refresh that follows the ceiling, an empty or a short page is the
     * run's last action and is left to `RunLoader`. `now` is the clock
     * reading after the listing call.
     */
    method LoadStep(handle: nat, step: Step, now: int, firstBatch: bool, lastStatus: Option<int>)
      returns (lastStatus': Option<int>)
      requires Valid() && Shaped(step)
      modifies this`allObjects, this`prefixes, this`hasMoreObjects, this`treeIds, this`treeValues,
               this`currentObjects, this`viewShared, this`selectedIndex, this`itemsLabel
      ensures Valid() && loadHandle == old(loadHandle)
      ensures loadHandle == Some(handle) ==>
        allObjects == old(allObjects) + step.batch && prefixes == old(prefixes) + ParentSet(step.batch)
      ensures loadHandle == Some(handle) && Refreshes(step, now, firstBatch, lastStatus) ==>
        Refreshed() && itemsLabel == LoadedSoFar(|allObjects|)
      ensures loadHandle == Some(handle) && !Refreshes(step, now, firstBatch, lastStatus) ==>
        TableView() == old(TableView())
      ensures loadHandle != Some(handle) ==> Snapshot() == old(Snapshot())
      ensures hasMoreObjects == if step.stop == Some(StopCeiling) then true
                                else if step.stop == Some(StopShort) then false
                                else old(hasMoreObjects)
      ensures lastStatus' == if Refreshes(step, now, firstBatch, lastStatus) then Some(now) else lastStatus
    {
      lastStatus' := lastStatus;
      if step.stop == Some(StopCeiling) {
        hasMoreObjects := true;
      } else if |step.batch| > 0 {
        var batchPrefixes := CollectParentPrefixes(step.batch);
        var shouldUpdate := ShouldUpdate(firstBatch, lastStatus, now, |step.batch|, step.size);
        CommitBatch(handle, step.batch, batchPrefixes, shouldUpdate);
        if shouldUpdate {
          lastStatus' := Some(now);
        }
        if step.stop == Some(StopShort) {
          hasMoreObjects := false;
        }
      }
    }

    /**
     * loadObjectsAsync, run to its end: list pages under `basePrefix` after
     * `startAfter` until the load's context is canceled, the listing fails,
     * the ceiling is reached, or a page comes back empty or short. Pages are
     * committed, and the window refreshed and its status set, only while
     * `handle` is still the window's load; `hasMoreObjects` is written either way.
     */
    method RunLoader(handle: nat, startAfter: string, store: seq<ObjectRecord>, env: LoadEnv)
      returns (reason: StopReason, ghost loaded: seq<ObjectRecord>)
      requires Valid() && WellFormedBucket(store)
      modifies this`allObjects, this`prefixes, this`hasMoreObjects, this`treeIds, this`treeValues,
               this`currentObjects, this`viewShared, this`selectedIndex, this`itemsLabel, this`loadMoreShown,
               this`loadHandle
      ensures Valid()
      ensures Run(reason, loaded) == LoaderRun(handle in canceledHandles, env, 0, maxObjects, |old(allObjects)|,
                                               old(loadHandle) == Some(handle), store, basePrefix, startAfter)
      ensures old(loadHandle) == Some(handle) ==>
        allObjects == old(allObjects) + loaded && prefixes == old(prefixes) + ParentSet(loaded)
      ensures old(loadHandle) == Some(handle) && reason != StopCanceled && reason != StopFailed ==> Refreshed()
      ensures old(loadHandle) == Some(handle) ==>
        && loadHandle == None
        && itemsLabel == FinishLabel(reason, |currentObjects|, |allObjects|, hasMoreObjects, maxObjects)
        && loadMoreShown == (old(loadMoreShown) || hasMoreObjects)
      ensures old(loadHandle) != Some(handle) ==> Snapshot() == old(Snapshot())
      ensures hasMoreObjects == if reason == StopCeiling then true
                                else if reason == StopShort then false
                                else old(hasMoreObjects)
      ensures handle in old(canceledHandles) ==>
        reason == StopCanceled && loaded == [] && allObjects == old(allObjects) && prefixes == old(prefixes)
    {
      if handle in canceledHandles {
        LoaderRunCanceledStops(true, env, 0, maxObjects, |allObjects|, loadHandle == Some(handle), store, basePrefix, startAfter);
      }
      ghost var all, ps := allObjects, prefixes;
      reason, loaded := LoadLoop(handle, startAfter, store, env);
      if handle in canceledHandles {
        assert all + [] == all;
        assert ParentSet([]) == {};
        assert ps + {} == ps;
      }
      EndRun(handle, reason);
    }

    /**
     * One pass of loadObjectsAsync's loop: decide the step at listing call
     * `call` and apply it to the window. `run` is the whole run, of which
     * `loaded` is what the earlier passes listed; `all0` and `ps0` are the
     * index and the prefix set the run started from. `limit` and `prefix` are
     * the window's ceiling and folder prefix, which the pass does not change.
     * The pass returns the step's stop, its page and the cursor after it.
     */
    method LoadPass(handle: nat, pinned: bool, current: bool, call: nat, lastKey: string, firstBatch: bool,
                    lastStatus: Option<int>, store: seq<ObjectRecord>, env: LoadEnv, limit: int, prefix: string,
                    ghost run: Run, ghost all0: seq<ObjectRecord>, ghost ps0: set<string>, ghost loaded: seq<ObjectRecord>)
      returns (stop: Option<StopReason>, batch: seq<ObjectRecord>, nextKey: string, lastStatus': Option<int>)
      requires Valid() && WellFormedBucket(store) && current == (loadHandle == Some(handle))
      requires run == Then(loaded, LoaderRun(pinned, env, call, limit, |allObjects|, current, store, prefix, lastKey))
      requires current ==> Grown(allObjects, prefixes, all0, ps0, loaded)
      modifies this`allObjects, this`prefixes, this`hasMoreObjects, this`treeIds, this`treeValues,
               this`currentObjects, this`viewShared, this`selectedIndex, this`itemsLabel
      ensures Valid() && loadHandle == old(loadHandle)
      ensures current ==> Grown(allObjects, prefixes, all0, ps0, loaded + batch)
      ensures !current ==> Snapshot() == old(Snapshot())
      ensures hasMoreObjects == if stop == Some(StopCeiling) then true
                                else if stop == Some(StopShort) then false
                                else old(hasMoreObjects)
      ensures stop.Some? ==> run == Run(stop.value, loaded + batch)
      ensures stop.None? ==>
        && run == Then(loaded + batch, LoaderRun(pinned, env, call + 1, limit, |allObjects|, current, store, prefix, nextKey))
        && |After(Under(store, prefix), nextKey)| < |After(Under(store, prefix), lastKey)|
    {
      ghost var all, ps := allObjects, prefixes;
      var count := |allObjects|;
      var step := DecideStep(pinned, env, call, limit, count, current, store, prefix, lastKey);
      lastStatus' := LoadStep(handle, step, env.clock(call), firstBatch, lastStatus);
      if current {
        GrownStep(all, ps, all0, ps0, loaded, step.batch);
      }
      assert |allObjects| == if current then count + |step.batch| else count;
      stop, batch, nextKey := step.stop, step.batch, NextCursor(lastKey, step.batch);
      if stop.None? {
        ThenThen(loaded, batch, LoaderRun(pinned, env, call + 1, limit, |allObjects|, current, store, prefix, nextKey));
      }
    }

    /**
     * The loop of loadObjectsAsync. `loaded` is what the listing calls
     * returned, in order; it is committed when `handle` is the window's load.
     */
    method LoadLoop(handle: nat, startAfter: string, store: seq<ObjectRecord>, env: LoadEnv)
      returns (reason: StopReason, ghost loaded: seq<ObjectRecord>)
      requires Valid() && WellFormedBucket(store)
      modifies this`allObjects, this`prefixes, this`hasMoreObjects, this`treeIds, this`treeValues,
               this`currentObjects, this`viewShared, this`selectedIndex, this`itemsLabel
      ensures Valid() && loadHandle == old(loadHandle)
      ensures Run(reason, loaded) == old(LoaderRun(handle in canceledHandles, env, 0, maxObjects, |allObjects|,
                                                   loadHandle == Some(handle), store, basePrefix, startAfter))
      ensures loadHandle == Some(handle) ==> Grown(allObjects, prefixes, old(allObjects), old(prefixes), loaded)
      ensures loadHandle != Some(handle) ==> Snapshot() == old(Snapshot())
      ensures hasMoreObjects == if reason == StopCeiling then true
                                else if reason == StopShort then false
                                else old(hasMoreObjects)
    {
      var limit, prefix := maxObjects, basePrefix;
      var current := loadHandle == Some(handle);
      var pinned := handle in canceledHandles;
      ghost var run := LoaderRun(pinned, env, 0, limit, |allObjects|, current, store, prefix, startAfter);
      var lastKey := startAfter;
      var lastStatus: Option<int> := None;
      var firstBatch := true;
      var call: nat := 0;
      loaded := [];
      while true
        invariant Valid() && loadHandle == old(loadHandle)
        invariant hasMoreObjects == old(hasMoreObjects)
        invariant run == Then(loaded, LoaderRun(pinned, env, call, limit, |allObjects|, current, store, prefix, lastKey))
        invariant current ==> Grown(allObjects, prefixes, old(allObjects), old(prefixes), loaded)
        invariant !current ==> Snapshot() == old(Snapshot())
        decreases |After(Under(store, prefix), lastKey)|
      {
        var stop, batch, nextKey;
        stop, batch, nextKey, lastStatus := LoadPass(handle, pinned, current, call, lastKey, firstBatch, lastStatus,
                                                     store, env, limit, prefix, run, old(allObjects), old(prefixes), loaded);
        loaded := loaded + batch;
        if stop.Some? {
          reason := stop.value;
          break;
        }
        lastKey := nextKey;
        firstBatch := false;
        call := call + 1;
      }
    }

    /**
     * The last actions of a run: the refresh that follows the ceiling, an
     * empty or a short page, then the deferred status update.
     */
    method EndRun(handle: nat, reason: StopReason)
      requires Valid()
      modifies this`treeIds, this`treeValues, this`currentObjects, this`viewShared, this`selectedIndex, this`itemsLabel,
               this`loadMoreShown, this`loadHandle
      ensures Valid()
      ensures old(loadHandle) == Some(handle) && reason != StopCanceled && reason != StopFailed ==> Refreshed()
      ensures old(loadHandle) == Some(handle) ==>
        && loadHandle == None
        && itemsLabel == FinishLabel(reason, |currentObjects|, |allObjects|, hasMoreObjects, maxObjects)
        && loadMoreShown == (old(loadMoreShown) || hasMoreObjects)
      ensures old(loadHandle) != Some(handle) ==> unchanged(this)
    {
      if reason != StopCanceled && reason != StopFailed {
        RefreshIfCurrent(handle);
      }
      FinishLoad(handle, reason);
    }

    /** The start of LoadObjects: cancel the running load, keep the cleaned prefix and hand out a new token. */
    method StartLoad(clean: string) returns (handle: nat)
      requires Valid()
      modifies this`connected, this`canceledHandles, this`basePrefix, this`nextHandle, this`loadHandle
      ensures Valid() && connected && loadHandle == Some(handle) && handle !in canceledHandles
      ensures handle == old(nextHandle) && basePrefix == clean
      ensures canceledHandles == old(canceledHandles) + (if old(loadHandle).Some? then {old(loadHandle).value} else {})
    {
      connected := true;
      CancelLoad();
      basePrefix := clean;
      handle := nextHandle;
      nextHandle := nextHandle + 1;
      loadHandle := Some(handle);
    }

    /**
     * The first part of LoadObjects' UI closure: empty the search and the
     * table, select "all" and show the loading message for the prefix `clean`.
     */
    method ClearTable(clean: string)
      requires Valid()
      modifies this`searchTerm, this`selectedIndex, this`selectedPrefix, this`currentObjects, this`viewShared,
               this`itemsLabel
      ensures Valid() && TableCleared(clean)
    {
      searchTerm, selectedIndex, selectedPrefix, currentObjects, viewShared := "", {}, AllId, [], false;
      itemsLabel := if clean != "" then LoadingUnder(clean) else LoadingAll;
    }

    /** No search, nothing shown or checked, "all" selected and the loading message for the prefix `clean`. */
    ghost predicate TableCleared(clean: string)
      reads this`searchTerm, this`selectedIndex, this`selectedPrefix, this`currentObjects, this`viewShared,
            this`itemsLabel
    {
      && searchTerm == "" && selectedIndex == {} && selectedPrefix == AllId && currentObjects == [] && !viewShared
      && itemsLabel == if clean != "" then LoadingUnder(clean) else LoadingAll
    }

    /**
     * The rest of LoadObjects' UI closure: empty the index, show the folder
     * tree of no prefixes (EmptyTreeValid) and hide Load More.
     */
    method ClearIndex()
      requires Valid()
      modifies this`allObjects, this`prefixes, this`hasMoreObjects, this`loadMoreShown, this`treeIds, this`treeValues
      ensures Valid() && IndexCleared()
    {
      allObjects, prefixes, hasMoreObjects, loadMoreShown := [], {}, false, false;
      treeIds, treeValues := EmptyTreeIds, EmptyTreeValues;
    }

    /** Nothing loaded, no prefixes, the tree of no prefixes, and Load More hidden. */
    ghost predicate IndexCleared()
      reads this`allObjects, this`prefixes, this`hasMoreObjects, this`loadMoreShown, this`treeIds, this`treeValues
    {
      && allObjects == [] && prefixes == {} && !hasMoreObjects && !loadMoreShown
      && treeIds == EmptyTreeIds && treeValues == EmptyTreeValues
    }

    /**
     * LoadObjects once the prefix is cleaned, up to the goroutine it starts:
     * start a new load, clear the table and the index and show the tree of no
     * prefixes. The returned launch is the goroutine's token and cursor; the
     * goroutine itself is RunLoader.
     */
    method LoadCleanPrefix(clean: string) returns (launch: Launch)
      requires Valid()
      modifies this`connected, this`canceledHandles, this`basePrefix, this`nextHandle, this`loadHandle,
               this`searchTerm, this`selectedIndex, this`selectedPrefix, this`currentObjects, this`viewShared,
               this`allObjects,
               this`prefixes, this`hasMoreObjects, this`loadMoreShown, this`itemsLabel, this`treeIds, this`treeValues
      ensures Valid() && connected && loadHandle == Some(launch.handle) && launch.handle !in canceledHandles
      ensures launch.startAfter == "" && basePrefix == clean
      ensures canceledHandles == old(canceledHandles) + (if old(loadHandle).Some? then {old(loadHandle).value} else {})
      ensures TableCleared(clean) && IndexCleared()
    {
      // The UI closure's effects first: it touches none of the fields the start of the load sets.
      ClearTable(clean);
      ClearIndex();
      var handle := StartLoad(clean);
      launch := Launch(handle, "");
    }

    /** LoadObjects: clean the prefix (white space around it, then leading '/') and start loading under it. */
    method LoadObjects(prefix: string) returns (launch: Launch)
      requires Valid()
      modifies this`connected, this`canceledHandles, this`basePrefix, this`nextHandle, this`loadHandle,
               this`searchTerm, this`selectedIndex, this`selectedPrefix, this`currentObjects, this`viewShared,
               this`allObjects,
               this`prefixes, this`hasMoreObjects, this`loadMoreShown, this`itemsLabel, this`treeIds, this`treeValues
      ensures Valid() && connected && loadHandle == Some(launch.handle) && launch.handle !in canceledHandles
      ensures launch.startAfter == "" && basePrefix == CleanPrefix(prefix)
      ensures canceledHandles == old(canceledHandles) + (if old(loadHandle).Some? then {old(loadHandle).value} else {})
      ensures TableCleared(basePrefix) && IndexCleared()
    {
      launch := LoadCleanPrefix(CleanPrefix(prefix));
    }

    /**
     * continueLoading, up to the goroutine it starts: unless a load is
     * running, hand out a new token, hide Load More and show the count loaded
     * so far. The goroutine (RunLoader) resumes after the key of the last
     * loaded record.
     */
    method ContinueLoading() returns (launch: Option<Launch>)
      requires Valid()
      modifies this`nextHandle, this`loadHandle, this`loadMoreShown, this`itemsLabel
      ensures Valid()
      ensures old(loadHandle).Some? ==> launch.None? && unchanged(this)
      ensures old(loadHandle).None? ==>
        && launch.Some? && loadHandle == Some(launch.value.handle) && launch.value.handle !in canceledHandles
        && launch.value.startAfter == ResumeKey(allObjects)
        && !loadMoreShown && itemsLabel == LoadingMore(|allObjects|)
    {
      if loadHandle.Some? {
        return None;
      }
      var handle := nextHandle;
      nextHandle := nextHandle + 1;
      loadHandle := Some(handle);
      var lastKey := ResumeKey(allObjects);
      loadMoreShown := false;
      itemsLabel := LoadingMore(|allObjects|);
      launch := Some(Launch(handle, lastKey));
    }

    /** The Load More button: only after a load, and only when the last run stopped at the ceiling. */
    method OnLoadMore() returns (launch: Option<Launch>)
      requires Valid()
      modifies this`nextHandle, this`loadHandle, this`loadMoreShown, this`itemsLabel
      ensures Valid()
      ensures launch.Some? <==> old(connected) && old(hasMoreObjects) && old(loadHandle).None?
      ensures launch.None? ==> unchanged(this)
      ensures launch.Some? ==>
        && loadHandle == Some(launch.value.handle) && launch.value.handle !in canceledHandles
        && launch.value.startAfter == ResumeKey(allObjects)
        && !loadMoreShown && itemsLabel == LoadingMore(|allObjects|)
    {
      if !connected || !hasMoreObjects {
        return None;
      }
      launch := ContinueLoading();
    }
  }
}