# us3ui object browser — a Dafny model

us3ui is a desktop browser for S3-compatible object stores. This project
models the logic at its core: loading a bucket's listing page by page into an
in-memory index, projecting that index onto the object table (tree scope plus
case-insensitive search), building the folder tree from the keys, and the
row selection that enables the object actions. Three revisions of the window
are in the repository, and each is modelled in its own module:

- `FileManagerWindow` (windows/filemanager.go) is the current window, a class
  whose methods update its fields. Its loader lists pages of up to 500
  records. It stops at a configurable ceiling ("Max objects", default 50000)
  and can be resumed with "Load More". Each load has its own token (the load
  handle); the Stop button cancels it, and a run whose token is no longer
  current must not touch the table. The loader's whole run is specified by
  the function `LoaderRun`. `LoadLoop` is proved against it, and the lemmas
  beside it prove what a run lists: a leading run of the keys under the
  prefix, the complete listing when it ends on an empty or short page, never
  more than the ceiling, and stop reasons that only cancellation or failure
  can cause.
- `MainWindowView` (windows/mainwindow.go) is the previous revision. It uses
  the same projection, tree and selection, with a loader that has no ceiling
  and cannot be stopped.
- `LegacyBrowser` (main.go) is the first revision: a flat, searchable table
  with a single selected row.

They share the following modules:

- `Listing`: the store as a key-sorted list of records, and `ListBatch`, one
  `ListObjectsBatch` call (s3/service.go).
- `ObjectIndex`: removal by key and the folder prefix of a key.
- `Projection`: the filter rule and its fall-through switch.
- `DirTree`: the folder tree builder.
- `PagedLoad`: the older revisions' batch loop.
- `Text` and `Decimal`: the Go standard-library string and number functions
  the code relies on.

Two small modules model `connections/manager.go` (the saved connection
profiles) and `windows/progressreader.go` (the upload byte counter).

The world outside the window is a parameter, `LoadEnv`. It says, for each
listing call of a run, whether the load was canceled before it, whether the
call fails (with a cancellation or another error), and what the clock reads
after it. The bucket is a parameter too. The goroutine a load starts is
modelled as a separate method (`RunLoader`) that runs to completion after the
method that launched it.

Behaviour of the code that the model keeps:

- An empty page ends a run without touching `hasMoreObjects`, so after a
  "Load More" that finds nothing the flag stays set (`LoadStep`, `RunLoader`).
- A run whose token is no longer current still writes `hasMoreObjects` at the
  ceiling and on a short page. The window's other state is guarded by the
  token (`RunLoader`).
- The final status line is written only while the run's token is current. The
  "Loaded N objects in Xs" text is immediately replaced by the counts line
  (`FinishLabel`).
- With no search term and the scope "all" or "", the table's slice is the
  index's own, so `removeObject`'s in-place splice also moves the rows shown:
  the records behind the removed one move up a row and the old last record
  shows twice (`RemoveObject`, `SplicedView`). The bulk delete reads each
  checked row after the earlier removals, so it can delete a record whose row
  was never checked. The model records this under "Findings" and its
  `DeleteSelected` reads the checked rows' keys first.
- Clearing the selection in `updateObjectListLocked` does not disable the
  object actions. Only unchecking the last row does. The window invariant is
  therefore "a checked row implies enabled actions", one direction only.
- Selecting the "root" node filters by the literal key prefix "root". At the
  end of `updateTree`, the child list of "root" is replaced by the first
  segments, so anything placed under a top-level folder named "root" is lost.
  A folder prefix starting with '/' (a key such as "/a/b", which starts with
  '/' and holds a second '/') gives the top level extra children; a key such
  as "/a" does not (`ValidTree`, `TopLevelExactly`).
- The listing function in s3/service.go takes the prefix from the service
  configuration, which is how the two earlier revisions call it. The current
  window passes its own prefix; the model's `ListBatch` takes the prefix as an
  argument.

## Model

| member | source | states |
|---|---|---|
| Text.ContainsSubstringAt | windows/filemanager.go:494 | strings.Contains holds exactly when the term occurs at some offset of the key (both directions) |
| Text.ContainsEmpty | windows/filemanager.go:496 | the empty search term is contained in every key |
| Text.ToLower | windows/filemanager.go:489 | lower-casing keeps the length and folds each character on its own (ASCII letters) |
| Text.LastIndexOf | windows/filemanager.go:734 | the result is -1 exactly when '/' is absent; otherwise a '/' is at that position and none follows it |
| Text.LastIndexOfAppend | windows/filemanager.go:734-735 | the last '/' of "folder/name" is the one before a '/'-free name |
| Text.Split | windows/filemanager.go:443 | splitting at '/' gives at least one piece, none containing '/' |
| Text.JoinSplit | windows/filemanager.go:443-451 | joining the split pieces with '/' gives the prefix back |
| Text.JoinSplitStep | windows/filemanager.go:443-451 | the split of a string is the split of the text before its last '/', plus the rest |
| Text.SplitJoin | windows/filemanager.go:443-451 | splitting a join of '/'-free pieces gives the pieces back |
| Text.SplitOfChild | windows/filemanager.go:443 | appending "/" and a '/'-free piece appends that piece to the split |
| Text.JoinStep | windows/filemanager.go:446-451 | the cumulative path of n pieces is the path of n-1 pieces, "/", then piece n |
| Text.JoinedChild | windows/filemanager.go:446-466 | extending a cumulative path adds a '/', and the last segment is the new piece |
| Text.LabelOfSegment | windows/filemanager.go:457 | a first segment is labelled by itself |
| Text.LabelOfChild | windows/filemanager.go:466 | a deeper node is labelled by the piece that was appended |
| Text.ReplaceSlashes | main.go:347 | the suggested file name has the key's length, '_' wherever the key has '/', and every other character unchanged |
| Text.TrimLeadingSpace | windows/filemanager.go:560 | trimming never lengthens the prefix |
| Text.TrimLeadingSpaceDrops | windows/filemanager.go:560 | TrimSpace removes exactly the leading run of white space |
| Text.TrimTrailingSpace | windows/filemanager.go:560 | trimming never lengthens the prefix |
| Text.TrimTrailingSpaceDrops | windows/filemanager.go:560 | TrimSpace removes exactly the trailing run of white space |
| Text.TrimLeftSlashes | windows/filemanager.go:561 | trimming never lengthens the prefix |
| Text.TrimLeftSlashesDrops | windows/filemanager.go:561 | TrimLeft removes exactly the leading run of '/' |
| Text.KeyLessIrreflexive | s3/service.go:82 | the store's key order is irreflexive |
| Text.KeyLessAsymmetric | s3/service.go:82 | the key order is asymmetric |
| Text.KeyLessTransitive | s3/service.go:82 | the key order is transitive |
| Text.KeyLessTotal | s3/service.go:82 | any two distinct keys are ordered one way or the other |
| Decimal.Atoi | windows/filemanager.go:400 | strconv.Atoi yields only int64 values, only for text starting with a sign or a digit, and the digits' value for an in-range digit string |
| Decimal.FormatDecimal | windows/filemanager.go:393-394 | "%d" of a non-negative number is a non-empty digit string |
| Decimal.DigitsValueOfFormat | windows/filemanager.go:393-394 | reading back the digits "%d" writes gives the number |
| Decimal.AtoiFormat | windows/filemanager.go:393-401 | Atoi parses back what "%d" wrote, for every non-negative int64 |
| Listing.SortedDistinctKeys | s3/service.go:75-99 | a listing in key order never repeats a key |
| Listing.Under | s3/service.go:80 | listing under a prefix returns no more records than the bucket holds |
| Listing.After | s3/service.go:82 | listing after a cursor returns no more records than it was given |
| Listing.UnderElements | s3/service.go:80 | every record listed under a prefix is in the bucket and its key starts with the prefix |
| Listing.UnderWellFormed | s3/service.go:80 | the listing under a prefix is again non-empty keys in strict key order |
| Listing.AfterAllGreater | s3/service.go:82 | when every key sorts after the cursor, StartAfter skips nothing |
| Listing.AfterSuffix | s3/service.go:82 | on a sorted listing, the records after a cursor are a suffix of it |
| Listing.AfterAtKey | s3/service.go:82 | StartAfter the key of record m lists exactly the records behind m |
| Listing.AfterAdvance | windows/filemanager.go:764 | moving the cursor to the k-th record after it leaves exactly the records after that one |
| Listing.AfterEmptyCursor | windows/filemanager.go:635 | an empty StartAfter lists the bucket from its first record |
| Listing.ResumeAfterLastKey | windows/filemanager.go:610-613 | resuming after the last key of a listed leading run lists the rest: nothing skipped, nothing repeated |
| Listing.PageAdvance | windows/filemanager.go:764 | a page followed by the listing after its last key is everything after the old cursor, and fewer records remain |
| Listing.PageCap | s3/service.go:88-96 | a call returns at most the requested count, and at most one record when the request is not positive |
| Listing.ListBatch | s3/service.go:75-99 | a call fails exactly when the store fails, with that error; otherwise it returns a leading run of the records after the cursor, capped by the page size, and all of them when fewer come back |
| ObjectIndex.WithoutAbsentKey | windows/filemanager.go:530-541 | removing a key no record carries changes nothing |
| ObjectIndex.WithoutFirstKey | windows/filemanager.go:530-541 | the reference definition of removeObject: the list without its first record carrying the key; WithoutAbsentKey, WithoutFirstMatch and WithoutKeyInSortedList state its properties |
| ObjectIndex.WithoutFirstMatch | windows/filemanager.go:531-538 | with the first match at i, exactly record i goes and the rest keep their order |
| ObjectIndex.WithoutKeyInSortedList | windows/filemanager.go:530-541 | on a loaded listing, a record remains after removal iff it was loaded and carries another key |
| ObjectIndex.FirstKeyIndex | windows/filemanager.go:531-532 | the scan stops at a record with the key, and no earlier record carries it |
| ObjectIndex.RemoveFirstKey | windows/filemanager.go:530-541 | the splice and truncation loop computes the list without its first record carrying the key |
| ObjectIndex.SplicedView | windows/filemanager.go:537 | what the in-place splice leaves in a longer slice sharing the index's array: its length is kept, it starts with the new index, and from the old index's last place on it is as before; an absent key leaves it alone |
| ObjectIndex.SplicedViewRows | windows/filemanager.go:537 | row by row: rows before the removed record keep theirs, rows from its place to the old second-to-last show the record one row down, the rest are unchanged |
| ObjectIndex.WithoutFirstKeySorted | windows/filemanager.go:530-541 | removal keeps a listing in key order |
| ObjectIndex.RowSetStep | windows/filemanager.go:800 | the rows visited grow by one row per pass |
| ObjectIndex.WithoutKeysStep | windows/filemanager.go:800-809 | each pass removes its key from the index exactly when its deletion succeeded |
| ObjectIndex.WithoutKeysMembership | windows/filemanager.go:800-809 | on a loaded listing, removing keys in turn keeps it in order and drops exactly the records carrying those keys |
| ObjectIndex.DeleteRequestsAsWritten | windows/filemanager.go:800-809 | handleDelete's loop as written: each checked row is read from the table after the earlier removals; one key is requested per row |
| ObjectIndex.DeleteRequestsUnshared | windows/filemanager.go:800-809 | on a table of its own, the loop as written requests exactly the checked rows' keys, in visiting order |
| ObjectIndex.AsWrittenDeletesUncheckedRow | windows/filemanager.go:800-809 | on the flat view of a, b, c with rows 0 then 1 checked, the loop as written requests a and c, not a and b |
| ObjectIndex.ParentPrefix | windows/filemanager.go:734-735 | a key has a folder prefix iff it contains '/', and the key is that prefix, "/" and a '/'-free name |
| ObjectIndex.ParentOfChild | windows/filemanager.go:734-735 | a '/'-free name under a folder has that folder as its prefix |
| ObjectIndex.ParentSetAppend | windows/filemanager.go:748-751 | the folder prefixes of two pages appended are the union of each page's prefixes |
| ObjectIndex.CollectParentPrefixes | windows/filemanager.go:732-737 | the loop collects exactly the folder prefixes of the page's keys |
| Projection.SwitchKeepsIsKeep | windows/filemanager.go:492-500 | the fall-through switch keeps a record iff it is in scope and matches the term |
| Projection.SwitchKeeps | windows/filemanager.go:492-500 | the three cases of the filter switch as written, each falling through to the append; SwitchKeepsIsKeep proves it equals the scope-and-term rule |
| Projection.Select | windows/filemanager.go:492-503 | the projection is never longer than the index |
| Projection.ScopedFilter | windows/filemanager.go:484-504 | filterObjectsLocked: the whole index for no term and an "every object" scope, otherwise the records the rule keeps; ShortcutAgreesWithRule, ScopedFilterMembership and ScopedFilterIdempotent state its properties |
| Projection.ShortcutAgreesWithRule | windows/filemanager.go:485-487 | returning the whole index when there is no term and the scope is "all" agrees with the rule |
| Projection.SelectMembership | windows/filemanager.go:489-503 | a record is shown iff it is loaded and the rule keeps it |
| Projection.ScopedFilterMembership | windows/filemanager.go:484-504 | the same for filterObjectsLocked, shortcut included |
| Projection.SelectIdempotent | windows/filemanager.go:492-503 | filtering the shown rows again changes nothing |
| Projection.ScopedFilterIdempotent | windows/filemanager.go:484-504 | filterObjectsLocked is idempotent |
| Projection.SelectAppend | windows/filemanager.go:748 | filtering distributes over appending a page to the index |
| Projection.FilterObjects | windows/filemanager.go:484-504 | the filter loop (also windows/mainwindow.go:394-414) computes the scoped filter |
| Projection.SearchIsFlatViewFilter | main.go:175-187 | the first revision's search is the later filter with the "all" (or no) scope selected |
| Projection.SearchFilter | main.go:175-187 | the first revision's search: every record for an empty term, otherwise those whose lower-cased key contains the lower-cased term; SearchIsFlatViewFilter relates it to the later filter |
| Projection.SelectScopeAllIsEmpty | windows/filemanager.go:494 | the "all" and "" scopes select the same records |
| Projection.SearchObjects | main.go:175-187 | the first revision's loop keeps every record for an empty term, else those whose lower-cased key contains the lower-cased term |
| DirTree.Contains | windows/mainwindow.go:385-392 | the linear search answers true iff the id is in the list |
| DirTree.PathStep | windows/filemanager.go:446-451 | a deeper cumulative path is the previous one, "/", and the segment, and it is labelled by the segment |
| DirTree.FirstPath | windows/filemanager.go:446-451 | the first cumulative path is the first segment, without '/' |
| DirTree.AddTop | windows/filemanager.go:453-457 | entering a first segment lists it under "root" once and labels it by itself |
| DirTree.LinkListed | windows/filemanager.go:464 | a child already listed under its parent was linked before: nothing changes |
| DirTree.LinkNew | windows/filemanager.go:461-467 | a new child is appended to its parent's list, created if missing, and labelled |
| DirTree.EnterTop | windows/filemanager.go:453-458 | the first-segment step keeps the builder's invariant |
| DirTree.EnterLink | windows/filemanager.go:461-467 | the deeper step enters the link from the parent path and keeps the invariant |
| DirTree.WalkSegment | windows/filemanager.go:446-468 | one segment extends the cumulative path and enters it |
| DirTree.InsertPrefix | windows/filemanager.go:442-468 | one prefix enters every link of its cumulative paths and its first segment |
| DirTree.InsertAll | windows/filemanager.go:442-469 | every prefix, in any order, enters exactly the links and first segments of all prefixes |
| DirTree.InsertOne | windows/filemanager.go:442-469 | one outer pass adds one prefix's links to those entered before |
| DirTree.EdgesOfAll | windows/filemanager.go:442 | visiting the prefixes one by one covers the links of the whole set |
| DirTree.OrderCovers | windows/filemanager.go:442 | once every prefix is visited, the links entered are those of all prefixes |
| DirTree.SetRoots | windows/filemanager.go:471 | giving "root" the collected first segments yields the promised tree |
| DirTree.FinalTree | windows/filemanager.go:471 | the builder's state with the final "root" list satisfies ValidTree |
| DirTree.FinalTopLevel | windows/filemanager.go:436 | the top level lists "all", "root", then each child of the empty path once |
| DirTree.FinalChildren | windows/filemanager.go:454-471 | "root" lists each distinct first segment once; every other parent lists exactly its children once |
| DirTree.FinalLabels | windows/filemanager.go:437-466 | every node is labelled with its last segment; "all" and "root" keep their captions unless a segment takes them over |
| DirTree.BuildTree | windows/filemanager.go:428-476 | updateTree builds the tree of the prefixes: fixed top nodes, first segments under "root", every cumulative path under its parent, no duplicate, every node labelled |
| DirTree.EmptyTreeValid | windows/filemanager.go:433-438 | the tree of no prefixes is the two fixed nodes with an empty "root" |
| DirTree.CumulativePathIsChild | windows/filemanager.go:446-467 | each cumulative path of a prefix is a child of the path one segment shorter, labelled by its segment |
| DirTree.PrefixIsNode | windows/filemanager.go:442-468 | every folder prefix is itself a node of the tree |
| DirTree.TopIsNode | windows/filemanager.go:453-457 | the first segment of every prefix is a node |
| DirTree.EdgeChild | windows/filemanager.go:461-467 | the deeper end of each link is a node |
| DirTree.LastPath | windows/filemanager.go:446-451 | the cumulative path of all segments is the prefix itself |
| DirTree.TopLevelExactly | windows/filemanager.go:436 | the top level is exactly ["all", "root"] iff no folder prefix starts with '/', i.e. no key that starts with '/' holds a second '/' |
| FileManagerWindow.MaxObjectsAfterInput | windows/filemanager.go:395-403 | an empty field means no ceiling; the ceiling stays non-negative; it changes only to a value Atoi parsed |
| FileManagerWindow.ShownCountReadsBack | windows/filemanager.go:393-403 | any count the field shows, read back, becomes the ceiling |
| FileManagerWindow.NegativeInputIgnored | windows/filemanager.go:400-402 | a negative number keeps the current ceiling |
| FileManagerWindow.CleanPrefix | windows/filemanager.go:560-561 | cleaning never lengthens the prefix |
| FileManagerWindow.CleanPrefixShape | windows/filemanager.go:560-561 | a cleaned prefix neither starts with '/' nor ends with white space, and starts with none when no '/' was dropped |
| FileManagerWindow.UploadKey | windows/filemanager.go:829-832 | an upload is named by the file name or by selected node + "/" + file name |
| FileManagerWindow.UploadLandsInSelectedFolder | windows/filemanager.go:829-832 | an upload's folder prefix is the selected node, or none under "root" and "all" |
| FileManagerWindow.ShouldUpdate | windows/filemanager.go:740-742 | a page skips the refresh only when it is neither the first nor short and the interval has not elapsed |
| FileManagerWindow.CountsLabel | windows/filemanager.go:155-168 | updateItemsLabel: the shown and total counts, and the ceiling when more objects are available |
| FileManagerWindow.FinishLabel | windows/filemanager.go:653-671 | the deferred status by priority: canceled, failed, the counts when anything is loaded, "No objects found" |
| FileManagerWindow.PageSize | windows/filemanager.go:698-704 | the page size is at most 500 and at most what the ceiling leaves; positive below the ceiling; 500 without a ceiling |
| FileManagerWindow.PlanStep | windows/filemanager.go:678-777 | one pass of the loop: the cancel check, the ceiling check, the page size, the listing call and whether the page is empty, short or full; PlanStepPage and PlanStepStop state its properties |
| FileManagerWindow.PlanStepPage | windows/filemanager.go:706-777 | a committed page is a leading run of what remains; a short page is all of it; an empty page means nothing remains; only full or short pages are committed |
| FileManagerWindow.PlanStepStop | windows/filemanager.go:678-716 | the ceiling stops a run exactly when it is not canceled and the index is full; canceled only after a cancel, failed only after a failing call; never past the ceiling |
| FileManagerWindow.StepShrinks | windows/filemanager.go:763-764 | a pass that goes on moves the cursor forward |
| FileManagerWindow.Refreshes | windows/filemanager.go:739-761 | a pass refreshes the window, and records the time, when it lists a page and ShouldUpdate holds for it |
| FileManagerWindow.LoaderRunUnfold | windows/filemanager.go:677-778 | a run is its first pass followed by the run from the next cursor |
| FileManagerWindow.LoaderRun | windows/filemanager.go:677-778 | the whole loop as a function: pass after pass until one stops the run; LoaderRunLists, LoaderRunWithinCeiling, LoaderRunCeiling, LoaderRunStopCause and LoaderRunCanceledStops state its properties |
| FileManagerWindow.DecideStep | windows/filemanager.go:678-716 | one pass's decision, and how the rest of the run follows from it |
| FileManagerWindow.LoaderRunLists | windows/filemanager.go:677-778 | a run lists a leading run of the records after its cursor, and all of them when it ends on an empty or short page |
| FileManagerWindow.LoaderRunWithinCeiling | windows/filemanager.go:685-704 | a run never takes the index past a positive ceiling |
| FileManagerWindow.LoaderRunCeiling | windows/filemanager.go:685-695 | a run stops at the ceiling only when the index has reached it |
| FileManagerWindow.LoaderRunUndisturbed | windows/filemanager.go:677-778 | without a ceiling, a cancel or a failure, a run ends on an empty or short page |
| FileManagerWindow.LoaderRunStopCause | windows/filemanager.go:678-716 | a canceled run was canceled or had a call fail as canceled; a failed run had a call fail |
| FileManagerWindow.LoaderRunCanceledStops | windows/filemanager.go:678-682 | a cancellation seen at a pass's check ends the run there as canceled, with nothing more listed |
| FileManagerWindow.FreshLoadLists | windows/filemanager.go:556-599 | a fresh load lists a leading run of the keys under the prefix in key order, all of them unless stopped early, within the ceiling |
| FileManagerWindow.UndisturbedLoadListsAll | windows/filemanager.go:556-599 | an undisturbed load without a ceiling lists every record under the prefix |
| FileManagerWindow.ContinuationExtends | windows/filemanager.go:601-624 | Load More extends the loaded run without gap or repetition, up to the full listing |
| FileManagerWindow.GrownStep | windows/filemanager.go:748-751 | committing a page extends the index by the page and the prefixes by the page's prefixes |
| FileManagerWindow.FileManager.constructor | windows/filemanager.go:74-104 | no objects, no selection, "all" selected, ceiling 50000, no load, the two fixed tree nodes |
| FileManagerWindow.FileManager.UpdateObjectList | windows/filemanager.go:547-554 | the table shows the scoped filter of the index, nothing checked, and the counts label; it is the index's own slice exactly when there is no term and the scope is "all" or "" |
| FileManagerWindow.FileManager.UpdateTree | windows/filemanager.go:428-476 | the tree is rebuilt as BuildTree states |
| FileManagerWindow.FileManager.OnTreeSelected | windows/filemanager.go:141-144 | the selected node becomes the scope, the table shows its projection with nothing checked, and the items label shows its counts |
| FileManagerWindow.FileManager.OnSearchChanged | windows/filemanager.go:277-283 | the term is stored, the table shows the projection for it with nothing checked, and the items label shows its counts |
| FileManagerWindow.FileManager.OnMaxObjectsChanged | windows/filemanager.go:395-403 | the ceiling becomes MaxObjectsAfterInput of the old one and the text |
| FileManagerWindow.FileManager.UpdateSelect | windows/filemanager.go:506-528 | the row is added or removed; the actions are enabled iff a row is checked |
| FileManagerWindow.FileManager.OnRowSelected | windows/filemanager.go:260-268 | a click toggles exactly that row; the actions are enabled iff a row is checked |
| FileManagerWindow.FileManager.RemoveObject | windows/filemanager.go:530-541 | the index loses its first record with the key; a table that shares the index's array is spliced with it (SplicedView), any other table is left as it was |
| FileManagerWindow.FileManager.DeleteSelected | windows/filemanager.go:781-812 | with no row checked nothing changes; otherwise the keys requested are the checked rows' keys in visiting order, the index loses the keys whose deletion succeeded, and the table is re-projected with nothing checked, the actions disabled and the counts label |
| FileManagerWindow.FileManager.DeleteRows | windows/filemanager.go:800-809 | the loop removes the succeeded keys in turn and unchecks every visited row; the actions are enabled iff a row is still checked |
| FileManagerWindow.FileManager.DeleteRow | windows/filemanager.go:801-808 | one pass: the key goes from the index only when its deletion succeeded, and the row is unchecked |
| FileManagerWindow.FileManager.CancelLoad | windows/filemanager.go:478-482 | the running load's token, if any, is canceled |
| FileManagerWindow.FileManager.Refresh | windows/filemanager.go:691-692 | the tree shows the prefixes, the table the projection with nothing checked, and the items label the counts |
| FileManagerWindow.FileManager.RefreshIfCurrent | windows/filemanager.go:719-725 | a current run refreshes the window and the items label shows the counts; a stale one changes nothing |
| FileManagerWindow.FileManager.CommitBatch | windows/filemanager.go:744-757 | a current run appends the page and its prefixes, and refreshes and shows "Loaded N objects" when asked to, otherwise leaves tree, table, selection and label alone; a stale run changes nothing |
| FileManagerWindow.FileManager.FinishLoad | windows/filemanager.go:640-673 | a current run releases its token, shows Load More when more is available and sets the status by priority; a stale one changes nothing |
| FileManagerWindow.FileManager.LoadStep | windows/filemanager.go:685-777 | a current run commits the page and refreshes exactly when Refreshes holds; a stale one leaves the window; the ceiling sets and a short page clears the more-available flag; the refresh time is recorded exactly when Refreshes holds, current or not |
| FileManagerWindow.FileManager.LoadPass | windows/filemanager.go:677-778 | one pass advances the run as LoaderRun says and grows the index by its page |
| FileManagerWindow.FileManager.LoadLoop | windows/filemanager.go:677-778 | the loop's stop reason and pages are those of LoaderRun; a current run's index grows by exactly them |
| FileManagerWindow.FileManager.EndRun | windows/filemanager.go:640-673 | the last refresh and the deferred status of a run, only for a current run |
| FileManagerWindow.FileManager.RunLoader | windows/filemanager.go:626-779 | loadObjectsAsync: the run is LoaderRun; a current run appends its pages and prefixes, refreshes, sets the status and releases its token; a stale run leaves the window; a run whose token was canceled before it started stops canceled and commits nothing |
| FileManagerWindow.FileManager.StartLoad | windows/filemanager.go:556-565 | the old token is canceled and a fresh, uncanceled token becomes current |
| FileManagerWindow.FileManager.ClearTable | windows/filemanager.go:567-583 | no search, nothing shown or checked, "all" selected, the loading message |
| FileManagerWindow.FileManager.ClearIndex | windows/filemanager.go:584-589 | nothing loaded, no prefixes, the tree of no prefixes, Load More hidden |
| FileManagerWindow.FileManager.LoadCleanPrefix | windows/filemanager.go:562-598 | a new current load from the start of the listing under the cleaned prefix, on a cleared window |
| FileManagerWindow.FileManager.LoadObjects | windows/filemanager.go:556-599 | the same, with the prefix cleaned first |
| FileManagerWindow.FileManager.ContinueLoading | windows/filemanager.go:601-624 | nothing while a load runs; otherwise a new current load resuming after the last loaded key |
| FileManagerWindow.FileManager.OnLoadMore | windows/filemanager.go:406-411 | a load is launched iff the window is connected, more is available and no load runs; it resumes after the last loaded key, hides Load More and shows "Loading more objects" with the loaded count |
| PagedLoad.PagedRunUnfold | windows/mainwindow.go:484-522 | a paged load is its first page followed by the load after the page's last key |
| PagedLoad.PagedRun | windows/mainwindow.go:479-522 | the older revisions' loop as a function: a failing call ends it, a short page is appended and ends it, a full page is appended and the load goes on after its last key; PagedRunLists and PagedRunFailure state its properties |
| PagedLoad.ListPage | windows/mainwindow.go:484-522 | one call ends the load on failure or a short page, or moves the cursor to the page's last key |
| PagedLoad.PagedRunLists | windows/mainwindow.go:479-522 | a paged load lists a leading run of the records after the cursor, all of them unless a call fails |
| PagedLoad.PagedRunFailure | windows/mainwindow.go:485-489 | a load fails iff one of its calls fails |
| PagedLoad.FreshPagedRun | windows/mainwindow.go:465-528 | a load from the start (here and in main.go:211-255) lists a leading run of the records under the prefix in key order, all of them unless a call fails, and it fails only when one of its calls fails |
| MainWindowView.MainWindow.constructor | windows/mainwindow.go:53-101 | nothing loaded, "all" selected, the tree of no prefixes, nothing checked |
| MainWindowView.MainWindow.UpdateTree | windows/mainwindow.go:335-383 | the tree is rebuilt as BuildTree states |
| MainWindowView.MainWindow.UpdateObjectList | windows/mainwindow.go:453-463 | the table shows the projection, nothing checked, and the tree is rebuilt; it is the index's own slice exactly when there is no term and the scope is "all" or "" |
| MainWindowView.MainWindow.OnTreeSelected | windows/mainwindow.go:125-128 | the selected node becomes the scope and the window is refreshed |
| MainWindowView.MainWindow.OnSearchChanged | windows/mainwindow.go:254-260 | the term is stored and the window is refreshed |
| MainWindowView.MainWindow.UpdateSelect | windows/mainwindow.go:416-438 | the row is added or removed; the actions are enabled iff a row is checked |
| MainWindowView.MainWindow.OnRowSelected | windows/mainwindow.go:237-245 | a click toggles exactly that row |
| MainWindowView.MainWindow.RemoveObject | windows/mainwindow.go:440-451 | the index loses its first record with the key; a table that shares the index's array is spliced with it (SplicedView), any other table is left as it was |
| MainWindowView.MainWindow.CommitPage | windows/mainwindow.go:500-516 | the page and its prefixes are appended and the window is refreshed |
| MainWindowView.MainWindow.LoadPage | windows/mainwindow.go:484-522 | one pass advances the paged load and keeps the prefixes those of the index |
| MainWindowView.MainWindow.LoadObjects | windows/mainwindow.go:465-528 | the index is the paged load of the service's prefix, its prefixes collected, and the window shows it |
| LegacyBrowser.DownloadFileName | main.go:347 | the suggested name has the key's length and no '/' |
| LegacyBrowser.DownloadNameJoinsSegments | main.go:347 | each folder level becomes a '_'-separated part of the name |
| LegacyBrowser.DownloadNameOfTopLevelKey | main.go:347 | a key without '/' is offered under its own name |
| LegacyBrowser.Browser.constructor | main.go:104-105 | nothing loaded, no row selected, no search |
| LegacyBrowser.Browser.FilterObjects | main.go:175-187 | the table shows the search over the loaded records |
| LegacyBrowser.Browser.OnSearchChanged | main.go:192-198 | the term is stored and the search applied |
| LegacyBrowser.Browser.OnSelected | main.go:134-142 | the clicked row becomes the selected one |
| LegacyBrowser.Browser.OnUnselected | main.go:143-147 | the selection is forgotten only if it is that row |
| LegacyBrowser.Browser.OnDelete | main.go:262-267 | a key is offered iff the selection is a shown row, and it is that row's key |
| LegacyBrowser.Browser.OnDownload | main.go:314-347 | a download is offered iff the selection is a shown row, with that row's key and the file name DownloadFileName of that key |
| LegacyBrowser.Browser.LoadPage | main.go:225-245 | one pass advances the paged load and applies the search |
| LegacyBrowser.Browser.LoadObjects | main.go:211-255 | the index is the paged load; after the last page the selection is forgotten and the search applied; a failure ends the load where it is |
| Connections.Without | connections/manager.go:43-48 | the entry at the index is cut out and the rest keep their order |
| Connections.WithoutThenInsert | connections/manager.go:43-48 | putting the removed entry back where it was restores the list |
| Connections.RemoveUndoesAdd | connections/manager.go:39-48 | removing the last entry undoes Add |
| Connections.Manager.constructor | connections/manager.go:15-21 | the settings' profiles, nothing selected (-1) |
| Connections.Manager.SetSelected | connections/manager.go:23-25 | GetSelected then returns the index |
| Connections.Manager.Get | connections/manager.go:35-37 | the profile returned is one of the profiles |
| Connections.Manager.Add | connections/manager.go:39-41 | the profile is appended; Count grows by one, Get of the new last index is it, the others and the selection stay |
| Connections.Manager.Remove | connections/manager.go:43-48 | an index out of range changes nothing; otherwise that profile is cut out; the selection stays |
| Connections.Manager.Save | connections/manager.go:50-53 | the settings receive the current profiles |
| ProgressReading.AddInt64 | windows/progressreader.go:15 | int64 addition is in range, exact without overflow, and congruent to the sum modulo 2^64 |
| ProgressReading.AccumulatedIsSum | windows/progressreader.go:13-20 | without overflow, the total is the start plus every count read, and never decreases |
| ProgressReading.SumNonNegative | windows/progressreader.go:13-20 | non-negative counts add up to a non-negative total |
| ProgressReading.ProgressReader.constructor | windows/progressreader.go:6-11 | nothing read, nothing reported |
| ProgressReading.ProgressReader.Read | windows/progressreader.go:13-20 | the inner result is passed on unchanged, its count added with int64 wrap-around, and the new total reported once when a callback is set |

## Left out

- The Fyne widgets (table cells, buttons, progress bars, dialogs) and `fyne.Do` are left out. The state they show is kept as fields (`itemsLabel`, `loadMoreShown`, `actionsEnabled`).
- Goroutines and data races are left out. A loader runs sequentially to its end, after the method that launched it (`RunLoader` after `LoadObjects` or `ContinueLoading`). The unsynchronised reads of `maxObjects` and `allObjects` from the loader goroutine are not modelled. Neither is a cancel that arrives after the loop's last cancel check, during the last listing call or after it (see `FileManagerWindow.FinishLabel` below).
- LoadObjects' UI closure is applied before the loader's first page is committed (`LoadCleanPrefix`). Its `tree.Select("all")` is taken not to fire the selection handler again.
- The wall clock is `LoadEnv.clock`, one reading per listing call. The 300 ms search debounce is not modelled: `OnSearchChanged` is the handler once the delay has passed.
- The elapsed time in "Loaded N objects in Xs" is not modelled, because the counts line replaces that text at once.
- Upload progress as a floating-point fraction is not modelled. `ProgressReader` keeps the integer totals it reports.
- `ToLower`: only ASCII letters are case-folded. Go folds all of Unicode.
- Byte-size formatting, MIME detection, presigned links, and the delete, download and upload requests themselves are network and file I/O. Only their guards and key or name computations are modelled.
- The previous revision's items label and progress bar are not modelled.
- main.go's re-selection of the first column in OnSelected is not modelled. Neither is its check of `err` after the load loop, which can never be true because the loop's `err` shadows it.
- The Load and Refresh buttons and the prefix field's Enter handler only call LoadObjects, with the field's text, when a context exists. `LoadObjects` is that call.
- `Connections.Manager.Save`: the write of the settings to disk is left out. So is the slice aliasing of `append(s[:i], s[i+1:]...)` in Remove, which the model replaces by a fresh sequence.
- `Connections.Manager.Get`: only "an element of the list" is stated. The index requirement stands for Go's panic on an out-of-range slice index.
- `Connections.Manager.GetSelected` and `Count` are plain field reads without contracts of their own. They are used in the contracts of `SetSelected`, `Add` and `Remove`.
- `DirTree.BuildTree`: the order of siblings follows Go's map iteration order, which is unspecified. Only membership, no duplicates and labels are stated.
- `FileManagerWindow.FileManager.Valid`: states only that a checked row implies enabled actions. Clearing the selection does not disable the actions in the code, so the converse does not hold.
- `FileManagerWindow.FinishLabel`: the status is chosen from the run's stop reason. The code instead tests the load's context when the deferred closure runs, so a Stop that arrives after the loop's last cancel check shows "Load canceled (N objects loaded)" in the code. In the model the same run shows the counts, "No objects found" or the failure text, because its stop reason is the short or empty page or the non-cancel error.
- `FileManagerWindow.FileManager.CommitBatch`: an append is taken to move the index to an array of its own, so the table no longer shares it. Go's append writes in place when the slice has capacity left, and a removal before the next refresh then also shifts the rows shown. The slice's capacity is not modelled.
- `FileManagerWindow.FileManager.DeleteSelected`: models handleDelete as it evidently should work, reading the checked rows' keys before removing anything (see "Findings"). The confirmation dialog, the "No object selected" notice and the error dialog are UI and are not modelled. The service's answer to each deletion request is the parameter `ok`, and Go's map iteration order is the parameter `rows`.
- The older window's handleDelete (windows/mainwindow.go:530-563) runs the same loop as the current one and is not modelled separately. Its `RemoveObject` splices a shared table in the same way.
- `Decimal.Atoi`: the contract does not characterise every rejected input, such as a sign followed by a non-digit. `AtoiFormat` and `NegativeInputIgnored` pin down the inputs the window produces.
- The environment's cancellation is an oracle per listing call, so the Stop button is not a separate method: `CancelLoad` records the token as canceled, and a run whose token is canceled at its start stops before its first call.

## Findings

| source | as written | input that shows it | evidently intended | confidence | as-written member | corrected member |
|---|---|---|---|---|---|---|
| windows/filemanager.go:800-809 | each checked row is read from the table after the earlier removals, while on the unfiltered view the table shares the index's array and the splice moves its rows up | the flat view ("all", no search) of a, b, c with rows 0 and 1 checked, visited 0 then 1, both deletions succeeding: a and then c are deleted (AsWrittenDeletesUncheckedRow) | delete exactly the records of the checked rows, a and b | not executed | ObjectIndex.DeleteRequestsAsWritten | FileManagerWindow.FileManager.DeleteSelected |
