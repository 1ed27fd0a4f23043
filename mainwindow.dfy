/**
 * The object browser window of the previous revision (windows/mainwindow.go):
 * the same index, projection, folder tree and row selection as the current
 * window, but its loader lists the service's prefix from the start, 150
 * records a call, with no ceiling and no way to stop it, and refreshes the
 * table and the tree after every page.
 */
module MainWindowView {
  import opened Optional
  import opened Listing
  import opened ObjectIndex
  import opened Projection
  import opened DirTree
  import opened PagedLoad

  /** Records requested per listing call. */
  const BatchSize: int := 150

  class MainWindow {
    /** Every record loaded so far, in listing order. */
    var allObjects: seq<ObjectRecord>
    /** The projection shown in the table. */
    var currentObjects: seq<ObjectRecord>
    /**
     * The table's slice is the index's own: filterObjects returned
     * `allObjects` itself, so a splice of the index moves the rows shown too.
     * The index is then a prefix of the table.
     */
    var viewShared: bool
    /** The checked table rows; Go's nil map is the empty set. */
    var selectedIndex: set<int>
    /** Whether Delete, Download and Link are enabled (they always change together). */
    var actionsEnabled: bool
    /** The folder prefix of every loaded key that has one. */
    var prefixes: set<string>
    /** The tree node selected: "all", "root" or a cumulative folder path. */
    var selectedPrefix: string
    var searchTerm: string
    /** The folder tree: child lists and captions by node id. */
    var treeIds: map<string, seq<string>>
    var treeValues: map<string, string>

    /** A checked row always has its actions enabled, and a shared table starts with the index. */
    ghost predicate Valid()
      reads this`selectedIndex, this`actionsEnabled, this`viewShared, this`allObjects, this`currentObjects
    {
      && (selectedIndex != {} ==> actionsEnabled)
      && (viewShared ==> allObjects <= currentObjects)
    }

    /**
     * The tree shows the collected prefixes and the table shows the
     * projection, nothing checked; the table is the index's own slice
     * exactly when the projection took the unfiltered shortcut.
     */
    ghost predicate Refreshed()
      reads this`prefixes, this`treeIds, this`treeValues, this`currentObjects, this`allObjects, this`selectedPrefix,
            this`searchTerm, this`selectedIndex, this`viewShared
    {
      && ValidTree(prefixes, treeIds, treeValues)
      && currentObjects == ScopedFilter(allObjects, selectedPrefix, searchTerm) && selectedIndex == {}
      && viewShared == (searchTerm == "" && AllScope(selectedPrefix))
    }

    /**
     * NewMainWindow and setupGUI: nothing loaded, and the initial selection
     * of "all" has shown the empty projection and the tree of no prefixes.
     */
    constructor ()
      ensures Valid() && Refreshed()
      ensures allObjects == [] && prefixes == {} && !actionsEnabled
      ensures selectedPrefix == AllId && searchTerm == ""
      ensures treeIds == EmptyTreeIds && treeValues == EmptyTreeValues
    {
      allObjects := [];
      currentObjects := [];
      viewShared := true;
      selectedIndex := {};
      actionsEnabled := false;
      prefixes := {};
      selectedPrefix := AllId;
      searchTerm := "";
      treeIds := EmptyTreeIds;
      treeValues := EmptyTreeValues;
      new;
      EmptyTreeValid();
    }

    /** updateTree: rebuild the folder tree from the collected prefixes. */
    method UpdateTree()
      modifies this`treeIds, this`treeValues
      ensures ValidTree(prefixes, treeIds, treeValues)
    {
      treeIds, treeValues := BuildTree(prefixes);
    }

    /** updateObjectList: re-project the index, clear the selection and rebuild the tree. */
    method UpdateObjectList()
      requires Valid()
      modifies this`currentObjects, this`viewShared, this`selectedIndex, this`treeIds, this`treeValues
      ensures Valid() && Refreshed()
    {
      currentObjects := FilterObjects(allObjects, selectedPrefix, searchTerm);
      viewShared := searchTerm == "" && AllScope(selectedPrefix);
      selectedIndex := {};
      UpdateTree();
    }

    /** The tree's selection handler. */
    method OnTreeSelected(id: string)
      requires Valid()
      modifies this`selectedPrefix, this`currentObjects, this`viewShared, this`selectedIndex, this`treeIds, this`treeValues
      ensures Valid() && Refreshed() && selectedPrefix == id
    {
      selectedPrefix := id;
      UpdateObjectList();
    }

    /** The search field's change handler, once its debounce delay has passed. */
    method OnSearchChanged(term: string)
      requires Valid()
      modifies this`searchTerm, this`currentObjects, this`viewShared, this`selectedIndex, this`treeIds, this`treeValues
      ensures Valid() && Refreshed() && searchTerm == term
    {
      searchTerm := term;
      UpdateObjectList();
    }

    /**
     * updateSelect: check or uncheck one row. The actions are enabled on a
     * check and disabled once the last row is unchecked.
     */
    method UpdateSelect(idx: int, selected: bool)
      requires Valid()
      modifies this`selectedIndex, this`actionsEnabled
      ensures Valid()
      ensures selectedIndex == if selected then old(selectedIndex) + {idx} else old(selectedIndex) - {idx}
      ensures actionsEnabled <==> selectedIndex != {}
    {
      if selected {
        selectedIndex := selectedIndex + {idx};
        actionsEnabled := true;
      } else {
        selectedIndex := selectedIndex - {idx};
        if selectedIndex == {} {
          actionsEnabled := false;
        }
      }
    }

    /** The table's selection handler: a click toggles the row. */
    method OnRowSelected(row: int)
      requires Valid()
      modifies this`selectedIndex, this`actionsEnabled
      ensures Valid()
      ensures row in selectedIndex <==> row !in old(selectedIndex)
      ensures selectedIndex - {row} == old(selectedIndex) - {row}
      ensures actionsEnabled <==> selectedIndex != {}
    {
      UpdateSelect(row, row !in selectedIndex);
    }

    /**
     * removeObject: drop the first loaded record with this key. The splice
     * works in place, so a table that shares the index's array shows the
     * records behind the removed one a row higher.
     */
    method RemoveObject(key: string)
      requires Valid()
      modifies this`allObjects, this`currentObjects
      ensures Valid()
      ensures allObjects == WithoutFirstKey(old(allObjects), key)
      ensures currentObjects == if viewShared then SplicedView(old(allObjects), old(currentObjects), key)
                                else old(currentObjects)
    {
      var shortened := RemoveFirstKey(allObjects, key);
      if viewShared {
        currentObjects := SplicedView(allObjects, currentObjects, key);
      }
      allObjects := shortened;
    }

    /** One page of the loader: append it and its folder prefixes, then refresh the table and the tree. */
    method CommitPage(batch: seq<ObjectRecord>)
      requires Valid()
      modifies this`allObjects, this`prefixes, this`currentObjects, this`viewShared, this`selectedIndex, this`treeIds,
               this`treeValues
      ensures Valid() && Refreshed()
      ensures allObjects == old(allObjects) + batch && prefixes == old(prefixes) + ParentSet(batch)
    {
      allObjects := allObjects + batch;
      // The append is taken to move the index to an array of its own.
      viewShared := false;
      var batchPrefixes := CollectParentPrefixes(batch);
      prefixes := prefixes + batchPrefixes;
      selectedIndex := {};
      UpdateObjectList();
    }

    /** The prefix set holds the folder prefix of every loaded key that has one, and nothing else. */
    ghost predicate Indexed()
      reads this`allObjects, this`prefixes
    {
      prefixes == ParentSet(allObjects)
    }

    /** Once a page is loaded, the window shows it. */
    ghost predicate Shown()
      reads this`prefixes, this`treeIds, this`treeValues, this`currentObjects, this`allObjects, this`selectedPrefix,
            this`searchTerm, this`selectedIndex, this`viewShared
    {
      |allObjects| > 0 ==> Refreshed()
    }

    /**
     * One pass of the loader's loop: list the page after `lastKey`, commit
     * it, and say whether the load stops (and whether it failed) or goes on
     * after the page's last key.
     */
    method LoadPage(store: seq<ObjectRecord>, prefix: string, fault: nat -> Option<ListError>, call: nat, lastKey: string)
      returns (stop: Option<bool>, nextKey: string)
      requires Valid() && Indexed() && Shown() && WellFormedBucket(store)
      modifies this`allObjects, this`prefixes, this`currentObjects, this`viewShared, this`selectedIndex, this`treeIds,
               this`treeValues
      ensures Valid() && Indexed() && Shown()
      ensures stop == Some(false) ==> Refreshed()
      ensures stop.None? ==> |allObjects| > 0
      ensures stop.Some? ==>
        Behind(old(allObjects), PagedRun(fault, call, store, prefix, lastKey, BatchSize)) == Outcome(stop.value, allObjects)
      ensures stop.None? ==>
        && Behind(old(allObjects), PagedRun(fault, call, store, prefix, lastKey, BatchSize))
           == Behind(allObjects, PagedRun(fault, call + 1, store, prefix, nextKey, BatchSize))
        && |After(Under(store, prefix), nextKey)| < |After(Under(store, prefix), lastKey)|
    {
      var batch;
      batch, stop, nextKey := ListPage(fault, call, store, prefix, lastKey, BatchSize);
      if stop == Some(true) {
        assert allObjects + [] == allObjects;
        return;
      }
      ghost var before := allObjects;
      CommitPage(batch);
      ParentSetAppend(before, batch);
      if stop.None? {
        BehindBehind(before, batch, PagedRun(fault, call + 1, store, prefix, nextKey, BatchSize));
      }
    }

    /**
     * loadObjects, its goroutine run to its end: clear the search, empty the
     * index, then list the service's prefix page by page until a page comes
     * back short or a listing call fails. Every page listed is committed and
     * shown; a failure keeps what was committed before it.
     */
    method LoadObjects(store: seq<ObjectRecord>, prefix: string, fault: nat -> Option<ListError>)
      returns (failed: bool)
      requires Valid() && WellFormedBucket(store)
      modifies this`searchTerm, this`allObjects, this`prefixes, this`currentObjects, this`viewShared, this`selectedIndex,
               this`treeIds, this`treeValues
      ensures Valid() && searchTerm == ""
      ensures Outcome(failed, allObjects) == PagedRun(fault, 0, store, prefix, "", BatchSize)
      ensures prefixes == ParentSet(allObjects)
      ensures !failed || |allObjects| > 0 ==> Refreshed()
    {
      searchTerm := "";
      allObjects := [];
      prefixes := {};
      var lastKey := "";
      var call: nat := 0;
      while true
        invariant Valid() && Indexed() && Shown() && searchTerm == ""
        invariant PagedRun(fault, 0, store, prefix, "", BatchSize)
                  == Behind(allObjects, PagedRun(fault, call, store, prefix, lastKey, BatchSize))
        decreases |After(Under(store, prefix), lastKey)|
      {
        var stop;
        stop, lastKey := LoadPage(store, prefix, fault, call, lastKey);
        if stop.Some? {
          return stop.value;
        }
        call := call + 1;
      }
    }
  }
}
