/**
 * The browser window of the first revision (main.go, showMainWindow): a
 * flat table of the bucket's objects with a search field, a single selected
 * row, and a loader that lists the service's prefix 100 records a call and
 * re-applies the search after every page.
 */
module LegacyBrowser {
  import opened Optional
  import opened Text
  import opened Listing
  import opened Projection
  import opened PagedLoad

  /** Records requested per listing call. */
  const BatchSize: int := 100

  /** The file name the save dialog suggests for a download: the key with every '/' replaced by '_'. */
  function DownloadFileName(key: string): (name: string)
    ensures |name| == |key| && '/' !in name
  {
    ReplaceSlashes(key)
  }

  /** Each folder level of the key becomes a '_'-separated part of the file name; nothing else changes. */
  lemma DownloadNameJoinsSegments(folder: string, name: string)
    ensures DownloadFileName(folder + "/" + name) == DownloadFileName(folder) + "_" + DownloadFileName(name)
  {
    var key := folder + "/" + name;
    var r := DownloadFileName(folder) + "_" + DownloadFileName(name);
    forall i | 0 <= i < |key|
      ensures DownloadFileName(key)[i] == r[i]
    {
      if i < |folder| {
        assert key[i] == folder[i];
      } else if i > |folder| {
        assert key[i] == name[i - |folder| - 1];
      }
    }
  }

  /** A key without '/' is offered under its own name. */
  lemma DownloadNameOfTopLevelKey(key: string)
    requires '/' !in key
    ensures DownloadFileName(key) == key
  {
  }

  class Browser {
    /** Every record loaded so far, in listing order. */
    var allObjects: seq<ObjectRecord>
    /** The search result the table is next refreshed with. */
    var filteredObjects: seq<ObjectRecord>
    /** The rows the table shows. */
    var currentObjects: seq<ObjectRecord>
    /** The selected row, -1 for none. */
    var selectedIndex: int
    var searchTerm: string

    /** The table shows the search result over the loaded records. */
    ghost predicate Filtered()
      reads this`allObjects, this`filteredObjects, this`currentObjects, this`searchTerm
    {
      filteredObjects == SearchFilter(allObjects, searchTerm) && currentObjects == filteredObjects
    }

    /** showMainWindow's variables before the first load: nothing loaded, no row selected, no search. */
    constructor ()
      ensures Filtered()
      ensures allObjects == [] && currentObjects == [] && selectedIndex == -1 && searchTerm == ""
    {
      allObjects := [];
      filteredObjects := [];
      currentObjects := [];
      selectedIndex := -1;
      searchTerm := "";
    }

    /** filterObjects, with the updateObjectList it ends with: search the records, show the result. */
    method FilterObjects()
      modifies this`filteredObjects, this`currentObjects
      ensures Filtered()
    {
      filteredObjects := SearchObjects(allObjects, searchTerm);
      currentObjects := filteredObjects;
    }

    /** The search field's change handler, once its debounce delay has passed. */
    method OnSearchChanged(term: string)
      modifies this`searchTerm, this`filteredObjects, this`currentObjects
      ensures searchTerm == term && Filtered()
    {
      searchTerm := term;
      FilterObjects();
    }

    /** The table's selection handler: the clicked row becomes the selected one. */
    method OnSelected(row: int)
      modifies this`selectedIndex
      ensures selectedIndex == row
    {
      selectedIndex := row;
    }

    /** The table's unselection handler: forget the selection only if it is that row. */
    method OnUnselected(row: int)
      modifies this`selectedIndex
      ensures old(selectedIndex) == row ==> selectedIndex == -1
      ensures old(selectedIndex) != row ==> selectedIndex == old(selectedIndex)
    {
      if selectedIndex == row {
        selectedIndex := -1;
      }
    }

    /**
     * The Delete button's guard: the key it asks to delete, or nothing (the
     * "No object selected" notice) when the selection is not a shown row.
     */
    method OnDelete() returns (key: Option<string>)
      ensures key.Some? <==> 0 <= selectedIndex < |currentObjects|
      ensures key.Some? ==> key.value == currentObjects[selectedIndex].key
    {
      if selectedIndex < 0 || selectedIndex >= |currentObjects| {
        return None;
      }
      key := Some(currentObjects[selectedIndex].key);
    }

    /**
     * The Download button's guard: the object to download and the file name
     * the save dialog suggests, or nothing when the selection is not a shown row.
     */
    method OnDownload() returns (target: Option<(string, string)>)
      ensures target.Some? <==> 0 <= selectedIndex < |currentObjects|
      ensures target.Some? ==> target.value.0 == currentObjects[selectedIndex].key
      ensures target.Some? ==> target.value.1 == DownloadFileName(target.value.0)
    {
      if selectedIndex < 0 || selectedIndex >= |currentObjects| {
        return None;
      }
      var key := currentObjects[selectedIndex].key;
      target := Some((key, DownloadFileName(key)));
    }

    /** Once a page is loaded, the table shows the search over it. */
    ghost predicate Shown()
      reads this`allObjects, this`filteredObjects, this`currentObjects, this`searchTerm
    {
      |allObjects| > 0 ==> Filtered()
    }

    /**
     * One pass of the loader's loop: list the page after `lastKey`, append
     * it and re-apply the search, and say whether the load stops (and
     * whether it failed) or goes on after the page's last key.
     */
    method LoadPage(store: seq<ObjectRecord>, prefix: string, fault: nat -> Option<ListError>, call: nat, lastKey: string)
      returns (stop: Option<bool>, nextKey: string)
      requires Shown() && WellFormedBucket(store)
      modifies this`allObjects, this`filteredObjects, this`currentObjects
      ensures Shown()
      ensures stop == Some(false) ==> Filtered()
      ensures stop.Some? ==>
        Behind(old(allObjects), PagedRun(fault, call, store, prefix, lastKey, BatchSize)) == Outcome(stop.value, allObjects)
      ensures stop.None? ==>
        && Behind(old(allObjects), PagedRun(fault, call, store, prefix, lastKey, BatchSize))
           == Behind(allObjects, PagedRun(fault, call + 1, store, prefix, nextKey, BatchSize))
        && |After(Under(store, prefix), nextKey)| < |After(Under(store, prefix), lastKey)|
    {
      var batch;
      batch, stop, nextKey := ListPage(fault, call, store, prefix, lastKey, BatchSize);
      if stop == Some(true) {
        assert allObjects + [] == allObjects;
        return;
      }
      ghost var before := allObjects;
      allObjects := allObjects + batch;
      FilterObjects();
      if stop.None? {
        BehindBehind(before, batch, PagedRun(fault, call + 1, store, prefix, nextKey, BatchSize));
      }
    }

    /**
     * loadObjects, its goroutine run to its end: empty the index, then list
     * the service's prefix page by page, appending each page and re-applying
     * the search, until a page comes back short or a listing call fails.
     * After the last page the selection is forgotten and the search applied
     * once more; a failure ends the load where it is.
     */
    method LoadObjects(store: seq<ObjectRecord>, prefix: string, fault: nat -> Option<ListError>)
      returns (failed: bool)
      requires WellFormedBucket(store)
      modifies this`allObjects, this`filteredObjects, this`currentObjects, this`selectedIndex
      ensures Outcome(failed, allObjects) == PagedRun(fault, 0, store, prefix, "", BatchSize)
      ensures !failed || |allObjects| > 0 ==> Filtered()
      ensures !failed ==> selectedIndex == -1
      ensures failed ==> selectedIndex == old(selectedIndex)
    {
      allObjects := [];
      var lastKey := "";
      var call: nat := 0;
      while true
        invariant Shown() && selectedIndex == old(selectedIndex)
        invariant PagedRun(fault, 0, store, prefix, "", BatchSize)
                  == Behind(allObjects, PagedRun(fault, call, store, prefix, lastKey, BatchSize))
        decreases |After(Under(store, prefix), lastKey)|
      {
        var stop, nextKey := LoadPage(store, prefix, fault, call, lastKey);
        if stop == Some(true) {
          return true;
        }
        if stop.Some? {
          break;
        }
        lastKey := nextKey;
        call := call + 1;
      }
      selectedIndex := -1;
      FilterObjects();
      failed := false;
    }
  }
}
