/**
 * Operations on the loaded object index that both window revisions share:
 * removing the first record with a key, and deriving the "folder" prefix of
 * each key (the text before its last '/').
 */
module ObjectIndex {
  import opened Optional
  import opened Text
  import opened Listing

  /** Reference definition: the list without its first record carrying `key`. */
  function WithoutFirstKey(objs: seq<ObjectRecord>, key: string): seq<ObjectRecord>
  {
    if |objs| == 0 then []
    else if objs[0].key == key then objs[1..]
    else [objs[0]] + WithoutFirstKey(objs[1..], key)
  }

  /** No record carries `key`. */
  predicate KeyAbsent(objs: seq<ObjectRecord>, key: string)
  {
    forall i :: 0 <= i < |objs| ==> objs[i].key != key
  }

  /** An absent key leaves the list as it is. */
  lemma {:induction false} WithoutAbsentKey(objs: seq<ObjectRecord>, key: string)
    requires KeyAbsent(objs, key)
    ensures WithoutFirstKey(objs, key) == objs
  {
    if |objs| > 0 {
      WithoutAbsentKey(objs[1..], key);
    }
  }

  /** With the first match at `i`, exactly record `i` goes and the others keep their order. */
  lemma {:induction false} WithoutFirstMatch(objs: seq<ObjectRecord>, key: string, i: int)
    requires 0 <= i < |objs| && objs[i].key == key && KeyAbsent(objs[..i], key)
    ensures WithoutFirstKey(objs, key) == objs[..i] + objs[i + 1..]
  {
    if i > 0 {
      assert objs[0] == objs[..i][0];
      WithoutFirstMatch(objs[1..], key, i - 1);
      assert objs[1..][..i - 1] == objs[..i][1..];
      assert objs[..i] == [objs[0]] + objs[1..][..i - 1];
    }
  }

  /** Removal from a loaded listing (distinct keys) drops exactly the records with that key. */
  lemma WithoutKeyInSortedList(objs: seq<ObjectRecord>, key: string, o: ObjectRecord)
    requires Sorted(objs)
    ensures o in WithoutFirstKey(objs, key) <==> o in objs && o.key != key
  {
    if KeyAbsent(objs, key) {
      WithoutAbsentKey(objs, key);
    } else {
      var i := FirstKeyIndex(objs, key);
      WithoutFirstMatch(objs, key, i);
      SpliceMembers(objs, i, o);
      if o in objs && o.key != key {
        var j :| 0 <= j < |objs| && objs[j] == o;
        assert j != i;
      }
      if exists j :: 0 <= j < |objs| && j != i && objs[j] == o {
        var j :| 0 <= j < |objs| && j != i && objs[j] == o;
        SortedDistinctKeys(objs, j, i);
      }
    }
  }

  /** Cutting element `i` out of a sequence leaves exactly the elements at the other positions. */
  lemma SpliceMembers<T>(s: seq<T>, i: int, x: T)
    requires 0 <= i < |s|
    ensures x in s[..i] + s[i + 1..] <==> exists j :: 0 <= j < |s| && j != i && s[j] == x
  {
    var r := s[..i] + s[i + 1..];
    if x in r {
      var j :| 0 <= j < |r| && r[j] == x;
      if j < i {
        assert s[j] == x;
      } else {
        assert s[j + 1] == x;
      }
    }
    if exists j :: 0 <= j < |s| && j != i && s[j] == x {
      var j :| 0 <= j < |s| && j != i && s[j] == x;
      if j < i {
        assert r[j] == x;
      } else {
        assert r[j - 1] == x;
      }
    }
  }

  /** The position of the first record with `key`, when there is one. */
  function FirstKeyIndex(objs: seq<ObjectRecord>, key: string): (i: int)
    requires !KeyAbsent(objs, key)
    ensures 0 <= i < |objs| && objs[i].key == key && KeyAbsent(objs[..i], key)
  {
    if objs[0].key == key then 0
    else
      var i := FirstKeyIndex(objs[1..], key);
      assert objs[..i + 1] == [objs[0]] + objs[1..][..i];
      i + 1
  }

  /**
   * removeObject: scans for the first record with `key` and splices it out
   * (truncating when it is the last one); an absent key changes nothing.
   */
  method RemoveFirstKey(objs: seq<ObjectRecord>, key: string) returns (r: seq<ObjectRecord>)
    ensures r == WithoutFirstKey(objs, key)
  {
    var idx := 0;
    while idx < |objs|
      invariant 0 <= idx <= |objs|
      invariant KeyAbsent(objs[..idx], key)
    {
      if objs[idx].key == key {
        WithoutFirstMatch(objs, key, idx);
        if idx == |objs| - 1 {
          assert objs[idx + 1..] == [];
          return objs[..idx];
        }
        return objs[..idx] + objs[idx + 1..];
      }
      assert objs[..idx + 1] == objs[..idx] + [objs[idx]];
      idx := idx + 1;
    }
    assert objs[..idx] == objs;
    WithoutAbsentKey(objs, key);
    return objs;
  }

  /**
   * What removeObject's splice leaves in a slice `view` that shares the
   * index's array and is at least as long: the splice copies the records
   * behind the removed one a place forward within that array, so `view`
   * reads the new index and then, from the old index's last place on, what
   * the array held there before. An absent key writes nothing.
   */
  function SplicedView(objs: seq<ObjectRecord>, view: seq<ObjectRecord>, key: string): (r: seq<ObjectRecord>)
    requires objs <= view
    ensures |r| == |view| && WithoutFirstKey(objs, key) <= r
    ensures KeyAbsent(objs, key) ==> r == view
    ensures !KeyAbsent(objs, key) ==> |WithoutFirstKey(objs, key)| == |objs| - 1 && r[|objs| - 1..] == view[|objs| - 1..]
  {
    if KeyAbsent(objs, key) then
      WithoutAbsentKey(objs, key);
      view
    else
      WithoutFirstMatch(objs, key, FirstKeyIndex(objs, key));
      WithoutFirstKey(objs, key) + view[|objs| - 1..]
  }

  /**
   * Row by row: the rows before the removed record keep theirs, each row
   * from the removed record's place to the old index's second-to-last shows
   * the record one row further down, and the rows from there on are as
   * they were, so the old last record shows twice.
   */
  lemma SplicedViewRows(objs: seq<ObjectRecord>, view: seq<ObjectRecord>, key: string, j: int)
    requires objs <= view && !KeyAbsent(objs, key) && 0 <= j < |view|
    ensures SplicedView(objs, view, key)[j] ==
      if FirstKeyIndex(objs, key) <= j < |objs| - 1 then view[j + 1] else view[j]
  {
    var i := FirstKeyIndex(objs, key);
    WithoutFirstMatch(objs, key, i);
    var r := SplicedView(objs, view, key);
    if j < |objs| - 1 {
      assert r[j] == (objs[..i] + objs[i + 1..])[j];
      if j < i {
        assert r[j] == objs[j];
      } else {
        assert r[j] == objs[j + 1];
      }
    } else {
      assert r[j] == r[|objs| - 1..][j - (|objs| - 1)];
    }
  }

  /** Removal keeps a listing in key order. */
  lemma WithoutFirstKeySorted(objs: seq<ObjectRecord>, key: string)
    requires Sorted(objs)
    ensures Sorted(WithoutFirstKey(objs, key))
  {
    if KeyAbsent(objs, key) {
      WithoutAbsentKey(objs, key);
    } else {
      var i := FirstKeyIndex(objs, key);
      WithoutFirstMatch(objs, key, i);
      var r := objs[..i] + objs[i + 1..];
      forall a, b | 0 <= a < b < |r|
        ensures KeyLess(r[a].key, r[b].key)
      {
        var a' := if a < i then a else a + 1;
        var b' := if b < i then b else b + 1;
        assert r[a] == objs[a'] && r[b] == objs[b'];
      }
    }
  }

  /** The keys of the table rows `rows`, in that order. */
  function RowKeys(view: seq<ObjectRecord>, rows: seq<int>): (keys: seq<string>)
    requires forall k :: 0 <= k < |rows| ==> 0 <= rows[k] < |view|
    ensures |keys| == |rows| && forall k :: 0 <= k < |rows| ==> keys[k] == view[rows[k]].key
  {
    seq(|rows|, k requires 0 <= k < |rows| => view[rows[k]].key)
  }

  /** The rows listed in `rows`. */
  function RowSet(rows: seq<int>): set<int>
  {
    if rows == [] then {} else RowSet(rows[..|rows| - 1]) + {rows[|rows| - 1]}
  }

  /** The keys whose deletion succeeded: `keys[k]` for each `k` with `ok[k]`, in order. */
  function Succeeded(keys: seq<string>, ok: seq<bool>): seq<string>
    requires |ok| == |keys|
  {
    if keys == [] then []
    else Succeeded(keys[..|keys| - 1], ok[..|ok| - 1]) + (if ok[|ok| - 1] then [keys[|keys| - 1]] else [])
  }

  /** The index after removing the first record of each key in turn. */
  function WithoutKeys(objs: seq<ObjectRecord>, keys: seq<string>): seq<ObjectRecord>
  {
    if keys == [] then objs else WithoutFirstKey(WithoutKeys(objs, keys[..|keys| - 1]), keys[|keys| - 1])
  }

  /** One more row. */
  lemma RowSetStep(rows: seq<int>, k: int)
    requires 0 <= k < |rows|
    ensures RowSet(rows[..k + 1]) == RowSet(rows[..k]) + {rows[k]}
  {
    assert rows[..k + 1][..k] == rows[..k];
  }

  /** One more deletion request: its key goes from the index only when it succeeded. */
  lemma WithoutKeysStep(objs: seq<ObjectRecord>, keys: seq<string>, ok: seq<bool>, k: int)
    requires |ok| == |keys| && 0 <= k < |keys|
    ensures WithoutKeys(objs, Succeeded(keys[..k + 1], ok[..k + 1])) ==
      if ok[k] then WithoutFirstKey(WithoutKeys(objs, Succeeded(keys[..k], ok[..k])), keys[k])
      else WithoutKeys(objs, Succeeded(keys[..k], ok[..k]))
  {
    assert keys[..k + 1][..k] == keys[..k] && ok[..k + 1][..k] == ok[..k];
    var done := Succeeded(keys[..k], ok[..k]);
    if ok[k] {
      assert (done + [keys[k]])[..|done|] == done;
    } else {
      assert done + [] == done;
    }
  }

  /** On a loaded listing, removing keys in turn drops exactly the records with those keys. */
  lemma {:induction false} WithoutKeysMembership(objs: seq<ObjectRecord>, keys: seq<string>, o: ObjectRecord)
    requires Sorted(objs)
    ensures Sorted(WithoutKeys(objs, keys))
    ensures o in WithoutKeys(objs, keys) <==> o in objs && o.key !in keys
    decreases |keys|
  {
    if keys != [] {
      var front, last := keys[..|keys| - 1], keys[|keys| - 1];
      WithoutKeysMembership(objs, front, o);
      WithoutKeyInSortedList(WithoutKeys(objs, front), last, o);
      WithoutFirstKeySorted(WithoutKeys(objs, front), last);
      assert keys == front + [last];
    }
  }

  /**
   * handleDelete's loop as written, once confirmed: for each checked row,
   * in the order the map hands them out, read the row from the table as it
   * stands now, request the deletion of its key and, when the request
   * succeeds (`ok`), remove the key from the index, which splices a table
   * that shares the index's array as well. The result is the keys requested.
   */
  function DeleteRequestsAsWritten(all: seq<ObjectRecord>, view: seq<ObjectRecord>, shared: bool, rows: seq<int>,
                                   ok: seq<bool>): (keys: seq<string>)
    requires shared ==> all <= view
    requires |ok| == |rows| && forall k :: 0 <= k < |rows| ==> 0 <= rows[k] < |view|
    ensures |keys| == |rows|
    decreases |rows|
  {
    if rows == [] then []
    else
      var key := view[rows[0]].key;
      var view' := if ok[0] && shared then SplicedView(all, view, key) else view;
      var all' := if ok[0] then WithoutFirstKey(all, key) else all;
      [key] + DeleteRequestsAsWritten(all', view', shared, rows[1..], ok[1..])
  }

  /** On a table of its own, the loop as written requests exactly the checked rows' keys. */
  lemma {:induction false} DeleteRequestsUnshared(all: seq<ObjectRecord>, view: seq<ObjectRecord>, rows: seq<int>,
                                                  ok: seq<bool>)
    requires |ok| == |rows| && forall k :: 0 <= k < |rows| ==> 0 <= rows[k] < |view|
    ensures DeleteRequestsAsWritten(all, view, false, rows, ok) == RowKeys(view, rows)
    decreases |rows|
  {
    if rows != [] {
      var all' := if ok[0] then WithoutFirstKey(all, view[rows[0]].key) else all;
      DeleteRequestsUnshared(all', view, rows[1..], ok[1..]);
    }
  }

  /**
   * On the flat view of a, b, c with rows 0 and 1 checked and visited in
   * that order, the loop as written deletes a and then c, a row nobody
   * checked, instead of a and b.
   */
  lemma AsWrittenDeletesUncheckedRow()
    ensures var a, b, c := ObjectRecord("a", 0), ObjectRecord("b", 0), ObjectRecord("c", 0);
            && RowKeys([a, b, c], [0, 1]) == ["a", "b"]
            && DeleteRequestsAsWritten([a, b, c], [a, b, c], true, [0, 1], [true, true]) == ["a", "c"]
  {
    var a, b, c := ObjectRecord("a", 0), ObjectRecord("b", 0), ObjectRecord("c", 0);
    var abc := [a, b, c];
    assert !KeyAbsent(abc, "a") by { assert abc[0].key == "a"; }
    assert WithoutFirstKey(abc, "a") == [b, c];
    assert SplicedView(abc, abc, "a") == [b, c, c];
    assert [0, 1][1..] == [1] && [true, true][1..] == [true];
    assert !KeyAbsent([b, c], "c") by { assert [b, c][1].key == "c"; }
    assert [1][1..] == [] && [true][1..] == [];
  }

  /** The folder a key lives in: the text before its last '/', or nothing for a top-level key. */
  function ParentPrefix(key: string): (p: Option<string>)
    ensures p.None? <==> '/' !in key
    ensures p.Some? ==> key == p.value + "/" + Label(key) && '/' !in Label(key)
  {
    var k := LastIndexOf(key, '/');
    if k == -1 then None
    else
      assert key == key[..k] + "/" + key[k + 1..];
      Some(key[..k])
  }

  /** A name without '/' placed under a folder has that folder as its parent. */
  lemma ParentOfChild(folder: string, name: string)
    requires '/' !in name
    ensures ParentPrefix(folder + "/" + name) == Some(folder)
  {
    LastIndexOfAppend(folder, name);
    assert (folder + "/" + name)[..|folder|] == folder;
  }

  /** The folder prefixes of a list of records (keys without '/' add none). */
  ghost function ParentSet(objs: seq<ObjectRecord>): set<string>
  {
    set i | 0 <= i < |objs| && ParentPrefix(objs[i].key).Some? :: ParentPrefix(objs[i].key).value
  }

  /** Folder prefixes accumulate page by page. */
  lemma ParentSetAppend(a: seq<ObjectRecord>, b: seq<ObjectRecord>)
    ensures ParentSet(a + b) == ParentSet(a) + ParentSet(b)
  {
    var ab := a + b;
    forall p | p in ParentSet(ab)
      ensures p in ParentSet(a) + ParentSet(b)
    {
      var i :| 0 <= i < |ab| && ParentPrefix(ab[i].key).Some? && ParentPrefix(ab[i].key).value == p;
      if i >= |a| {
        assert b[i - |a|] == ab[i];
      }
    }
    forall p | p in ParentSet(a)
      ensures p in ParentSet(ab)
    {
      var i :| 0 <= i < |a| && ParentPrefix(a[i].key).Some? && ParentPrefix(a[i].key).value == p;
      assert ab[i] == a[i];
    }
    forall p | p in ParentSet(b)
      ensures p in ParentSet(ab)
    {
      var i :| 0 <= i < |b| && ParentPrefix(b[i].key).Some? && ParentPrefix(b[i].key).value == p;
      assert ab[|a| + i] == b[i];
    }
  }

  /** The per-page loop that collects the folder prefix of each key of a page. */
  method CollectParentPrefixes(batch: seq<ObjectRecord>) returns (ps: set<string>)
    ensures ps == ParentSet(batch)
  {
    ps := {};
    var i := 0;
    while i < |batch|
      invariant 0 <= i <= |batch|
      invariant ps == ParentSet(batch[..i])
    {
      var k := LastIndexOf(batch[i].key, '/');
      if k != -1 {
        ps := ps + {batch[i].key[..k]};
      }
      ParentSetAppend(batch[..i], [batch[i]]);
      assert batch[..i + 1] == batch[..i] + [batch[i]];
      i := i + 1;
    }
    assert batch[..i] == batch;
  }
}
