/**
 * The projection of the loaded index onto the object table: the records
 * in the selected tree scope whose key contains the search term, compared
 * case-insensitively. The current window and its predecessor share this
 * rule; the first revision only searched.
 */
module Projection {
  import opened Text
  import opened Listing

  /** The scopes that mean "every object": no tree node selected, or the flat view. */
  predicate AllScope(scope: string)
  {
    scope == "" || scope == "all"
  }

  /** The key contains the term, ignoring (ASCII) case. */
  predicate MatchesTerm(key: string, term: string)
  {
    ContainsSubstring(ToLower(key), ToLower(term))
  }

  /**
   * The three cases of the filter's switch, as written: each falls through to
   * the one that keeps the record, so a record is kept when any case holds.
   */
  predicate SwitchKeeps(key: string, scope: string, term: string)
  {
    (AllScope(scope) && MatchesTerm(key, term))
    || (ToLower(term) == "" && HasPrefix(key, scope))
    || (HasPrefix(key, scope) && MatchesTerm(key, term))
  }

  /** The rule the switch implements: in scope (a literal key prefix) and matching the term. */
  predicate Keep(key: string, scope: string, term: string)
  {
    (AllScope(scope) || HasPrefix(key, scope)) && MatchesTerm(key, term)
  }

  /** The fallthrough chain keeps exactly the records the rule keeps. */
  lemma SwitchKeepsIsKeep(key: string, scope: string, term: string)
    ensures SwitchKeeps(key, scope, term) <==> Keep(key, scope, term)
  {
    if ToLower(term) == "" {
      ContainsEmpty(ToLower(key));
    }
  }

  /** The records that satisfy the rule, in their original order. */
  function Select(objs: seq<ObjectRecord>, scope: string, term: string): (r: seq<ObjectRecord>)
    ensures |r| <= |objs|
  {
    if |objs| == 0 then []
    else if Keep(objs[0].key, scope, term) then [objs[0]] + Select(objs[1..], scope, term)
    else Select(objs[1..], scope, term)
  }

  /**
   * filterObjects(Locked): the whole index, unfiltered, when there is no term
   * and the scope is "every object"; otherwise the records the rule keeps.
   */
  function ScopedFilter(objs: seq<ObjectRecord>, scope: string, term: string): seq<ObjectRecord>
  {
    if term == "" && AllScope(scope) then objs else Select(objs, scope, term)
  }

  /** The unfiltered shortcut is only a shortcut: the rule keeps everything in that case too. */
  lemma {:induction false} ShortcutAgreesWithRule(objs: seq<ObjectRecord>, scope: string, term: string)
    ensures ScopedFilter(objs, scope, term) == Select(objs, scope, term)
  {
    if term == "" && AllScope(scope) && |objs| > 0 {
      ContainsEmpty(ToLower(objs[0].key));
      ShortcutAgreesWithRule(objs[1..], scope, term);
    }
  }

  /** A record is shown iff it is loaded and the rule keeps it. */
  lemma {:induction false} SelectMembership(objs: seq<ObjectRecord>, scope: string, term: string, o: ObjectRecord)
    ensures o in Select(objs, scope, term) <==> o in objs && Keep(o.key, scope, term)
  {
    if |objs| > 0 {
      SelectMembership(objs[1..], scope, term, o);
      assert objs == [objs[0]] + objs[1..];
    }
  }

  lemma ScopedFilterMembership(objs: seq<ObjectRecord>, scope: string, term: string, o: ObjectRecord)
    ensures o in ScopedFilter(objs, scope, term) <==> o in objs && Keep(o.key, scope, term)
  {
    ShortcutAgreesWithRule(objs, scope, term);
    SelectMembership(objs, scope, term, o);
  }

  /** Re-filtering the table with the same scope and term changes nothing. */
  lemma {:induction false} SelectIdempotent(objs: seq<ObjectRecord>, scope: string, term: string)
    ensures Select(Select(objs, scope, term), scope, term) == Select(objs, scope, term)
  {
    if |objs| > 0 {
      SelectIdempotent(objs[1..], scope, term);
      if Keep(objs[0].key, scope, term) {
        var r := [objs[0]] + Select(objs[1..], scope, term);
        assert r[1..] == Select(objs[1..], scope, term);
      }
    }
  }

  lemma ScopedFilterIdempotent(objs: seq<ObjectRecord>, scope: string, term: string)
    ensures ScopedFilter(ScopedFilter(objs, scope, term), scope, term) == ScopedFilter(objs, scope, term)
  {
    ShortcutAgreesWithRule(objs, scope, term);
    ShortcutAgreesWithRule(Select(objs, scope, term), scope, term);
    SelectIdempotent(objs, scope, term);
  }

  /** Filtering distributes over appending pages to the index. */
  lemma {:induction false} SelectAppend(a: seq<ObjectRecord>, b: seq<ObjectRecord>, scope: string, term: string)
    ensures Select(a + b, scope, term) == Select(a, scope, term) + Select(b, scope, term)
  {
    if |a| > 0 {
      SelectAppend(a[1..], b, scope, term);
      assert (a + b)[1..] == a[1..] + b;
    } else {
      assert a + b == b;
    }
  }

  /**
   * filterObjectsLocked / filterObjects: one pass over the index that appends
   * each record for which a case of the switch holds.
   */
  method FilterObjects(objs: seq<ObjectRecord>, scope: string, term: string) returns (r: seq<ObjectRecord>)
    ensures r == ScopedFilter(objs, scope, term)
  {
    if term == "" && (scope == "" || scope == "all") {
      return objs;
    }
    var termLower := ToLower(term);
    r := [];
    var i := 0;
    while i < |objs|
      invariant 0 <= i <= |objs|
      invariant r == Select(objs[..i], scope, term)
    {
      var key := objs[i].key;
      var keyLower := ToLower(key);
      var allScope := scope == "" || scope == "all";
      if (allScope && ContainsSubstring(keyLower, termLower))
         || (termLower == "" && HasPrefix(key, scope))
         || (HasPrefix(key, scope) && ContainsSubstring(keyLower, termLower))
      {
        r := r + [objs[i]];
      }
      SwitchKeepsIsKeep(key, scope, term);
      SelectAppend(objs[..i], [objs[i]], scope, term);
      assert objs[..i + 1] == objs[..i] + [objs[i]];
      i := i + 1;
    }
    assert objs[..i] == objs;
  }

  /** The first revision's search: every record when the term is empty, otherwise those matching it. */
  function SearchFilter(objs: seq<ObjectRecord>, term: string): seq<ObjectRecord>
  {
    if term == "" then objs else Select(objs, "all", term)
  }

  /** The first revision's search is the current filter with the flat-view scope selected. */
  lemma SearchIsFlatViewFilter(objs: seq<ObjectRecord>, term: string)
    ensures SearchFilter(objs, term) == ScopedFilter(objs, "all", term)
    ensures SearchFilter(objs, term) == ScopedFilter(objs, "", term)
  {
    SelectScopeAllIsEmpty(objs, term);
  }

  /** The two "every object" scopes select the same records. */
  lemma {:induction false} SelectScopeAllIsEmpty(objs: seq<ObjectRecord>, term: string)
    ensures Select(objs, "all", term) == Select(objs, "", term)
  {
    if |objs| > 0 {
      SelectScopeAllIsEmpty(objs[1..], term);
    }
  }

  /** The first revision's filter loop: keeps the records whose lower-cased key contains the lower-cased term. */
  method SearchObjects(objs: seq<ObjectRecord>, term: string) returns (r: seq<ObjectRecord>)
    ensures r == SearchFilter(objs, term)
  {
    if term == "" {
      return objs;
    }
    r := [];
    var i := 0;
    while i < |objs|
      invariant 0 <= i <= |objs|
      invariant r == Select(objs[..i], "all", term)
    {
      if ContainsSubstring(ToLower(objs[i].key), ToLower(term)) {
        r := r + [objs[i]];
      }
      SelectAppend(objs[..i], [objs[i]], "all", term);
      assert objs[..i + 1] == objs[..i] + [objs[i]];
      i := i + 1;
    }
    assert objs[..i] == objs;
  }
}
