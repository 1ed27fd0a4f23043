/**
 * The folder tree beside the object table. Each folder prefix "s1/s2/.../sk"
 * contributes the cumulative paths "s1", "s1/s2", ..., each a child of the one
 * before; the first segments hang under the fixed "root" node, and the top
 * level holds the "all" (flat view) and "root" nodes. The tree is handed to
 * the widget as a map from node id to child ids plus a map from node id to
 * label.
 */
module DirTree {
  import opened Text

  const AllId: string := "all"
  const RootId: string := "root"
  const AllLabel: string := "All (Flat view)"
  const RootLabel: string := "Root"

  /** A parent/child link between two node ids. */
  datatype Edge = Edge(parent: string, child: string)

  ghost predicate NoDup(s: seq<string>)
  {
    forall i, j :: 0 <= i < j < |s| ==> s[i] != s[j]
  }

  ghost function Elems(s: seq<string>): set<string>
  {
    set x | x in s
  }

  /** contains: a linear search for `str` in `slice`. */
  method Contains(slice: seq<string>, str: string) returns (found: bool)
    ensures found <==> str in slice
  {
    for i := 0 to |slice|
      invariant str !in slice[..i]
    {
      if slice[i] == str {
        return true;
      }
      assert slice[..i + 1] == slice[..i] + [slice[i]];
    }
    assert slice[..|slice|] == slice;
    return false;
  }

  /** The id of the node for the first `i + 1` segments of `prefix`. */
  function Path(prefix: string, i: int): string
    requires 0 <= i < |Split(prefix)|
  {
    Join(Split(prefix)[..i + 1])
  }

  /** Extending a cumulative path by one segment appends "/" and that segment. */
  lemma PathStep(prefix: string, i: int)
    requires 1 <= i < |Split(prefix)|
    ensures Path(prefix, i) == Path(prefix, i - 1) + "/" + Split(prefix)[i]
    ensures '/' in Path(prefix, i)
    ensures Label(Path(prefix, i)) == Split(prefix)[i]
  {
    JoinedChild(Split(prefix), i);
  }

  /** The first cumulative path is the first segment. */
  lemma FirstPath(prefix: string)
    ensures Path(prefix, 0) == Split(prefix)[0]
    ensures '/' !in Path(prefix, 0)
  {
    assert Split(prefix)[..1] == [Split(prefix)[0]];
  }

  /** The link from the node of the first `i` segments of `prefix` to the node of the first `i + 1`. */
  function EdgeAt(prefix: string, i: int): Edge
    requires 1 <= i < |Split(prefix)|
  {
    Edge(Path(prefix, i - 1), Path(prefix, i))
  }

  /** The links of one prefix with depth below `n`. */
  ghost function EdgesBelow(prefix: string, n: int): set<Edge>
  {
    set i | 1 <= i < n && i < |Split(prefix)| :: EdgeAt(prefix, i)
  }

  /** All links the prefixes give rise to. */
  ghost function Edges(prefixes: set<string>): set<Edge>
  {
    set p, i | p in prefixes && 1 <= i < |Split(p)| :: EdgeAt(p, i)
  }

  /** The first segments of the prefixes. */
  ghost function Tops(prefixes: set<string>): set<string>
  {
    set p | p in prefixes :: Split(p)[0]
  }

  ghost function Kids(E: set<Edge>, x: string): set<string>
  {
    set e | e in E && e.parent == x :: e.child
  }

  ghost function Parents(E: set<Edge>): set<string>
  {
    set e | e in E :: e.parent
  }

  ghost function Children(E: set<Edge>): set<string>
  {
    set e | e in E :: e.child
  }

  /** Every folder node: the first segments and every deeper cumulative path. */
  ghost function Nodes(prefixes: set<string>): set<string>
  {
    Tops(prefixes) + Children(Edges(prefixes))
  }

  /** The fixed entries of a child list: "all" and "root" on the top level, none elsewhere. */
  function Fixed(x: string): set<string>
  {
    if x == "" then {AllId, RootId} else {}
  }

  /** The list under "root" holds each first segment once. */
  ghost predicate RootsInv(roots: seq<string>, T: set<string>)
  {
    NoDup(roots) && Elems(roots) == T
  }

  /** Every entered child id is a path with a '/', so never "all" or "root". */
  ghost predicate EdgesSlashed(E: set<Edge>)
  {
    forall e :: e in E ==> '/' in e.child
  }

  /** The child lists: one per parent, each listing that parent's children once. */
  ghost predicate IdsInv(ids: map<string, seq<string>>, E: set<Edge>)
  {
    IdsTop(ids) && IdsDomain(ids, E) && IdsListed(ids, E)
  }

  /** The top level starts with "all" and "root". */
  ghost predicate IdsTop(ids: map<string, seq<string>>)
  {
    "" in ids && |ids[""]| >= 2 && ids[""][0] == AllId && ids[""][1] == RootId
  }

  /** A child list exists for the top level and for every node with children. */
  ghost predicate IdsDomain(ids: map<string, seq<string>>, E: set<Edge>)
  {
    forall x :: x in ids <==> x == "" || x in Parents(E)
  }

  /** Each child list names the node's children (and the fixed entries) once each. */
  ghost predicate IdsListed(ids: map<string, seq<string>>, E: set<Edge>)
  {
    forall x :: x in ids ==> NoDup(ids[x]) && Elems(ids[x]) == Kids(E, x) + Fixed(x)
  }

  /** The labelled ids: "all", "root" and every node entered so far. */
  ghost predicate ValuesDomain(values: map<string, string>, E: set<Edge>, T: set<string>)
  {
    forall n :: n in values <==> n == AllId || n == RootId || n in T || n in Children(E)
  }

  /** Every node entered so far is labelled with its last segment. */
  ghost predicate ValuesLabelled(values: map<string, string>, E: set<Edge>, T: set<string>)
  {
    forall n :: n in values && (n in T || n in Children(E)) ==> values[n] == Label(n)
  }

  /** "all" and "root" keep their captions unless a first segment has that name. */
  ghost predicate CaptionsKept(values: map<string, string>, T: set<string>)
  {
    && (AllId !in T ==> AllId in values && values[AllId] == AllLabel)
    && (RootId !in T ==> RootId in values && values[RootId] == RootLabel)
  }

  ghost predicate ValuesInv(values: map<string, string>, E: set<Edge>, T: set<string>)
  {
    ValuesDomain(values, E, T) && ValuesLabelled(values, E, T) && CaptionsKept(values, T)
  }

  /**
   * What the builder's maps hold once the links `E` and first segments `T`
   * have been entered (before "root" is given its final child list).
   */
  ghost predicate TreeInv(ids: map<string, seq<string>>, values: map<string, string>, roots: seq<string>,
                          E: set<Edge>, T: set<string>)
  {
    RootsInv(roots, T) && EdgesSlashed(E) && IdsInv(ids, E) && ValuesInv(values, E, T)
  }

  /** The builder's starting point: only the "all" and "root" entries. */
  lemma InitialTreeInv()
    ensures TreeInv(map["" := [AllId, RootId]], map[AllId := AllLabel, RootId := RootLabel], [], {}, {})
  {
    var ids := map["" := [AllId, RootId]];
    assert Elems(ids[""]) == {AllId, RootId};
    assert Parents({}) == {} && Children({}) == {};
  }

  lemma RootsAdd(roots: seq<string>, T: set<string>, t: string)
    requires RootsInv(roots, T)
    ensures RootsInv(if t in roots then roots else roots + [t], T + {t})
  {
    var roots' := if t in roots then roots else roots + [t];
    assert Elems(roots') == T + {t};
  }

  lemma ValuesAddTop(values: map<string, string>, E: set<Edge>, T: set<string>, t: string)
    requires ValuesInv(values, E, T)
    requires '/' !in t
    ensures ValuesInv(values[t := t], E, T + {t})
  {
    assert ValuesDomain(values[t := t], E, T + {t});
    LabelledAddTop(values, E, T, t);
    assert CaptionsKept(values[t := t], T + {t});
  }

  lemma LabelledAddTop(values: map<string, string>, E: set<Edge>, T: set<string>, t: string)
    requires ValuesLabelled(values, E, T)
    requires '/' !in t
    ensures ValuesLabelled(values[t := t], E, T + {t})
  {
    LabelOfSegment(t);
  }

  /** Entering a first segment: appended to the root list unless present, labelled by itself. */
  lemma AddTop(ids: map<string, seq<string>>, values: map<string, string>, roots: seq<string>,
               E: set<Edge>, T: set<string>, t: string)
    requires TreeInv(ids, values, roots, E, T)
    requires '/' !in t
    ensures TreeInv(ids, values[t := t], if t in roots then roots else roots + [t], E, T + {t})
  {
    RootsAdd(roots, T, t);
    ValuesAddTop(values, E, T, t);
  }

  /** A child already listed under a parent is already linked to it. */
  lemma ListedMeansLinked(ids: map<string, seq<string>>, E: set<Edge>, parent: string, child: string)
    requires IdsInv(ids, E) && parent in ids && child in ids[parent]
    requires child != AllId && child != RootId
    ensures Edge(parent, child) in E
  {
    assert child in Elems(ids[parent]);
    assert child in Kids(E, parent);
  }

  /** Giving a parent without a child list an empty one keeps every list exact. */
  lemma ParentEntry(ids: map<string, seq<string>>, E: set<Edge>, parent: string)
    requires IdsInv(ids, E)
    ensures var ids1 := if parent in ids then ids else ids[parent := []];
            IdsTop(ids1) && IdsListed(ids1, E) && ids1.Keys == ids.Keys + {parent}
  {
    if parent !in ids {
      assert parent != "" && parent !in Parents(E);
      assert Kids(E, parent) == {};
      assert Elems([]) == {};
    }
  }

  /** Entering a new link: the parent's list gains the child, and the parent now has a list. */
  lemma IdsAddEdge(ids: map<string, seq<string>>, E: set<Edge>, parent: string, child: string)
    requires IdsInv(ids, E)
    requires child != AllId && child != RootId
    requires parent in ids ==> child !in ids[parent]
    ensures var ids1 := if parent in ids then ids else ids[parent := []];
            IdsInv(ids1[parent := ids1[parent] + [child]], E + {Edge(parent, child)})
  {
    var ids1 := if parent in ids then ids else ids[parent := []];
    ParentEntry(ids, E, parent);
    var ids2 := ids1[parent := ids1[parent] + [child]];
    DomainAddEdge(ids, ids2, E, parent, child);
    ListedAddEdge(ids1, E, parent, child);
  }

  lemma DomainAddEdge(ids: map<string, seq<string>>, ids2: map<string, seq<string>>, E: set<Edge>,
                      parent: string, child: string)
    requires IdsDomain(ids, E) && ids2.Keys == ids.Keys + {parent}
    ensures IdsDomain(ids2, E + {Edge(parent, child)})
  {
    assert Parents(E + {Edge(parent, child)}) == Parents(E) + {parent};
  }

  lemma ListedAddEdge(ids1: map<string, seq<string>>, E: set<Edge>, parent: string, child: string)
    requires IdsListed(ids1, E) && parent in ids1 && child !in ids1[parent]
    requires child != AllId && child != RootId
    ensures IdsListed(ids1[parent := ids1[parent] + [child]], E + {Edge(parent, child)})
  {
    var E' := E + {Edge(parent, child)};
    var list := ids1[parent] + [child];
    assert Elems(list) == Elems(ids1[parent]) + {child};
    assert Kids(E', parent) == Kids(E, parent) + {child};
    forall x | x != parent
      ensures Kids(E', x) == Kids(E, x)
    {
    }
  }

  lemma ValuesAddEdge(values: map<string, string>, E: set<Edge>, T: set<string>, parent: string, child: string)
    requires ValuesInv(values, E, T)
    requires child != AllId && child != RootId
    ensures ValuesInv(values[child := Label(child)], E + {Edge(parent, child)}, T)
  {
    ValuesDomainAddEdge(values, E, T, parent, child);
    LabelledAddEdge(values, E, T, parent, child);
    assert CaptionsKept(values[child := Label(child)], T);
  }

  lemma ValuesDomainAddEdge(values: map<string, string>, E: set<Edge>, T: set<string>, parent: string, child: string)
    requires ValuesDomain(values, E, T)
    ensures ValuesDomain(values[child := Label(child)], E + {Edge(parent, child)}, T)
  {
    assert Children(E + {Edge(parent, child)}) == Children(E) + {child};
  }

  lemma LabelledAddEdge(values: map<string, string>, E: set<Edge>, T: set<string>, parent: string, child: string)
    requires ValuesLabelled(values, E, T)
    ensures ValuesLabelled(values[child := Label(child)], E + {Edge(parent, child)}, T)
  {
    assert Children(E + {Edge(parent, child)}) == Children(E) + {child};
  }

  /** A path with a '/' is neither "all" nor "root". */
  lemma SlashedNotFixed(x: string)
    requires '/' in x
    ensures x != AllId && x != RootId
  {
    assert '/' !in AllId && '/' !in RootId;
  }

  /** Entering a link, whether or not the child is listed already, keeps the invariant. */
  lemma LinkStep(ids: map<string, seq<string>>, values: map<string, string>, roots: seq<string>,
                 E: set<Edge>, T: set<string>, parent: string, child: string, part: string,
                 ids': map<string, seq<string>>, values': map<string, string>)
    requires TreeInv(ids, values, roots, E, T)
    requires '/' in child && Label(child) == part
    requires var ids1 := if parent in ids then ids else ids[parent := []];
             if child in ids1[parent] then ids' == ids1 && values' == values
             else ids' == ids1[parent := ids1[parent] + [child]] && values' == values[child := part]
    ensures TreeInv(ids', values', roots, E + {Edge(parent, child)}, T)
  {
    SlashedNotFixed(child);
    var ids1 := if parent in ids then ids else ids[parent := []];
    if child in ids1[parent] {
      assert parent in ids;
      LinkListed(ids, values, roots, E, T, parent, child);
    } else {
      LinkNew(ids, values, roots, E, T, parent, child, part);
    }
  }

  /** A child found in its parent's list was linked before, so entering the link again changes nothing. */
  lemma LinkListed(ids: map<string, seq<string>>, values: map<string, string>, roots: seq<string>,
                   E: set<Edge>, T: set<string>, parent: string, child: string)
    requires TreeInv(ids, values, roots, E, T)
    requires child != AllId && child != RootId
    requires parent in ids && child in ids[parent]
    ensures TreeInv(ids, values, roots, E + {Edge(parent, child)}, T)
  {
    ListedMeansLinked(ids, E, parent, child);
    EdgeAbsorbed(E, Edge(parent, child));
  }

  lemma EdgeAbsorbed(E: set<Edge>, e: Edge)
    requires e in E
    ensures E + {e} == E
  {
  }

  /** A child missing from its parent's list is a new link: appending and labelling it keeps the invariant. */
  lemma LinkNew(ids: map<string, seq<string>>, values: map<string, string>, roots: seq<string>,
                E: set<Edge>, T: set<string>, parent: string, child: string, part: string)
    requires TreeInv(ids, values, roots, E, T)
    requires '/' in child && child != AllId && child != RootId && Label(child) == part
    requires var ids1 := if parent in ids then ids else ids[parent := []]; child !in ids1[parent]
    ensures var ids1 := if parent in ids then ids else ids[parent := []];
            TreeInv(ids1[parent := ids1[parent] + [child]], values[child := part], roots,
                    E + {Edge(parent, child)}, T)
  {
    IdsAddEdge(ids, E, parent, child);
    ValuesAddEdge(values, E, T, parent, child);
  }

  /** Entering every link of one more prefix. */
  lemma EdgesInsert(done: set<string>, p: string)
    ensures Edges(done + {p}) == Edges(done) + EdgesBelow(p, |Split(p)|)
    ensures Tops(done + {p}) == Tops(done) + {Split(p)[0]}
  {
    EdgesInsertSub(done, p);
    EdgesInsertSuper(done, p);
  }

  lemma EdgesInsertSub(done: set<string>, p: string)
    ensures Edges(done + {p}) <= Edges(done) + EdgesBelow(p, |Split(p)|)
  {
    forall e | e in Edges(done + {p})
      ensures e in Edges(done) + EdgesBelow(p, |Split(p)|)
    {
      var q, i :| q in done + {p} && 1 <= i < |Split(q)| && e == EdgeAt(q, i);
      if q == p {
        assert e in EdgesBelow(p, |Split(p)|);
      } else {
        assert e in Edges(done);
      }
    }
  }

  lemma EdgesInsertSuper(done: set<string>, p: string)
    ensures Edges(done) + EdgesBelow(p, |Split(p)|) <= Edges(done + {p})
  {
    assert EdgesBelow(p, |Split(p)|) <= Edges(done + {p});
    assert Edges(done) <= Edges(done + {p});
  }

  /** The links of a prefix below depth `i + 1` are those below depth `i` and, past the first segment, link `i`. */
  lemma EdgesBelowStep(prefix: string, i: int)
    requires 0 <= i < |Split(prefix)|
    ensures EdgesBelow(prefix, i + 1) == EdgesBelow(prefix, i) + (if i == 0 then {} else {EdgeAt(prefix, i)})
  {
  }

  /** The first-segment step: list the segment under "root" unless it is there, and label it. */
  method EnterTop(ids: map<string, seq<string>>, values: map<string, string>, roots: seq<string>,
                  ghost E: set<Edge>, ghost T: set<string>, path: string, part: string)
    returns (values': map<string, string>, roots': seq<string>)
    requires TreeInv(ids, values, roots, E, T)
    requires path == part && '/' !in part
    ensures TreeInv(ids, values', roots', E, T + {path})
  {
    AddTop(ids, values, roots, E, T, path);
    var present := Contains(roots, path);
    roots' := roots;
    if !present {
      roots' := roots + [path];
    }
    values' := values[path := part];
  }

  /** The deeper step: give the parent a child list if it has none, then list and label the child unless it is there. */
  method EnterLink(ids: map<string, seq<string>>, values: map<string, string>, roots: seq<string>,
                   ghost E: set<Edge>, ghost T: set<string>, parentPath: string, path: string, part: string)
    returns (ids': map<string, seq<string>>, values': map<string, string>)
    requires TreeInv(ids, values, roots, E, T)
    requires '/' in path && Label(path) == part
    ensures TreeInv(ids', values', roots, E + {Edge(parentPath, path)}, T)
  {
    var ids1 := if parentPath in ids then ids else ids[parentPath := []];
    var present := Contains(ids1[parentPath], path);
    if present {
      ids', values' := ids1, values;
    } else {
      ids', values' := ids1[parentPath := ids1[parentPath] + [path]], values[path := part];
    }
    LinkStep(ids, values, roots, E, T, parentPath, path, part, ids', values');
  }

  /**
   * The state of the segment walk over `prefix` after `i` segments: the
   * current path is the cumulative path of those segments, and the maps hold
   * the links and first segment entered so far.
   */
  ghost predicate Walked(ids: map<string, seq<string>>, values: map<string, string>, roots: seq<string>,
                         E: set<Edge>, T: set<string>, prefix: string, i: int, currentPath: string)
  {
    && 0 <= i <= |Split(prefix)|
    && (i == 0 ==> currentPath == "")
    && (i >= 1 ==> currentPath == Path(prefix, i - 1))
    && TreeInv(ids, values, roots, E + EdgesBelow(prefix, i), if i == 0 then T else T + {Split(prefix)[0]})
  }

  /** One segment: extend the current path, then enter it as a first segment or as a link from the previous path. */
  method WalkSegment(ids: map<string, seq<string>>, values: map<string, string>, roots: seq<string>,
                     ghost E: set<Edge>, ghost T: set<string>, prefix: string, parts: seq<string>,
                     i: int, currentPath: string)
    returns (ids': map<string, seq<string>>, values': map<string, string>, roots': seq<string>, nextPath: string)
    requires parts == Split(prefix) && 0 <= i < |parts|
    requires Walked(ids, values, roots, E, T, prefix, i, currentPath)
    ensures Walked(ids', values', roots', E, T, prefix, i + 1, nextPath)
  {
    var parentPath := currentPath;
    var path := currentPath;
    if i > 0 {
      path := path + "/";
    }
    path := path + parts[i];
    ghost var before := E + EdgesBelow(prefix, i);
    EdgesBelowStep(prefix, i);
    if i == 0 {
      FirstPath(prefix);
      assert path == "" + parts[0] == parts[0];
      assert E + EdgesBelow(prefix, i + 1) == before;
      values', roots' := EnterTop(ids, values, roots, before, T, path, parts[i]);
      ids' := ids;
    } else {
      PathStep(prefix, i);
      assert E + EdgesBelow(prefix, i + 1) == before + {Edge(parentPath, path)};
      ids', values' := EnterLink(ids, values, roots, before, T + {parts[0]}, parentPath, path, parts[i]);
      roots' := roots;
    }
    nextPath := path;
  }

  /**
   * One pass of the outer loop: walks the segments of `prefix`, growing the
   * cumulative path, and enters each first segment and each link.
   */
  method InsertPrefix(ids: map<string, seq<string>>, values: map<string, string>, roots: seq<string>,
                      ghost E: set<Edge>, ghost T: set<string>, prefix: string)
    returns (ids': map<string, seq<string>>, values': map<string, string>, roots': seq<string>)
    requires TreeInv(ids, values, roots, E, T)
    ensures TreeInv(ids', values', roots', E + EdgesBelow(prefix, |Split(prefix)|), T + {Split(prefix)[0]})
  {
    var parts := Split(prefix);
    var currentPath := "";
    ids', values', roots' := ids, values, roots;
    assert E + EdgesBelow(prefix, 0) == E;
    for i := 0 to |parts|
      invariant Walked(ids', values', roots', E, T, prefix, i, currentPath)
    {
      ids', values', roots', currentPath := WalkSegment(ids', values', roots', E, T, prefix, parts, i, currentPath);
    }
  }

  /**
   * updateTree: rebuilds the widget's tree from the folder prefixes. The
   * prefixes are visited in no particular order, so only membership and the
   * absence of duplicates are stated, never the order of siblings.
   */
  method BuildTree(prefixes: set<string>) returns (ids: map<string, seq<string>>, values: map<string, string>)
    ensures ValidTree(prefixes, ids, values)
  {
    ids := map["" := [AllId, RootId]];
    values := map[AllId := AllLabel, RootId := RootLabel];
    var roots: seq<string> := [];
    InitialTreeInv();
    ghost var E, T;
    ids, values, roots, E, T := InsertAll(ids, values, roots, prefixes);
    ids := SetRoots(prefixes, ids, values, roots, E, T);
  }

  /** The links of the prefixes in `order`, entered one prefix after the other. */
  ghost function EdgesOf(order: seq<string>): set<Edge>
  {
    if |order| == 0 then {}
    else EdgesOf(order[..|order| - 1]) + EdgesBelow(order[|order| - 1], |Split(order[|order| - 1])|)
  }

  /** The first segments of the prefixes in `order`. */
  ghost function TopsOf(order: seq<string>): set<string>
  {
    if |order| == 0 then {}
    else TopsOf(order[..|order| - 1]) + {Split(order[|order| - 1])[0]}
  }

  /** Entering the prefixes one by one enters the links and first segments of all of them. */
  lemma {:induction false} EdgesOfAll(order: seq<string>)
    ensures EdgesOf(order) == Edges(Members(order))
    ensures TopsOf(order) == Tops(Members(order))
  {
    if |order| > 0 {
      var init, last := order[..|order| - 1], order[|order| - 1];
      EdgesOfAll(init);
      MembersSnoc(init, last);
      assert order == init + [last];
      EdgesInsert(Members(init), last);
    }
  }

  ghost function Members(order: seq<string>): set<string>
  {
    set q | q in order
  }

  lemma MembersSnoc(order: seq<string>, x: string)
    ensures Members(order + [x]) == Members(order) + {x}
  {
  }

  /** Entering one more prefix adds its links and its first segment. */
  lemma EdgesOfSnoc(order: seq<string>, p: string)
    ensures EdgesOf(order + [p]) == EdgesOf(order) + EdgesBelow(p, |Split(p)|)
    ensures TopsOf(order + [p]) == TopsOf(order) + {Split(p)[0]}
  {
    assert (order + [p])[..|order|] == order;
  }

  /**
   * The outer loop: every prefix, in whatever order the set yields them. The
   * links `E` and first segments `T` entered are returned alongside.
   */
  method InsertAll(ids: map<string, seq<string>>, values: map<string, string>, roots: seq<string>, prefixes: set<string>)
    returns (ids': map<string, seq<string>>, values': map<string, string>, roots': seq<string>,
             ghost E: set<Edge>, ghost T: set<string>)
    requires TreeInv(ids, values, roots, {}, {})
    ensures TreeInv(ids', values', roots', E, T)
    ensures E == Edges(prefixes) && T == Tops(prefixes)
  {
    ids', values', roots' := ids, values, roots;
    var rest := prefixes;
    ghost var order: seq<string> := [];
    while rest != {}
      invariant rest <= prefixes && Members(order) == prefixes - rest
      invariant TreeInv(ids', values', roots', EdgesOf(order), TopsOf(order))
      decreases |rest|
    {
      var p :| p in rest;
      ids', values', roots' := InsertOne(ids', values', roots', order, p);
      MembersStep(prefixes, rest, order, p);
      order := order + [p];
      rest := rest - {p};
    }
    E, T := EdgesOf(order), TopsOf(order);
    OrderCovers(prefixes, order);
  }

  /** Taking `p` out of the prefixes still to enter and appending it to the order keeps the two complementary. */
  lemma MembersStep(prefixes: set<string>, rest: set<string>, order: seq<string>, p: string)
    requires rest <= prefixes && Members(order) == prefixes - rest && p in rest
    ensures Members(order + [p]) == prefixes - (rest - {p})
  {
    MembersSnoc(order, p);
  }

  /** Once every prefix is entered, the links and first segments entered are those of all the prefixes. */
  lemma OrderCovers(prefixes: set<string>, order: seq<string>)
    requires Members(order) == prefixes - {}
    ensures EdgesOf(order) == Edges(prefixes) && TopsOf(order) == Tops(prefixes)
  {
    EdgesOfAll(order);
    assert Members(order) == prefixes;
  }

  /** One pass of the outer loop, stated against the prefixes entered before. */
  method InsertOne(ids: map<string, seq<string>>, values: map<string, string>, roots: seq<string>,
                   ghost order: seq<string>, p: string)
    returns (ids': map<string, seq<string>>, values': map<string, string>, roots': seq<string>)
    requires TreeInv(ids, values, roots, EdgesOf(order), TopsOf(order))
    ensures TreeInv(ids', values', roots', EdgesOf(order + [p]), TopsOf(order + [p]))
  {
    ids', values', roots' := InsertPrefix(ids, values, roots, EdgesOf(order), TopsOf(order), p);
    EdgesOfSnoc(order, p);
  }

  /** The last step: "root" receives the collected first segments as its child list. */
  method SetRoots(ghost prefixes: set<string>, ids: map<string, seq<string>>, values: map<string, string>,
                  roots: seq<string>, ghost E: set<Edge>, ghost T: set<string>) returns (ids': map<string, seq<string>>)
    requires TreeInv(ids, values, roots, E, T)
    requires E == Edges(prefixes) && T == Tops(prefixes)
    ensures ValidTree(prefixes, ids', values)
  {
    FinalTree(prefixes, ids, values, roots);
    ids' := ids[RootId := roots];
  }

  /** The top level lists "all" then "root", then each child of the empty path once. */
  ghost predicate TopLevelListed(prefixes: set<string>, ids: map<string, seq<string>>)
  {
    && "" in ids && |ids[""]| >= 2 && ids[""][..2] == [AllId, RootId]
    && NoDup(ids[""]) && Elems(ids[""][2..]) == Kids(Edges(prefixes), "")
  }

  /** "root" lists each distinct first segment once, and nothing else. */
  ghost predicate RootListed(prefixes: set<string>, ids: map<string, seq<string>>)
  {
    RootId in ids && NoDup(ids[RootId]) && Elems(ids[RootId]) == Tops(prefixes)
  }

  /** The other parents are exactly the nodes with children, each listing them once. */
  ghost predicate ChildrenListed(prefixes: set<string>, ids: map<string, seq<string>>)
  {
    && (forall x :: x in ids <==> x == "" || x == RootId || x in Parents(Edges(prefixes)))
    && (forall x :: x in ids && x != "" && x != RootId ==>
          NoDup(ids[x]) && Elems(ids[x]) == Kids(Edges(prefixes), x))
  }

  /** Every node is labelled with its last segment; "all" and "root" keep their captions unless taken over. */
  ghost predicate NodesLabelled(prefixes: set<string>, values: map<string, string>)
  {
    && (forall n :: n in values <==> n == AllId || n == RootId || n in Nodes(prefixes))
    && (forall n :: n in Nodes(prefixes) && n in values ==> values[n] == Label(n))
    && (AllId !in Tops(prefixes) ==> AllId in values && values[AllId] == AllLabel)
    && (RootId !in Tops(prefixes) ==> RootId in values && values[RootId] == RootLabel)
  }

  /**
   * The tree the widget receives, for the given prefixes: the two fixed top
   * nodes (plus children of the empty path, from folder prefixes that start
   * with '/'), the first segments under "root" (whatever was placed under a
   * folder named "root" is replaced), every cumulative path under its parent,
   * no list with a duplicate, and every node labelled.
   */
  ghost predicate ValidTree(prefixes: set<string>, ids: map<string, seq<string>>, values: map<string, string>)
  {
    TopLevelListed(prefixes, ids) && RootListed(prefixes, ids) && ChildrenListed(prefixes, ids)
    && NodesLabelled(prefixes, values)
  }

  /** The tree updateTree builds from no prefixes: the two fixed nodes, "root" with no children. */
  const EmptyTreeIds: map<string, seq<string>> := map["" := [AllId, RootId], RootId := []]
  const EmptyTreeValues: map<string, string> := map[AllId := AllLabel, RootId := RootLabel]

  lemma EmptyTreeValid()
    ensures ValidTree({}, EmptyTreeIds, EmptyTreeValues)
  {
    var E := Edges({});
    assert E == {};
    assert Tops({}) == {};
    assert Kids(E, "") == {};
    assert Parents(E) == {};
    assert Nodes({}) == {};
    assert EmptyTreeIds[""][2..] == [];
    assert Elems([]) == {};
  }

  /** Replacing the "root" list at the end turns the builder's state into the promised tree. */
  lemma FinalTree(prefixes: set<string>, ids: map<string, seq<string>>, values: map<string, string>, roots: seq<string>)
    requires TreeInv(ids, values, roots, Edges(prefixes), Tops(prefixes))
    ensures ValidTree(prefixes, ids[RootId := roots], values)
  {
    FinalTopLevel(prefixes, ids, roots);
    FinalChildren(prefixes, ids, roots);
    FinalLabels(prefixes, values);
  }

  lemma FinalTopLevel(prefixes: set<string>, ids: map<string, seq<string>>, roots: seq<string>)
    requires IdsInv(ids, Edges(prefixes)) && EdgesSlashed(Edges(prefixes))
    ensures TopLevelListed(prefixes, ids[RootId := roots])
  {
    var E := Edges(prefixes);
    var top := ids[""];
    assert Elems(top) == Kids(E, "") + {AllId, RootId};
    assert top[..2] == [AllId, RootId];
    forall c | c in Elems(top[2..])
      ensures c in Kids(E, "")
    {
      var j :| 0 <= j < |top[2..]| && top[2..][j] == c;
      assert top[j + 2] == c;
    }
    forall c | c in Kids(E, "")
      ensures c in Elems(top[2..])
    {
      assert '/' in c by {
        var e :| e in E && e.parent == "" && e.child == c;
      }
      SlashedNotFixed(c);
      var j :| 0 <= j < |top| && top[j] == c;
      assert j >= 2;
      assert top[2..][j - 2] == c;
    }
  }

  lemma FinalChildren(prefixes: set<string>, ids: map<string, seq<string>>, roots: seq<string>)
    requires IdsInv(ids, Edges(prefixes)) && RootsInv(roots, Tops(prefixes))
    ensures RootListed(prefixes, ids[RootId := roots]) && ChildrenListed(prefixes, ids[RootId := roots])
  {
  }

  lemma FinalLabels(prefixes: set<string>, values: map<string, string>)
    requires ValuesInv(values, Edges(prefixes), Tops(prefixes))
    ensures NodesLabelled(prefixes, values)
  {
  }

  /** Each cumulative path of a prefix is a link from the path one segment shorter, labelled with its segment. */
  lemma CumulativePathIsChild(prefixes: set<string>, p: string, i: int)
    requires p in prefixes && 1 <= i < |Split(p)|
    ensures Edge(Path(p, i - 1), Path(p, i)) in Edges(prefixes)
    ensures Path(p, i) in Kids(Edges(prefixes), Path(p, i - 1))
    ensures Label(Path(p, i)) == Split(p)[i]
  {
    PathStep(p, i);
    assert EdgeAt(p, i) in Edges(prefixes);
  }

  /** Every prefix is itself a node of the tree: its full cumulative path is the prefix. */
  lemma PrefixIsNode(prefixes: set<string>, p: string)
    requires p in prefixes
    ensures p in Nodes(prefixes)
  {
    var k := |Split(p)| - 1;
    LastPath(p);
    if k == 0 {
      FirstPath(p);
      TopIsNode(prefixes, p);
    } else {
      EdgeChild(prefixes, p, k);
    }
  }

  /** The first segment of a prefix is a node of the tree. */
  lemma TopIsNode(prefixes: set<string>, p: string)
    requires p in prefixes
    ensures Split(p)[0] in Nodes(prefixes)
  {
    assert Split(p)[0] in Tops(prefixes);
  }

  /** The deeper end of every link of a prefix is a child in the tree. */
  lemma EdgeChild(prefixes: set<string>, p: string, k: int)
    requires p in prefixes && 1 <= k < |Split(p)|
    ensures Path(p, k) in Nodes(prefixes)
  {
    assert EdgeAt(p, k) in Edges(prefixes);
  }

  /** The cumulative path of all the segments is the prefix itself. */
  lemma LastPath(p: string)
    ensures Path(p, |Split(p)| - 1) == p
  {
    var parts := Split(p);
    JoinSplit(p);
    assert parts[..|parts|] == parts;
  }

  /**
   * The top level is exactly ["all", "root"] iff no folder prefix has an
   * empty first segment followed by more segments: no folder prefix starts
   * with '/', i.e. no key that starts with '/' holds a second '/'.
   */
  lemma TopLevelExactly(prefixes: set<string>, ids: map<string, seq<string>>, values: map<string, string>)
    requires ValidTree(prefixes, ids, values)
    ensures ids[""] == [AllId, RootId] <==> forall p :: p in prefixes ==> Split(p)[0] != "" || |Split(p)| == 1
  {
    var E := Edges(prefixes);
    var top := ids[""];
    assert top == top[..2] + top[2..];
    if exists p :: p in prefixes && Split(p)[0] == "" && |Split(p)| > 1 {
      var p :| p in prefixes && Split(p)[0] == "" && |Split(p)| > 1;
      FirstPath(p);
      assert EdgeAt(p, 1) in E;
      assert Path(p, 1) in Kids(E, "");
      assert top[2..] != [];
    } else {
      forall e | e in E
        ensures e.parent != ""
      {
        var p, i :| p in prefixes && 1 <= i < |Split(p)| && e == EdgeAt(p, i);
        if i == 1 {
          FirstPath(p);
        } else {
          PathStep(p, i - 1);
        }
      }
      assert Kids(E, "") == {};
      EmptyElems(top[2..]);
    }
  }

  lemma EmptyElems(s: seq<string>)
    ensures Elems(s) == {} ==> s == []
  {
    if |s| > 0 {
      assert s[0] in Elems(s);
    }
  }
}
