/** An optional value: Go's nil pointers and "value, ok" pairs. */
module Optional {

  datatype Option<+T> = None | Some(value: T)
}

/**
 * The handful of Go `strings` and `unicode` functions that the object browser
 * leans on, over Dafny strings (sequences of Unicode scalar values).
 * Case folding is ASCII only; see README.
 */
module Text {

  /** strings.HasPrefix */
  predicate HasPrefix(s: string, prefix: string)
  {
    |prefix| <= |s| && s[..|prefix|] == prefix
  }

  /** strings.Contains: `sub` occurs as a contiguous run of `s`. */
  predicate ContainsSubstring(s: string, sub: string)
    decreases |s|
  {
    HasPrefix(s, sub) || (|s| > 0 && ContainsSubstring(s[1..], sub))
  }

  /** `sub` occurs in `s` starting at offset `i`. */
  predicate OccursAt(s: string, sub: string, i: int)
  {
    0 <= i <= |s| - |sub| && s[i..i + |sub|] == sub
  }

  /** The recursive definition agrees with "occurs at some offset", in both directions. */
  lemma {:induction false} ContainsSubstringAt(s: string, sub: string)
    ensures ContainsSubstring(s, sub) <==> exists i :: OccursAt(s, sub, i)
    decreases |s|
  {
    if HasPrefix(s, sub) {
      assert OccursAt(s, sub, 0);
    } else if |s| > 0 {
      ContainsSubstringAt(s[1..], sub);
      if exists i :: OccursAt(s, sub, i) {
        var i :| OccursAt(s, sub, i);
        if i != 0 {
          assert OccursAt(s[1..], sub, i - 1);
        }
      }
      if exists j :: OccursAt(s[1..], sub, j) {
        var j :| OccursAt(s[1..], sub, j);
        assert OccursAt(s, sub, j + 1);
      }
    }
  }

  /** Every string contains the empty string. */
  lemma ContainsEmpty(s: string)
    ensures ContainsSubstring(s, "")
  {
  }

  /** ASCII case folding of one character (the Unicode rest of strings.ToLower is not modelled). */
  function LowerChar(c: char): char
  {
    if 'A' <= c <= 'Z' then (c as int + 32) as char else c
  }

  /** strings.ToLower, ASCII letters only. */
  function ToLower(s: string): (r: string)
    ensures |r| == |s|
    ensures forall i :: 0 <= i < |s| ==> r[i] == LowerChar(s[i])
  {
    seq(|s|, i requires 0 <= i < |s| => LowerChar(s[i]))
  }

  /** strings.LastIndex(s, string(c)): the last position of `c`, or -1. */
  function LastIndexOf(s: string, c: char): (r: int)
    ensures -1 <= r < |s|
    ensures r == -1 <==> c !in s
    ensures 0 <= r ==> s[r] == c && c !in s[r + 1..]
    decreases |s|
  {
    if |s| == 0 then -1
    else if s[|s| - 1] == c then |s| - 1
    else
      assert s == s[..|s| - 1] + [s[|s| - 1]];
      LastIndexOf(s[..|s| - 1], c)
  }

  lemma LastIndexOfAppend(a: string, b: string)
    requires '/' !in b
    ensures LastIndexOf(a + "/" + b, '/') == |a|
  {
    var s := a + "/" + b;
    var r := LastIndexOf(s, '/');
    assert s[|a|] == '/';
  }

  /** strings.Split(s, "/"): the '/'-free pieces of `s`, left to right. */
  function Split(s: string): (parts: seq<string>)
    ensures |parts| >= 1
    ensures forall i :: 0 <= i < |parts| ==> '/' !in parts[i]
    decreases |s|
  {
    var k := LastIndexOf(s, '/');
    if k == -1 then [s] else Split(s[..k]) + [s[k + 1..]]
  }

  /** strings.Join(parts, "/") for a non-empty list. */
  function Join(parts: seq<string>): string
    requires |parts| >= 1
  {
    if |parts| == 1 then parts[0]
    else Join(parts[..|parts| - 1]) + "/" + parts[|parts| - 1]
  }

  /** Joining the pieces of a split gives the input back. */
  lemma {:induction false} JoinSplit(s: string)
    ensures Join(Split(s)) == s
    decreases |s|
  {
    var k := LastIndexOf(s, '/');
    if k != -1 {
      JoinSplit(s[..k]);
      JoinSplitStep(s, k);
    }
  }

  /** The inductive step of JoinSplit: the split of `s` is that of the text before its last '/', plus the rest. */
  lemma JoinSplitStep(s: string, k: int)
    requires k == LastIndexOf(s, '/') && k != -1
    requires Join(Split(s[..k])) == s[..k]
    ensures Join(Split(s)) == s
  {
    var head, tail := s[..k], s[k + 1..];
    var parts := Split(s);
    assert parts == Split(head) + [tail];
    assert parts[..|parts| - 1] == Split(head);
    SplitAround(s, k);
  }

  /** A string is the text before position `k`, the character there, and the text after. */
  lemma SplitAround(s: string, k: int)
    requires 0 <= k < |s|
    ensures s == s[..k] + [s[k]] + s[k + 1..]
  {
  }

  /** Splitting a join of '/'-free pieces gives the pieces back: the decomposition is unique. */
  lemma InitThenLast<T>(s: seq<T>)
    requires |s| >= 1
    ensures s[..|s| - 1] + [s[|s| - 1]] == s
  {
  }

  lemma {:induction false} SplitJoin(parts: seq<string>)
    requires |parts| >= 1
    requires forall i :: 0 <= i < |parts| ==> '/' !in parts[i]
    ensures Split(Join(parts)) == parts
  {
    if |parts| > 1 {
      var init := parts[..|parts| - 1];
      var last := parts[|parts| - 1];
      SplitJoin(init);
      SplitOfChild(Join(init), last);
      InitThenLast(parts);
    } else {
      assert LastIndexOf(parts[0], '/') == -1;
    }
  }

  /** Appending "/" and a '/'-free piece appends that piece to the split. */
  lemma SplitOfChild(head: string, last: string)
    requires '/' !in last
    ensures Split(head + "/" + last) == Split(head) + [last]
  {
    var s := head + "/" + last;
    LastIndexOfAppend(head, last);
    assert s[..|head|] == head;
    assert s[|head| + 1..] == last;
  }

  /** The cumulative path made of the first `n` pieces. */
  lemma JoinStep(parts: seq<string>, n: nat)
    requires 2 <= n <= |parts|
    ensures Join(parts[..n]) == Join(parts[..n - 1]) + "/" + parts[n - 1]
  {
    assert parts[..n][..n - 1] == parts[..n - 1];
  }

  /** Joining one more '/'-free part appends "/" and the part, which is then the label. */
  lemma JoinedChild(parts: seq<string>, i: int)
    requires 1 <= i < |parts| && '/' !in parts[i]
    ensures Join(parts[..i + 1]) == Join(parts[..i]) + "/" + parts[i]
    ensures '/' in Join(parts[..i + 1])
    ensures Label(Join(parts[..i + 1])) == parts[i]
  {
    JoinStep(parts, i + 1);
    LabelOfChild(Join(parts[..i]), parts[i]);
  }

  /** The text after the last '/', i.e. the last segment of a path (the whole string when it has no '/'). */
  function Label(path: string): string
  {
    path[LastIndexOf(path, '/') + 1..]
  }

  lemma LabelOfSegment(part: string)
    requires '/' !in part
    ensures Label(part) == part
  {
  }

  lemma LabelOfChild(parent: string, part: string)
    requires '/' !in part
    ensures Label(parent + "/" + part) == part
    ensures '/' in parent + "/" + part
  {
    LastIndexOfAppend(parent, part);
    assert (parent + "/" + part)[|parent|] == '/';
  }

  /** strings.ReplaceAll(s, "/", "_") */
  function ReplaceSlashes(s: string): (r: string)
    ensures |r| == |s| && '/' !in r
    ensures forall i :: 0 <= i < |s| && s[i] != '/' ==> r[i] == s[i]
    ensures forall i :: 0 <= i < |s| && s[i] == '/' ==> r[i] == '_'
  {
    seq(|s|, i requires 0 <= i < |s| => if s[i] == '/' then '_' else s[i])
  }

  /** unicode.IsSpace: the Latin-1 spaces and the White_Space characters above U+00FF. */
  predicate IsSpace(c: char)
  {
    c == '\t' || c == '\n' || c == '\U{000B}' || c == '\U{000C}' || c == '\r' || c == ' ' ||
    c == '\U{0085}' || c == '\U{00A0}' || c == '\U{1680}' ||
    ('\U{2000}' <= c <= '\U{200A}') || c == '\U{2028}' || c == '\U{2029}' ||
    c == '\U{202F}' || c == '\U{205F}' || c == '\U{3000}'
  }

  function TrimLeadingSpace(s: string): (r: string)
    ensures |r| <= |s|
  {
    if |s| > 0 && IsSpace(s[0]) then TrimLeadingSpace(s[1..]) else s
  }

  /** Trimming the front drops exactly the leading run of spaces. */
  lemma {:induction false} TrimLeadingSpaceDrops(s: string)
    ensures var r := TrimLeadingSpace(s);
      && r == s[|s| - |r|..]
      && (forall i :: 0 <= i < |s| - |r| ==> IsSpace(s[i]))
      && (|r| == 0 || !IsSpace(r[0]))
  {
    if |s| > 0 && IsSpace(s[0]) {
      TrimLeadingSpaceDrops(s[1..]);
    }
  }

  function TrimTrailingSpace(s: string): (r: string)
    ensures |r| <= |s|
  {
    if |s| > 0 && IsSpace(s[|s| - 1]) then TrimTrailingSpace(s[..|s| - 1]) else s
  }

  /** Trimming the back drops exactly the trailing run of spaces. */
  lemma {:induction false} TrimTrailingSpaceDrops(s: string)
    ensures var r := TrimTrailingSpace(s);
      && r == s[..|r|]
      && (forall i :: |r| <= i < |s| ==> IsSpace(s[i]))
      && (|r| == 0 || !IsSpace(r[|r| - 1]))
  {
    if |s| > 0 && IsSpace(s[|s| - 1]) {
      TrimTrailingSpaceDrops(s[..|s| - 1]);
    }
  }

  /** strings.TrimSpace */
  function TrimSpace(s: string): string
  {
    TrimTrailingSpace(TrimLeadingSpace(s))
  }

  /** strings.TrimLeft(s, "/"): drops every leading '/'. */
  function TrimLeftSlashes(s: string): (r: string)
    ensures |r| <= |s|
  {
    if |s| > 0 && s[0] == '/' then TrimLeftSlashes(s[1..]) else s
  }

  /** Trimming drops exactly the leading run of '/'. */
  lemma {:induction false} TrimLeftSlashesDrops(s: string)
    ensures var r := TrimLeftSlashes(s);
      && r == s[|s| - |r|..]
      && (forall i :: 0 <= i < |s| - |r| ==> s[i] == '/')
      && (|r| == 0 || r[0] != '/')
  {
    if |s| > 0 && s[0] == '/' {
      TrimLeftSlashesDrops(s[1..]);
    }
  }

  /**
   * The order in which the object store lists keys: lexicographic by
   * character code, a proper prefix first (UTF-8 byte order equals code-point order).
   */
  predicate KeyLess(a: string, b: string)
    decreases |a|
  {
    if |a| == 0 then |b| > 0
    else |b| > 0 && (if a[0] == b[0] then KeyLess(a[1..], b[1..]) else a[0] < b[0])
  }

  lemma {:induction false} KeyLessIrreflexive(a: string)
    ensures !KeyLess(a, a)
    decreases |a|
  {
    if |a| > 0 {
      KeyLessIrreflexive(a[1..]);
    }
  }

  lemma {:induction false} KeyLessAsymmetric(a: string, b: string)
    requires KeyLess(a, b)
    ensures !KeyLess(b, a)
    decreases |a|
  {
    if |a| > 0 && a[0] == b[0] {
      KeyLessAsymmetric(a[1..], b[1..]);
    }
  }

  lemma {:induction false} KeyLessTransitive(a: string, b: string, c: string)
    requires KeyLess(a, b) && KeyLess(b, c)
    ensures KeyLess(a, c)
    decreases |a|
  {
    if |a| > 0 && a[0] == b[0] && b[0] == c[0] {
      KeyLessTransitive(a[1..], b[1..], c[1..]);
    }
  }

  lemma {:induction false} KeyLessTotal(a: string, b: string)
    ensures a == b || KeyLess(a, b) || KeyLess(b, a)
    decreases |a|
  {
    if |a| > 0 && |b| > 0 && a[0] == b[0] {
      KeyLessTotal(a[1..], b[1..]);
      if a[1..] == b[1..] {
        assert a == [a[0]] + a[1..] && b == [b[0]] + b[1..];
      }
    }
  }
}
