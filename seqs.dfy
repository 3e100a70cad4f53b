/** Sequence helpers standing for SQL `where` clauses over a table kept in insertion order. */
module Seqs {
  import opened Wrappers

  /** The rows satisfying `p`, in their original order. */
  function Filter<T>(s: seq<T>, p: T -> bool): (r: seq<T>)
    ensures |r| <= |s|
    ensures forall i :: 0 <= i < |r| ==> r[i] in s && p(r[i])
    ensures forall i :: 0 <= i < |s| && p(s[i]) ==> s[i] in r
  {
    if s == [] then []
    else
      var rest := Filter(s[..|s| - 1], p);
      if p(s[|s| - 1]) then rest + [s[|s| - 1]] else rest
  }

  lemma {:induction false} FilterAppend<T>(a: seq<T>, b: seq<T>, p: T -> bool)
    ensures Filter(a + b, p) == Filter(a, p) + Filter(b, p)
  {
    if b != [] {
      var init := b[..|b| - 1];
      assert (a + b)[..|a + b| - 1] == a + init;
      assert (a + b)[|a + b| - 1] == b[|b| - 1];
      FilterAppend(a, init, p);
    } else {
      assert a + b == a;
    }
  }

  /** A filter that every row passes keeps the sequence whole. */
  lemma {:induction false} FilterAll<T>(s: seq<T>, p: T -> bool)
    requires forall i :: 0 <= i < |s| ==> p(s[i])
    ensures Filter(s, p) == s
  {
    if s != [] {
      FilterAll(s[..|s| - 1], p);
      assert s[..|s| - 1] + [s[|s| - 1]] == s;
    }
  }

  /** A filter that no row passes leaves nothing. */
  lemma {:induction false} FilterNone<T>(s: seq<T>, p: T -> bool)
    requires forall i :: 0 <= i < |s| ==> !p(s[i])
    ensures Filter(s, p) == []
  {
    if s != [] {
      FilterNone(s[..|s| - 1], p);
    }
  }

  /** The index of the first row satisfying `p` (`fetchone()` of a query). */
  function FirstIndex<T>(s: seq<T>, p: T -> bool): (r: Option<nat>)
    ensures r.Some? ==> r.value < |s| && p(s[r.value]) && forall j :: 0 <= j < r.value ==> !p(s[j])
    ensures r.None? <==> forall j :: 0 <= j < |s| ==> !p(s[j])
  {
    if s == [] then None
    else if p(s[0]) then Some(0)
    else match FirstIndex(s[1..], p)
      case None => None
      case Some(k) => Some(k + 1)
  }

  /** A row that satisfies `p` after rows that do not is the first match. */
  lemma FirstIndexAt<T>(s: seq<T>, p: T -> bool, k: nat)
    requires k < |s| && p(s[k])
    requires forall j :: 0 <= j < k ==> !p(s[j])
    ensures FirstIndex(s, p) == Some(k)
  {
    var r := FirstIndex(s, p);
    assert r.Some? && r.value <= k by {
      assert p(s[k]);
    }
  }

  /** The index of the last row satisfying `p`. */
  function LastIndex<T>(s: seq<T>, p: T -> bool): (r: Option<nat>)
    ensures r.Some? ==> r.value < |s| && p(s[r.value]) && forall j :: r.value < j < |s| ==> !p(s[j])
    ensures r.None? <==> forall j :: 0 <= j < |s| ==> !p(s[j])
  {
    if s == [] then None
    else if p(s[|s| - 1]) then Some(|s| - 1)
    else LastIndex(s[..|s| - 1], p)
  }

  /** A row that satisfies `p` before rows that do not is the last match. */
  lemma LastIndexAt<T>(s: seq<T>, p: T -> bool, k: nat)
    requires k < |s| && p(s[k])
    requires forall j :: k < j < |s| ==> !p(s[j])
    ensures LastIndex(s, p) == Some(k)
  {
    var r := LastIndex(s, p);
    assert r.Some? && r.value >= k by {
      assert p(s[k]);
    }
  }

  /** Filtering a sequence from the front: the first row, if it passes, then the filtered rest. */
  lemma FilterCons<T>(x: T, s: seq<T>, p: T -> bool)
    ensures Filter([x] + s, p) == (if p(x) then [x] else []) + Filter(s, p)
  {
    FilterAppend([x], s, p);
    assert Filter([x], p) == Filter([], p) + (if p(x) then [x] else []);
  }
}
