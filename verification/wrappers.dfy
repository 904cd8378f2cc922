/** Optional values and the two sequence searches the store queries are built from:
    the first row satisfying a condition (the ORM's `.first()`), and all rows
    satisfying it (the ORM's `.all()`). */
module Wrappers {

  /** A value that may be absent, as a nullable column or an unmatched query. */
  datatype Option<+T> = None | Some(value: T) {

    /** The stored value, or `default` when absent. */
    function GetOr(default: T): T {
      match this
      case Some(v) => v
      case None => default
    }
  }

  /** Index of the first element of `s` that satisfies `p`, if any. */
  function FirstIndex<T>(s: seq<T>, p: T -> bool): (r: Option<nat>)
    ensures r.Some? ==> r.value < |s| && p(s[r.value])
    ensures r.Some? ==> forall j :: 0 <= j < r.value ==> !p(s[j])
    ensures r.None? ==> forall j :: 0 <= j < |s| ==> !p(s[j])
    decreases |s|
  {
    if |s| == 0 then None
    else if p(s[0]) then Some(0)
    else
      match FirstIndex(s[1..], p)
      case None => None
      case Some(k) => Some(k + 1)
  }

  /** Two sequences of one length whose elements satisfy `p` at the same
      positions have the same first match. */
  lemma FirstIndexSamePattern<T>(s: seq<T>, t: seq<T>, p: T -> bool)
    requires |s| == |t|
    requires forall i :: 0 <= i < |s| ==> p(s[i]) == p(t[i])
    ensures FirstIndex(s, p) == FirstIndex(t, p)
  {
  }

  /** Appending an element does not move an existing first match; without one,
      the appended element is the first match exactly when it satisfies `p`. */
  lemma {:induction false} FirstIndexAppend<T>(s: seq<T>, x: T, p: T -> bool)
    ensures FirstIndex(s, p).Some? ==> FirstIndex(s + [x], p) == FirstIndex(s, p)
    ensures FirstIndex(s, p).None? ==>
              FirstIndex(s + [x], p) == (if p(x) then Some(|s|) else None)
    decreases |s|
  {
    if |s| == 0 {
      assert s + [x] == [x];
    } else {
      assert (s + [x])[0] == s[0];
      assert (s + [x])[1..] == s[1..] + [x];
      FirstIndexAppend(s[1..], x, p);
    }
  }

  /** The first element of `s` that satisfies `p`, if any. */
  function First<T>(s: seq<T>, p: T -> bool): (r: Option<T>)
    ensures r.Some? <==> exists j :: 0 <= j < |s| && p(s[j])
    ensures r.Some? ==> r.value in s && p(r.value)
  {
    match FirstIndex(s, p)
    case None => None
    case Some(k) => Some(s[k])
  }

  /** The first element satisfying `p` of a sequence with one more element
      appended, when nothing before it satisfies `p`. */
  lemma FirstOfAppended<T>(s: seq<T>, x: T, p: T -> bool)
    requires forall i :: 0 <= i < |s| ==> !p(s[i])
    requires p(x)
    ensures First(s + [x], p) == Some(x)
  {
    FirstIndexAppend(s, x, p);
    assert (s + [x])[|s|] == x;
  }

  /** The least position in [from, to) at which `f` finds something, with
      what it found: the scan `re.search` performs over start positions. */
  function Leftmost<T>(from: nat, to: nat, f: nat -> Option<T>): (r: Option<(nat, T)>)
    requires from <= to
    ensures r.Some? ==> from <= r.value.0 < to && f(r.value.0) == Some(r.value.1)
    ensures r.Some? ==> forall j :: from <= j < r.value.0 ==> f(j).None?
    ensures r.None? ==> (forall j :: from <= j < to ==> f(j).None?)
    decreases (to as int) - (from as int)
  {
    if from == to then None
    else
      match f(from)
      case Some(x) => Some((from, x))
      case None => Leftmost(from + 1, to, f)
  }

  /** Python's `x or fallback` on an optional text: `None` and `""` are falsy. */
  function OrElse(x: Option<string>, fallback: string): (r: string)
    ensures x.Some? && x.value != "" ==> r == x.value
    ensures x.None? || x.value == "" ==> r == fallback
    ensures r == "" ==> fallback == ""
  {
    if x.Some? && x.value != "" then x.value else fallback
  }

  /** The elements of `s` that satisfy `p`, in their original order. */
  function Filter<T>(s: seq<T>, p: T -> bool): (r: seq<T>)
    ensures |r| <= |s|
    ensures forall i :: 0 <= i < |r| ==> r[i] in s && p(r[i])
    ensures forall i :: 0 <= i < |s| && p(s[i]) ==> s[i] in r
    decreases |s|
  {
    if |s| == 0 then []
    else (if p(s[0]) then [s[0]] else []) + Filter(s[1..], p)
  }

  /** `r` holds every element of `s` that satisfies `p`, as often as `s`
      does, and nothing else: a selection, up to order. */
  ghost predicate Selects<T(!new)>(r: seq<T>, s: seq<T>, p: T -> bool) {
    forall x :: multiset(r)[x] == if p(x) then multiset(s)[x] else 0
  }

  /** A selection from a selection is a selection by both conditions. */
  lemma SelectsTwice<T(!new)>(r: seq<T>, m: seq<T>, s: seq<T>, p: T -> bool, q: T -> bool)
    requires Selects(m, s, p) && Selects(r, m, q)
    ensures Selects(r, s, x => p(x) && q(x))
  {
    forall x
      ensures multiset(r)[x] == if p(x) && q(x) then multiset(s)[x] else 0
    {
      assert multiset(r)[x] == if q(x) then multiset(m)[x] else 0;
    }
  }

  /** Filtering keeps every element that satisfies `p` as often as it occurs,
      and drops every other one. */
  lemma {:induction false} FilterMultiset<T(!new)>(s: seq<T>, p: T -> bool)
    ensures Selects(Filter(s, p), s, p)
    decreases |s|
  {
    if |s| > 0 {
      FilterMultiset(s[1..], p);
      assert s == [s[0]] + s[1..];
      var head := if p(s[0]) then [s[0]] else [];
      assert multiset(Filter(s, p)) == multiset(head) + multiset(Filter(s[1..], p));
      assert multiset(s) == multiset([s[0]]) + multiset(s[1..]);
    }
  }

  /** Filtering by two conditions that never hold together keeps at most as
      many elements as there are: the two counts add up to no more than |s|. */
  lemma {:induction false} FilterDisjointCounts<T>(s: seq<T>, p: T -> bool, q: T -> bool)
    requires forall x :: p(x) ==> !q(x)
    ensures |Filter(s, p)| + |Filter(s, q)| <= |s|
    decreases |s|
  {
    if |s| > 0 {
      FilterDisjointCounts(s[1..], p, q);
    }
  }

  /** Filtering twice is filtering once by the conjunction. */
  lemma {:induction false} FilterTwice<T>(s: seq<T>, p: T -> bool, q: T -> bool)
    ensures Filter(Filter(s, p), q) == Filter(s, x => p(x) && q(x))
    decreases |s|
  {
    if |s| > 0 {
      FilterTwice(s[1..], p, q);
      var t := Filter(s[1..], p);
      if p(s[0]) {
        assert Filter(s, p) == [s[0]] + t;
        assert ([s[0]] + t)[1..] == t;
      } else {
        assert Filter(s, p) == t;
      }
    }
  }

  /** Appending a row adds one to the count exactly when the row matches. */
  lemma {:induction false} FilterAppend<T>(s: seq<T>, x: T, p: T -> bool)
    ensures Filter(s + [x], p) == Filter(s, p) + (if p(x) then [x] else [])
    decreases |s|
  {
    if |s| == 0 {
      assert s + [x] == [x];
    } else {
      assert (s + [x])[1..] == s[1..] + [x];
      FilterAppend(s[1..], x, p);
    }
  }

  /** Filtering by two conditions that agree on every element of `s` gives the same rows. */
  lemma {:induction false} FilterSame<T>(s: seq<T>, p: T -> bool, q: T -> bool)
    requires forall i :: 0 <= i < |s| ==> p(s[i]) == q(s[i])
    ensures Filter(s, p) == Filter(s, q)
    decreases |s|
  {
    if |s| > 0 {
      FilterSame(s[1..], p, q);
    }
  }

  /** An id larger than every id in use: SERIAL columns start at 1 and grow. */
  function FreshId<T>(rows: seq<T>, id: T -> nat): (n: nat)
    ensures n >= 1
    ensures forall i :: 0 <= i < |rows| ==> id(rows[i]) < n
    decreases |rows|
  {
    if |rows| == 0 then 1
    else
      var rest := FreshId(rows[..|rows| - 1], id);
      var last := id(rows[|rows| - 1]) + 1;
      if rest < last then last else rest
  }
}
