/** List operations shared by the editor components: dropping one index
    (`list.filter((_, i) => i !== index)`), finding the first match (`findIndex`,
    `indexOf`) and dnd-kit's `arrayMove`, which takes the element out at one index
    and puts it back in at another. */
module Sequences {
  import opened Wrappers

  /** `s.filter((_, k) => k !== i)`: every element except the one at index `i`;
      an index outside the list drops nothing. */
  function WithoutIndex<T>(s: seq<T>, i: int): (r: seq<T>)
    ensures 0 <= i < |s| ==> r == s[..i] + s[i + 1..]
    ensures !(0 <= i < |s|) ==> r == s
    decreases |s|
  {
    if s == [] then []
    else (if i == 0 then [] else [s[0]]) + WithoutIndex(s[1..], i - 1)
  }

  /** `s.splice(k, 0, x)` on a copy: `x` inserted before index `k`. */
  function InsertAt<T>(s: seq<T>, k: nat, x: T): (r: seq<T>)
    requires k <= |s|
    ensures |r| == |s| + 1 && r[k] == x
    ensures r[..k] == s[..k] && r[k + 1..] == s[k..]
  {
    s[..k] + [x] + s[k..]
  }

  /** dnd-kit's `arrayMove(s, from, to)`: the element at `from` taken out and put back
      in so that it ends up at index `to`; the others keep their relative order and
      nothing is lost or duplicated. */
  function ArrayMove<T>(s: seq<T>, from: nat, to: nat): (r: seq<T>)
    requires from < |s| && to < |s|
    ensures |r| == |s|
    ensures r[to] == s[from]
    ensures WithoutIndex(r, to) == WithoutIndex(s, from)
    ensures multiset(r) == multiset(s)
  {
    var rest := WithoutIndex(s, from);
    var r := InsertAt(rest, to, s[from]);
    InsertRemoveAt(rest, to, s[from]);
    InsertedMultiset(rest, to, s[from]);
    RemovedMultiset(s, from);
    r
  }

  /** Dropping an index removes exactly one occurrence of the element there. */
  lemma RemovedMultiset<T>(s: seq<T>, k: nat)
    requires k < |s|
    ensures multiset(WithoutIndex(s, k)) + multiset{s[k]} == multiset(s)
  {
    SplitAt(s, k);
    MultisetOfSplit(s[..k], s[k], s[k + 1..]);
  }

  lemma SplitAt<T>(s: seq<T>, k: nat)
    requires k < |s|
    ensures s == s[..k] + [s[k]] + s[k + 1..]
  {
  }

  lemma MultisetOfSplit<T>(a: seq<T>, x: T, b: seq<T>)
    ensures multiset(a + [x] + b) == multiset(a + b) + multiset{x}
  {
  }

  /** Taking back out what was inserted gives the list it was inserted into. */
  lemma InsertRemoveAt<T>(s: seq<T>, k: nat, x: T)
    requires k <= |s|
    ensures WithoutIndex(InsertAt(s, k, x), k) == s
  {
    var r := InsertAt(s, k, x);
    assert r[..k] + r[k + 1..] == s[..k] + s[k..];
    assert s[..k] + s[k..] == s;
  }

  /** Inserting adds exactly one occurrence of the inserted element. */
  lemma InsertedMultiset<T>(s: seq<T>, k: nat, x: T)
    requires k <= |s|
    ensures multiset(InsertAt(s, k, x)) == multiset(s) + multiset{x}
  {
    assert s == s[..k] + s[k..];
  }

  /** `s.findIndex(p)`: the first index whose element satisfies `p`, if any. */
  function FindIndex<T>(s: seq<T>, p: T -> bool): (r: int)
    ensures -1 <= r < |s|
    ensures r >= 0 ==> p(s[r]) && forall k :: 0 <= k < r ==> !p(s[k])
    ensures r == -1 ==> forall k :: 0 <= k < |s| ==> !p(s[k])
  {
    if s == [] then -1
    else if p(s[0]) then 0
    else
      var r := FindIndex(s[1..], p);
      if r == -1 then -1 else r + 1
  }

  /** `s.filter(p)`: the elements satisfying `p`, in their original order. */
  function Filter<T(!new)>(s: seq<T>, p: T -> bool): (r: seq<T>)
    ensures |r| <= |s|
    ensures forall x :: x in r <==> x in s && p(x)
    decreases |s|
  {
    if s == [] then [] else (if p(s[0]) then [s[0]] else []) + Filter(s[1..], p)
  }

  /** Filtering keeps order: the survivors of a front part come before those of a back part. */
  lemma {:induction false} FilterConcat<T(!new)>(a: seq<T>, b: seq<T>, p: T -> bool)
    ensures Filter(a + b, p) == Filter(a, p) + Filter(b, p)
    decreases |a|
  {
    if a != [] {
      assert (a + b)[1..] == a[1..] + b;
      FilterConcat(a[1..], b, p);
    } else {
      assert a + b == b;
    }
  }

  /** A passing element keeps its place among the survivors: it comes out after exactly
      the survivors of the elements before it. */
  lemma FilterAt<T(!new)>(s: seq<T>, p: T -> bool, i: nat)
    requires i < |s| && p(s[i])
    ensures |Filter(s[..i], p)| < |Filter(s, p)|
    ensures Filter(s, p)[|Filter(s[..i], p)|] == s[i]
  {
    SplitAt(s, i);
    FilterAround(s[..i], s[i], s[i + 1..], p);
  }

  /** Survivors keep their order: a passing element at `i` has fewer survivors before it
      than any later element at `j`. */
  lemma FilterKeepsOrder<T(!new)>(s: seq<T>, p: T -> bool, i: nat, j: nat)
    requires i < j <= |s| && p(s[i])
    ensures |Filter(s[..i], p)| < |Filter(s[..j], p)|
  {
    assert s[..j] == s[..i] + s[i..j];
    FilterConcat(s[..i], s[i..j], p);
    assert s[i] in s[i..j];
  }

  /** Two passing elements come out of the filter in the order they went in. */
  lemma FilterOrder<T(!new)>(s: seq<T>, p: T -> bool, i: nat, j: nat)
    requires i < j < |s| && p(s[i]) && p(s[j])
    ensures exists a, b :: 0 <= a < b < |Filter(s, p)| && Filter(s, p)[a] == s[i] && Filter(s, p)[b] == s[j]
  {
    FilterAt(s, p, i);
    FilterAt(s, p, j);
    FilterKeepsOrder(s, p, i, j);
    var a, b := |Filter(s[..i], p)|, |Filter(s[..j], p)|;
    assert 0 <= a < b < |Filter(s, p)| && Filter(s, p)[a] == s[i] && Filter(s, p)[b] == s[j];
  }

  /** A passing element between two parts stays between their survivors. */
  lemma FilterAround<T(!new)>(a: seq<T>, x: T, b: seq<T>, p: T -> bool)
    requires p(x)
    ensures Filter(a + [x] + b, p) == Filter(a, p) + [x] + Filter(b, p)
  {
    FilterConcat(a + [x], b, p);
    FilterConcat(a, [x], p);
    assert [x][1..] == [];
  }

  /** Filtering keeps every passing element as often as it occurs, and no other. */
  lemma {:induction false} FilterMultiset<T(!new)>(s: seq<T>, p: T -> bool, x: T)
    ensures multiset(Filter(s, p))[x] == if p(x) then multiset(s)[x] else 0
    decreases |s|
  {
    if s != [] {
      FilterMultiset(s[1..], p, x);
      assert s == [s[0]] + s[1..];
    }
  }

  /** `i` is `s.indexOf(x)`: the first index holding `x`. */
  predicate IsFirstIndex<T(==)>(s: seq<T>, x: T, i: int)
  {
    0 <= i < |s| && s[i] == x && forall j :: 0 <= j < i ==> s[j] != x
  }

  /** `s.indexOf(x)` names one index only. */
  lemma FirstIndexUnique<T>(s: seq<T>, x: T, i: int)
    requires IsFirstIndex(s, x, i)
    ensures forall k :: IsFirstIndex(s, x, k) ==> k == i
  {
  }

  /** The first `Some` that `f` gives over `s`, in order; `None` when every element gives
      `None` (a loop that stops at the first failure). */
  function FirstSome<T, U>(s: seq<T>, f: T -> Option<U>): (r: Option<U>)
    ensures r.None? <==> forall i :: 0 <= i < |s| ==> f(s[i]).None?
  {
    if s == [] then None
    else if f(s[0]).Some? then f(s[0])
    else FirstSome(s[1..], f)
  }

  /** A `Some` found is that of an element all of whose predecessors gave `None`. */
  lemma {:induction false} FirstSomeIsFirst<T, U>(s: seq<T>, f: T -> Option<U>)
    requires FirstSome(s, f).Some?
    ensures exists i :: 0 <= i < |s| && FirstSome(s, f) == f(s[i]) && forall j :: 0 <= j < i ==> f(s[j]).None?
  {
    if f(s[0]).None? {
      FirstSomeIsFirst(s[1..], f);
      var t :| 0 <= t < |s[1..]| && FirstSome(s[1..], f) == f(s[1..][t]) && forall j :: 0 <= j < t ==> f(s[1..][j]).None?;
      assert s[t + 1] == s[1..][t];
      assert forall j :: 1 <= j < t + 1 ==> s[j] == s[1..][j - 1];
    } else {
      assert FirstSome(s, f) == f(s[0]);
    }
  }
}
