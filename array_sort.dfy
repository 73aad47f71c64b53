/**
 * Array.prototype.sort(compare) as both React panels use it: the array is
 * reordered in place, and `compare(x, y) > 0` means y goes before x. The
 * sort here is an insertion sort that swaps neighbours only when the
 * comparison is positive; its result is `InsertionSorted`, which is stable
 * (`InsertionSortedStable`): elements that tie keep their input order.
 *
 * A comparator may be inconsistent (NaN differences count as 0, so they
 * tie with everything); then no sort orders more than neighbour pairs.
 * Where the comparator is transitive on the elements, neighbour order is
 * full order.
 */
module ArraySort {

  /** A positive comparison read the other way round is negative. */
  ghost predicate Antisymmetric<T(!new)>(compare: (T, T) -> real) {
    forall x, y :: compare(x, y) > 0.0 ==> compare(y, x) < 0.0
  }

  /** Every pair of neighbours is in order. */
  ghost predicate AdjacentOrdered<T>(s: seq<T>, compare: (T, T) -> real) {
    forall i, j :: 0 <= i && j == i + 1 && j < |s| ==> compare(s[i], s[j]) <= 0.0
  }

  /** Every pair is in order. */
  ghost predicate Sorted<T>(s: seq<T>, compare: (T, T) -> real) {
    forall i, j :: 0 <= i < j < |s| ==> compare(s[i], s[j]) <= 0.0
  }

  /** "In order" is transitive among the elements of s. */
  ghost predicate TransitiveOn<T>(s: seq<T>, compare: (T, T) -> real) {
    forall i, j, k ::
      0 <= i < |s| && 0 <= j < |s| && 0 <= k < |s| && compare(s[i], s[j]) <= 0.0 && compare(s[j], s[k]) <= 0.0
      ==> compare(s[i], s[k]) <= 0.0
  }

  /** With a transitive order, neighbours in order means the whole sequence is in order. */
  lemma {:induction false} AdjacentOrderedSorted<T>(s: seq<T>, compare: (T, T) -> real)
    requires AdjacentOrdered(s, compare)
    requires TransitiveOn(s, compare)
    ensures Sorted(s, compare)
  {
    if |s| > 1 {
      var init := s[..|s| - 1];
      assert AdjacentOrdered(init, compare) by {
        forall i, j | 0 <= i && j == i + 1 && j < |init|
          ensures compare(init[i], init[j]) <= 0.0
        {
          assert init[i] == s[i] && init[j] == s[j];
        }
      }
      assert TransitiveOn(init, compare) by {
        forall i, j, k | 0 <= i < |init| && 0 <= j < |init| && 0 <= k < |init| &&
          compare(init[i], init[j]) <= 0.0 && compare(init[j], init[k]) <= 0.0
          ensures compare(init[i], init[k]) <= 0.0
        {
          assert init[i] == s[i] && init[j] == s[j] && init[k] == s[k];
        }
      }
      AdjacentOrderedSorted(init, compare);
      var n := |s| - 1;
      forall i, j | 0 <= i < j < |s|
        ensures compare(s[i], s[j]) <= 0.0
      {
        if j < n {
          assert init[i] == s[i] && init[j] == s[j];
        } else if i < n - 1 {
          assert init[i] == s[i] && init[n - 1] == s[n - 1];
          assert compare(s[n - 1], s[n]) <= 0.0;
        }
      }
    }
  }

  /**
   * Where insertion puts x into t: just after the last element that does not
   * compare greater than x, so x passes only elements that compare greater
   * and lands after every element it ties with.
   */
  function InsertPos<T>(t: seq<T>, x: T, compare: (T, T) -> real): (p: nat)
    ensures p <= |t|
    ensures forall k :: p <= k < |t| ==> compare(t[k], x) > 0.0
    ensures p > 0 ==> compare(t[p - 1], x) <= 0.0
  {
    if |t| == 0 then 0
    else if compare(t[|t| - 1], x) > 0.0 then InsertPos(t[..|t| - 1], x, compare)
    else |t|
  }

  /** Only one position has the two properties of InsertPos. */
  lemma InsertPosUnique<T>(t: seq<T>, x: T, compare: (T, T) -> real, q: nat)
    requires q <= |t|
    requires forall k :: q <= k < |t| ==> compare(t[k], x) > 0.0
    requires q > 0 ==> compare(t[q - 1], x) <= 0.0
    ensures q == InsertPos(t, x, compare)
  {
  }

  function Insert<T>(t: seq<T>, x: T, compare: (T, T) -> real): (r: seq<T>)
    ensures |r| == |t| + 1
    ensures multiset(r) == multiset(t) + multiset{x}
  {
    var p := InsertPos(t, x, compare);
    assert t == t[..p] + t[p..];
    t[..p] + [x] + t[p..]
  }

  /** The order the stable sort produces: each element inserted in turn into the sorted prefix. */
  function InsertionSorted<T>(s: seq<T>, compare: (T, T) -> real): (r: seq<T>)
    ensures |r| == |s|
    ensures multiset(r) == multiset(s)
  {
    if |s| == 0 then []
    else
      assert s == s[..|s| - 1] + [s[|s| - 1]];
      Insert(InsertionSorted(s[..|s| - 1], compare), s[|s| - 1], compare)
  }

  lemma InsertionSortedStep<T>(s: seq<T>, i: nat, compare: (T, T) -> real)
    requires i < |s|
    ensures InsertionSorted(s[..i + 1], compare) == Insert(InsertionSorted(s[..i], compare), s[i], compare)
  {
    assert s[..i + 1][..i] == s[..i];
  }

  /**
   * One round of the sort: when r holds the sorted first i elements of s
   * and then the rest of s, inserting r[i] into r[..i] gives the sorted
   * first i + 1 elements and leaves the rest.
   */
  lemma SortedPrefixGrows<T>(s: seq<T>, i: nat, r: seq<T>, compare: (T, T) -> real)
    requires i < |s| == |r|
    requires r[..i] == InsertionSorted(s[..i], compare)
    requires r[i..] == s[i..]
    ensures Insert(r[..i], r[i], compare) == InsertionSorted(s[..i + 1], compare)
    ensures r[i + 1..] == s[i + 1..]
  {
    assert r[i..][0] == r[i] && r[i..][1..] == r[i + 1..];
    InsertionSortedStep(s, i, compare);
  }

  /** Inserting into a sequence in neighbour order keeps it in neighbour order. */
  lemma InsertOrdered<T(!new)>(t: seq<T>, x: T, compare: (T, T) -> real)
    requires Antisymmetric(compare)
    requires AdjacentOrdered(t, compare)
    ensures AdjacentOrdered(Insert(t, x, compare), compare)
  {
    var p := InsertPos(t, x, compare);
    var r := Insert(t, x, compare);
    forall i, j | 0 <= i && j == i + 1 && j < |r|
      ensures compare(r[i], r[j]) <= 0.0
    {
      if j < p {
        assert r[i] == t[i] && r[j] == t[j];
      } else if j == p {
        assert r[i] == t[p - 1] && r[j] == x;
      } else if i == p {
        assert r[i] == x && r[j] == t[p];
      } else {
        assert r[i] == t[i - 1] && r[j] == t[j - 1];
      }
    }
  }

  /** The stable sort leaves every neighbour pair in order. */
  lemma {:induction false} InsertionSortedOrdered<T(!new)>(s: seq<T>, compare: (T, T) -> real)
    requires Antisymmetric(compare)
    ensures AdjacentOrdered(InsertionSorted(s, compare), compare)
  {
    if |s| > 0 {
      InsertionSortedOrdered(s[..|s| - 1], compare);
      InsertOrdered(InsertionSorted(s[..|s| - 1], compare), s[|s| - 1], compare);
    }
  }

  /** The elements of s that satisfy keep, in their order in s. */
  function Filter<T>(s: seq<T>, keep: T -> bool): (r: seq<T>)
    ensures |r| <= |s|
    ensures forall i :: 0 <= i < |r| ==> keep(r[i])
  {
    if |s| == 0 then []
    else Filter(s[..|s| - 1], keep) + (if keep(s[|s| - 1]) then [s[|s| - 1]] else [])
  }

  lemma {:induction false} FilterAppend<T>(a: seq<T>, b: seq<T>, keep: T -> bool)
    ensures Filter(a + b, keep) == Filter(a, keep) + Filter(b, keep)
  {
    if |b| == 0 {
      assert a + b == a;
    } else {
      assert (a + b)[..|a + b| - 1] == a + b[..|b| - 1];
      assert (a + b)[|a + b| - 1] == b[|b| - 1];
      FilterAppend(a, b[..|b| - 1], keep);
    }
  }

  lemma {:induction false} FilterNone<T>(s: seq<T>, keep: T -> bool)
    requires forall i :: 0 <= i < |s| ==> !keep(s[i])
    ensures Filter(s, keep) == []
  {
    if |s| > 0 {
      FilterNone(s[..|s| - 1], keep);
    }
  }

  /** The kept elements after an insertion: those before the position, x if kept, those after. */
  lemma FilterInsert<T>(t: seq<T>, x: T, compare: (T, T) -> real, keep: T -> bool, p: nat)
    requires p == InsertPos(t, x, compare)
    ensures Filter(Insert(t, x, compare), keep) == Filter(t[..p], keep) + Filter([x], keep) + Filter(t[p..], keep)
  {
    assert Insert(t, x, compare) == (t[..p] + [x]) + t[p..];
    FilterAppend(t[..p] + [x], t[p..], keep);
    FilterAppend(t[..p], [x], keep);
  }

  /** Nothing x passes on insertion is kept, when kept elements never compare greater than a kept x. */
  lemma NoneKeptAfter<T>(t: seq<T>, x: T, compare: (T, T) -> real, keep: T -> bool, p: nat)
    requires p <= |t|
    requires forall k :: p <= k < |t| ==> compare(t[k], x) > 0.0
    requires forall i :: 0 <= i < |t| && keep(t[i]) ==> compare(t[i], x) <= 0.0
    ensures Filter(t[p..], keep) == []
  {
    var post := t[p..];
    forall i | 0 <= i < |post|
      ensures !keep(post[i])
    {
      assert post[i] == t[p + i];
    }
    FilterNone(post, keep);
  }

  lemma FilterSingle<T>(x: T, keep: T -> bool)
    ensures Filter([x], keep) == if keep(x) then [x] else []
  {
    assert [x][..0] == [];
  }

  lemma FilterSplitAt<T>(t: seq<T>, p: nat, keep: T -> bool)
    requires p <= |t|
    ensures Filter(t, keep) == Filter(t[..p], keep) + Filter(t[p..], keep)
  {
    assert t == t[..p] + t[p..];
    FilterAppend(t[..p], t[p..], keep);
  }

  /** b + m + a is b + a + m when m is empty or a is. */
  lemma MoveLast<T>(whole: seq<T>, rest: seq<T>, b: seq<T>, m: seq<T>, a: seq<T>, k: bool, x: T)
    requires whole == b + m + a && rest == b + a
    requires m == (if k then [x] else [])
    requires k ==> a == []
    ensures whole == rest + (if k then [x] else [])
  {
  }

  /**
   * Inserting x leaves the kept elements of t in place and puts x after
   * them, provided no kept element compares greater than a kept x.
   */
  lemma InsertStable<T>(t: seq<T>, x: T, compare: (T, T) -> real, keep: T -> bool)
    requires keep(x) ==> forall i {:trigger compare(t[i], x)} :: 0 <= i < |t| && keep(t[i]) ==> compare(t[i], x) <= 0.0
    ensures Filter(Insert(t, x, compare), keep) == Filter(t, keep) + (if keep(x) then [x] else [])
  {
    var p := InsertPos(t, x, compare);
    FilterInsert(t, x, compare, keep, p);
    FilterSingle(x, keep);
    FilterSplitAt(t, p, keep);
    if keep(x) {
      NoneKeptAfter(t, x, compare, keep, p);
    }
    MoveLast(Filter(Insert(t, x, compare), keep), Filter(t, keep), Filter(t[..p], keep), Filter([x], keep),
      Filter(t[p..], keep), keep(x), x);
  }

  /**
   * Stability: elements of a class that never compares positive within
   * itself (equal keys, say) keep their input order.
   */
  lemma {:induction false} InsertionSortedStable<T>(s: seq<T>, compare: (T, T) -> real, keep: T -> bool)
    requires forall x, y :: x in s && y in s && keep(x) && keep(y) ==> compare(x, y) <= 0.0
    ensures Filter(InsertionSorted(s, compare), keep) == Filter(s, keep)
  {
    if |s| > 0 {
      var init, x := s[..|s| - 1], s[|s| - 1];
      var t := InsertionSorted(init, compare);
      InsertionSortedStable(init, compare, keep);
      forall i | 0 <= i < |t|
        ensures t[i] in s
      {
        assert t[i] in multiset(init);
      }
      InsertStable(t, x, compare, keep);
    }
  }

  /**
   * Where the insertion loop stops: x sits at j, after the elements of
   * s[..i] that do not compare greater and before those that do, so r[..i+1]
   * is the insertion of x into s[..i].
   */
  lemma Inserted<T>(r: seq<T>, s: seq<T>, x: T, compare: (T, T) -> real, i: nat, j: nat)
    requires j <= i < |s| == |r|
    requires r[j] == x
    requires forall k :: 0 <= k < j ==> r[k] == s[k]
    requires forall k :: j < k <= i ==> r[k] == s[k - 1]
    requires forall k :: i < k < |r| ==> r[k] == s[k]
    requires forall k :: j <= k < i ==> compare(s[k], x) > 0.0
    requires j == 0 || compare(s[j - 1], x) <= 0.0
    ensures r[..i + 1] == Insert(s[..i], x, compare)
    ensures r[i + 1..] == s[i + 1..]
  {
    var t := s[..i];
    assert forall k :: j <= k < i ==> compare(t[k], x) > 0.0;
    InsertPosUnique(t, x, compare, j);
    assert r[..i + 1] == t[..j] + [x] + t[j..];
  }

  /**
   * Moves a[i] left past every neighbour that compares greater: a[..i+1]
   * becomes a[..i] with the old a[i] inserted, and the rest is untouched.
   */
  method InsertLast<T>(a: array<T>, i: int, compare: (T, T) -> real)
    requires 0 < i < a.Length
    modifies a
    ensures a[..i + 1] == Insert(old(a[..i]), old(a[i]), compare)
    ensures a[i + 1..] == old(a[i + 1..])
  {
    ghost var s := a[..];
    ghost var x := a[i];
    var j := i;
    while j > 0 && compare(a[j - 1], a[j]) > 0.0
      invariant 0 <= j <= i
      invariant a[j] == x
      invariant forall k :: 0 <= k < j ==> a[k] == s[k]
      invariant forall k :: j < k <= i ==> a[k] == s[k - 1]
      invariant forall k :: i < k < a.Length ==> a[k] == s[k]
      invariant forall k :: j <= k < i ==> compare(s[k], x) > 0.0
    {
      a[j - 1], a[j] := a[j], a[j - 1];
      j := j - 1;
    }
    Inserted(a[..], s, x, compare, i, j);
  }

  /**
   * a.sort(compare): the stable insertion order of the old contents, so
   * the same elements with every neighbour pair in order.
   */
  method SortBy<T(!new)>(a: array<T>, compare: (T, T) -> real)
    requires Antisymmetric(compare)
    modifies a
    ensures a[..] == InsertionSorted(old(a[..]), compare)
    ensures multiset(a[..]) == multiset(old(a[..]))
    ensures AdjacentOrdered(a[..], compare)
  {
    ghost var s := a[..];
    if a.Length > 0 {
      var i := 1;
      InsertionSortedStep(s, 0, compare);
      while i < a.Length
        invariant 1 <= i <= a.Length
        invariant a[..i] == InsertionSorted(s[..i], compare)
        invariant a[i..] == s[i..]
      {
        SortedPrefixGrows(s, i, a[..], compare);
        InsertLast(a, i, compare);
        i := i + 1;
      }
      assert a[..] == a[..a.Length] && s == s[..a.Length];
    }
    InsertionSortedOrdered(s, compare);
  }
}
