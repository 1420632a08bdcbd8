/**
 * Array operations the dashboard uses over and over: `filter`, removing one
 * position with `splice(i, 1)`, and the selection toggle that removes an id
 * when present and appends it otherwise.
 */
module Seqs {

  /** `s.filter(p)`: the elements satisfying `p`, in their original order. */
  function Filter<T(==,!new)>(s: seq<T>, p: T -> bool): (r: seq<T>)
    ensures |r| <= |s|
    ensures forall x :: x in r <==> x in s && p(x)
  {
    if s == [] then []
    else if p(s[0]) then [s[0]] + Filter(s[1..], p)
    else Filter(s[1..], p)
  }

  /** Filtering distributes over concatenation. */
  lemma {:induction false} FilterAppend<T(!new)>(a: seq<T>, b: seq<T>, p: T -> bool)
    ensures Filter(a + b, p) == Filter(a, p) + Filter(b, p)
  {
    if a != [] {
      assert (a + b)[1..] == a[1..] + b;
      FilterAppend(a[1..], b, p);
    } else {
      assert a + b == b;
    }
  }

  lemma FilterSingleton<T(!new)>(x: T, p: T -> bool)
    ensures Filter([x], p) == if p(x) then [x] else []
  {
    assert [x][1..] == [];
  }

  /** Filtering twice is filtering once with both conditions, here named `r`. */
  lemma {:induction false} FilterFilter<T(!new)>(s: seq<T>, p: T -> bool, q: T -> bool, r: T -> bool)
    requires forall x :: r(x) == (p(x) && q(x))
    ensures Filter(Filter(s, p), q) == Filter(s, r)
  {
    if s != [] {
      FilterFilter(s[1..], p, q, r);
      if p(s[0]) {
        assert ([s[0]] + Filter(s[1..], p))[1..] == Filter(s[1..], p);
      }
    }
  }

  /** Filtering with a condition every element meets changes nothing. */
  lemma {:induction false} FilterAll<T(!new)>(s: seq<T>, p: T -> bool)
    requires forall i | 0 <= i < |s| :: p(s[i])
    ensures Filter(s, p) == s
  {
    if s != [] {
      FilterAll(s[1..], p);
    }
  }

  /** When `q` is the negation of `p`, the elements that pass each add up to the whole. */
  lemma {:induction false} FilterSplit<T(!new)>(s: seq<T>, p: T -> bool, q: T -> bool)
    requires forall x :: q(x) == !p(x)
    ensures |Filter(s, p)| + |Filter(s, q)| == |s|
  {
    if s != [] {
      FilterSplit(s[1..], p, q);
    }
  }

  /** `a` is `b` with some elements left out and the rest in their order. */
  predicate Subseq<T(==)>(a: seq<T>, b: seq<T>)
    decreases |b|
  {
    if a == [] then true
    else if b == [] then false
    else if a[0] == b[0] then Subseq(a[1..], b[1..])
    else Subseq(a, b[1..])
  }

  /** A filter result is a subsequence of its input. */
  lemma {:induction false} FilterSubseq<T(!new)>(s: seq<T>, p: T -> bool)
    ensures Subseq(Filter(s, p), s)
  {
    if s != [] {
      FilterSubseq(s[1..], p);
      if p(s[0]) {
        assert ([s[0]] + Filter(s[1..], p))[1..] == Filter(s[1..], p);
      } else if Filter(s, p) != [] {
        SubseqDropHead(Filter(s, p), s);
      }
    }
  }

  /** Dropping a first element that does not start `a` keeps `a` a subsequence. */
  lemma {:induction false} SubseqDropHead<T>(a: seq<T>, b: seq<T>)
    requires b != [] && Subseq(a, b[1..])
    ensures Subseq(a, b)
    decreases |b|, |a|
  {
    if a != [] && a[0] == b[0] {
      SubseqTail(a, b[1..]);
    }
  }

  /** Leaving out the first element of a subsequence keeps it one. */
  lemma {:induction false} SubseqTail<T>(a: seq<T>, b: seq<T>)
    requires a != [] && Subseq(a, b)
    ensures Subseq(a[1..], b)
    decreases |b|, |a|
  {
    if a[1..] != [] && b != [] {
      if a[0] == b[0] {
        SubseqDropHead(a[1..], b);
      } else {
        SubseqTail(a, b[1..]);
        SubseqDropHead(a[1..], b);
      }
    }
  }

  /** `arr.splice(i, 1)`: the element at `i` is removed; an index past the end removes nothing. */
  function RemoveAt<T>(s: seq<T>, i: nat): (r: seq<T>)
    ensures i < |s| ==> |r| == |s| - 1
    ensures i >= |s| ==> r == s
    ensures forall k | 0 <= k < |r| :: r[k] == if k < i then s[k] else s[k + 1]
  {
    if i < |s| then s[..i] + s[i + 1..] else s
  }

  /** Every position holds a different value. */
  predicate NoDuplicates<T(==)>(s: seq<T>) {
    forall i, j | 0 <= i < j < |s| :: s[i] != s[j]
  }

  /** Removing all copies of `x`, the first half of a toggle. */
  function Without<T(==,!new)>(s: seq<T>, x: T): (r: seq<T>)
    ensures forall y :: y in r <==> y in s && y != x
  {
    Filter(s, y => y != x)
  }

  /**
   * The selection toggle: `prev.includes(x) ? prev.filter(y => y !== x) : [...prev, x]`.
   */
  function Toggle<T(==,!new)>(s: seq<T>, x: T): (r: seq<T>)
    ensures x in r <==> x !in s
    ensures forall y | y != x :: y in r <==> y in s
  {
    if x in s then Without(s, x) else s + [x]
  }

  /** A toggle keeps a list without duplicates free of them. */
  lemma {:induction false} WithoutNoDuplicates<T(!new)>(s: seq<T>, x: T)
    requires NoDuplicates(s)
    ensures NoDuplicates(Without(s, x))
  {
    if s != [] {
      assert NoDuplicates(s[1..]);
      WithoutNoDuplicates(s[1..], x);
      assert s[0] !in s[1..];
    }
  }

  lemma ToggleNoDuplicates<T(!new)>(s: seq<T>, x: T)
    requires NoDuplicates(s)
    ensures NoDuplicates(Toggle(s, x))
  {
    if x in s {
      WithoutNoDuplicates(s, x);
    }
  }

  /** Removing a value that is absent changes nothing. */
  lemma WithoutAbsent<T(!new)>(s: seq<T>, x: T)
    requires x !in s
    ensures Without(s, x) == s
  {
    FilterAll(s, y => y != x);
  }

  /** Toggling a value that is not selected, then toggling it again, restores the selection exactly. */
  lemma ToggleTwice<T(!new)>(s: seq<T>, x: T)
    requires x !in s
    ensures Toggle(Toggle(s, x), x) == s
  {
    FilterAppend(s, [x], y => y != x);
    WithoutAbsent(s, x);
  }

  /** The values a list holds. */
  ghost function Elements<T>(s: seq<T>): set<T> {
    set x | x in s
  }

  /** A list without duplicates holds as many values as it has positions. */
  lemma {:induction false} DistinctCount<T>(s: seq<T>)
    requires NoDuplicates(s)
    ensures |Elements(s)| == |s|
  {
    if s != [] {
      assert NoDuplicates(s[1..]);
      DistinctCount(s[1..]);
      assert Elements(s) == {s[0]} + Elements(s[1..]);
      assert s[0] !in Elements(s[1..]);
    }
  }

  /** A subset is no larger than its superset. */
  lemma {:induction false} SubsetSize<T>(a: set<T>, b: set<T>)
    requires a <= b
    ensures |a| <= |b|
    decreases |a|
  {
    if a != {} {
      var x :| x in a;
      SubsetSize(a - {x}, b - {x});
    }
  }

  /** A subset as large as its superset is the superset. */
  lemma SubsetSameSize<T>(a: set<T>, b: set<T>)
    requires a <= b && |a| == |b|
    ensures a == b
  {
    if b - a != {} {
      var x :| x in b - a;
      SubsetSize(a, b - {x});
    }
  }

  /**
   * For a duplicate-free selection drawn from a duplicate-free list, having
   * as many entries as the list means having every entry of it.
   */
  lemma SelectionCompleteIff<T>(selected: seq<T>, all: seq<T>)
    requires NoDuplicates(selected) && NoDuplicates(all)
    requires forall x | x in selected :: x in all
    ensures |selected| == |all| <==> forall x | x in all :: x in selected
  {
    DistinctCount(selected);
    DistinctCount(all);
    assert Elements(selected) <= Elements(all);
    if |selected| == |all| {
      SubsetSameSize(Elements(selected), Elements(all));
      forall x | x in all
        ensures x in selected
      {
        assert x in Elements(all);
      }
    }
    if forall x | x in all :: x in selected {
      assert Elements(all) <= Elements(selected);
      SubsetSize(Elements(all), Elements(selected));
      SubsetSize(Elements(selected), Elements(all));
    }
  }

  /**
   * A duplicate-free selection as long as a duplicate-free list, but holding
   * a value the list lacks, misses some entry of the list.
   */
  lemma EqualLengthMissesOne<T>(selected: seq<T>, all: seq<T>, stale: T)
    requires NoDuplicates(selected) && NoDuplicates(all)
    requires |selected| == |all|
    requires stale in selected && stale !in all
    ensures exists y | y in all :: y !in selected
  {
    if forall y | y in all :: y in selected {
      DistinctCount(selected);
      DistinctCount(all);
      assert Elements(all) <= Elements(selected);
      assert stale in Elements(selected) - Elements(all);
      SubsetSameSize(Elements(all), Elements(selected));
      assert false;
    }
  }
}
