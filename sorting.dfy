/**
 * The events table sort: `Array.prototype.sort` (a stable sort) with a
 * comparator that orders two rows by one string field with `<` and `>`,
 * ascending or descending, and reports equal fields as a tie.
 */
module Sorting {
  import opened Seqs

  /** JavaScript's `<` on strings: lexicographic by character, a proper prefix first. */
  predicate StrLess(a: string, b: string) {
    if a == [] then b != []
    else if b == [] then false
    else if a[0] != b[0] then a[0] < b[0]
    else StrLess(a[1..], b[1..])
  }

  lemma {:induction false} StrLessIrreflexive(a: string)
    ensures !StrLess(a, a)
  {
    if a != [] {
      StrLessIrreflexive(a[1..]);
    }
  }

  lemma {:induction false} StrLessAsymmetric(a: string, b: string)
    ensures StrLess(a, b) ==> !StrLess(b, a)
  {
    if a != [] && b != [] && a[0] == b[0] {
      StrLessAsymmetric(a[1..], b[1..]);
    }
  }

  lemma {:induction false} StrLessTransitive(a: string, b: string, c: string)
    requires StrLess(a, b) && StrLess(b, c)
    ensures StrLess(a, c)
  {
    if a != [] && b != [] && c != [] && a[0] == b[0] && b[0] == c[0] {
      StrLessTransitive(a[1..], b[1..], c[1..]);
    }
  }

  /** Two different strings are always ordered one way or the other. */
  lemma {:induction false} StrLessTotal(a: string, b: string)
    requires a != b
    ensures StrLess(a, b) || StrLess(b, a)
  {
    if a != [] && b != [] && a[0] == b[0] {
      assert a == [a[0]] + a[1..] && b == [b[0]] + b[1..];
      StrLessTotal(a[1..], b[1..]);
    }
  }

  /** Exactly one of `a < b`, `a == b`, `a > b` holds. */
  lemma StrLessTrichotomy(a: string, b: string)
    ensures StrLess(a, b) ==> !StrLess(b, a) && a != b
    ensures a == b ==> !StrLess(a, b)
    ensures a != b ==> StrLess(a, b) || StrLess(b, a)
  {
    StrLessAsymmetric(a, b);
    StrLessIrreflexive(a);
    if a != b {
      StrLessTotal(a, b);
    }
  }

  datatype Direction = Ascending | Descending

  /** The comparator returns -1 for `a` against `b`: `a` goes first. */
  predicate Before(ka: string, kb: string, dir: Direction) {
    match dir
    case Ascending => StrLess(ka, kb)
    case Descending => StrLess(kb, ka)
  }

  /** The comparator result as the source computes it. */
  function Compare(ka: string, kb: string, dir: Direction): (r: int)
    ensures r == -1 <==> Before(ka, kb, dir)
    ensures r == 1 <==> Before(kb, ka, dir)
    ensures r == 0 <==> ka == kb
  {
    StrLessTrichotomy(ka, kb);
    if StrLess(ka, kb) then (if dir == Ascending then -1 else 1)
    else if StrLess(kb, ka) then (if dir == Ascending then 1 else -1)
    else 0
  }

  /** No row is followed by one that the comparator would put before it. */
  predicate SortedBy<T>(s: seq<T>, key: T -> string, dir: Direction) {
    forall i, j | 0 <= i < j < |s| :: !Before(key(s[j]), key(s[i]), dir)
  }

  /** Places `x` after every row it does not have to precede, so that it lands after its ties. */
  function InsertBy<T>(x: T, s: seq<T>, key: T -> string, dir: Direction): seq<T> {
    if s == [] then [x]
    else if Before(key(x), key(s[0]), dir) then [x] + s
    else [s[0]] + InsertBy(x, s[1..], key, dir)
  }

  /** A stable insertion sort; any stable sort gives the same result (see `SortByStable`). */
  function SortBy<T>(s: seq<T>, key: T -> string, dir: Direction): seq<T> {
    if s == [] then []
    else InsertBy(s[|s| - 1], SortBy(s[..|s| - 1], key, dir), key, dir)
  }

  lemma BeforeAsymmetric(ka: string, kb: string, dir: Direction)
    ensures Before(ka, kb, dir) ==> !Before(kb, ka, dir)
  {
    StrLessAsymmetric(ka, kb);
    StrLessAsymmetric(kb, ka);
  }

  lemma BeforeTransitive(ka: string, kb: string, kc: string, dir: Direction)
    requires Before(ka, kb, dir) && Before(kb, kc, dir)
    ensures Before(ka, kc, dir)
  {
    if dir == Ascending {
      StrLessTransitive(ka, kb, kc);
    } else {
      StrLessTransitive(kc, kb, ka);
    }
  }

  /** Neither before the other means equal keys. */
  lemma BeforeTotal(ka: string, kb: string, dir: Direction)
    requires !Before(ka, kb, dir) && !Before(kb, ka, dir)
    ensures ka == kb
  {
    if ka != kb {
      StrLessTotal(ka, kb);
    }
  }

  lemma {:induction false} InsertByMultiset<T>(x: T, s: seq<T>, key: T -> string, dir: Direction)
    ensures multiset(InsertBy(x, s, key, dir)) == multiset(s) + multiset{x}
  {
    if s != [] && !Before(key(x), key(s[0]), dir) {
      InsertByMultiset(x, s[1..], key, dir);
      assert s == [s[0]] + s[1..];
    }
  }

  lemma {:induction false} InsertByHead<T>(x: T, s: seq<T>, key: T -> string, dir: Direction)
    ensures |InsertBy(x, s, key, dir)| == |s| + 1
    ensures InsertBy(x, s, key, dir)[0] == x || (s != [] && InsertBy(x, s, key, dir)[0] == s[0])
  {
    if s != [] && !Before(key(x), key(s[0]), dir) {
      InsertByHead(x, s[1..], key, dir);
    }
  }

  lemma {:induction false} InsertBySorted<T>(x: T, s: seq<T>, key: T -> string, dir: Direction)
    requires SortedBy(s, key, dir)
    ensures SortedBy(InsertBy(x, s, key, dir), key, dir)
  {
    var r := InsertBy(x, s, key, dir);
    if s == [] {
    } else if Before(key(x), key(s[0]), dir) {
      forall i, j | 0 <= i < j < |r|
        ensures !Before(key(r[j]), key(r[i]), dir)
      {
        if i == 0 {
          BeforeAsymmetric(key(x), key(s[0]), dir);
          if j > 1 {
            if Before(key(r[j]), key(x), dir) {
              BeforeTransitive(key(r[j]), key(x), key(s[0]), dir);
            }
          }
        }
      }
    } else {
      var t := InsertBy(x, s[1..], key, dir);
      InsertBySorted(x, s[1..], key, dir);
      InsertByHead(x, s[1..], key, dir);
      InsertByMultiset(x, s[1..], key, dir);
      assert r == [s[0]] + t;
      forall j | 0 < j < |r|
        ensures !Before(key(r[j]), key(s[0]), dir)
      {
        assert r[j] in multiset(t);
        if r[j] != x {
          assert r[j] in multiset(s[1..]);
          var k :| 0 <= k < |s[1..]| && s[1..][k] == r[j];
          assert s[k + 1] == r[j];
        }
      }
    }
  }

  /** The sorted rows are in comparator order. */
  lemma {:induction false} SortBySorted<T>(s: seq<T>, key: T -> string, dir: Direction)
    ensures SortedBy(SortBy(s, key, dir), key, dir)
  {
    if s != [] {
      SortBySorted(s[..|s| - 1], key, dir);
      InsertBySorted(s[|s| - 1], SortBy(s[..|s| - 1], key, dir), key, dir);
    }
  }

  /** Sorting neither loses nor invents rows. */
  lemma {:induction false} SortByPermutation<T>(s: seq<T>, key: T -> string, dir: Direction)
    ensures multiset(SortBy(s, key, dir)) == multiset(s)
  {
    if s != [] {
      SortByPermutation(s[..|s| - 1], key, dir);
      InsertByMultiset(s[|s| - 1], SortBy(s[..|s| - 1], key, dir), key, dir);
      assert s == s[..|s| - 1] + [s[|s| - 1]];
    }
  }

  /** The condition "this row's sort field equals `v`". */
  function HasKey<T>(key: T -> string, v: string): T -> bool {
    e => key(e) == v
  }

  lemma FilterNone<T(!new)>(s: seq<T>, p: T -> bool)
    requires forall i | 0 <= i < |s| :: !p(s[i])
    ensures Filter(s, p) == []
  {
    if Filter(s, p) != [] {
      assert Filter(s, p)[0] in Filter(s, p);
    }
  }

  lemma {:induction false} InsertByKeyFilter<T(!new)>(x: T, s: seq<T>, key: T -> string, dir: Direction, v: string)
    requires SortedBy(s, key, dir)
    ensures Filter(InsertBy(x, s, key, dir), HasKey(key, v))
         == Filter(s, HasKey(key, v)) + (if key(x) == v then [x] else [])
  {
    var p := HasKey(key, v);
    if s == [] {
    } else if Before(key(x), key(s[0]), dir) {
      if key(x) == v {
        forall i | 0 <= i < |s|
          ensures !p(s[i])
        {
          BeforeAsymmetric(key(x), key(s[0]), dir);
          assert i > 0 ==> !Before(key(s[i]), key(s[0]), dir);
        }
        FilterNone(s, p);
      }
      assert ([x] + s)[1..] == s;
    } else {
      assert SortedBy(s[1..], key, dir);
      InsertByKeyFilter(x, s[1..], key, dir, v);
      assert ([s[0]] + InsertBy(x, s[1..], key, dir))[1..] == InsertBy(x, s[1..], key, dir);
    }
  }

  /**
   * Stability: the rows sharing any one sort value come out in the order they
   * went in. With `SortBySorted` and `SortByPermutation` this fixes the result
   * of every stable sort with this comparator.
   */
  lemma {:induction false} SortByStable<T(!new)>(s: seq<T>, key: T -> string, dir: Direction, v: string)
    ensures Filter(SortBy(s, key, dir), HasKey(key, v)) == Filter(s, HasKey(key, v))
  {
    if s != [] {
      var init, last := s[..|s| - 1], s[|s| - 1];
      SortByStable(init, key, dir, v);
      SortBySorted(init, key, dir);
      InsertByKeyFilter(last, SortBy(init, key, dir), key, dir, v);
      FilterAppend(init, [last], HasKey(key, v));
      assert init + [last] == s;
    }
  }
}
