/**
 * `Array.prototype.sort` with a comparator: a stable sort (ECMAScript 2019 and later).
 * `le(a, b)` stands for `compare(a, b) <= 0`. The sort is an insertion sort; for a
 * comparator that is a total preorder every stable sort gives the same result.
 */
module StableSort {
  import opened Seqs

  ghost predicate Total<T(!new)>(le: (T, T) -> bool) {
    forall a, b :: le(a, b) || le(b, a)
  }

  ghost predicate Transitive<T(!new)>(le: (T, T) -> bool) {
    forall a, b, c :: le(a, b) && le(b, c) ==> le(a, c)
  }

  /** Every element is `le` every later one. */
  ghost predicate SortedBy<T>(s: seq<T>, le: (T, T) -> bool) {
    forall i, j :: 0 <= i < j < |s| ==> le(s[i], s[j])
  }

  /** Every element is `le` the next one. */
  ghost predicate AdjacentSortedBy<T>(s: seq<T>, le: (T, T) -> bool) {
    forall i :: 0 <= i < |s| - 1 ==> le(s[i], s[i + 1])
  }

  /** The elements of `s` that compare equal to `z`, in their order in `s`. */
  function Ties<T>(s: seq<T>, le: (T, T) -> bool, z: T): seq<T> {
    if s == [] then []
    else (if le(s[0], z) && le(z, s[0]) then [s[0]] else []) + Ties(s[1..], le, z)
  }

  /** Puts `x` in front of the first element it is `le`. */
  function Insert<T(!new)>(x: T, s: seq<T>, le: (T, T) -> bool): (r: seq<T>)
    ensures |r| == |s| + 1
    ensures r[0] == x || (s != [] && r[0] == s[0])
  {
    if s == [] then [x]
    else if le(x, s[0]) then [x] + s
    else [s[0]] + Insert(x, s[1..], le)
  }

  /** Inserting adds `x` and loses nothing. */
  lemma {:induction false} InsertPermutes<T(!new)>(x: T, s: seq<T>, le: (T, T) -> bool)
    ensures multiset(Insert(x, s, le)) == multiset(s) + multiset{x}
  {
    if s != [] && !le(x, s[0]) {
      InsertPermutes(x, s[1..], le);
      assert s == [s[0]] + s[1..];
    }
  }

  function Sort<T(!new)>(s: seq<T>, le: (T, T) -> bool): (r: seq<T>)
    ensures |r| == |s|
  {
    if s == [] then []
    else Insert(s[0], Sort(s[1..], le), le)
  }

  /** The sort reorders `s` and nothing more. */
  lemma {:induction false} SortPermutes<T(!new)>(s: seq<T>, le: (T, T) -> bool)
    ensures multiset(Sort(s, le)) == multiset(s)
  {
    if s != [] {
      SortPermutes(s[1..], le);
      InsertPermutes(s[0], Sort(s[1..], le), le);
      assert s == [s[0]] + s[1..];
    }
  }

  lemma {:induction false} InsertAdjacentSorted<T(!new)>(x: T, s: seq<T>, le: (T, T) -> bool)
    requires Total(le) && AdjacentSortedBy(s, le)
    ensures AdjacentSortedBy(Insert(x, s, le), le)
  {
    if s != [] && !le(x, s[0]) {
      InsertAdjacentSorted(x, s[1..], le);
      var r := Insert(x, s, le);
      var t := Insert(x, s[1..], le);
      assert r == [s[0]] + t;
      assert le(s[0], t[0]) by {
        assert le(s[0], x);
        if t[0] != x { assert t[0] == s[1]; }
      }
      forall i | 0 <= i < |r| - 1 ensures le(r[i], r[i + 1]) {
        if i > 0 { assert r[i] == t[i - 1] && r[i + 1] == t[i]; }
      }
    }
  }

  /** With a total comparator, each element is `le` the next one. */
  lemma {:induction false} SortAdjacentSorted<T(!new)>(s: seq<T>, le: (T, T) -> bool)
    requires Total(le)
    ensures AdjacentSortedBy(Sort(s, le), le)
  {
    if s != [] {
      SortAdjacentSorted(s[1..], le);
      InsertAdjacentSorted(s[0], Sort(s[1..], le), le);
    }
  }

  lemma AdjacentToSorted<T(!new)>(s: seq<T>, le: (T, T) -> bool)
    requires Transitive(le) && AdjacentSortedBy(s, le)
    ensures SortedBy(s, le)
  {
    forall i, j | 0 <= i < j < |s| ensures le(s[i], s[j]) {
      var k := i + 1;
      while k < j
        invariant i < k <= j
        invariant le(s[i], s[k])
      {
        k := k + 1;
      }
    }
  }

  /** With a total preorder, every element is `le` every later one, and the result is a permutation. */
  lemma SortSorted<T(!new)>(s: seq<T>, le: (T, T) -> bool)
    requires Total(le) && Transitive(le)
    ensures SortedBy(Sort(s, le), le)
    ensures multiset(Sort(s, le)) == multiset(s)
  {
    SortAdjacentSorted(s, le);
    AdjacentToSorted(Sort(s, le), le);
    SortPermutes(s, le);
  }

  lemma TiesCons<T(!new)>(x: T, s: seq<T>, le: (T, T) -> bool, z: T)
    ensures Ties([x] + s, le, z) == (if le(x, z) && le(z, x) then [x] else []) + Ties(s, le, z)
  {
    assert ([x] + s)[1..] == s;
  }

  /** The step of `InsertStable` past an element `y` that `x` is not `le`, for `x` and `y` that are not both tied with `z`. */
  lemma InsertStableStep<T(!new)>(x: T, y: T, s: seq<T>, t: seq<T>, le: (T, T) -> bool, z: T)
    requires !(le(x, z) && le(z, x) && le(y, z) && le(z, y))
    requires Ties(t, le, z) == Ties([x] + s, le, z)
    ensures Ties([y] + t, le, z) == Ties([x] + ([y] + s), le, z)
  {
    TiesCons(y, t, le, z);
    TiesCons(x, s, le, z);
    TiesCons(y, s, le, z);
    TiesCons(x, [y] + s, le, z);
  }

  lemma {:induction false} InsertStable<T(!new)>(x: T, s: seq<T>, le: (T, T) -> bool, z: T)
    requires Transitive(le)
    ensures Ties(Insert(x, s, le), le, z) == Ties([x] + s, le, z)
    decreases |s|
  {
    if s != [] && !le(x, s[0]) {
      InsertStable(x, s[1..], le, z);
      assert !(le(x, z) && le(z, x) && le(s[0], z) && le(z, s[0]));
      InsertStableStep(x, s[0], s[1..], Insert(x, s[1..], le), le, z);
      assert [s[0]] + s[1..] == s;
    }
  }

  /** Elements that compare equal keep their input order. */
  lemma {:induction false} SortStable<T(!new)>(s: seq<T>, le: (T, T) -> bool, z: T)
    requires Transitive(le)
    ensures Ties(Sort(s, le), le, z) == Ties(s, le, z)
  {
    if s != [] {
      SortStable(s[1..], le, z);
      InsertStable(s[0], Sort(s[1..], le), le, z);
      TiesCons(s[0], Sort(s[1..], le), le, z);
      TiesCons(s[0], s[1..], le, z);
      assert s == [s[0]] + s[1..];
    }
  }

  /** A comparator that finds every pair equal leaves the order unchanged. */
  lemma {:induction false} SortAllEqualIsIdentity<T(!new)>(s: seq<T>, le: (T, T) -> bool)
    requires forall a, b :: le(a, b)
    ensures Sort(s, le) == s
  {
    if s != [] {
      SortAllEqualIsIdentity(s[1..], le);
      assert s == [s[0]] + s[1..];
    }
  }
}
