/** Sequence operations behind JavaScript's `Array.prototype.filter`, `slice` and `new Set(...)`. */
module Seqs {

  /** `a` is `b` with some elements left out, the rest kept in order. */
  ghost predicate IsSubsequence<T>(a: seq<T>, b: seq<T>)
    decreases |b|
  {
    if a == [] then true
    else if b == [] then false
    else (a[0] == b[0] && IsSubsequence(a[1..], b[1..])) || IsSubsequence(a, b[1..])
  }

  lemma {:induction false} SubsequenceOfSelf<T>(s: seq<T>)
    ensures IsSubsequence(s, s)
  {
    if s != [] { SubsequenceOfSelf(s[1..]); }
  }

  lemma {:induction false} PrefixIsSubsequence<T>(s: seq<T>, n: nat)
    requires n <= |s|
    ensures IsSubsequence(s[..n], s)
  {
    if n > 0 {
      PrefixIsSubsequence(s[1..], n - 1);
      assert s[..n][1..] == s[1..][..n - 1];
    }
  }

  lemma {:induction false} SubsequenceTransitive<T>(a: seq<T>, b: seq<T>, c: seq<T>)
    requires IsSubsequence(a, b) && IsSubsequence(b, c)
    ensures IsSubsequence(a, c)
    decreases |c|
  {
    if a == [] {
    } else if a[0] == b[0] && IsSubsequence(a[1..], b[1..]) {
      if b[0] == c[0] && IsSubsequence(b[1..], c[1..]) {
        SubsequenceTransitive(a[1..], b[1..], c[1..]);
      } else {
        SubsequenceTransitive(a, b, c[1..]);
      }
    } else {
      if b[0] == c[0] && IsSubsequence(b[1..], c[1..]) {
        SubsequenceTransitive(a, b[1..], c[1..]);
      } else {
        SubsequenceTransitive(a, b, c[1..]);
      }
    }
  }

  /** No value occurs twice. */
  predicate NoDup<T(==)>(s: seq<T>) {
    forall i, j :: 0 <= i < j < |s| ==> s[i] != s[j]
  }

  /** The set of values of `s`. */
  function Elements<T>(s: seq<T>): set<T> {
    set x | x in s
  }

  /** A duplicate-free sequence has as many elements as values. */
  lemma {:induction false} NoDupCard<T>(s: seq<T>)
    requires NoDup(s)
    ensures |Elements(s)| == |s|
  {
    if s != [] {
      NoDupCard(s[1..]);
      assert Elements(s) == {s[0]} + Elements(s[1..]);
      forall j | 0 <= j < |s| - 1
        ensures s[1..][j] != s[0]
      {
        assert s[1..][j] == s[j + 1];
      }
    }
  }

  /**
   * Two duplicate-free sequences, one holding only values of the other, hold the same
   * values exactly when they have the same length.
   */
  lemma SameLengthIffSameValues<T>(a: seq<T>, b: seq<T>)
    requires NoDup(a) && NoDup(b)
    requires forall x :: x in a ==> x in b
    ensures |a| == |b| <==> Elements(a) == Elements(b)
  {
    NoDupCard(a);
    NoDupCard(b);
    assert Elements(a) <= Elements(b);
    if Elements(a) != Elements(b) {
      assert !(Elements(b) <= Elements(a));
      var x :| x in Elements(b) && x !in Elements(a);
      var d := Elements(b) - Elements(a);
      assert Elements(b) == Elements(a) + d;
      assert x in d;
      assert |a| < |b|;
    }
  }

  /** `s.filter(p)`. */
  function Filter<T(!new)>(s: seq<T>, p: T -> bool): (r: seq<T>)
    ensures |r| <= |s|
  {
    if s == [] then []
    else
      var rest := Filter(s[1..], p);
      if p(s[0]) then [s[0]] + rest else rest
  }

  /**
   * The filter keeps exactly the elements that pass, each as often as in `s`, in
   * their order in `s`.
   */
  lemma {:induction false} FilterSpec<T(!new)>(s: seq<T>, p: T -> bool)
    ensures forall x :: x in Filter(s, p) <==> x in s && p(x)
    ensures forall x :: multiset(Filter(s, p))[x] == if p(x) then multiset(s)[x] else 0
    ensures IsSubsequence(Filter(s, p), s)
  {
    if s != [] {
      FilterSpec(s[1..], p);
      assert s == [s[0]] + s[1..];
    }
  }

  lemma NoDupTail<T>(s: seq<T>)
    requires NoDup(s) && s != []
    ensures NoDup(s[1..]) && s[0] !in s[1..]
  {
    forall j | 0 <= j < |s| - 1 ensures s[1..][j] != s[0] {
      assert s[1..][j] == s[j + 1];
    }
    forall i, j | 0 <= i < j < |s| - 1 ensures s[1..][i] != s[1..][j] {
      assert s[1..][i] == s[i + 1] && s[1..][j] == s[j + 1];
    }
  }

  lemma NoDupCons<T>(x: T, t: seq<T>)
    requires NoDup(t) && x !in t
    ensures NoDup([x] + t)
  {
    var r := [x] + t;
    forall i, j | 0 <= i < j < |r| ensures r[i] != r[j] {
      assert r[j] == t[j - 1];
      if i > 0 { assert r[i] == t[i - 1]; }
    }
  }

  /** Duplicate-free means every value occurs at most once. */
  lemma {:induction false} NoDupIffAtMostOnce<T>(s: seq<T>)
    ensures NoDup(s) <==> forall x :: multiset(s)[x] <= 1
  {
    if s != [] {
      NoDupIffAtMostOnce(s[1..]);
      assert s == [s[0]] + s[1..];
      assert multiset(s) == multiset{s[0]} + multiset(s[1..]);
      if NoDup(s) {
        NoDupTail(s);
      } else {
        var i, j :| 0 <= i < j < |s| && s[i] == s[j];
        if i == 0 {
          assert s[j] == s[1..][j - 1];
          assert multiset(s)[s[0]] >= 2;
        } else {
          assert s[i] == s[1..][i - 1] && s[j] == s[1..][j - 1];
          assert !NoDup(s[1..]);
        }
      }
      if forall x :: multiset(s)[x] <= 1 {
        assert s[0] !in s[1..];
        assert forall x :: multiset(s[1..])[x] <= multiset(s)[x];
        NoDupCons(s[0], s[1..]);
      }
    }
  }

  /** Reordering keeps a sequence duplicate-free. */
  lemma PermutationKeepsNoDup<T>(a: seq<T>, b: seq<T>)
    requires multiset(a) == multiset(b) && NoDup(a)
    ensures NoDup(b)
  {
    NoDupIffAtMostOnce(a);
    NoDupIffAtMostOnce(b);
  }

  /** A filter that passes every element changes nothing. */
  lemma {:induction false} FilterAll<T(!new)>(s: seq<T>, p: T -> bool)
    requires forall x :: x in s ==> p(x)
    ensures Filter(s, p) == s
  {
    if s != [] {
      FilterAll(s[1..], p);
      assert s == [s[0]] + s[1..];
    }
  }

  /** Filtering never introduces a duplicate. */
  lemma {:induction false} FilterNoDup<T(!new)>(s: seq<T>, p: T -> bool)
    requires NoDup(s)
    ensures NoDup(Filter(s, p))
  {
    if s != [] {
      NoDupTail(s);
      FilterNoDup(s[1..], p);
      if p(s[0]) {
        FilterSpec(s[1..], p);
        NoDupCons(s[0], Filter(s[1..], p));
      }
    }
  }

  /** The filter keeps every element exactly when every element passes. */
  lemma {:induction false} FilterKeepsLength<T(!new)>(s: seq<T>, p: T -> bool)
    ensures |Filter(s, p)| == |s| <==> forall x :: x in s ==> p(x)
  {
    if s != [] {
      FilterKeepsLength(s[1..], p);
      assert s == [s[0]] + s[1..];
    }
  }

  /** Two tests that agree on every element filter alike. */
  lemma {:induction false} FilterCongruent<T(!new)>(s: seq<T>, p: T -> bool, q: T -> bool)
    requires forall x :: x in s ==> p(x) == q(x)
    ensures Filter(s, p) == Filter(s, q)
  {
    if s != [] {
      assert s[0] in s;
      assert forall x :: x in s[1..] ==> x in s;
      FilterCongruent(s[1..], p, q);
    }
  }

  /** Filtering by `p` and then by `q` is filtering once by a test that asks both. */
  lemma {:induction false} FilterTwice<T(!new)>(s: seq<T>, p: T -> bool, q: T -> bool, both: T -> bool)
    requires forall x :: both(x) == (p(x) && q(x))
    ensures Filter(Filter(s, p), q) == Filter(s, both)
  {
    if s != [] {
      FilterTwice(s[1..], p, q, both);
    }
  }

  /** `s.slice(0, n)`: the first `n` elements, or all of them when there are fewer. */
  function Take<T>(s: seq<T>, n: nat): (r: seq<T>)
    ensures |r| <= n && |r| <= |s|
    ensures |s| <= n ==> r == s
    ensures |s| > n ==> |r| == n
    ensures r == s[..|r|]
  {
    if |s| <= n then s else s[..n]
  }

  /** `Array.from(new Set(s))`: the first occurrence of every value, in order. */
  function Dedup<T(==,!new)>(s: seq<T>): (r: seq<T>)
    ensures |r| <= |s|
  {
    if s == [] then []
    else
      var d := Dedup(s[..|s| - 1]);
      if s[|s| - 1] in d then d else d + [s[|s| - 1]]
  }

  /** The result holds every value of `s` exactly once. */
  lemma {:induction false} DedupSpec<T(!new)>(s: seq<T>)
    ensures NoDup(Dedup(s))
    ensures forall x :: x in Dedup(s) <==> x in s
    decreases |s|
  {
    if s != [] {
      DedupSpec(s[..|s| - 1]);
      assert s == s[..|s| - 1] + [s[|s| - 1]];
    }
  }
}
