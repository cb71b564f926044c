/** The string operations of JavaScript that the catalog uses, over `seq<char>`. */
module Text {

  /** WhiteSpace and LineTerminator code points of ECMA-262 (what `String.prototype.trim` strips). */
  predicate IsJsSpace(c: char) {
    || c == '\t' || c == '\n' || c == '\U{000B}' || c == '\U{000C}' || c == '\r' || c == ' '
    || c == '\U{00A0}' || c == '\U{1680}' || ('\U{2000}' <= c <= '\U{200A}')
    || c == '\U{2028}' || c == '\U{2029}' || c == '\U{202F}' || c == '\U{205F}'
    || c == '\U{3000}' || c == '\U{FEFF}'
  }

  predicate AllSpace(s: string) {
    forall i :: 0 <= i < |s| ==> IsJsSpace(s[i])
  }

  /** No white space at either end. */
  predicate IsTrimmed(s: string) {
    s == [] || (!IsJsSpace(s[0]) && !IsJsSpace(s[|s| - 1]))
  }

  /** Drops leading white space: the result is the longest suffix that does not start with it. */
  function TrimStart(s: string): (r: string)
    ensures |r| <= |s| && r == s[|s| - |r|..]
    ensures r == [] || !IsJsSpace(r[0])
    ensures AllSpace(s[..|s| - |r|])
  {
    if s != [] && IsJsSpace(s[0]) then TrimStart(s[1..]) else s
  }

  /** Drops trailing white space: the result is the longest prefix that does not end with it. */
  function TrimEnd(s: string): (r: string)
    ensures |r| <= |s| && r == s[..|r|]
    ensures r == [] || !IsJsSpace(r[|r| - 1])
    ensures AllSpace(s[|r|..])
  {
    if s != [] && IsJsSpace(s[|s| - 1]) then TrimEnd(s[..|s| - 1]) else s
  }

  /** `r` occurs in `s` at index `i` with only white space before and after it. */
  predicate SpacedAt(s: string, r: string, i: int) {
    0 <= i <= |s| - |r| && r == s[i..i + |r|] && AllSpace(s[..i]) && AllSpace(s[i + |r|..])
  }

  /**
   * When `t` is what is left of `s` after a leading white-space run, and `r` what is left of
   * `t` before a trailing one, with no white space at the inner ends, then `r` is the trimmed
   * slice of `s`.
   */
  lemma SliceBetweenSpaces(s: string, t: string, r: string)
    requires |t| <= |s| && t == s[|s| - |t|..] && AllSpace(s[..|s| - |t|])
    requires t == [] || !IsJsSpace(t[0])
    requires |r| <= |t| && r == t[..|r|] && AllSpace(t[|r|..])
    requires r == [] || !IsJsSpace(r[|r| - 1])
    ensures IsTrimmed(r)
    ensures forall c :: c in r ==> c in s
    ensures r == [] <==> AllSpace(s)
    ensures IsTrimmed(s) ==> r == s
    ensures exists i :: SpacedAt(s, r, i)
  {
    var i := |s| - |t|;
    assert t[|r|..] == s[i + |r|..];
    assert r == s[i..i + |r|];
    assert SpacedAt(s, r, i);
    assert forall c :: c in r ==> c in t;
    if r == [] {
      assert t == [] by { assert t[|r|..] == t; }
      assert s[..i] == s;
    }
    if IsTrimmed(s) && s != [] {
      assert t == s;
    }
  }

  /** `s.trim()`. */
  function Trim(s: string): (r: string)
    ensures IsTrimmed(r)
    ensures |r| <= |s|
    ensures forall c :: c in r ==> c in s
    ensures r == [] <==> AllSpace(s)
    ensures IsTrimmed(s) ==> r == s
    ensures exists i :: SpacedAt(s, r, i)
  {
    var t := TrimStart(s);
    var r := TrimEnd(t);
    SliceBetweenSpaces(s, t, r);
    r
  }

  /** The upper-case ASCII letters `A`-`Z` mapped to lower case; every other character kept. */
  function LowerChar(c: char): (r: char)
    ensures !('A' <= r <= 'Z')
    ensures !('A' <= c <= 'Z') ==> r == c
    ensures 'A' <= c <= 'Z' ==> 'a' <= r <= 'z'
  {
    if 'A' <= c <= 'Z' then (c as int + 32) as char else c
  }

  /** `s.toLowerCase()`, for ASCII letters. */
  function ToLower(s: string): (r: string)
    ensures |r| == |s|
    ensures forall i :: 0 <= i < |s| ==> r[i] == LowerChar(s[i])
  {
    seq(|s|, i requires 0 <= i < |s| => LowerChar(s[i]))
  }

  /** Lower-casing twice is lower-casing once. */
  lemma ToLowerIdempotent(s: string)
    ensures ToLower(ToLower(s)) == ToLower(s)
  {
  }

  /** Lower-casing neither creates nor removes white space. */
  lemma ToLowerKeepsSpace(s: string)
    ensures AllSpace(ToLower(s)) <==> AllSpace(s)
  {
    forall i | 0 <= i < |s| ensures IsJsSpace(ToLower(s)[i]) <==> IsJsSpace(s[i]) {
      assert ToLower(s)[i] == LowerChar(s[i]);
    }
  }

  /** `q` occurs in `s` starting at index `i`. */
  predicate OccursAt(s: string, q: string, i: int) {
    0 <= i && i + |q| <= |s| && s[i..i + |q|] == q
  }

  /** `s.includes(q)`: `q` occurs in `s` as a contiguous block (the empty string occurs everywhere). */
  function Includes(s: string, q: string): (r: bool)
    ensures r <==> exists i :: OccursAt(s, q, i)
    decreases |s|
  {
    if |q| > |s| then false
    else if s[..|q|] == q then assert OccursAt(s, q, 0); true
    else
      var r := Includes(s[1..], q);
      assert r ==> exists i :: OccursAt(s, q, i) by {
        if r {
          var i :| OccursAt(s[1..], q, i);
          assert s[1..][i..i + |q|] == s[i + 1..i + 1 + |q|];
          assert OccursAt(s, q, i + 1);
        }
      }
      assert (exists i :: OccursAt(s, q, i)) ==> r by {
        if i :| OccursAt(s, q, i) {
          assert i != 0;
          assert s[1..][i - 1..i - 1 + |q|] == s[i..i + |q|];
          assert OccursAt(s[1..], q, i - 1);
        }
      }
      r
  }

  /** `xs.join(sep)`. */
  function Join(xs: seq<string>, sep: string): string
  {
    if |xs| == 0 then "" else if |xs| == 1 then xs[0] else xs[0] + sep + Join(xs[1..], sep)
  }

  /** Every joined item occurs in the joined string. */
  lemma {:induction false} JoinIncludesItems(xs: seq<string>, sep: string, k: nat)
    requires k < |xs|
    ensures Includes(Join(xs, sep), xs[k])
  {
    var j := Join(xs, sep);
    if |xs| == 1 {
      assert OccursAt(j, xs[0], 0);
    } else if k == 0 {
      assert j[0..|xs[0]|] == xs[0];
      assert OccursAt(j, xs[0], 0);
    } else {
      JoinIncludesItems(xs[1..], sep, k - 1);
      var rest := Join(xs[1..], sep);
      var i :| OccursAt(rest, xs[k], i);
      var off := |xs[0]| + |sep|;
      assert j == xs[0] + sep + rest;
      assert j[off + i..off + i + |xs[k]|] == rest[i..i + |xs[k]|];
      assert OccursAt(j, xs[k], off + i);
    }
  }

  /** Where the `k`-th item starts in `Join(xs, sep)`: every earlier item and its separator come first. */
  function JoinOffset(xs: seq<string>, sep: string, k: nat): nat
    requires k <= |xs|
  {
    if k == 0 then 0 else JoinOffset(xs, sep, k - 1) + |xs[k - 1]| + |sep|
  }

  /** The offsets of `xs` are those of `xs[1..]` moved past the first item and its separator. */
  lemma {:induction false} JoinOffsetFront(xs: seq<string>, sep: string, k: nat)
    requires 1 <= k <= |xs|
    ensures JoinOffset(xs, sep, k) == |xs[0]| + |sep| + JoinOffset(xs[1..], sep, k - 1)
  {
    if k > 1 {
      JoinOffsetFront(xs, sep, k - 1);
    }
  }

  /** An occurrence in `s` is an occurrence in `p + s`, shifted by `|p|`. */
  lemma OccursAfter(p: string, s: string, q: string, i: int)
    requires OccursAt(s, q, i)
    ensures OccursAt(p + s, q, |p| + i)
  {
    assert (p + s)[|p| + i..|p| + i + |q|] == s[i..i + |q|];
  }

  /** `Join(xs, sep)` is `xs[0] + sep + Join(xs[1..], sep)` with its first two parts in one piece. */
  lemma JoinFront(xs: seq<string>, sep: string)
    requires |xs| > 1
    ensures Join(xs, sep) == (xs[0] + sep) + Join(xs[1..], sep)
    ensures Join(xs, sep)[0..|xs[0]|] == xs[0]
    ensures Join(xs, sep)[|xs[0]|..|xs[0]| + |sep|] == sep
  {
    assert Join(xs, sep) == (xs[0] + sep) + Join(xs[1..], sep);
  }

  /** The joined string ends where its last item ends. */
  lemma {:induction false} JoinLength(xs: seq<string>, sep: string)
    requires |xs| > 0
    ensures |Join(xs, sep)| == JoinOffset(xs, sep, |xs| - 1) + |xs[|xs| - 1]|
  {
    if |xs| > 1 {
      JoinLength(xs[1..], sep);
      JoinOffsetFront(xs, sep, |xs| - 1);
    }
  }

  /** Item `k` sits at `JoinOffset(xs, sep, k)` in the joined string. */
  lemma {:induction false} JoinItemAt(xs: seq<string>, sep: string, k: nat)
    requires k < |xs|
    ensures OccursAt(Join(xs, sep), xs[k], JoinOffset(xs, sep, k))
  {
    if |xs| == 1 {
      assert Join(xs, sep)[0..|xs[0]|] == xs[0];
    } else if k == 0 {
      JoinFront(xs, sep);
    } else {
      JoinFront(xs, sep);
      JoinItemAt(xs[1..], sep, k - 1);
      JoinOffsetFront(xs, sep, k);
      OccursAfter(xs[0] + sep, Join(xs[1..], sep), xs[k], JoinOffset(xs[1..], sep, k - 1));
    }
  }

  /** Right after every item but the last comes one separator. */
  lemma {:induction false} JoinSepAfter(xs: seq<string>, sep: string, k: nat)
    requires k < |xs| - 1
    ensures OccursAt(Join(xs, sep), sep, JoinOffset(xs, sep, k) + |xs[k]|)
  {
    JoinFront(xs, sep);
    if k > 0 {
      JoinSepAfter(xs[1..], sep, k - 1);
      JoinOffsetFront(xs, sep, k);
      OccursAfter(xs[0] + sep, Join(xs[1..], sep), sep, JoinOffset(xs[1..], sep, k - 1) + |xs[k]|);
    }
  }

  /** `s.split(d)` for a one-character separator `d`. */
  function Split(s: string, d: char): (r: seq<string>)
    ensures |r| >= 1
    ensures forall i :: 0 <= i < |r| ==> d !in r[i]
  {
    if s == [] then [""]
    else if s[0] == d then [""] + Split(s[1..], d)
    else
      var t := Split(s[1..], d);
      [[s[0]] + t[0]] + t[1..]
  }

  lemma JoinPrepend(x: string, y: string, rest: seq<string>, sep: string)
    ensures Join([x + y] + rest, sep) == x + Join([y] + rest, sep)
  {
    if rest != [] {
      assert ([x + y] + rest)[1..] == rest;
      assert ([y] + rest)[1..] == rest;
    }
  }

  /** Splitting and re-joining with the same separator gives the string back. */
  lemma {:induction false} SplitJoin(s: string, d: char)
    ensures Join(Split(s, d), [d]) == s
  {
    if s == [] {
    } else if s[0] == d {
      var t := Split(s[1..], d);
      SplitJoin(s[1..], d);
      assert ([""] + t)[1..] == t;
      assert s == [d] + s[1..];
    } else {
      var t := Split(s[1..], d);
      SplitJoin(s[1..], d);
      JoinPrepend([s[0]], t[0], t[1..], [d]);
      assert [t[0]] + t[1..] == t;
      assert s == [s[0]] + s[1..];
    }
  }
}
