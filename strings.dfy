/*
 * The Python string operations the source relies on, written out over
 * `seq<char>`: `strip`, `replace(c, '')`, `split(d)`, `d.join(...)`,
 * `startswith`, `endswith`, `find`, `rfind`, and the code-point ordering
 * that `sorted` and the database's `ORDER BY url` use.
 */
module Strings {
  import opened Outcomes

  /**
   * Python 2.7's `unicode.isspace()` for a single character: whitespace as
   * Unicode 5.2 defines it, which still counts U+180E MONGOLIAN VOWEL
   * SEPARATOR.
   */
  predicate IsSpace(c: char)
  {
    || ('\t' <= c <= '\r')
    || ('\U{1C}' <= c <= ' ')
    || c == '\U{85}' || c == '\U{A0}' || c == '\U{1680}'
    || ('\U{2000}' <= c <= '\U{200A}')
    || c == '\U{2028}' || c == '\U{2029}' || c == '\U{202F}'
    || c == '\U{205F}' || c == '\U{3000}'
    || c == '\U{180E}'
  }

  /** `s.lstrip()` */
  function TrimStart(s: string): (r: string)
    ensures |r| <= |s| && r == s[|s| - |r|..]
    ensures r == [] || !IsSpace(r[0])
    ensures forall k :: 0 <= k < |s| - |r| ==> IsSpace(s[k])
  {
    if |s| > 0 && IsSpace(s[0]) then TrimStart(s[1..]) else s
  }

  /** `s.rstrip()` */
  function TrimEnd(s: string): (r: string)
    ensures |r| <= |s| && r == s[..|r|]
    ensures r == [] || !IsSpace(r[|r| - 1])
    ensures forall k :: |r| <= k < |s| ==> IsSpace(s[k])
  {
    if |s| > 0 && IsSpace(s[|s| - 1]) then TrimEnd(s[..|s| - 1]) else s
  }

  /** Neither end of `s` is whitespace (vacuously true of the empty string). */
  predicate Trimmed(s: string)
  {
    s == [] || (!IsSpace(s[0]) && !IsSpace(s[|s| - 1]))
  }

  /** `s.strip()`: a string with whitespace cut off both ends, and nothing else. */
  function Strip(s: string): (r: string)
    ensures Trimmed(r)
    ensures |r| <= |s|
    ensures forall c :: c in r ==> c in s
  {
    TrimEnd(TrimStart(s))
  }

  /** An already trimmed string is left as it is by `strip()`. */
  lemma StripTrimmed(s: string)
    requires Trimmed(s)
    ensures Strip(s) == s
  {
    assert TrimStart(s) == s;
  }

  /** `s.replace(c, '')` */
  function Without(s: string, c: char): (r: string)
    ensures c !in r
    ensures |r| <= |s|
    ensures forall x {:trigger x in r} :: x != c ==> (x in r <==> x in s)
  {
    if s == [] then [] else (if s[0] == c then [] else [s[0]]) + Without(s[1..], c)
  }

  lemma {:induction false} WithoutAbsent(s: string, c: char)
    requires c !in s
    ensures Without(s, c) == s
  {
    if s != [] {
      WithoutAbsent(s[1..], c);
    }
  }

  lemma {:induction false} WithoutConcat(a: string, b: string, c: char)
    ensures Without(a + b, c) == Without(a, c) + Without(b, c)
  {
    if a == [] {
      assert a + b == b;
    } else {
      var ab := a + b;
      assert ab[0] == a[0] && ab[1..] == a[1..] + b;
      WithoutConcat(a[1..], b, c);
      var h: string := if a[0] == c then [] else [a[0]];
      calc {
        Without(ab, c);
        h + Without(a[1..] + b, c);
        h + (Without(a[1..], c) + Without(b, c));
        { assert h + (Without(a[1..], c) + Without(b, c)) == (h + Without(a[1..], c)) + Without(b, c); }
        (h + Without(a[1..], c)) + Without(b, c);
        Without(a, c) + Without(b, c);
      }
    }
  }

  /** Removing a character that is not at either end keeps both ends. */
  lemma WithoutKeepsEnds(s: string, c: char)
    requires s != [] && s[0] != c && s[|s| - 1] != c
    ensures var r := Without(s, c); r != [] && r[0] == s[0] && r[|r| - 1] == s[|s| - 1]
  {
    var n := |s|;
    assert s == s[..n - 1] + [s[n - 1]];
    WithoutConcat(s[..n - 1], [s[n - 1]], c);
    assert Without([s[n - 1]], c) == [s[n - 1]];
  }

  /** Removing a whitespace character from a trimmed string leaves it trimmed. */
  lemma WithoutSpaceTrimmed(t: string, c: char)
    requires Trimmed(t) && IsSpace(c)
    ensures Trimmed(Without(t, c))
  {
    if t != [] {
      WithoutKeepsEnds(t, c);
    }
  }

  /** `s.split(d)`: the pieces between the occurrences of `d`. */
  function Split(s: string, d: char): (parts: seq<string>)
    ensures |parts| >= 1
    ensures forall i :: 0 <= i < |parts| ==> d !in parts[i]
  {
    if |s| == 0 then [[]]
    else
      var rest := Split(s[1..], d);
      if s[0] == d then [[]] + rest else [[s[0]] + rest[0]] + rest[1..]
  }

  /** `d.join(parts)` */
  function Join(parts: seq<string>, d: char): string
  {
    if |parts| == 0 then []
    else if |parts| == 1 then parts[0]
    else parts[0] + [d] + Join(parts[1..], d)
  }

  /** Joining the pieces of a split gives back the string. */
  lemma {:induction false} JoinSplit(s: string, d: char)
    ensures Join(Split(s, d), d) == s
  {
    if |s| > 0 {
      JoinSplit(s[1..], d);
      var rest := Split(s[1..], d);
      if s[0] != d {
        if |rest| > 1 {
          assert Join(rest, d) == rest[0] + [d] + Join(rest[1..], d);
        }
      }
    }
  }

  /** Splitting a piece-free prefix glued to `t` extends the first piece of `t`. */
  lemma {:induction false} SplitFreePrefix(a: string, t: string, d: char)
    requires d !in a
    ensures Split(a + t, d) == [a + Split(t, d)[0]] + Split(t, d)[1..]
  {
    if a != [] {
      assert (a + t)[1..] == a[1..] + t;
      assert (a + t)[0] == a[0];
      SplitFreePrefix(a[1..], t, d);
      var st := Split(t, d);
      assert [a[0]] + (a[1..] + st[0]) == a + st[0];
    } else {
      assert a + t == t;
      var st := Split(t, d);
      assert st == [st[0]] + st[1..];
      assert a + st[0] == st[0];
    }
  }

  /** Splitting the join of delimiter-free pieces gives back the pieces. */
  lemma {:induction false} SplitJoin(parts: seq<string>, d: char)
    requires |parts| >= 1
    requires forall i :: 0 <= i < |parts| ==> d !in parts[i]
    ensures Split(Join(parts, d), d) == parts
  {
    if |parts| == 1 {
      assert Split([], d) == [[]];
      SplitFreePrefix(parts[0], [], d);
      assert parts[0] + [] == parts[0];
    } else {
      SplitJoin(parts[1..], d);
      var t := [d] + Join(parts[1..], d);
      assert parts[0] + [d] + Join(parts[1..], d) == parts[0] + t;
      SplitFreePrefix(parts[0], t, d);
      assert t[1..] == Join(parts[1..], d);
      assert Split(t, d) == [[]] + Split(t[1..], d);
      assert parts[0] + [] == parts[0];
      assert [parts[0]] + parts[1..] == parts;
    }
  }

  /** A string without the delimiter splits into itself. */
  lemma SplitNoDelim(s: string, d: char)
    requires d !in s
    ensures Split(s, d) == [s]
  {
    assert Split([], d) == [[]];
    SplitFreePrefix(s, [], d);
    assert s + [] == s;
  }

  /** Appending a piece appends the delimiter and the piece. */
  lemma {:induction false} JoinAppend(parts: seq<string>, last: string, d: char)
    requires |parts| >= 1
    ensures Join(parts + [last], d) == Join(parts, d) + [d] + last
  {
    if |parts| > 1 {
      assert (parts + [last])[1..] == parts[1..] + [last];
      JoinAppend(parts[1..], last, d);
    }
  }

  /** Prepending a piece prepends the piece and the delimiter. */
  lemma JoinPrepend(first: string, parts: seq<string>, d: char)
    requires |parts| >= 1
    ensures Join([first] + parts, d) == first + [d] + Join(parts, d)
  {
    assert ([first] + parts)[1..] == parts;
  }

  /** Joining two non-empty lists of pieces puts the delimiter between their joins. */
  lemma {:induction false} JoinConcat(p: seq<string>, q: seq<string>, d: char)
    requires |p| >= 1 && |q| >= 1
    ensures Join(p + q, d) == Join(p, d) + [d] + Join(q, d)
  {
    if |p| == 1 {
      JoinPrepend(p[0], q, d);
      assert [p[0]] + q == p + q;
    } else {
      JoinConcat(p[1..], q, d);
      assert (p + q)[1..] == p[1..] + q;
      assert (p + q)[0] == p[0];
    }
  }

  /** The pieces of `prefix + d + rest` are those of `prefix` followed by those of `rest`. */
  lemma SplitAt(prefix: string, rest: string, d: char)
    ensures Split(prefix + [d] + rest, d) == Split(prefix, d) + Split(rest, d)
  {
    var p := Split(prefix, d);
    var q := Split(rest, d);
    JoinSplit(prefix, d);
    JoinSplit(rest, d);
    JoinConcat(p, q, d);
    PiecesConcat(p, q, d);
    SplitJoin(p + q, d);
  }

  /** Two lists of pieces without the delimiter give one. */
  lemma PiecesConcat(p: seq<string>, q: seq<string>, d: char)
    requires forall i :: 0 <= i < |p| ==> d !in p[i]
    requires forall i :: 0 <= i < |q| ==> d !in q[i]
    ensures forall i :: 0 <= i < |p + q| ==> d !in (p + q)[i]
  {
    forall i | 0 <= i < |p + q|
      ensures d !in (p + q)[i]
    {
      if i >= |p| {
        assert (p + q)[i] == q[i - |p|];
      }
    }
  }

  /** `[p for p in parts if p]` */
  function NonEmpty(parts: seq<string>): (r: seq<string>)
    ensures |r| <= |parts|
    ensures forall i :: 0 <= i < |r| ==> r[i] != [] && r[i] in parts
  {
    if |parts| == 0 then []
    else (if parts[0] == [] then [] else [parts[0]]) + NonEmpty(parts[1..])
  }

  lemma {:induction false} NonEmptyConcat(a: seq<string>, b: seq<string>)
    ensures NonEmpty(a + b) == NonEmpty(a) + NonEmpty(b)
  {
    if a == [] {
      assert a + b == b;
    } else {
      var ab := a + b;
      assert ab[0] == a[0] && ab[1..] == a[1..] + b;
      NonEmptyConcat(a[1..], b);
      var h: seq<string> := if a[0] == [] then [] else [a[0]];
      calc {
        NonEmpty(ab);
        h + NonEmpty(a[1..] + b);
        h + (NonEmpty(a[1..]) + NonEmpty(b));
        { assert h + (NonEmpty(a[1..]) + NonEmpty(b)) == (h + NonEmpty(a[1..])) + NonEmpty(b); }
        (h + NonEmpty(a[1..])) + NonEmpty(b);
        NonEmpty(a) + NonEmpty(b);
      }
    }
  }

  lemma {:induction false} NonEmptyOfNonEmpty(parts: seq<string>)
    requires forall i :: 0 <= i < |parts| ==> parts[i] != []
    ensures NonEmpty(parts) == parts
  {
    if parts != [] {
      NonEmptyOfNonEmpty(parts[1..]);
    }
  }

  predicate StartsWith(s: string, prefix: string)
  {
    |prefix| <= |s| && s[..|prefix|] == prefix
  }

  predicate EndsWith(s: string, suffix: string)
  {
    |suffix| <= |s| && s[|s| - |suffix|..] == suffix
  }

  /** A concatenation starts with its first part and ends with its second. */
  lemma ConcatEnds(a: string, b: string)
    ensures StartsWith(a + b, a) && EndsWith(a + b, b)
  {
    assert (a + b)[..|a|] == a;
    assert (a + b)[|a|..] == b;
  }

  /** `pat` occurs in `s` at index `k`. */
  predicate OccursAt(s: string, pat: string, k: nat)
  {
    k + |pat| <= |s| && s[k..k + |pat|] == pat
  }

  /** `s.find(pat, i)`, as an Option: the first occurrence at or after `i`. */
  function FindFrom(s: string, pat: string, i: nat): (r: Option<nat>)
    requires i <= |s|
    ensures r.Some? ==> i <= r.value && OccursAt(s, pat, r.value)
    ensures r.Some? ==> forall k :: i <= k < r.value ==> !OccursAt(s, pat, k)
    ensures r.None? ==> forall k :: i <= k <= |s| ==> !OccursAt(s, pat, k)
    decreases |s| - i
  {
    if OccursAt(s, pat, i) then Some(i)
    else if i == |s| then None
    else FindFrom(s, pat, i + 1)
  }

  /** `s.find(pat)`: the first occurrence of `pat` in `s`. */
  function Find(s: string, pat: string): (r: Option<nat>)
    ensures r.Some? ==> OccursAt(s, pat, r.value) && forall k :: 0 <= k < r.value ==> !OccursAt(s, pat, k)
    ensures r.None? ==> forall k :: 0 <= k <= |s| ==> !OccursAt(s, pat, k)
  {
    FindFrom(s, pat, 0)
  }

  /** `s.rfind(c)` for one character. */
  function LastIndex(s: string, c: char): (r: Option<nat>)
    ensures r.Some? ==> r.value < |s| && s[r.value] == c && c !in s[r.value + 1..]
    ensures r.None? ==> c !in s
  {
    if |s| == 0 then None
    else if s[|s| - 1] == c then Some(|s| - 1)
    else LastIndex(s[..|s| - 1], c)
  }

  // ---------------------------------------------------------------------
  // Code-point ordering of strings (Python's `<` on str; `ORDER BY url`)
  // ---------------------------------------------------------------------

  predicate LessEq(a: string, b: string)
  {
    |a| == 0 || (|b| > 0 && (a[0] < b[0] || (a[0] == b[0] && LessEq(a[1..], b[1..]))))
  }

  lemma {:induction false} LessEqAntisymmetric(a: string, b: string)
    requires LessEq(a, b) && LessEq(b, a)
    ensures a == b
  {
    if |a| > 0 && |b| > 0 {
      LessEqAntisymmetric(a[1..], b[1..]);
      assert a == [a[0]] + a[1..] && b == [b[0]] + b[1..];
    }
  }

  lemma {:induction false} LessEqTransitive(a: string, b: string, c: string)
    requires LessEq(a, b) && LessEq(b, c)
    ensures LessEq(a, c)
  {
    if |a| > 0 && |b| > 0 && |c| > 0 && a[0] == b[0] == c[0] {
      LessEqTransitive(a[1..], b[1..], c[1..]);
    }
  }

  lemma {:induction false} LessEqTotal(a: string, b: string)
    ensures LessEq(a, b) || LessEq(b, a)
  {
    if |a| > 0 && |b| > 0 && a[0] == b[0] {
      LessEqTotal(a[1..], b[1..]);
    }
  }

  lemma {:induction false} LessEqReflexive(a: string)
    ensures LessEq(a, a)
  {
    if |a| > 0 {
      LessEqReflexive(a[1..]);
    }
  }

  /** A proper prefix sorts before the longer string. */
  lemma {:induction false} PrefixLessEq(a: string, b: string)
    requires StartsWith(b, a)
    ensures LessEq(a, b)
  {
    if |a| > 0 {
      assert b[1..][..|a| - 1] == a[1..];
      PrefixLessEq(a[1..], b[1..]);
    }
  }

  /** Every finite non-empty set of strings has a least element. */
  lemma {:induction false} HasLeast(s: set<string>)
    requires s != {}
    ensures exists m :: m in s && forall x :: x in s ==> LessEq(m, x)
  {
    var y :| y in s;
    if s == {y} {
      LessEqReflexive(y);
      assert forall x :: x in s ==> x == y;
    } else {
      HasLeast(s - {y});
      var m :| m in s - {y} && forall x :: x in s - {y} ==> LessEq(m, x);
      LessEqTotal(m, y);
      if LessEq(m, y) {
        assert forall x :: x in s ==> LessEq(m, x);
      } else {
        forall x | x in s
          ensures LessEq(y, x)
        {
          if x == y {
            LessEqReflexive(y);
          } else {
            LessEqTransitive(y, m, x);
          }
        }
      }
    }
  }

  /** The least element of a non-empty set. */
  function Least(s: set<string>): (m: string)
    requires s != {}
    ensures m in s && forall x :: x in s ==> LessEq(m, x)
  {
    HasLeast(s);
    forall a, b | LessEq(a, b) && LessEq(b, a)
      ensures a == b
    {
      LessEqAntisymmetric(a, b);
    }
    var m :| m in s && forall x :: x in s ==> LessEq(m, x);
    m
  }

  /** Strictly increasing in code-point order (hence without duplicates). */
  predicate StrictlySorted(r: seq<string>)
  {
    forall i, j :: 0 <= i < j < |r| ==> LessEq(r[i], r[j]) && r[i] != r[j]
  }

  /** The elements of a set in increasing order (`sorted(s)`, `ORDER BY`). */
  function Sorted(s: set<string>): (r: seq<string>)
    ensures |r| == |s|
    ensures forall x :: x in r <==> x in s
    ensures StrictlySorted(r)
  {
    if s == {} then []
    else
      var m := Least(s);
      var rest := Sorted(s - {m});
      LeastThenSorted(m, rest, s);
      [m] + rest
  }

  /** The least element followed by the sorted rest is sorted and holds the whole set. */
  lemma LeastThenSorted(m: string, rest: seq<string>, s: set<string>)
    requires m in s && forall x :: x in s ==> LessEq(m, x)
    requires |rest| == |s - {m}| && StrictlySorted(rest)
    requires forall x :: x in rest <==> x in s - {m}
    ensures |[m] + rest| == |s|
    ensures forall x :: x in [m] + rest <==> x in s
    ensures StrictlySorted([m] + rest)
  {
    var r := [m] + rest;
    assert |s - {m}| == |s| - 1;
    forall i, j | 0 <= i < j < |r|
      ensures LessEq(r[i], r[j]) && r[i] != r[j]
    {
      assert r[j] == rest[j - 1] && rest[j - 1] in rest;
      if i > 0 {
        assert r[i] == rest[i - 1];
      }
    }
  }

  /** Two strictly sorted sequences holding the same strings are equal. */
  lemma {:induction false} StrictlySortedUnique(a: seq<string>, b: seq<string>)
    requires StrictlySorted(a) && StrictlySorted(b)
    requires |a| == |b| && forall x :: x in a <==> x in b
    ensures a == b
  {
    if a != [] && b != [] {
      assert a[0] in a && b[0] in b;
      if a[0] != b[0] {
        var i :| 0 <= i < |b| && b[i] == a[0];
        var j :| 0 <= j < |a| && a[j] == b[0];
        assert LessEq(b[0], a[0]) && LessEq(a[0], b[0]);
        LessEqAntisymmetric(a[0], b[0]);
      }
      forall x
        ensures x in a[1..] <==> x in b[1..]
      {
        if x in a[1..] {
          var k :| 0 <= k < |a| - 1 && a[1..][k] == x;
          assert a[k + 1] == x && x != a[0];
          assert x in a;
          var m :| 0 <= m < |b| && b[m] == x;
          assert m != 0 && b[1..][m - 1] == x;
        }
        if x in b[1..] {
          var k :| 0 <= k < |b| - 1 && b[1..][k] == x;
          assert b[k + 1] == x && x != b[0];
          assert x in b;
          var m :| 0 <= m < |a| && a[m] == x;
          assert m != 0 && a[1..][m - 1] == x;
        }
      }
      StrictlySortedUnique(a[1..], b[1..]);
      assert a == [a[0]] + a[1..] && b == [b[0]] + b[1..];
    }
  }

  /** `s[::-1]` for a sequence. */
  function Reverse<T>(s: seq<T>): (r: seq<T>)
    ensures |r| == |s|
    ensures forall i :: 0 <= i < |s| ==> r[i] == s[|s| - 1 - i]
    ensures multiset(r) == multiset(s)
  {
    if s == [] then [] else
      assert s == [s[0]] + s[1..];
      Reverse(s[1..]) + [s[0]]
  }
}
