/** String operations the front end takes from JavaScript: `toLowerCase`
    (ASCII letters only), `includes`, `trim`, and the default `sort` of
    `Array.from(new Set(...))`. */
module Text {

  /** ASCII lower-casing of one character; every other character is kept. */
  function Lower(c: char): (d: char)
    ensures 'A' <= c <= 'Z' ==> 'a' <= d <= 'z' && d as int == c as int + 32
    ensures !('A' <= c <= 'Z') ==> d == c
  {
    if 'A' <= c <= 'Z' then (c as int + 32) as char else c
  }

  function LowerStr(s: string): (r: string)
    ensures |r| == |s|
    ensures forall i :: 0 <= i < |s| ==> r[i] == Lower(s[i])
  {
    seq(|s|, i requires 0 <= i < |s| => Lower(s[i]))
  }

  /** Lower-casing twice is lower-casing once. */
  lemma LowerStrIdempotent(s: string)
    ensures LowerStr(LowerStr(s)) == LowerStr(s)
  {
  }

  /** `needle` occurs in `hay` at some position (`String.prototype.includes`). */
  predicate Contains(hay: string, needle: string)
    decreases |hay|
  {
    needle <= hay || (hay != [] && Contains(hay[1..], needle))
  }

  /** Every string contains the empty string. */
  lemma ContainsEmpty(hay: string)
    ensures Contains(hay, "")
  {
  }

  /** `needle` sits in `hay` starting at position `k`. */
  predicate OccursAt(hay: string, needle: string, k: int)
  {
    0 <= k <= |hay| - |needle| && hay[k..k + |needle|] == needle
  }

  /** `Contains` holds exactly when `needle` occurs at some position. */
  lemma {:induction false} ContainsAt(hay: string, needle: string)
    ensures Contains(hay, needle) <==> exists k :: OccursAt(hay, needle, k)
    decreases |hay|
  {
    if needle <= hay {
      assert OccursAt(hay, needle, 0);
    } else if hay != [] {
      ContainsAt(hay[1..], needle);
      if Contains(hay[1..], needle) {
        var k :| OccursAt(hay[1..], needle, k);
        assert hay[k + 1..k + 1 + |needle|] == hay[1..][k..k + |needle|];
        assert OccursAt(hay, needle, k + 1);
      }
      if exists k :: OccursAt(hay, needle, k) {
        var k :| OccursAt(hay, needle, k);
        assert k != 0 ==> hay[1..][k - 1..k - 1 + |needle|] == hay[k..k + |needle|];
        assert k != 0 ==> OccursAt(hay[1..], needle, k - 1);
      }
    } else {
      assert forall k :: OccursAt(hay, needle, k) ==> needle == [];
    }
  }

  /** The characters ECMAScript's `trim` removes: WhiteSpace and LineTerminator
      (tab, line tab, form feed, space, no-break space, BOM, the space
      separators of category Zs, LF, CR, LS, PS). */
  predicate IsSpace(c: char)
  {
    SpaceFrom(c as int, 0)
  }

  /** The code points of those characters. */
  const SpaceCodes: seq<int> := [
    0x09, 0x0A, 0x0B, 0x0C, 0x0D, 0x20, 0xA0, 0x1680,
    0x2000, 0x2001, 0x2002, 0x2003, 0x2004, 0x2005, 0x2006, 0x2007,
    0x2008, 0x2009, 0x200A, 0x2028, 0x2029, 0x202F, 0x205F, 0x3000, 0xFEFF]

  /** `n` is one of `SpaceCodes[k..]`. */
  predicate SpaceFrom(n: int, k: nat)
    decreases |SpaceCodes| - k
  {
    k < |SpaceCodes| && (SpaceCodes[k] == n || SpaceFrom(n, k + 1))
  }

  lemma {:induction false} SpaceFromIn(n: int, k: nat)
    requires k <= |SpaceCodes|
    ensures SpaceFrom(n, k) <==> exists j :: k <= j < |SpaceCodes| && SpaceCodes[j] == n
    decreases |SpaceCodes| - k
  {
    if k < |SpaceCodes| {
      SpaceFromIn(n, k + 1);
    }
  }

  /** A character is white space exactly when its code point is listed. */
  lemma IsSpaceCodes(c: char)
    ensures IsSpace(c) <==> c as int in SpaceCodes
  {
    SpaceFromIn(c as int, 0);
  }

  /** `s` without its leading white space. */
  function TrimStart(s: string): (r: string)
    ensures |r| <= |s|
  {
    if s != [] && IsSpace(s[0]) then TrimStart(s[1..]) else s
  }

  /** `TrimStart` drops a prefix made only of white space and stops at the
      first character that is not. */
  lemma {:induction false} TrimStartSpec(s: string)
    ensures var r := TrimStart(s);
      r == s[|s| - |r|..] && (r == [] || !IsSpace(r[0])) &&
      forall i :: 0 <= i < |s| - |r| ==> IsSpace(s[i])
  {
    if s != [] && IsSpace(s[0]) {
      var t := s[1..];
      TrimStartSpec(t);
      var r := TrimStart(t);
      assert TrimStart(s) == r;
      assert t[|t| - |r|..] == s[|s| - |r|..];
      forall i | 0 <= i < |s| - |r| ensures IsSpace(s[i]) {
        if i > 0 {
          assert s[i] == t[i - 1];
        }
      }
    }
  }

  /** `s` without its trailing white space. */
  function TrimEnd(s: string): (r: string)
    ensures |r| <= |s|
  {
    if s != [] && IsSpace(s[|s| - 1]) then TrimEnd(s[..|s| - 1]) else s
  }

  /** `TrimEnd` drops a suffix made only of white space and stops at the
      last character that is not. */
  lemma {:induction false} TrimEndSpec(s: string)
    ensures var r := TrimEnd(s);
      r == s[..|r|] && (r == [] || !IsSpace(r[|r| - 1])) &&
      forall i :: |r| <= i < |s| ==> IsSpace(s[i])
  {
    if s != [] && IsSpace(s[|s| - 1]) {
      var t := s[..|s| - 1];
      TrimEndSpec(t);
      var r := TrimEnd(t);
      assert TrimEnd(s) == r;
      assert t[..|r|] == s[..|r|];
      forall i | |r| <= i < |s| ensures IsSpace(s[i]) {
        if i < |s| - 1 {
          assert s[i] == t[i];
        }
      }
    }
  }

  /** `String.prototype.trim`. */
  function Trim(s: string): (r: string)
  {
    TrimEnd(TrimStart(s))
  }

  /** The trimmed string is a contiguous piece of `s`, and everything cut
      off is white space. */
  lemma TrimIsCore(s: string)
    ensures exists a, b ::
      (0 <= a <= b <= |s| && Trim(s) == s[a..b] &&
       (forall i :: 0 <= i < a ==> IsSpace(s[i])) &&
       (forall i :: b <= i < |s| ==> IsSpace(s[i])))
  {
    var t := TrimStart(s);
    var r := TrimEnd(t);
    var a := |s| - |t|;
    TrimStartSpec(s);
    TrimEndSpec(t);
    PrefixOfSuffix(s, t, r, a);
    SpacesAfter(s, t, a, |r|);
    assert Trim(s) == r;
  }

  /** A prefix `r` of the suffix `t` of `s` that starts at `a` is the slice of
      `s` from `a`. */
  lemma PrefixOfSuffix(s: string, t: string, r: string, a: int)
    requires 0 <= a <= |s| && t == s[a..] && |r| <= |t| && r == t[..|r|]
    ensures r == s[a..a + |r|]
  {
  }

  /** White space past position `n` of a suffix `t` of `s` is white space
      past position `a + n` of `s`. */
  lemma SpacesAfter(s: string, t: string, a: int, n: int)
    requires 0 <= a <= |s| && t == s[a..] && 0 <= n <= |t|
    requires forall j :: n <= j < |t| ==> IsSpace(t[j])
    ensures forall i :: a + n <= i < |s| ==> IsSpace(s[i])
  {
    forall i | a + n <= i < |s| ensures IsSpace(s[i]) {
      assert s[i] == t[i - a];
    }
  }

  /** The trimmed string neither starts nor ends with white space. */
  lemma TrimEndsNotSpace(s: string)
    ensures Trim(s) == [] || (!IsSpace(Trim(s)[0]) && !IsSpace(Trim(s)[|Trim(s)| - 1]))
  {
    var t := TrimStart(s);
    var r := TrimEnd(t);
    TrimStartSpec(s);
    TrimEndSpec(t);
    if r != [] {
      assert r[0] == t[0];
    }
  }

  /** A string is blank after trimming exactly when all of it is white space:
      the test `!s.trim()` rejects whitespace-only input and nothing else. */
  lemma TrimEmptyIff(s: string)
    ensures Trim(s) == [] <==> forall i :: 0 <= i < |s| ==> IsSpace(s[i])
  {
    var t := TrimStart(s);
    TrimStartSpec(s);
    TrimEndSpec(t);
    assert t != [] ==> t[0] == s[|s| - |t|];
    assert t != [] ==> TrimEnd(t) != [];
  }

  /** Trimming a trimmed string changes nothing. */
  lemma TrimIdempotent(s: string)
    ensures Trim(Trim(s)) == Trim(s)
  {
    var r := Trim(s);
    TrimEndsNotSpace(s);
    assert TrimStart(r) == r;
    assert TrimEnd(r) == r;
  }

  /** Lexicographic order on strings, character by character: JavaScript's
      default `sort` comparison. */
  predicate LexLess(a: string, b: string)
  {
    if a == [] then b != []
    else if b == [] then false
    else if a[0] != b[0] then a[0] < b[0]
    else LexLess(a[1..], b[1..])
  }

  lemma {:induction false} LexIrreflexive(a: string)
    ensures !LexLess(a, a)
  {
    if a != [] {
      LexIrreflexive(a[1..]);
    }
  }

  lemma {:induction false} LexTransitive(a: string, b: string, c: string)
    requires LexLess(a, b) && LexLess(b, c)
    ensures LexLess(a, c)
  {
    if a != [] && b != [] && c != [] && a[0] == b[0] && b[0] == c[0] {
      LexTransitive(a[1..], b[1..], c[1..]);
    }
  }

  lemma {:induction false} LexTotal(a: string, b: string)
    requires a != b
    ensures LexLess(a, b) || LexLess(b, a)
  {
    if a != [] && b != [] && a[0] == b[0] {
      assert a == [a[0]] + a[1..] && b == [b[0]] + b[1..];
      LexTotal(a[1..], b[1..]);
    }
  }

  /** Each string is strictly smaller than every later one. */
  ghost predicate StrictlySorted(s: seq<string>)
  {
    forall i, j :: 0 <= i < j < |s| ==> LexLess(s[i], s[j])
  }

  /** Strict order between neighbours is strict order between all pairs. */
  lemma {:induction false} NeighboursSorted(s: seq<string>)
    requires forall i :: 0 <= i < |s| - 1 ==> LexLess(s[i], s[i + 1])
    ensures StrictlySorted(s)
  {
    if |s| > 1 {
      NeighboursSorted(s[1..]);
      forall j | 1 < j < |s| ensures LexLess(s[0], s[j]) {
        assert LexLess(s[1], s[j]) by {
          assert s[1] == s[1..][0] && s[j] == s[1..][j - 1];
        }
        LexTransitive(s[0], s[1], s[j]);
      }
      forall i, j | 0 <= i < j < |s| ensures LexLess(s[i], s[j]) {
        if i > 0 {
          assert s[i] == s[1..][i - 1] && s[j] == s[1..][j - 1];
        }
      }
    }
  }

  /** A strictly sorted sequence has no repeated element. */
  lemma StrictlySortedDistinct(s: seq<string>)
    requires StrictlySorted(s)
    ensures forall i, j :: 0 <= i < j < |s| ==> s[i] != s[j]
  {
    forall i, j | 0 <= i < j < |s| ensures s[i] != s[j] {
      LexIrreflexive(s[i]);
    }
  }

  /** A strictly sorted sequence holds each value at most once. */
  lemma {:induction false} StrictlySortedOnce(s: seq<string>, x: string)
    requires StrictlySorted(s)
    ensures multiset(s)[x] <= 1
  {
    if s != [] {
      assert s == [s[0]] + s[1..];
      assert StrictlySorted(s[1..]);
      StrictlySortedOnce(s[1..], x);
      if x == s[0] {
        forall k | 0 <= k < |s[1..]| ensures s[1..][k] != x {
          LexIrreflexive(x);
          assert LexLess(s[0], s[k + 1]);
        }
        assert x !in multiset(s[1..]);
      }
    }
  }

  /** Two strictly sorted sequences with the same elements are equal: the
      sorted list of a set of strings is unique. */
  lemma {:induction false} SortedUnique(a: seq<string>, b: seq<string>)
    requires StrictlySorted(a) && StrictlySorted(b)
    requires forall x :: x in a <==> x in b
    ensures a == b
  {
    assert a != [] ==> a[0] in a;
    assert b != [] ==> b[0] in b;
    if a != [] && b != [] {
      assert a[0] in b;
      var k :| 0 <= k < |b| && b[k] == a[0];
      assert b[0] in a;
      var m :| 0 <= m < |a| && a[m] == b[0];
      if k > 0 && m > 0 {
        LexTransitive(a[0], b[0], a[0]);
        LexIrreflexive(a[0]);
      } else if k > 0 {
        LexIrreflexive(a[0]);
      } else if m > 0 {
        LexIrreflexive(b[0]);
      }
      assert a[0] == b[0];
      forall x ensures x in a[1..] <==> x in b[1..] {
        if x in a[1..] {
          var i :| 0 <= i < |a[1..]| && a[1..][i] == x;
          assert LexLess(a[0], a[i + 1]);
          LexIrreflexive(x);
          assert x in b;
        }
        if x in b[1..] {
          var i :| 0 <= i < |b[1..]| && b[1..][i] == x;
          assert LexLess(b[0], b[i + 1]);
          LexIrreflexive(x);
          assert x in a;
        }
      }
      assert StrictlySorted(a[1..]) && StrictlySorted(b[1..]);
      SortedUnique(a[1..], b[1..]);
      assert a == [a[0]] + a[1..] && b == [b[0]] + b[1..];
    }
  }

  /** The distinct elements in order of first occurrence: the iteration
      order of `new Set(xs)`. */
  function Distinct(xs: seq<string>): (r: seq<string>)
    ensures forall x :: x in r <==> x in xs
    ensures forall i, j :: 0 <= i < j < |r| ==> r[i] != r[j]
  {
    if xs == [] then []
    else
      var d := Distinct(xs[..|xs| - 1]);
      assert xs == xs[..|xs| - 1] + [xs[|xs| - 1]];
      if xs[|xs| - 1] in d then d else d + [xs[|xs| - 1]]
  }

  /** Places `x` before the first string that is not smaller than it. */
  function InsertSorted(x: string, s: seq<string>): (r: seq<string>)
    ensures multiset(r) == multiset(s) + multiset{x}
    ensures |r| == |s| + 1
  {
    if s == [] || !LexLess(s[0], x) then [x] + s
    else
      assert s == [s[0]] + s[1..];
      [s[0]] + InsertSorted(x, s[1..])
  }

  lemma {:induction false} InsertSortedKeepsOrder(x: string, s: seq<string>)
    requires StrictlySorted(s) && x !in s
    ensures StrictlySorted(InsertSorted(x, s))
  {
    var r := InsertSorted(x, s);
    if s == [] {
    } else if !LexLess(s[0], x) {
      LexTotal(x, s[0]);
      forall j | 1 < j < |r| ensures LexLess(x, r[j]) {
        LexTransitive(x, s[0], s[j - 1]);
      }
      forall i, j | 0 <= i < j < |r| ensures LexLess(r[i], r[j]) {
        if i > 0 {
          assert r[i] == s[i - 1] && r[j] == s[j - 1];
        }
      }
    } else {
      var t := s[1..];
      var rest := InsertSorted(x, t);
      assert StrictlySorted(t) by {
        forall i, j | 0 <= i < j < |t| ensures LexLess(t[i], t[j]) {
          assert t[i] == s[i + 1] && t[j] == s[j + 1];
        }
      }
      InsertSortedKeepsOrder(x, t);
      assert LexLess(s[0], rest[0]) by {
        if t != [] && LexLess(t[0], x) {
          assert rest[0] == t[0] == s[1];
        }
      }
      assert r == [s[0]] + rest;
      forall i, j | 0 <= i < j < |r| ensures LexLess(r[i], r[j]) {
        assert r[j] == rest[j - 1];
        if i > 0 {
          assert r[i] == rest[i - 1];
        } else if j > 1 {
          LexTransitive(s[0], rest[0], rest[j - 1]);
        }
      }
    }
  }

  /** Insertion sort; a permutation of its input. */
  function SortStrings(xs: seq<string>): (r: seq<string>)
    ensures multiset(r) == multiset(xs)
  {
    if xs == [] then []
    else
      assert xs == [xs[0]] + xs[1..];
      InsertSorted(xs[0], SortStrings(xs[1..]))
  }

  /** Sorting a sequence without repetitions gives a strictly sorted one. */
  lemma {:induction false} SortStringsStrict(xs: seq<string>)
    requires forall i, j :: 0 <= i < j < |xs| ==> xs[i] != xs[j]
    ensures StrictlySorted(SortStrings(xs))
  {
    if xs != [] {
      SortStringsStrict(xs[1..]);
      var rest := SortStrings(xs[1..]);
      assert forall m :: 0 <= m < |xs[1..]| ==> xs[1..][m] == xs[m + 1];
      assert xs[0] !in xs[1..];
      assert xs[0] !in multiset(rest);
      InsertSortedKeepsOrder(xs[0], rest);
    }
  }

  /** `Array.from(new Set(xs)).sort()`: strictly sorted (so without
      repetitions) and holding exactly the values of `xs`. */
  function SortedDistinct(xs: seq<string>): (r: seq<string>)
    ensures StrictlySorted(r)
    ensures forall x :: x in r <==> x in xs
  {
    var d := Distinct(xs);
    SortStringsStrict(d);
    var r := SortStrings(d);
    assert forall x :: x in r <==> x in multiset(r);
    assert forall x :: x in d <==> x in multiset(d);
    r
  }
}
