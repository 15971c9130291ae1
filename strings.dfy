/** Text helpers shared by every module: the subset of Python's and
    JavaScript's string library that the modelled code uses, restricted to
    ASCII where the library would consult Unicode tables. */
module Strings {

  datatype Option<T> = None | Some(value: T)

  /** The outcome of an operation that can raise: the value, or the error
      the source raises, with its message. */
  datatype Result<T> = Success(value: T) | Failure(error: string)

  /** White space as trimming sees it: the space and `\t` through `\r`.
      Python's `str.isspace` also accepts `\x1c`-`\x1f` and non-ASCII
      spaces, and the JavaScript `\s` class non-ASCII spaces; those are
      not modelled. */
  predicate IsSpace(c: char) {
    c == ' ' || '\t' <= c <= '\r'
  }

  predicate IsUpper(c: char) { 'A' <= c <= 'Z' }
  predicate IsLower(c: char) { 'a' <= c <= 'z' }
  predicate IsLetter(c: char) { IsUpper(c) || IsLower(c) }
  predicate IsDigit(c: char) { '0' <= c <= '9' }

  function ToLowerChar(c: char): (r: char)
    ensures !IsUpper(r)
    ensures IsLetter(c) <==> IsLetter(r)
    ensures !IsUpper(c) ==> r == c
  {
    if IsUpper(c) then (c as int + 32) as char else c
  }

  function ToUpperChar(c: char): (r: char)
    ensures !IsLower(r)
    ensures IsLetter(c) <==> IsLetter(r)
    ensures !IsLower(c) ==> r == c
  {
    if IsLower(c) then (c as int - 32) as char else c
  }

  /** `s.lower()` / `s.toLowerCase()` restricted to ASCII letters. */
  function Lower(s: string): (r: string)
    ensures |r| == |s|
    ensures forall i :: 0 <= i < |s| ==> r[i] == ToLowerChar(s[i])
  {
    if s == [] then [] else [ToLowerChar(s[0])] + Lower(s[1..])
  }

  /** `s.upper()` / `s.toUpperCase()` restricted to ASCII letters. */
  function Upper(s: string): (r: string)
    ensures |r| == |s|
    ensures forall i :: 0 <= i < |s| ==> r[i] == ToUpperChar(s[i])
  {
    if s == [] then [] else [ToUpperChar(s[0])] + Upper(s[1..])
  }

  /** Drops leading characters of `s` that satisfy `drop`. */
  function TrimStartBy(s: string, drop: char -> bool): (r: string)
    ensures |r| <= |s| && r == s[|s| - |r|..]
    ensures r == [] || !drop(r[0])
    ensures forall i :: 0 <= i < |s| - |r| ==> drop(s[i])
  {
    if s != [] && drop(s[0]) then TrimStartBy(s[1..], drop) else s
  }

  /** Drops trailing characters of `s` that satisfy `drop`. */
  function TrimEndBy(s: string, drop: char -> bool): (r: string)
    ensures |r| <= |s| && r == s[..|r|]
    ensures r == [] || !drop(r[|r| - 1])
    ensures forall i :: |r| <= i < |s| ==> drop(s[i])
  {
    if s != [] && drop(s[|s| - 1]) then TrimEndBy(s[..|s| - 1], drop) else s
  }

  /** Python's `strip()` and JavaScript's `trim()`: drops white space at
      both ends, one character at a time. */
  function Trim(s: string): (r: string)
    ensures r == [] || (!IsSpace(r[0]) && !IsSpace(r[|r| - 1]))
    ensures |r| <= |s|
    decreases |s|
  {
    if s != [] && IsSpace(s[0]) then Trim(s[1..])
    else if s != [] && IsSpace(s[|s| - 1]) then Trim(s[..|s| - 1])
    else s
  }

  /** A string is blank when nothing is left after trimming. */
  predicate IsBlank(s: string) { forall i :: 0 <= i < |s| ==> IsSpace(s[i]) }

  lemma {:induction false} TrimEmptyIffBlank(s: string)
    ensures Trim(s) == [] <==> IsBlank(s)
    decreases |s|
  {
    if s != [] && IsSpace(s[0]) {
      TrimEmptyIffBlank(s[1..]);
      assert forall i :: 0 < i < |s| ==> s[i] == s[1..][i - 1];
    } else if s != [] && IsSpace(s[|s| - 1]) {
      TrimEmptyIffBlank(s[..|s| - 1]);
      assert forall i :: 0 <= i < |s| - 1 ==> s[i] == s[..|s| - 1][i];
    }
  }

  /** Trimming removes a run of white space at the front and a run at the
      back, and nothing else: the result is a slice of the input. */
  lemma {:induction false} TrimSlice(s: string) returns (i: nat, j: nat)
    ensures i <= j <= |s| && Trim(s) == s[i..j]
    ensures forall k :: 0 <= k < i ==> IsSpace(s[k])
    ensures forall k :: j <= k < |s| ==> IsSpace(s[k])
    decreases |s|
  {
    if s != [] && IsSpace(s[0]) {
      var i', j' := TrimSlice(s[1..]);
      i, j := i' + 1, j' + 1;
      assert s[1..][i'..j'] == s[i..j];
      forall k | 0 < k < i ensures IsSpace(s[k]) { assert s[k] == s[1..][k - 1]; }
      forall k | j <= k < |s| ensures IsSpace(s[k]) { assert s[k] == s[1..][k - 1]; }
    } else if s != [] && IsSpace(s[|s| - 1]) {
      var t := s[..|s| - 1];
      i, j := TrimSlice(t);
      assert t[i..j] == s[i..j];
      forall k | j <= k < |s| - 1 ensures IsSpace(s[k]) { assert s[k] == t[k]; }
    } else {
      i, j := 0, |s|;
    }
  }

  /** A string with no space at either end is its own trim. */
  lemma TrimOfUnpadded(s: string)
    requires s != [] && !IsSpace(s[0]) && !IsSpace(s[|s| - 1])
    ensures Trim(s) == s
  {
  }

  /** Lower-casing leaves a string without capitals as it is. */
  lemma LowerOfLower(s: string)
    requires forall i :: 0 <= i < |s| ==> !IsUpper(s[i])
    ensures Lower(s) == s
  {
  }

  /** Trimming a trimmed string changes nothing. */
  lemma TrimIdempotent(s: string)
    ensures Trim(Trim(s)) == Trim(s)
  {
    var t := Trim(s);
    if t != [] {
      TrimOfUnpadded(t);
    }
  }

  /** The elements of `rows` that satisfy `p`, in their original order: a
      `where` clause on a table, or a list comprehension with an `if`. */
  function Filter<T(!new)>(rows: seq<T>, p: T -> bool): (r: seq<T>)
    ensures forall x :: x in r <==> x in rows && p(x)
    ensures |r| <= |rows|
    ensures r == [] <==> forall i :: 0 <= i < |rows| ==> !p(rows[i])
  {
    if rows == [] then []
    else (if p(rows[0]) then [rows[0]] else []) + Filter(rows[1..], p)
  }

  /** Appending a row extends the matches by that row when it matches, and
      leaves them alone otherwise. */
  lemma FilterAppend<T(!new)>(rows: seq<T>, x: T, p: T -> bool)
    ensures Filter(rows + [x], p) == Filter(rows, p) + (if p(x) then [x] else [])
  {
    FilterConcat(rows, [x], p);
    assert Filter([x], p) == (if p(x) then [x] else []) + Filter([x][1..], p);
  }

  /** Filtering a concatenation filters each half. */
  lemma {:induction false} FilterConcat<T(!new)>(a: seq<T>, b: seq<T>, p: T -> bool)
    ensures Filter(a + b, p) == Filter(a, p) + Filter(b, p)
  {
    if a == [] {
      assert a + b == b;
    } else {
      assert (a + b)[1..] == a[1..] + b;
      FilterConcat(a[1..], b, p);
    }
  }

  /** `f` applied to each element, in order: a list comprehension without
      an `if`. */
  function Map<A, B>(xs: seq<A>, f: A -> B): (r: seq<B>)
    ensures |r| == |xs|
    ensures forall i :: 0 <= i < |xs| ==> r[i] == f(xs[i])
  {
    seq(|xs|, i requires 0 <= i < |xs| => f(xs[i]))
  }

  lemma MapConcat<A, B>(a: seq<A>, b: seq<A>, f: A -> B)
    ensures Map(a + b, f) == Map(a, f) + Map(b, f)
  {
    assert forall i :: 0 <= i < |a + b| ==> Map(a + b, f)[i] == (Map(a, f) + Map(b, f))[i];
  }

  /** Non-empty text: the truth value of a string in Python. */
  predicate NonEmptyText(s: string) { s != [] }

  predicate StartsWith(s: string, prefix: string) {
    |prefix| <= |s| && s[..|prefix|] == prefix
  }

  predicate EndsWith(s: string, suffix: string) {
    |suffix| <= |s| && s[|s| - |suffix|..] == suffix
  }

  /** Concatenation is associative; stated once so that proofs over
      recursive string functions need not rediscover it. */
  lemma AppendAssoc<T>(p: seq<T>, q: seq<T>, r: seq<T>)
    ensures p + (q + r) == (p + q) + r
  {
  }

  /** Appending keeps the prefix of the left part and ends with the right part. */
  lemma AppendKeepsEnds(a: string, b: string, p: string)
    requires StartsWith(a, p)
    ensures StartsWith(a + b, p) && EndsWith(a + b, b)
  {
    assert (a + b)[..|p|] == a[..|p|];
    assert (a + b)[|a + b| - |b|..] == b;
  }

  /** Dropping trailing characters keeps a prefix whose last character is not dropped. */
  lemma TrimEndByKeepsPrefix(s: string, p: string, drop: char -> bool)
    requires p != [] && StartsWith(s, p) && !drop(p[|p| - 1])
    ensures StartsWith(TrimEndBy(s, drop), p)
  {
    assert s[|p| - 1] == p[|p| - 1];
  }

  /** Trimming keeps a prefix that starts and ends with a non-space. */
  lemma {:induction false} TrimKeepsPrefix(s: string, p: string)
    requires p != [] && StartsWith(s, p) && !IsSpace(p[0]) && !IsSpace(p[|p| - 1])
    ensures StartsWith(Trim(s), p)
    decreases |s|
  {
    assert s[0] == p[0] && s[|p| - 1] == p[|p| - 1];
    if IsSpace(s[|s| - 1]) {
      var init := s[..|s| - 1];
      assert |p| < |s|;
      assert init[..|p|] == s[..|p|];
      TrimKeepsPrefix(init, p);
    }
  }

  lemma LowerKeepsPrefix(s: string, p: string)
    requires StartsWith(s, p)
    ensures StartsWith(Lower(s), Lower(p))
  {
    assert Lower(s)[..|p|] == Lower(p);
  }

  /** `s.lower().startswith(p.lower())`, compared one character at a time. */
  predicate StartsWithIgnoringCase(s: string, p: string) {
    |p| <= |s| && (p == [] || (ToLowerChar(s[0]) == ToLowerChar(p[0]) && StartsWithIgnoringCase(s[1..], p[1..])))
  }

  /** The character-wise comparison is the comparison of the lower-cased strings. */
  lemma {:induction false} StartsWithIgnoringCaseIff(s: string, p: string)
    ensures StartsWithIgnoringCase(s, p) <==> StartsWith(Lower(s), Lower(p))
    decreases |p|
  {
    if p != [] && |p| <= |s| {
      StartsWithIgnoringCaseIff(s[1..], p[1..]);
      assert Lower(s)[1..] == Lower(s[1..]);
      assert Lower(p)[1..] == Lower(p[1..]);
      assert Lower(s)[..|p|] == [Lower(s)[0]] + Lower(s)[1..][..|p| - 1];
      assert Lower(p) == [Lower(p)[0]] + Lower(p)[1..];
    }
  }

  /** Python's `sub in s`. */
  predicate Contains(s: string, sub: string) {
    StartsWith(s, sub) || (s != [] && Contains(s[1..], sub))
  }

  /** An occurrence at any position makes `Contains` true. */
  lemma {:induction false} ContainsAt(s: string, sub: string, i: nat)
    requires i + |sub| <= |s| && s[i..i + |sub|] == sub
    ensures Contains(s, sub)
  {
    if i > 0 {
      assert s[1..][i - 1..i - 1 + |sub|] == sub;
      ContainsAt(s[1..], sub, i - 1);
    }
  }

  /** `sep.join(parts)`. */
  function Join(parts: seq<string>, sep: string): (r: string)
    ensures parts == [] ==> r == []
    ensures |parts| == 1 ==> r == parts[0]
  {
    if parts == [] then []
    else if |parts| == 1 then parts[0]
    else parts[0] + sep + Join(parts[1..], sep)
  }

  /** A join opens with its first part. */
  lemma JoinOpensWithFirst(parts: seq<string>, sep: string)
    requires parts != []
    ensures StartsWith(Join(parts, sep), parts[0])
  {
    var r := Join(parts, sep);
    if |parts| > 1 {
      assert r == parts[0] + (sep + Join(parts[1..], sep));
      assert r[..|parts[0]|] == parts[0];
    }
  }

  /** Decimal digits of a natural number, as `String(n)` / `str(n)`. */
  function NatToString(n: nat): (r: string)
    ensures |r| >= 1
    ensures forall i :: 0 <= i < |r| ==> IsDigit(r[i])
    decreases n
  {
    if n < 10 then [DigitChar(n)] else NatToString(n / 10) + [DigitChar(n % 10)]
  }

  function DigitChar(d: nat): (c: char)
    requires d < 10
    ensures IsDigit(c) && c as int - '0' as int == d
  {
    ('0' as int + d) as char
  }

  /** `str(i)` for any integer. */
  function IntToString(i: int): (r: string)
    ensures |r| >= 1
  {
    if i < 0 then "-" + NatToString(-i) else NatToString(i)
  }

  /** The value of a string of decimal digits. */
  function DigitsValue(s: string): nat
    requires forall i :: 0 <= i < |s| ==> IsDigit(s[i])
  {
    if s == [] then 0
    else
      assert IsDigit(s[|s| - 1]);
      DigitsValue(s[..|s| - 1]) * 10 + (s[|s| - 1] as int - '0' as int)
  }

  /** Reading back the digits gives the number: `NatToString` is injective. */
  lemma {:induction false} NatToStringValue(n: nat)
    ensures DigitsValue(NatToString(n)) == n
    decreases n
  {
    if n >= 10 {
      var p := NatToString(n / 10);
      var r := p + [DigitChar(n % 10)];
      assert r[..|r| - 1] == p;
      NatToStringValue(n / 10);
    }
  }

  /** `s.padStart(width, '0')`. */
  function PadStartZero(s: string, width: nat): (r: string)
    ensures |r| == if |s| < width then width else |s|
    ensures forall i :: 0 <= i < |r| - |s| ==> r[i] == '0'
  {
    if |s| < width then seq(width - |s|, _ => '0') + s else s
  }

  /** The padded string ends with the original one. */
  lemma PadStartZeroEnds(s: string, width: nat)
    ensures PadStartZero(s, width)[|PadStartZero(s, width)| - |s|..] == s
  {
  }

  /** `s.split(sep)` for a one-character separator. */
  function Split(s: string, sep: char): (r: seq<string>)
    ensures |r| >= 1
    ensures forall k :: 0 <= k < |r| ==> sep !in r[k]
  {
    SplitFrom(s, sep, [])
  }

  function SplitFrom(s: string, sep: char, current: string): (r: seq<string>)
    requires sep !in current
    ensures |r| >= 1
    ensures forall k :: 0 <= k < |r| ==> sep !in r[k]
    decreases |s|
  {
    if s == [] then [current]
    else if s[0] == sep then [current] + SplitFrom(s[1..], sep, [])
    else SplitFrom(s[1..], sep, current + [s[0]])
  }

  /** Joining the pieces of a split with the separator gives back the string. */
  lemma {:induction false} SplitJoin(s: string, sep: char)
    ensures Join(Split(s, sep), [sep]) == s
  {
    SplitFromJoin(s, sep, []);
  }

  lemma {:induction false} SplitFromJoin(s: string, sep: char, current: string)
    requires sep !in current
    ensures Join(SplitFrom(s, sep, current), [sep]) == current + s
    decreases |s|
  {
    if s == [] {
    } else if s[0] == sep {
      SplitFromJoin(s[1..], sep, []);
      var rest := SplitFrom(s[1..], sep, []);
      assert |rest| >= 1;
      assert Join([current] + rest, [sep]) == current + [sep] + Join(rest, [sep]) by {
        assert ([current] + rest)[1..] == rest;
      }
      assert s == [sep] + s[1..];
    } else {
      SplitFromJoin(s[1..], sep, current + [s[0]]);
      assert current + [s[0]] + s[1..] == current + s;
    }
  }

  /** Splitting a join of separator-free pieces gives the pieces back. */
  lemma {:induction false} JoinSplit(parts: seq<string>, sep: char)
    requires |parts| >= 1
    requires forall k :: 0 <= k < |parts| ==> sep !in parts[k]
    ensures Split(Join(parts, [sep]), sep) == parts
    decreases |parts|
  {
    SplitFromPrefix(parts[0], Join(parts[1..], [sep]), sep);
    if |parts| == 1 {
      assert parts[0] + [] == parts[0];
    } else {
      var rest := Join(parts[1..], [sep]);
      assert Join(parts, [sep]) == parts[0] + ([sep] + rest);
      SplitFromPrefix(parts[0], [sep] + rest, sep);
      assert ([sep] + rest)[1..] == rest;
      JoinSplit(parts[1..], sep);
      assert parts == [parts[0]] + parts[1..];
    }
  }

  /** A separator-free prefix only extends the current piece. */
  lemma {:induction false} SplitFromPrefix(a: string, s: string, sep: char)
    requires sep !in a
    ensures SplitFrom(a + s, sep, []) == SplitFrom(s, sep, a)
  {
    SplitFromShift(a, s, sep, []);
    assert [] + a == a;
  }

  lemma {:induction false} SplitFromShift(a: string, s: string, sep: char, current: string)
    requires sep !in a && sep !in current
    ensures SplitFrom(a + s, sep, current) == SplitFrom(s, sep, current + a)
    decreases |a|
  {
    if a == [] {
      assert a + s == s && current + a == current;
    } else {
      assert (a + s)[0] == a[0] && (a + s)[1..] == a[1..] + s;
      SplitFromShift(a[1..], s, sep, current + [a[0]]);
      assert current + [a[0]] + a[1..] == current + a;
    }
  }

  /** Code-point order on strings, as Python's `<` and JavaScript's default
      sort compare them (the two agree on the Basic Multilingual Plane). */
  predicate LexLess(a: string, b: string) {
    b != [] && (a == [] || a[0] < b[0] || (a[0] == b[0] && LexLess(a[1..], b[1..])))
  }

  lemma {:induction false} LexLessIrreflexive(a: string)
    ensures !LexLess(a, a)
  {
    if a != [] {
      LexLessIrreflexive(a[1..]);
    }
  }

  lemma {:induction false} LexLessTotal(a: string, b: string)
    ensures a == b || LexLess(a, b) || LexLess(b, a)
  {
    if a != [] && b != [] && a[0] == b[0] {
      LexLessTotal(a[1..], b[1..]);
      if a[1..] == b[1..] {
        assert a == [a[0]] + a[1..] && b == [b[0]] + b[1..];
      }
    }
  }

  lemma {:induction false} LexLessTransitive(a: string, b: string, c: string)
    requires LexLess(a, b) && LexLess(b, c)
    ensures LexLess(a, c)
  {
    if a != [] && a[0] == b[0] && b[0] == c[0] {
      LexLessTransitive(a[1..], b[1..], c[1..]);
    }
  }

  /** Strictly increasing, which also makes the elements distinct. */
  predicate StrictlySorted(xs: seq<string>) {
    forall i, j :: 0 <= i < j < |xs| ==> LexLess(xs[i], xs[j])
  }

  lemma StrictlySortedDistinct(xs: seq<string>, i: int, j: int)
    requires StrictlySorted(xs) && 0 <= i < j < |xs|
    ensures xs[i] != xs[j]
  {
    LexLessIrreflexive(xs[i]);
  }

  /** Inserts `x` into a strictly sorted list unless it is already there. */
  function InsertSorted(sorted: seq<string>, x: string): (r: seq<string>)
    requires StrictlySorted(sorted)
    ensures StrictlySorted(r)
    ensures forall y :: y in r <==> y in sorted || y == x
    ensures r != [] && (r[0] == x || (sorted != [] && r[0] == sorted[0]))
  {
    if sorted == [] then [x]
    else if x == sorted[0] then sorted
    else if LexLess(x, sorted[0]) then
      assert forall j :: 0 <= j < |sorted| ==> LexLess(x, sorted[j]) by {
        forall j | 0 < j < |sorted| ensures LexLess(x, sorted[j]) {
          LexLessTransitive(x, sorted[0], sorted[j]);
        }
      }
      [x] + sorted
    else
      LexLessTotal(x, sorted[0]);
      var rest := InsertSorted(sorted[1..], x);
      assert forall j :: 0 <= j < |rest| ==> LexLess(sorted[0], rest[j]) by {
        forall j | 0 <= j < |rest| ensures LexLess(sorted[0], rest[j]) {
          if rest[j] != x {
            assert rest[j] in sorted[1..];
          }
        }
      }
      [sorted[0]] + rest
  }

  /** `sorted(set(xs))`: the distinct elements of `xs` in increasing order. */
  function SortedDistinct(xs: seq<string>): (r: seq<string>)
    ensures StrictlySorted(r)
    ensures forall y :: y in r <==> y in xs
    ensures |r| <= |xs|
  {
    if xs == [] then []
    else
      var r := InsertSorted(SortedDistinct(xs[..|xs| - 1]), xs[|xs| - 1]);
      assert xs == xs[..|xs| - 1] + [xs[|xs| - 1]];
      SortedDistinctBound(r, xs);
      r
  }

  /** Two strictly sorted lists with the same elements are the same list:
      sorting a collection of distinct strings has one outcome. */
  lemma {:induction false} StrictlySortedUnique(a: seq<string>, b: seq<string>)
    requires StrictlySorted(a) && StrictlySorted(b)
    requires forall y :: y in a <==> y in b
    ensures a == b
  {
    if a != [] {
      assert b != [] by { assert a[0] in b; }
      if a[0] != b[0] {
        assert a[0] in b && b[0] in a;
        var k :| 0 <= k < |b| && b[k] == a[0];
        var m :| 0 <= m < |a| && a[m] == b[0];
        assert LexLess(b[0], a[0]);
        assert LexLess(a[0], b[0]);
        LexLessTransitive(a[0], b[0], a[0]);
        LexLessIrreflexive(a[0]);
      }
      forall y ensures y in a[1..] <==> y in b[1..] {
        if y in a[1..] {
          var i :| 0 <= i < |a[1..]| && a[1..][i] == y;
          StrictlySortedDistinct(a, 0, i + 1);
          assert y in b && y != b[0];
        }
        if y in b[1..] {
          var i :| 0 <= i < |b[1..]| && b[1..][i] == y;
          StrictlySortedDistinct(b, 0, i + 1);
          assert y in a && y != a[0];
        }
      }
      StrictlySortedUnique(a[1..], b[1..]);
      assert a == [a[0]] + a[1..] && b == [b[0]] + b[1..];
    } else {
      DistinctCard(a);
      DistinctCard(b);
      assert (set y | y in a) == (set y | y in b);
    }
  }

  /** A duplicate-free list is no longer than any list holding all its elements. */
  lemma SortedDistinctBound(r: seq<string>, xs: seq<string>)
    requires StrictlySorted(r) && forall y :: y in r ==> y in xs
    ensures |r| <= |xs|
  {
    var rs := set y | y in r;
    var xset := set y | y in xs;
    assert rs <= xset;
    DistinctCard(r);
    SeqSetCard(xs);
    assert |rs| <= |xset| by { SubsetCard(rs, xset); }
  }

  lemma DistinctCard(r: seq<string>)
    requires StrictlySorted(r)
    ensures |set y | y in r| == |r|
  {
    if r != [] {
      var tail := r[1..];
      assert StrictlySorted(tail);
      DistinctCard(tail);
      assert r[0] !in tail by {
        forall j | 0 <= j < |tail| ensures tail[j] != r[0] {
          StrictlySortedDistinct(r, 0, j + 1);
        }
      }
      assert (set y | y in r) == (set y | y in tail) + {r[0]};
    }
  }

  lemma SeqSetCard(xs: seq<string>)
    ensures |set y | y in xs| <= |xs|
  {
    if xs != [] {
      SeqSetCard(xs[1..]);
      assert (set y | y in xs) == (set y | y in xs[1..]) + {xs[0]};
    }
  }

  lemma SubsetCard(a: set<string>, b: set<string>)
    requires a <= b
    ensures |a| <= |b|
  {
    assert b == a + (b - a);
  }
}
