// Ordinal string operations used throughout the engine, stated over
// `seq<char>`: searching, replacing, trimming, splitting, decimal
// numerals, the ordinal order and a sort by key.
//
// .NET culture-sensitive comparisons are abstracted to ordinal ones, the
// ignore-case variants to ASCII case folding, and `Char.IsNumber` /
// `Char.IsWhiteSpace` to their ASCII members.

module Str {
  import opened Base

  type String = seq<char>

  predicate IsDigit(c: char) { '0' <= c <= '9' }

  predicate IsWhite(c: char) { c == ' ' || '\t' <= c <= '\r' }

  predicate AllDigits(s: String) { forall i :: 0 <= i < |s| ==> IsDigit(s[i]) }

  function Lower(c: char): char
  {
    if 'A' <= c <= 'Z' then (c as int + 32) as char else c
  }

  // ---------------------------------------------------------------------
  // Searching

  /** `p` occurs in `s` at index `i`. */
  predicate ContainsAt(s: String, p: String, i: int)
  {
    0 <= i && i + |p| <= |s| && s[i..i + |p|] == p
  }

  function IndexOfFrom(s: String, p: String, i: nat): (r: int)
    requires i <= |s|
    ensures r == -1 || (i <= r && ContainsAt(s, p, r))
    decreases |s| - i
  {
    if i + |p| > |s| then -1
    else if s[i..i + |p|] == p then i
    else if i == |s| then -1
    else IndexOfFrom(s, p, i + 1)
  }

  /** `String.IndexOf`: the first occurrence of `p`, or -1. */
  function IndexOf(s: String, p: String): (r: int)
    ensures r == -1 || ContainsAt(s, p, r)
  {
    IndexOfFrom(s, p, 0)
  }

  function LastIndexOfUpTo(s: String, p: String, i: int): (r: int)
    requires i < |s| + 1
    ensures r == -1 || (r <= i && ContainsAt(s, p, r))
    decreases i + 1
  {
    if i < 0 then -1
    else if ContainsAt(s, p, i) then i
    else LastIndexOfUpTo(s, p, i - 1)
  }

  /** `String.LastIndexOf`: the last occurrence of `p`, or -1. */
  function LastIndexOf(s: String, p: String): (r: int)
    ensures r == -1 || ContainsAt(s, p, r)
  {
    LastIndexOfUpTo(s, p, |s|)
  }

  /** `String.Contains`: some occurrence, which both searches then find. */
  function Contains(s: String, p: String): (b: bool)
    ensures b <==> LastIndexOf(s, p) >= 0
  {
    IndexOfFirst(s, p);
    LastIndexOfLast(s, p);
    IndexOf(s, p) >= 0
  }

  /** No occurrence from `i` on comes before the one found. */
  lemma {:induction false} IndexOfFromFirst(s: String, p: String, i: nat)
    requires i <= |s|
    ensures IndexOfFrom(s, p, i) == -1 ==> forall j :: i <= j ==> !ContainsAt(s, p, j)
    ensures IndexOfFrom(s, p, i) >= 0 ==> forall j :: i <= j < IndexOfFrom(s, p, i) ==> !ContainsAt(s, p, j)
    decreases |s| - i
  {
    if i + |p| <= |s| && s[i..i + |p|] != p && i < |s| {
      IndexOfFromFirst(s, p, i + 1);
    }
  }

  /** No occurrence up to `i` comes after the one found. */
  lemma {:induction false} LastIndexOfUpToLast(s: String, p: String, i: int)
    requires i < |s| + 1
    ensures LastIndexOfUpTo(s, p, i) == -1 ==> forall j :: j <= i ==> !ContainsAt(s, p, j)
    ensures LastIndexOfUpTo(s, p, i) >= 0 ==> forall j :: LastIndexOfUpTo(s, p, i) < j <= i ==> !ContainsAt(s, p, j)
    decreases i + 1
  {
    if i >= 0 && !ContainsAt(s, p, i) {
      LastIndexOfUpToLast(s, p, i - 1);
    }
  }

  /** `IndexOf` finds the first occurrence, and -1 exactly when there is none. */
  lemma IndexOfFirst(s: String, p: String)
    ensures IndexOf(s, p) == -1 ==> forall j :: !ContainsAt(s, p, j)
    ensures IndexOf(s, p) >= 0 ==> forall j :: 0 <= j < IndexOf(s, p) ==> !ContainsAt(s, p, j)
  {
    IndexOfFromFirst(s, p, 0);
  }

  /** `LastIndexOf` finds the last occurrence, and -1 exactly when there is none. */
  lemma LastIndexOfLast(s: String, p: String)
    ensures LastIndexOf(s, p) == -1 ==> forall j :: !ContainsAt(s, p, j)
    ensures LastIndexOf(s, p) >= 0 ==> forall j :: LastIndexOf(s, p) < j ==> !ContainsAt(s, p, j)
  {
    LastIndexOfUpToLast(s, p, |s|);
  }

  /** `Contains` holds exactly when there is an occurrence. */
  lemma ContainsIff(s: String, p: String)
    ensures Contains(s, p) <==> exists j :: ContainsAt(s, p, j)
  {
    IndexOfFirst(s, p);
  }

  predicate StartsWith(s: String, p: String) { |p| <= |s| && s[..|p|] == p }

  predicate EndsWith(s: String, p: String) { |p| <= |s| && s[|s| - |p|..] == p }

  predicate EqualsIgnoreCase(a: String, b: String)
  {
    |a| == |b| && forall i :: 0 <= i < |a| ==> Lower(a[i]) == Lower(b[i])
  }

  predicate StartsWithIgnoreCase(s: String, p: String)
  {
    |p| <= |s| && EqualsIgnoreCase(s[..|p|], p)
  }

  predicate EndsWithIgnoreCase(s: String, p: String)
  {
    |p| <= |s| && EqualsIgnoreCase(s[|s| - |p|..], p)
  }

  lemma {:induction false} LastIndexOfAt(s: String, p: String, k: int)
    requires ContainsAt(s, p, k)
    requires forall j :: k < j ==> !ContainsAt(s, p, j)
    ensures LastIndexOf(s, p) == k
  {
    LastIndexOfLast(s, p);
  }

  lemma {:induction false} IndexOfAt(s: String, p: String, k: int)
    requires ContainsAt(s, p, k)
    requires forall j :: 0 <= j < k ==> !ContainsAt(s, p, j)
    ensures IndexOf(s, p) == k
  {
    IndexOfFirst(s, p);
  }

  lemma CharIndexOf(s: String, c: char)
    requires c in s
    ensures 0 <= IndexOf(s, [c]) < |s| && s[IndexOf(s, [c])] == c
  {
    var k :| 0 <= k < |s| && s[k] == c;
    assert s[k..k + 1] == [c];
    assert ContainsAt(s, [c], k);
    IndexOfFirst(s, [c]);
    var i := IndexOf(s, [c]);
    assert s[i..i + 1][0] == s[i];
  }

  lemma NotContainsChar(s: String, c: char)
    requires c !in s
    ensures IndexOf(s, [c]) == -1 && LastIndexOf(s, [c]) == -1
  {
    forall j | 0 <= j < |s| ensures !ContainsAt(s, [c], j) {
      assert s[j..j + 1] == [s[j]];
    }
  }

  /** The last occurrence of `p` in `a + p + c` is the one after `a` when `c` shares no character with `p`. */
  lemma {:induction false} LastOccurrence(a: String, p: String, c: String)
    requires |p| > 0 && forall i :: 0 <= i < |c| ==> c[i] !in p
    ensures LastIndexOf(a + p + c, p) == |a|
  {
    var s := a + p + c;
    assert s[|a|..|a| + |p|] == p;
    forall j | |a| < j ensures !ContainsAt(s, p, j) {
      if j + |p| <= |s| {
        var k := if j <= |a| + |p| then |a| + |p| - j else 0;
        assert s[j..j + |p|][k] == s[j + k] == c[j + k - |a| - |p|];
      }
    }
    LastIndexOfAt(s, p, |a|);
  }

  /** Appending characters foreign to `p` creates no occurrence of `p`. */
  lemma {:induction false} ContainsConcatForeign(a: String, c: String, p: String)
    requires |p| > 0 && forall i :: 0 <= i < |c| ==> c[i] !in p
    ensures Contains(a + c, p) <==> Contains(a, p)
  {
    var s := a + c;
    ContainsIff(a, p);
    ContainsIff(s, p);
    if Contains(a, p) {
      var j :| ContainsAt(a, p, j);
      assert s[j..j + |p|] == a[j..j + |p|];
      assert ContainsAt(s, p, j);
    }
    forall j | 0 <= j && |a| < j + |p| <= |s| ensures !ContainsAt(s, p, j) {
      assert s[j..j + |p|][|p| - 1] == c[j + |p| - 1 - |a|];
    }
    forall j | ContainsAt(s, p, j) ensures ContainsAt(a, p, j) {
      assert s[j..j + |p|] == a[j..j + |p|];
    }
  }

  /** A string lacking one of the characters of `p` does not contain `p`. */
  lemma {:induction false} ContainsNeedsChar(s: String, p: String, x: char)
    requires x in p && x !in s
    ensures !Contains(s, p)
  {
    var k :| 0 <= k < |p| && p[k] == x;
    ContainsIff(s, p);
    forall j | 0 <= j && j + |p| <= |s| ensures !ContainsAt(s, p, j) {
      assert s[j..j + |p|][k] == s[j + k];
    }
  }

  // ---------------------------------------------------------------------
  // Replacing

  /** `String.Replace(pat, rep)`: every non-overlapping occurrence, left to right. */
  function ReplaceAll(s: String, pat: String, rep: String): (r: String)
    requires |pat| > 0
    decreases |s|
  {
    if |s| < |pat| then s
    else if s[..|pat|] == pat then rep + ReplaceAll(s[|pat|..], pat, rep)
    else [s[0]] + ReplaceAll(s[1..], pat, rep)
  }

  lemma {:induction false} ReplaceAbsent(s: String, pat: String, rep: String)
    requires |pat| > 0 && !Contains(s, pat)
    ensures ReplaceAll(s, pat, rep) == s
    decreases |s|
  {
    if |s| >= |pat| {
      ContainsIff(s, pat);
      ContainsIff(s[1..], pat);
      assert !ContainsAt(s, pat, 0);
      forall j | 0 <= j && j + |pat| <= |s| - 1 ensures !ContainsAt(s[1..], pat, j) {
        assert s[1..][j..j + |pat|] == s[j + 1..j + 1 + |pat|];
        assert !ContainsAt(s, pat, j + 1);
      }
      ReplaceAbsent(s[1..], pat, rep);
    }
  }

  /** Replacing a character by a single character keeps the length. */
  lemma {:induction false} ReplaceCharLength(s: String, c: char, d: char)
    ensures |ReplaceAll(s, [c], [d])| == |s|
    ensures c != d ==> c !in ReplaceAll(s, [c], [d])
    decreases |s|
  {
    if |s| >= 1 {
      ReplaceCharLength(s[1..], c, d);
    }
  }

  /** Replacing a character by text without it leaves no occurrence of it. */
  lemma {:induction false} ReplaceCharGone(s: String, c: char, rep: String)
    requires c !in rep
    ensures c !in ReplaceAll(s, [c], rep)
    decreases |s|
  {
    if |s| >= 1 {
      ReplaceCharGone(s[1..], c, rep);
      if s[..1] != [c] {
        assert s[0] != c;
      }
    }
  }

  /** Replacing a character works piecewise: it distributes over concatenation. */
  lemma {:induction false} ReplaceCharConcat(a: String, b: String, c: char, rep: String)
    ensures ReplaceAll(a + b, [c], rep) == ReplaceAll(a, [c], rep) + ReplaceAll(b, [c], rep)
    decreases |a|
  {
    if a == [] {
      assert a + b == b;
    } else {
      assert (a + b)[..1] == a[..1];
      assert (a + b)[1..] == a[1..] + b;
      ReplaceCharConcat(a[1..], b, c, rep);
    }
  }

  // ---------------------------------------------------------------------
  // Trimming

  function TrimStart(s: String): (r: String)
    ensures |r| <= |s|
    ensures r == [] || !IsWhite(r[0])
    ensures forall i :: 0 <= i < |s| - |r| ==> IsWhite(s[i])
  {
    if s != [] && IsWhite(s[0]) then TrimStart(s[1..]) else s
  }

  function TrimEnd(s: String): (r: String)
    ensures |r| <= |s|
    ensures r == [] || !IsWhite(r[|r| - 1])
    ensures forall i :: |r| <= i < |s| ==> IsWhite(s[i])
  {
    if s != [] && IsWhite(s[|s| - 1]) then TrimEnd(s[..|s| - 1]) else s
  }

  /** What `TrimStart` keeps is a suffix of its input. */
  lemma {:induction false} TrimStartSuffix(s: String)
    ensures TrimStart(s) == s[|s| - |TrimStart(s)|..]
    decreases |s|
  {
    if s != [] && IsWhite(s[0]) {
      TrimStartSuffix(s[1..]);
    }
  }

  /** What `TrimEnd` keeps is a prefix of its input. */
  lemma {:induction false} TrimEndPrefix(s: String)
    ensures TrimEnd(s) == s[..|TrimEnd(s)|]
    decreases |s|
  {
    if s != [] && IsWhite(s[|s| - 1]) {
      TrimEndPrefix(s[..|s| - 1]);
    }
  }

  function Trim(s: String): (r: String)
    ensures r == [] || (!IsWhite(r[0]) && !IsWhite(r[|r| - 1]))
    ensures |r| <= |s|
  {
    TrimEndPrefix(TrimStart(s));
    TrimEnd(TrimStart(s))
  }

  predicate IsNullOrWhiteSpace(s: String) { forall i :: 0 <= i < |s| ==> IsWhite(s[i]) }

  lemma {:induction false} TrimmedFixed(s: String)
    requires s == [] || (!IsWhite(s[0]) && !IsWhite(s[|s| - 1]))
    ensures Trim(s) == s && TrimStart(s) == s && TrimEnd(s) == s
  {
  }

  lemma {:induction false} TrimEmptyIffWhite(s: String)
    ensures Trim(s) == [] <==> IsNullOrWhiteSpace(s)
  {
    var t := TrimStart(s);
    TrimStartSuffix(s);
    assert IsNullOrWhiteSpace(s) ==> IsNullOrWhiteSpace(t);
  }

  // ---------------------------------------------------------------------
  // Splitting and joining

  /** `String.Split(sep)`: empty pieces kept. */
  function Split(s: String, sep: String): (r: seq<String>)
    requires |sep| > 0
    ensures |r| >= 1
    decreases |s|
  {
    var i := IndexOf(s, sep);
    if i < 0 then [s] else [s[..i]] + Split(s[i + |sep|..], sep)
  }

  /** No piece is longer than the whole. */
  lemma {:induction false} SplitPieceLength(s: String, sep: String)
    requires |sep| > 0
    ensures forall k :: 0 <= k < |Split(s, sep)| ==> |Split(s, sep)[k]| <= |s|
    decreases |s|
  {
    var i := IndexOf(s, sep);
    if i >= 0 {
      SplitPieceLength(s[i + |sep|..], sep);
    }
  }

  function Join(parts: seq<String>, sep: String): String
  {
    if parts == [] then []
    else if |parts| == 1 then parts[0]
    else parts[0] + sep + Join(parts[1..], sep)
  }

  lemma {:induction false} JoinSplit(s: String, sep: String)
    requires |sep| > 0
    ensures Join(Split(s, sep), sep) == s
    decreases |s|
  {
    var i := IndexOf(s, sep);
    if i >= 0 {
      var head, rest := s[..i], s[i + |sep|..];
      var parts := Split(rest, sep);
      JoinSplit(rest, sep);
      assert Split(s, sep) == [head] + parts;
      assert ([head] + parts)[1..] == parts;
      assert Join([head] + parts, sep) == head + sep + Join(parts, sep);
      assert s[i..i + |sep|] == sep;
      assert s == head + s[i..i + |sep|] + rest;
    }
  }

  lemma {:induction false} SplitPiecesFree(s: String, sep: String)
    requires |sep| > 0
    ensures forall k :: 0 <= k < |Split(s, sep)| ==> !Contains(Split(s, sep)[k], sep)
    decreases |s|
  {
    var i := IndexOf(s, sep);
    if i >= 0 {
      var rest := s[i + |sep|..];
      SplitPiecesFree(rest, sep);
      var head := s[..i];
      IndexOfFirst(s, sep);
      ContainsIff(head, sep);
      forall j | ContainsAt(head, sep, j) ensures 0 <= j < i && ContainsAt(s, sep, j) {
        assert head[j..j + |sep|] == s[j..j + |sep|];
      }
      assert !Contains(head, sep);
      assert Split(s, sep) == [head] + Split(rest, sep);
    }
  }

  // ---------------------------------------------------------------------
  // Decimal numerals

  function DigitChar(d: int): char
    requires 0 <= d < 10
  {
    ('0' as int + d) as char
  }

  function DigitsValue(ds: String): (n: nat)
    requires AllDigits(ds)
  {
    if ds == [] then 0 else DigitsValue(ds[..|ds| - 1]) * 10 + (ds[|ds| - 1] as int - '0' as int)
  }

  /** `ToString()` of a non-negative integer. */
  function NatToString(n: nat): (r: String)
    ensures r != [] && AllDigits(r)
    ensures DigitsValue(r) == n
  {
    if n < 10 then [DigitChar(n)]
    else
      var r := NatToString(n / 10) + [DigitChar(n % 10)];
      assert r[..|r| - 1] == NatToString(n / 10);
      r
  }

  /** `ToString()` of an integer: an optional `-` then the digits. */
  function IntToString(n: int): (r: String)
    ensures r != [] && !IsWhite(r[0]) && !IsWhite(r[|r| - 1])
    ensures n >= 0 <==> AllDigits(r)
  {
    if n < 0 then "-" + NatToString(-n) else NatToString(n)
  }

  /**
   * `Int16.Parse` / `Int32.Parse` with the default style: optional white
   * space, an optional sign, at least one digit, optional white space.
   */
  function ParseInteger(s: String, lo: int, hi: int): (r: Result<int>)
    ensures r.Ok? ==> lo <= r.value <= hi
    ensures r.Err? ==> r.error == Runtime(FormatFailure) || r.error == Runtime(Overflow)
  {
    var body := Trim(s);
    var negative := body != [] && body[0] == '-';
    var digits := if body != [] && (body[0] == '-' || body[0] == '+') then body[1..] else body;
    if digits == [] || !AllDigits(digits) then Err(Runtime(FormatFailure))
    else
      var v: int := DigitsValue(digits);
      var n := if negative then -v else v;
      if n < lo || n > hi then Err(Runtime(Overflow)) else Ok(n)
  }

  function ParseShort(s: String): (r: Result<Int16>)
    ensures r.Ok? ==> ParseInteger(s, MinShort, MaxShort) == Ok(r.value as int)
    ensures r.Err? ==> ParseInteger(s, MinShort, MaxShort).Err?
  {
    match ParseInteger(s, MinShort, MaxShort)
    case Ok(n) => Ok(n as Int16)
    case Err(e) => Err(e)
  }

  lemma {:induction false} ParseIntegerRoundTrip(n: int, lo: int, hi: int)
    requires lo <= n <= hi
    ensures ParseInteger(IntToString(n), lo, hi) == Ok(n)
  {
    var s := IntToString(n);
    TrimmedFixed(s);
    if n < 0 {
      assert s[1..] == NatToString(-n);
    }
  }

  lemma ParseShortRoundTrip(n: Int16)
    ensures ParseShort(IntToString(n)) == Ok(n)
  {
    ParseIntegerRoundTrip(n, MinShort, MaxShort);
  }

  // ---------------------------------------------------------------------
  // Ordinal order and sorting by key

  /** Ordinal comparison: `a` sorts before or equal to `b`. */
  predicate LessEq(a: String, b: String)
  {
    a == [] || (b != [] && (a[0] < b[0] || (a[0] == b[0] && LessEq(a[1..], b[1..]))))
  }

  lemma {:induction false} LessEqRefl(a: String)
    ensures LessEq(a, a)
  {
    if a != [] { LessEqRefl(a[1..]); }
  }

  lemma {:induction false} LessEqTotal(a: String, b: String)
    ensures LessEq(a, b) || LessEq(b, a)
  {
    if a != [] && b != [] && a[0] == b[0] { LessEqTotal(a[1..], b[1..]); }
  }

  lemma {:induction false} LessEqAntisym(a: String, b: String)
    requires LessEq(a, b) && LessEq(b, a)
    ensures a == b
  {
    if a != [] && b != [] {
      LessEqAntisym(a[1..], b[1..]);
      assert a == [a[0]] + a[1..] && b == [b[0]] + b[1..];
    }
  }

  lemma {:induction false} LessEqTrans(a: String, b: String, c: String)
    requires LessEq(a, b) && LessEq(b, c)
    ensures LessEq(a, c)
  {
    if a != [] && b != [] && c != [] && a[0] == b[0] == c[0] {
      LessEqTrans(a[1..], b[1..], c[1..]);
    }
  }

  predicate SortedBy<T>(s: seq<T>, key: T -> String)
  {
    forall i, j :: 0 <= i < j < |s| ==> LessEq(key(s[i]), key(s[j]))
  }

  ghost predicate Injective<T(!new)>(key: T -> String)
  {
    forall x, y :: key(x) == key(y) ==> x == y
  }

  function InsertBy<T>(x: T, s: seq<T>, key: T -> String): (r: seq<T>)
    ensures multiset(r) == multiset(s) + multiset{x}
    ensures SortedBy(s, key) ==> SortedBy(r, key)
  {
    if s == [] then [x]
    else if LessEq(key(x), key(s[0])) then
      assert SortedBy(s, key) ==> SortedBy([x] + s, key) by {
        if SortedBy(s, key) {
          HeadBound(x, s, key);
          PrependSorted(x, s, key);
        }
      }
      [x] + s
    else
      var rest := InsertBy(x, s[1..], key);
      assert s == [s[0]] + s[1..];
      assert SortedBy(s, key) ==> SortedBy([s[0]] + rest, key) by {
        if SortedBy(s, key) {
          LessEqTotal(key(x), key(s[0]));
          RestBound(s, x, rest, key);
          PrependSorted(s[0], rest, key);
        }
      }
      [s[0]] + rest
  }

  lemma PrependSorted<T>(x: T, s: seq<T>, key: T -> String)
    requires SortedBy(s, key) && forall j :: 0 <= j < |s| ==> LessEq(key(x), key(s[j]))
    ensures SortedBy([x] + s, key)
  {
    forall i, j | 0 <= i < j < |s| + 1 ensures LessEq(key(([x] + s)[i]), key(([x] + s)[j])) {
      if i > 0 {
        assert ([x] + s)[i] == s[i - 1];
      }
      assert ([x] + s)[j] == s[j - 1];
    }
  }

  lemma HeadBound<T>(x: T, s: seq<T>, key: T -> String)
    requires SortedBy(s, key) && s != [] && LessEq(key(x), key(s[0]))
    ensures forall j :: 0 <= j < |s| ==> LessEq(key(x), key(s[j]))
  {
    forall j | 0 < j < |s| ensures LessEq(key(x), key(s[j])) {
      LessEqTrans(key(x), key(s[0]), key(s[j]));
    }
  }

  lemma RestBound<T>(s: seq<T>, x: T, rest: seq<T>, key: T -> String)
    requires SortedBy(s, key) && s != [] && LessEq(key(s[0]), key(x))
    requires multiset(rest) == multiset(s[1..]) + multiset{x}
    ensures forall j :: 0 <= j < |rest| ==> LessEq(key(s[0]), key(rest[j]))
  {
    forall j | 0 <= j < |rest| ensures LessEq(key(s[0]), key(rest[j])) {
      assert rest[j] in multiset(rest);
      if rest[j] != x {
        assert rest[j] in multiset(s[1..]);
        var k :| 0 <= k < |s[1..]| && s[1..][k] == rest[j];
        assert s[k + 1] == rest[j];
      }
    }
  }

  /** `OrderBy(key)`: a stable sort. */
  function SortBy<T>(s: seq<T>, key: T -> String): (r: seq<T>)
    ensures multiset(r) == multiset(s) && |r| == |s|
    ensures SortedBy(r, key)
  {
    if s == [] then []
    else
      assert s == [s[0]] + s[1..];
      InsertBy(s[0], SortBy(s[1..], key), key)
  }

  lemma {:induction false} SortedHeadLeast<T>(a: seq<T>, x: T, key: T -> String)
    requires SortedBy(a, key) && x in multiset(a)
    ensures LessEq(key(a[0]), key(x))
  {
    var i :| 0 <= i < |a| && a[i] == x;
    if i == 0 { LessEqRefl(key(x)); }
  }

  /**
   * Two sorted sequences with the same elements are the same sequence when
   * the key identifies an element.
   */
  lemma {:induction false} SortedUnique<T(!new)>(a: seq<T>, b: seq<T>, key: T -> String)
    requires Injective(key)
    requires SortedBy(a, key) && SortedBy(b, key) && multiset(a) == multiset(b)
    ensures a == b
    decreases |a|
  {
    assert |a| == |multiset(a)| == |multiset(b)| == |b|;
    if a != [] {
      SortedHeads(a, b, key);
      MultisetTails(a, b);
      SortedUnique(a[1..], b[1..], key);
      assert a == [a[0]] + a[1..] && b == [b[0]] + b[1..];
    }
  }

  lemma SortedHeads<T(!new)>(a: seq<T>, b: seq<T>, key: T -> String)
    requires Injective(key) && a != [] && b != []
    requires SortedBy(a, key) && SortedBy(b, key) && multiset(a) == multiset(b)
    ensures a[0] == b[0]
  {
    assert a[0] in multiset(b) && b[0] in multiset(a);
    SortedHeadLeast(b, a[0], key);
    SortedHeadLeast(a, b[0], key);
    LessEqAntisym(key(a[0]), key(b[0]));
  }

  lemma MultisetTails<T>(a: seq<T>, b: seq<T>)
    requires a != [] && b != [] && a[0] == b[0] && multiset(a) == multiset(b)
    ensures multiset(a[1..]) == multiset(b[1..])
  {
    assert a == [a[0]] + a[1..] && b == [b[0]] + b[1..];
    assert multiset(a[1..]) == multiset(a) - multiset{a[0]};
    assert multiset(b[1..]) == multiset(b) - multiset{b[0]};
  }

  lemma SortSorted<T(!new)>(s: seq<T>, key: T -> String)
    requires Injective(key) && SortedBy(s, key)
    ensures SortBy(s, key) == s
  {
    SortedUnique(SortBy(s, key), s, key);
  }

  lemma SortPermutationEqual<T(!new)>(s: seq<T>, t: seq<T>, key: T -> String)
    requires Injective(key)
    ensures SortBy(s, key) == SortBy(t, key) <==> multiset(s) == multiset(t)
  {
    if multiset(s) == multiset(t) {
      SortedUnique(SortBy(s, key), SortBy(t, key), key);
    }
  }
}
