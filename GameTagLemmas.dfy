// Properties of tag parsing and of tag resolution.

module TagLemmas {
  import opened Base
  import opened Str
  import opened Tags

  /** The text of a tag name without any marker characters. */
  predicate PlainName(b: String)
  {
    '+' !in b && '-' !in b && '<' !in b && '>' !in b && !Contains(b, "..")
  }

  /**
   * A `<LOCATION>` suffix becomes the location and is cut from the value; a
   * leading `?` or `!` gives the operation and is stripped; what remains is
   * parsed for its meter.
   */
  lemma {:induction false} ParseAffixes(op: Operation, body: String, loc: String)
    requires '<' !in loc && '>' !in loc
    requires loc == [] ==> '<' !in body
    requires op == RemoveOrAppend ==> body == [] || (body[0] != '?' && body[0] != '!')
    ensures var raw := PrefixOf(op) + WithLocation(body, loc);
            match ParseMeter(body)
            case Ok(m) => Parse(raw) == Ok(GameTag(raw, m.0, op, loc, m.1))
            case Err(e) => Parse(raw) == Err(e)
  {
    var pre := PrefixOf(op) + body;
    LocationSuffix(pre, loc);
    PrefixSplits(op, body);
    AffixOrder(op, body, loc);
    ParseFromParts(WithLocation(pre, loc), pre, loc, op, body);
  }

  lemma AffixOrder(op: Operation, body: String, loc: String)
    ensures PrefixOf(op) + WithLocation(body, loc) == WithLocation(PrefixOf(op) + body, loc)
  {
    if loc != [] {
      assert PrefixOf(op) + (body + "<" + loc + ">") == PrefixOf(op) + body + "<" + loc + ">";
    }
  }

  lemma PrefixSplits(op: Operation, body: String)
    requires op == RemoveOrAppend ==> body == [] || (body[0] != '?' && body[0] != '!')
    ensures SplitPrefix(PrefixOf(op) + body) == (op, body)
  {
    var pre := PrefixOf(op) + body;
    match op {
      case RemoveOrAppend =>
        assert pre == body;
      case SucceedIfPresent =>
        assert pre[0] == '?' && pre[1..] == body;
      case FailedIfPresent =>
        assert pre[0] == '!' && pre[1..] == body;
    }
  }

  /** Parsing, once the location and the prefix are known. */
  lemma ParseFromParts(raw: String, pre: String, loc: String, op: Operation, body: String)
    requires SplitLocation(raw) == (pre, loc) && SplitPrefix(pre) == (op, body)
    ensures match ParseMeter(body)
            case Ok(m) => Parse(raw) == Ok(GameTag(raw, m.0, op, loc, m.1))
            case Err(e) => Parse(raw) == Err(e)
  {
  }

  lemma {:induction false} LocationSuffix(pre: String, loc: String)
    requires '<' !in loc && '>' !in loc
    requires loc == [] ==> '<' !in pre
    ensures SplitLocation(WithLocation(pre, loc)) == (pre, loc)
  {
    var raw := WithLocation(pre, loc);
    if loc != [] {
      assert raw == pre + "<" + (loc + ">");
      LastOccurrence(pre, "<", loc + ">");
      assert raw == (pre + "<" + loc) + ">" + "";
      LastOccurrence(pre + "<" + loc, ">", "");
      assert raw[..|pre|] == pre && raw[|pre| + 1..|raw| - 1] == loc;
    } else {
      NotContainsChar(pre, '<');
    }
  }

  /** The value of a tag is a piece of its raw text. */
  lemma ValueWithinRaw(t: Tag)
    ensures exists i, j :: 0 <= i <= j <= |t.raw| && t.value == t.raw[i..j]
  {
    var k := ValueStart(t.raw, t);
    assert t.value == t.raw[k..k + |t.value|];
  }

  /** Where the value of a parsed tag starts in its text. */
  lemma ValueStart(raw: String, g: GameTag) returns (k: nat)
    requires Parse(raw) == Ok(g)
    ensures k + |g.value| <= |raw| && g.value == raw[k..k + |g.value|]
  {
    var v0 := SplitLocation(raw).0;
    var v1 := SplitPrefix(v0).1;
    ParsedValue(raw, g);
    LocationIsPrefix(raw);
    PrefixIsSuffix(v0);
    NestedSlice(raw, v0, v1, g.value);
    k := |v0| - |v1|;
  }

  /** The value of a parsed tag is what the meter syntax leaves of the text between prefix and location. */
  lemma ParsedValue(raw: String, g: GameTag)
    requires Parse(raw) == Ok(g)
    ensures var v1 := SplitPrefix(SplitLocation(raw).0).1;
            ParseMeter(v1).Ok? && g.value == ParseMeter(v1).value.0
  {
  }

  /** What precedes the location is a prefix of the raw text. */
  lemma LocationIsPrefix(raw: String)
    ensures var v0 := SplitLocation(raw).0; |v0| <= |raw| && v0 == raw[..|v0|]
  {
  }

  /** What follows the `?` / `!` prefix is a suffix of the value. */
  lemma PrefixIsSuffix(v: String)
    ensures var v1 := SplitPrefix(v).1; |v1| <= |v| && v1 == v[|v| - |v1|..]
  {
    if v != [] && (v[0] == '?' || v[0] == '!') {
      assert SplitPrefix(v).1 == v[1..];
    } else {
      assert SplitPrefix(v).1 == v;
      assert v[0..] == v;
    }
  }

  /** A prefix of a suffix of a prefix is a slice. */
  lemma NestedSlice(raw: String, v0: String, v1: String, x: String)
    requires |v0| <= |raw| && v0 == raw[..|v0|]
    requires |v1| <= |v0| && v1 == v0[|v0| - |v1|..]
    requires |x| <= |v1| && x == v1[..|x|]
    ensures x == raw[|v0| - |v1|..|v0| - |v1| + |x|]
  {
    var k := |v0| - |v1|;
    assert v0[k..k + |x|] == x;
  }

  /** The marker `m` sits at `k` in `v`, after a plain name and before a run of digits. */
  predicate MarkerAt(v: String, k: nat, m: String)
  {
    |m| == 2 && k + 2 <= |v| && v[k..k + 2] == m && PlainName(v[..k]) && AllDigits(v[k + 2..])
  }

  /** The numeral after the marker at `k` reads `n`, or is absent and `n` is 1. */
  predicate StepIs(v: String, k: nat, n: Int16)
    requires k + 2 <= |v|
  {
    (k + 2 == |v| ==> n == 1) && (k + 2 < |v| ==> ParseShort(v[k + 2..]) == Ok(n))
  }

  /** `x++` / `x++n`: the step is n, 1 by default, the value is `x` and the meter value stays Max. */
  lemma {:induction false} PlusMarker(v: String, k: nat, n: Int16)
    requires MarkerAt(v, k, "++") && StepIs(v, k, n)
    ensures ParseMeter(v) == Ok((v[..k], Meter(MinShort, MaxShort, MaxShort, n)))
  {
    PlusFound(v, k);
    StepAt(v, k, "++", n);
    PlusBranch(v, k, v[..k], n);
  }

  /** `x--` / `x--n`: the step is -n, -1 by default. */
  lemma {:induction false} MinusMarker(v: String, k: nat, n: Int16)
    requires MarkerAt(v, k, "--") && StepIs(v, k, n) && n >= 0
    ensures ParseMeter(v) == Ok((v[..k], Meter(MinShort, MaxShort, MaxShort, -n)))
  {
    var m: Int16 := -n;
    MinusFound(v, k);
    MinusStepAt(v, k, n, m);
    MinusBranch(v, k, v[..k], m);
    assert Meter(MinShort, MaxShort, MaxShort, m) == Meter(MinShort, MaxShort, MaxShort, -n);
  }

  /** `x<=n` sets the end to n and the step to Min. */
  lemma {:induction false} LowerMarker(v: String, k: nat, n: Int16)
    requires MarkerAt(v, k, "<=") && k + 2 < |v| && ParseShort(v[k + 2..]) == Ok(n)
    ensures ParseMeter(v) == Ok((v[..k], Meter(MinShort, n, MaxShort, MinShort)))
  {
    LowerFound(v, k);
    StepAt(v, k, "<=", n);
    LowerBranch(v, k, v[..k], n);
  }

  /** `x>=n` sets the start to n and the step to Max. */
  lemma {:induction false} GreaterMarker(v: String, k: nat, n: Int16)
    requires MarkerAt(v, k, ">=") && k + 2 < |v| && ParseShort(v[k + 2..]) == Ok(n)
    ensures ParseMeter(v) == Ok((v[..k], Meter(n, MaxShort, MaxShort, MaxShort)))
  {
    GreaterFound(v, k);
    StepAt(v, k, ">=", n);
    GreaterBranch(v, k, v[..k], n);
  }

  lemma Recompose(v: String, k: nat, m: String)
    requires |m| == 2 && k + 2 <= |v| && v[k..k + 2] == m
    ensures v == v[..k] + m + v[k + 2..]
  {
  }

  // The conditions under which the meter parser takes each marker branch.

  predicate PlusCase(v: String, k: nat)
  {
    k + 2 <= |v| && LastIndexOf(v, "..") == -1 && Contains(v, "++") && LastIndexOf(v, "++") == k
  }

  predicate MinusCase(v: String, k: nat)
  {
    k + 2 <= |v| && LastIndexOf(v, "..") == -1 && !Contains(v, "++")
    && Contains(v, "--") && LastIndexOf(v, "--") == k
  }

  predicate LowerCase(v: String, k: nat)
  {
    k + 2 <= |v| && LastIndexOf(v, "..") == -1 && !Contains(v, "++") && !Contains(v, "--")
    && Contains(v, "<=") && LastIndexOf(v, "<=") == k
  }

  predicate GreaterCase(v: String, k: nat)
  {
    k + 2 <= |v| && LastIndexOf(v, "..") == -1 && !Contains(v, "++") && !Contains(v, "--") && !Contains(v, "<=")
    && Contains(v, ">=") && LastIndexOf(v, ">=") == k
  }

  lemma PlusFound(v: String, k: nat)
    requires MarkerAt(v, k, "++")
    ensures PlusCase(v, k)
  {
    Recompose(v, k, "++");
    PlusFacts(v[..k], v[k + 2..]);
  }

  lemma MinusFound(v: String, k: nat)
    requires MarkerAt(v, k, "--")
    ensures MinusCase(v, k)
  {
    Recompose(v, k, "--");
    MinusFacts(v[..k], v[k + 2..]);
  }

  lemma LowerFound(v: String, k: nat)
    requires MarkerAt(v, k, "<=")
    ensures LowerCase(v, k)
  {
    Recompose(v, k, "<=");
    LowerFacts(v[..k], v[k + 2..]);
  }

  lemma GreaterFound(v: String, k: nat)
    requires MarkerAt(v, k, ">=")
    ensures GreaterCase(v, k)
  {
    Recompose(v, k, ">=");
    GreaterFacts(v[..k], v[k + 2..]);
  }

  /** The numeral after a marker other than `--` is the step itself. */
  lemma StepAt(v: String, k: nat, m: String, n: Int16)
    requires MarkerAt(v, k, m) && m[0] != '-'
    requires k + 2 == |v| ==> n == 1
    requires k + 2 < |v| ==> ParseShort(v[k + 2..]) == Ok(n)
    ensures NumberStep(v, k) == Ok((v[..k], n))
  {
    assert v[k] == v[k..k + 2][0];
  }

  /** The numeral after `--` is the step negated. */
  lemma MinusStepAt(v: String, k: nat, n: Int16, m: Int16)
    requires MarkerAt(v, k, "--") && StepIs(v, k, n) && n >= 0 && m == -n
    ensures NumberStep(v, k) == Ok((v[..k], m))
  {
    assert v[k] == v[k..k + 2][0];
    NumeralAt(v, k, n);
    assert Wrap16(-(n as int)) == -n;
  }

  lemma NumeralAt(v: String, k: nat, n: Int16)
    requires k + 2 <= |v| && StepIs(v, k, n)
    ensures StepNumeral(v, k) == Ok(n)
  {
  }

  // Where each marker is found, and that the markers tried before it are absent.

  lemma PlusFacts(b: String, d: String)
    requires PlainName(b) && AllDigits(d)
    ensures var v := b + "++" + d;
            LastIndexOf(v, "..") == -1 && Contains(v, "++") && LastIndexOf(v, "++") == |b|
  {
    MarkerFound(b, "++", d);
  }

  lemma MinusFacts(b: String, d: String)
    requires PlainName(b) && AllDigits(d)
    ensures var v := b + "--" + d;
            LastIndexOf(v, "..") == -1 && !Contains(v, "++") && Contains(v, "--") && LastIndexOf(v, "--") == |b|
  {
    MarkerFound(b, "--", d);
    NoMarker(b, "--", d, "++", '+');
  }

  lemma LowerFacts(b: String, d: String)
    requires PlainName(b) && AllDigits(d)
    ensures var v := b + "<=" + d;
            LastIndexOf(v, "..") == -1 && !Contains(v, "++") && !Contains(v, "--")
            && Contains(v, "<=") && LastIndexOf(v, "<=") == |b|
  {
    MarkerFound(b, "<=", d);
    NoMarker(b, "<=", d, "++", '+');
    NoMarker(b, "<=", d, "--", '-');
  }

  lemma GreaterFacts(b: String, d: String)
    requires PlainName(b) && AllDigits(d)
    ensures var v := b + ">=" + d;
            LastIndexOf(v, "..") == -1 && !Contains(v, "++") && !Contains(v, "--") && !Contains(v, "<=")
            && Contains(v, ">=") && LastIndexOf(v, ">=") == |b|
  {
    MarkerFound(b, ">=", d);
    NoMarker(b, ">=", d, "++", '+');
    NoMarker(b, ">=", d, "--", '-');
    NoMarker(b, ">=", d, "<=", '<');
  }

  /** A two-character marker after a plain name is found where it was put. */
  lemma {:induction false} MarkerFound(b: String, m: String, d: String)
    requires PlainName(b) && AllDigits(d) && |m| == 2 && '.' !in m && !IsDigit(m[0]) && !IsDigit(m[1])
    ensures LastIndexOf(b + m + d, "..") == -1
    ensures Contains(b + m + d, m) && LastIndexOf(b + m + d, m) == |b|
  {
    var v := b + m + d;
    assert v == b + (m + d);
    ContainsConcatForeign(b, m + d, "..");
    LastOccurrence(b, m, d);
    assert ContainsAt(v, m, |b|);
  }

  /** A plain name, a middle without `x` and digits never contain a marker that needs `x`. */
  lemma NoMarker(b: String, m: String, d: String, marker: String, x: char)
    requires PlainName(b) && AllDigits(d) && x in "+-<" && x in marker && x !in m
    ensures !Contains(b + m + d, marker)
  {
    ContainsNeedsChar(b + m + d, marker, x);
  }

  /** A plain value's meter is its trailing number, with one optional `-` before it. */
  lemma {:induction false} TrailingNumber(p: String, n: Int16)
    requires p != [] && !IsDigit(p[|p| - 1]) && p[|p| - 1] != '-'
    ensures NumberValue(p + IntToString(n)) == n
  {
    var d := IntToString(n);
    var v := p + d;
    ParseShortRoundTrip(n);
    TrailingRunStart(p, n);
    assert v[|p|..] == d;
    assert ParseShort(v[|p|..]) == Ok(n);
  }

  /** The digit run of `p + IntToString(n)` starts after the sign of `n`. */
  lemma {:induction false} TrailingRunStart(p: String, n: Int16)
    requires p != [] && !IsDigit(p[|p| - 1]) && p[|p| - 1] != '-'
    ensures var v := p + IntToString(n);
            DigitRunStart(v, |v|) == if n >= 0 then |p| else |p| + 1
  {
    var d := IntToString(n);
    var v := p + d;
    if n >= 0 {
      DigitRunStartIs(v, |v|, |p|);
    } else {
      assert d[1..] == NatToString(-(n as int));
      DigitRunStartIs(v, |v|, |p| + 1);
    }
  }

  /** Without trailing digits, or with nothing but digits, the meter value is Min. */
  lemma NoTrailingNumber(s: String)
    requires s == [] || !IsDigit(s[|s| - 1]) || AllDigits(s)
    ensures NumberValue(s) == MinShort
  {
    if s != [] && AllDigits(s) {
      DigitRunStartIs(s, |s|, 0);
    }
  }

  /** A plain value ending in a numeral after a non-digit gets that number as its meter value. */
  lemma {:induction false} PlainMeter(v: String, e: nat, n: Int16)
    requires 0 < e <= |v| && PlainName(v[..e]) && !IsDigit(v[e - 1]) && v[e..] == IntToString(n)
    ensures ParseMeter(v) == Ok((v, Meter(MinShort, MaxShort, n, 0)))
  {
    PlainFound(v, e, n);
    PlainNumber(v, e, n);
    PlainBranch(v);
  }

  lemma PlainFound(v: String, e: nat, n: Int16)
    requires 0 < e <= |v| && PlainName(v[..e]) && v[e..] == IntToString(n)
    ensures LastIndexOf(v, "..") == -1
    ensures !Contains(v, "++") && !Contains(v, "--") && !Contains(v, "<=") && !Contains(v, ">=")
  {
    assert v == v[..e] + IntToString(n);
    PlainFacts(v[..e], n);
  }

  lemma PlainNumber(v: String, e: nat, n: Int16)
    requires 0 < e <= |v| && PlainName(v[..e]) && !IsDigit(v[e - 1]) && v[e..] == IntToString(n)
    ensures NumberValue(v) == n
  {
    assert v[..e][e - 1] == v[e - 1];
    assert v == v[..e] + IntToString(n);
    TrailingNumber(v[..e], n);
  }

  lemma {:induction false} PlainFacts(p: String, n: Int16)
    requires PlainName(p)
    ensures var v := p + IntToString(n);
            LastIndexOf(v, "..") == -1 &&
            !Contains(v, "++") && !Contains(v, "--") && !Contains(v, "<=") && !Contains(v, ">=")
  {
    var d := IntToString(n);
    var v := p + d;
    assert forall i :: 0 <= i < |d| ==> d[i] !in "..";
    ContainsConcatForeign(p, d, "..");
    assert forall i :: 0 <= i < |d| ==> d[i] != '+' && d[i] != '<' && d[i] != '>';
    ContainsNeedsChar(v, "++", '+');
    ContainsNeedsChar(v, "<=", '<');
    ContainsNeedsChar(v, ">=", '>');
    PlainNoDecrement(p, n);
  }

  /** A plain name followed by a number has no `--`: the only `-` is the number's sign. */
  lemma {:induction false} PlainNoDecrement(p: String, n: Int16)
    requires PlainName(p)
    ensures !Contains(p + IntToString(n), "--")
  {
    var d := IntToString(n);
    var v := p + d;
    var dd := "--";
    assert dd[0] == '-' && dd[1] == '-';
    forall j | 0 <= j && j + 2 <= |v| ensures !ContainsAt(v, dd, j) {
      var w := v[j..j + 2];
      if j < |p| {
        assert p[j] in p;
        assert w[0] == p[j];
        assert w[0] != dd[0];
      } else {
        var i := j + 1 - |p|;
        assert w[1] == d[i];
        if n < 0 {
          var digits := NatToString(-(n as int));
          assert d == "-" + digits;
          assert d[i] == digits[i - 1];
          assert IsDigit(digits[i - 1]);
        } else {
          assert IsDigit(d[i]);
        }
        assert w[1] != dd[1];
      }
    }
  }

  /** `x a..c` sets the start to a and the end to c, and strips both numbers from the value. */
  lemma {:induction false} RangeMarker(v: String, t: nat, k: nat, a: Int16, c: Int16)
    requires 0 < t <= k && k + 2 <= |v| && !IsDigit(v[t - 1]) && v[t - 1] != '-'
    requires v[t..k] == IntToString(a) && v[k..k + 2] == ".." && v[k + 2..] == IntToString(c)
    ensures ParseMeter(v) == Ok((v[..t], Meter(a, c, MaxShort, 0)))
  {
    RangeFoundAt(v, t, k, a, c);
    RangeNumbersAt(v, t, k, a, c);
    RangeBranch(v, k, v[..t], a, c);
  }

  lemma RangeSplit(v: String, t: nat, k: nat)
    requires t <= k && k + 2 <= |v| && v[k..k + 2] == ".."
    ensures v == v[..t] + v[t..k] + ".." + v[k + 2..]
  {
  }

  lemma RangeFoundAt(v: String, t: nat, k: nat, a: Int16, c: Int16)
    requires t <= k && k + 2 <= |v| && v[k..k + 2] == ".." && v[k + 2..] == IntToString(c)
    ensures LastIndexOf(v, "..") == k && !EndsWith(v, "..")
  {
    RangeSplit(v, t, k);
    NumeralHasNoDot(c);
    RangeFound(v[..t], v[t..k], v[k + 2..]);
  }

  lemma RangeNumbersAt(v: String, t: nat, k: nat, a: Int16, c: Int16)
    requires 0 < t <= k && k + 2 <= |v| && !IsDigit(v[t - 1]) && v[t - 1] != '-'
    requires v[t..k] == IntToString(a) && v[k..k + 2] == ".." && v[k + 2..] == IntToString(c)
    ensures NumberRange(v, k) == Ok((v[..t], a, c))
  {
    RangeStartAt(v, t, k, a);
    BoundsAt(v, t, k, a, c);
  }

  /** The walk back from the `..` stops at the start of the first numeral, its sign included. */
  lemma RangeStartAt(v: String, t: nat, k: nat, a: Int16)
    requires 0 < t <= k <= |v| && !IsDigit(v[t - 1]) && v[t - 1] != '-' && v[t..k] == IntToString(a)
    ensures k >= 2 && t < k && DigitRunStart(v, k - 1) >= 1
    ensures (if v[DigitRunStart(v, k - 1) - 1] == '-' then DigitRunStart(v, k - 1) - 1 else DigitRunStart(v, k - 1)) == t
  {
    var sa := v[t..k];
    if a >= 0 {
      forall i | t <= i < k - 1 ensures v[i] == sa[i - t] {
      }
      DigitRunStartIs(v, k - 1, t);
    } else {
      var u := NatToString(-(a as int));
      assert sa == "-" + u;
      forall i | t + 1 <= i < k - 1 ensures v[i] == u[i - t - 1] {
        assert v[i] == sa[i - t];
      }
      assert v[t] == sa[0];
      DigitRunStartIs(v, k - 1, t + 1);
    }
  }

  lemma BoundsAt(v: String, t: nat, k: nat, a: Int16, c: Int16)
    requires t <= k && k + 2 <= |v| && v[t..k] == IntToString(a) && v[k + 2..] == IntToString(c)
    ensures BoundsAround(v, t, k) == (a, c)
  {
    ParseShortRoundTrip(a);
    ParseShortRoundTrip(c);
  }

  lemma NumeralHasNoDot(n: int)
    ensures '.' !in IntToString(n)
  {
    var s := IntToString(n);
    if n < 0 {
      assert s == "-" + NatToString(-n);
    }
  }

  lemma {:induction false} RangeFound(b: String, sa: String, sc: String)
    requires sc != [] && '.' !in sc
    ensures var v := b + sa + ".." + sc;
            LastIndexOf(v, "..") == |b| + |sa| && !EndsWith(v, "..")
  {
    var v := b + sa + ".." + sc;
    assert forall i :: 0 <= i < |sc| ==> sc[i] !in "..";
    LastOccurrence(b + sa, "..", sc);
    assert v[|v| - 1] == sc[|sc| - 1];
  }

  /** A trailing `..` strips the dots and gives the meter (Min, Max, Min). */
  lemma {:induction false} OpenRangeMarker(v: String)
    requires EndsWith(v, "..")
    ensures ParseMeter(v) == Ok((v[..|v| - 2], Meter(MinShort, MaxShort, MinShort, 0)))
  {
    assert ContainsAt(v, "..", |v| - 2);
    LastIndexOfAt(v, "..", |v| - 2);
  }

  // The branches of the meter parser, one at a time.

  lemma PlusBranch(v: String, k: nat, b: String, n: Int16)
    requires PlusCase(v, k) && NumberStep(v, k) == Ok((b, n))
    ensures ParseMeter(v) == Ok((b, Meter(MinShort, MaxShort, MaxShort, n)))
  {
  }

  lemma MinusBranch(v: String, k: nat, b: String, n: Int16)
    requires MinusCase(v, k) && NumberStep(v, k) == Ok((b, n))
    ensures ParseMeter(v) == Ok((b, Meter(MinShort, MaxShort, MaxShort, n)))
  {
  }

  lemma LowerBranch(v: String, k: nat, b: String, n: Int16)
    requires LowerCase(v, k) && NumberStep(v, k) == Ok((b, n))
    ensures ParseMeter(v) == Ok((b, Meter(MinShort, n, MaxShort, MinShort)))
  {
  }

  lemma GreaterBranch(v: String, k: nat, b: String, n: Int16)
    requires GreaterCase(v, k) && NumberStep(v, k) == Ok((b, n))
    ensures ParseMeter(v) == Ok((b, Meter(n, MaxShort, MaxShort, MaxShort)))
  {
  }

  lemma PlainBranch(v: String)
    requires LastIndexOf(v, "..") == -1
    requires !Contains(v, "++") && !Contains(v, "--") && !Contains(v, "<=") && !Contains(v, ">=")
    ensures ParseMeter(v) == Ok((v, Meter(MinShort, MaxShort, NumberValue(v), 0)))
  {
  }

  lemma RangeBranch(v: String, ri: nat, b: String, a: Int16, c: Int16)
    requires LastIndexOf(v, "..") == ri && !EndsWith(v, "..") && ri + 2 <= |v|
    requires NumberRange(v, ri) == Ok((b, a, c))
    ensures ParseMeter(v) == Ok((b, Meter(a, c, MaxShort, 0)))
  {
  }

  /** Step and comparison tags never carry a meter value. */
  lemma {:induction false} StepIsNotMeter(t: Tag)
    ensures t.meter.step != 0 ==> t.meter.value == MaxShort
    ensures IsIncrement(t) || IsDecrement(t) || IsGreater(t) || IsLower(t) ==> !IsMeter(t)
  {
    var (v0, loc) := SplitLocation(t.raw);
    var (op, v1) := SplitPrefix(v0);
    assert ParseMeter(v1).Ok? && ParseMeter(v1).value.1 == t.meter;
  }
}
