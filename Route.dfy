// Dialogue routes: the cursor (`RouteKnot`) that turns the hyphen depth of
// each route line into a hierarchical name such as `TALK-2-1-0`, and the
// route line (`F3NolanRouteData`) built from one parsed line, which moves
// the cursor, extracts its tag sets and adds its texts to the text book.

module Routes {
  import opened Base
  import opened Str
  import opened TagSets
  import opened TextBooks

  /** The number of levels the cursor counts (`new int[9]`). */
  const Levels: nat := 9

  /** C# integer division: truncation toward zero. */
  function CDiv(a: int, b: int): int
    requires b > 0
  {
    if a >= 0 then a / b else -((-a) / b)
  }

  /** C# integer remainder: it takes the sign of the dividend. */
  function CRem(a: int, b: int): int
    requires b > 0
  {
    if a >= 0 then a % b else -((-a) % b)
  }

  // ---------------------------------------------------------------------
  // Names

  /** The segments `-c0-c1...` of the first `n` counters. */
  function Segments(counts: seq<int>, n: nat): String
    requires n <= |counts|
  {
    if n == 0 then [] else Segments(counts, n - 1) + "-" + IntToString(counts[n - 1])
  }

  /** How many counters `GetLongName(depth)` writes: those of levels 0 to depth / 2. */
  function SegmentCount(depth: int): nat
  {
    if CDiv(depth, 2) < 0 then 0 else CDiv(depth, 2) + 1
  }

  /**
   * `GetLongName(depth)`: the route name, a segment per counter of levels
   * 0 to depth / 2, and `-0` when the depth is odd; no name is a Route
   * NullOrEmpty error, and a level past the ninth an index error.
   */
  function LongName(name: Option<String>, counts: seq<int>, depth: int): (r: Result<String>)
    ensures r.Ok? ==> name.Some? && StartsWith(r.value, name.value)
    ensures r.Err? <==> name.None? || SegmentCount(depth) > |counts|
  {
    if name.None? then Err(Contextual(NullOrEmpty, RouteContext))
    else if SegmentCount(depth) > |counts| then Err(Runtime(IndexOutOfRange))
    else
      var r := name.value + Segments(counts, SegmentCount(depth)) + (if CRem(depth, 2) == 1 then "-0" else "");
      assert r[..|name.value|] == name.value;
      Ok(r)
  }

  /** A segment count fits: the counters of one more level are written past an odd depth. */
  lemma OddSharesSegments(depth: int)
    requires CRem(depth, 2) == 1
    ensures depth >= 1 && SegmentCount(depth) == SegmentCount(depth - 1) && CRem(depth - 1, 2) == 0
  {
  }

  /**
   * An odd-depth name is the name of the even depth above it followed by
   * `-0`; in particular it ends in `-0`.
   */
  lemma OddNameEndsInZero(name: Option<String>, counts: seq<int>, depth: int)
    requires CRem(depth, 2) == 1 && LongName(name, counts, depth).Ok?
    ensures LongName(name, counts, depth - 1).Ok?
    ensures LongName(name, counts, depth) == Ok(LongName(name, counts, depth - 1).value + "-0")
    ensures EndsWith(LongName(name, counts, depth).value, "-0")
  {
    OddSharesSegments(depth);
    var base := name.value + Segments(counts, SegmentCount(depth));
    assert LongName(name, counts, depth - 1) == Ok(base + "");
    assert base + "" == base;
    assert LongName(name, counts, depth) == Ok(base + "-0");
  }

  /** The name at an even depth ends with the counter of its own level. */
  lemma EvenName(name: String, counts: seq<int>, d: int)
    requires d >= 0 && d % 2 == 0 && d / 2 < |counts|
    ensures LongName(Some(name), counts, d) == Ok(name + Segments(counts, d / 2) + "-" + IntToString(counts[d / 2]))
  {
    var n := d / 2;
    assert SegmentCount(d) == n + 1 && CRem(d, 2) == 0;
    assert Segments(counts, n + 1) == Segments(counts, n) + "-" + IntToString(counts[n]);
    var base := name + Segments(counts, n + 1);
    assert LongName(Some(name), counts, d) == Ok(base + "");
    assert base + "" == base;
    assert base == name + Segments(counts, n) + "-" + IntToString(counts[n]);
  }

  /** Counters that agree on their first `n` entries write the same first `n` segments. */
  lemma {:induction false} SegmentsAgree(a: seq<int>, b: seq<int>, n: nat)
    requires n <= |a| && n <= |b| && a[..n] == b[..n]
    ensures Segments(a, n) == Segments(b, n)
  {
    if n > 0 {
      assert a[..n - 1] == a[..n][..n - 1];
      assert b[..n - 1] == b[..n][..n - 1];
      assert a[n - 1] == a[..n][n - 1];
      SegmentsAgree(a, b, n - 1);
    }
  }

  /** Distinct integers are written differently. */
  lemma IntToStringInjective(x: int, y: int)
    requires x != y
    ensures IntToString(x) != IntToString(y)
  {
    var lo := if x < y then x else y;
    var hi := if x < y then y else x;
    ParseIntegerRoundTrip(x, lo, hi);
    ParseIntegerRoundTrip(y, lo, hi);
  }

  /** Names that share their prefix and differ in their last counter differ. */
  lemma LastSegmentDiffers(prefix: String, x: int, y: int)
    requires x != y
    ensures prefix + "-" + IntToString(x) != prefix + "-" + IntToString(y)
  {
    IntToStringInjective(x, y);
    var a := prefix + "-" + IntToString(x);
    var b := prefix + "-" + IntToString(y);
    assert IntToString(x) == a[|prefix| + 1..];
    assert IntToString(y) == b[|prefix| + 1..];
  }

  /** A last counter of at least one is not written `0`, so the name does not end in `-0`. */
  lemma PositiveSegmentNotZero(prefix: String, c: int)
    requires c >= 1
    ensures !EndsWith(prefix + "-" + IntToString(c), "-0")
  {
    var x := IntToString(c);
    var s := prefix + "-" + x;
    assert AllDigits(x);
    if |x| >= 2 {
      assert s[|s| - 2] == x[|x| - 2];
      assert s[|s| - 2..][0] != '-';
    } else {
      assert x == [x[0]];
      assert DigitsValue(x) == DigitsValue([x[0]]);
      assert s[|s| - 2..][1] == x[0] != '0';
    }
  }

  // ---------------------------------------------------------------------
  // The cursor

  /** The cursor's contents: the route name, the current depth and the counter of every level. */
  datatype Knot = Knot(name: Option<String>, depth: int, counts: seq<int>)

  /** Nine counters at zero. */
  function Zeros(): seq<int>
  {
    seq(Levels, _ => 0)
  }

  /** Counts another line at the cursor's level when that level is even. */
  function CountLevel(k: Knot): (Knot, Option<Error>)
    requires k.depth >= 0
  {
    if k.depth % 2 != 0 then (k, None)
    else if k.depth / 2 >= |k.counts| then (k, Some(Runtime(IndexOutOfRange)))
    else (k.(counts := k.counts[k.depth / 2 := k.counts[k.depth / 2] + 1]), None)
  }

  /** The indentation error of a route line. */
  const Indentation: Error := Contextual(SyntaxError, RouteContext)

  /**
   * The cursor after a route line of parsed depth `d` (negative for a dead
   * end, which stands at depth -3 - d), and the error it raises. A dead end
   * may not go deeper than the cursor and touches no counter. A normal line
   * at the cursor's depth, or above it, counts a line at its level; one below
   * it must be exactly one level deeper and restarts that level's counter at 1.
   * The cursor keeps what was assigned before an error.
   */
  function Step(k: Knot, d: int): (r: (Knot, Option<Error>))
    requires |k.counts| == Levels
    ensures |r.0.counts| == Levels
  {
    if d < 0 then
      var depth := -3 - d;
      if k.depth < depth then (k, Some(Indentation)) else (k.(depth := depth), None)
    else if k.depth == d then CountLevel(k)
    else if k.depth > d then CountLevel(k.(depth := d))
    else
      var k1 := k.(depth := k.depth + 1);
      if k1.depth != d then (k1, Some(Indentation))
      else if d % 2 != 0 then (k1, None)
      else if d / 2 >= Levels then (k1, Some(Runtime(IndexOutOfRange)))
      else (k1.(counts := k1.counts[d / 2 := 1]), None)
  }

  /** Every counter is at least zero. */
  predicate NonNegative(counts: seq<int>)
  {
    forall i :: 0 <= i < |counts| ==> counts[i] >= 0
  }

  /**
   * A step keeps the counters non-negative, leaves the name alone, keeps
   * nine counters, and after an accepted normal line the cursor stands at
   * that line's depth; after an even one its level's counter is positive.
   */
  lemma StepKeeps(k: Knot, d: int)
    requires |k.counts| == Levels && NonNegative(k.counts)
    ensures var (k1, failure) := Step(k, d);
      k1.name == k.name && |k1.counts| == Levels && NonNegative(k1.counts) &&
      (failure.None? && d >= 0 ==> k1.depth == d) &&
      (failure.None? && d >= 0 && d % 2 == 0 ==> k1.counts[d / 2] >= 1)
  {
  }

  /** A dead end moves the cursor to its depth and touches no counter. */
  lemma DeadEndKeepsCounters(k: Knot, d: int)
    requires |k.counts| == Levels && d < 0
    ensures Step(k, d).0.counts == k.counts
    ensures Step(k, d).1.None? <==> k.depth >= -3 - d
    ensures Step(k, d).1.None? ==> Step(k, d).0.depth == -3 - d
  {
  }

  /**
   * The next choice at a level the cursor stands at, or below, gets a name
   * different from the one the counters gave that level before it.
   */
  lemma SiblingNamesDiffer(k: Knot, d: int)
    requires |k.counts| == Levels && d >= 0 && d % 2 == 0 && k.depth >= d
    requires Step(k, d).1.None? && LongName(k.name, k.counts, d).Ok?
    ensures LongName(k.name, Step(k, d).0.counts, d).Ok?
    ensures LongName(k.name, Step(k, d).0.counts, d) != LongName(k.name, k.counts, d)
  {
    var n := d / 2;
    var c1 := k.counts[n := k.counts[n] + 1];
    assert Step(k, d).0.counts == c1;
    assert c1[..n] == k.counts[..n];
    SegmentsAgree(k.counts, c1, n);
    EvenName(k.name.value, k.counts, d);
    EvenName(k.name.value, c1, d);
    LastSegmentDiffers(k.name.value + Segments(k.counts, n), k.counts[n], c1[n]);
  }

  /**
   * The name of a choice is told apart from that of the odd-depth text
   * below it: after an accepted even line the name at its depth does not
   * end in `-0`, which every odd-depth name does.
   */
  lemma ChoiceNameNotOdd(k: Knot, d: int)
    requires |k.counts| == Levels && NonNegative(k.counts) && d >= 0 && d % 2 == 0
    requires Step(k, d).1.None? && LongName(k.name, Step(k, d).0.counts, d).Ok?
    ensures !EndsWith(LongName(k.name, Step(k, d).0.counts, d).value, "-0")
  {
    StepKeeps(k, d);
    var c1 := Step(k, d).0.counts;
    var n := d / 2;
    EvenName(k.name.value, c1, d);
    PositiveSegmentNotZero(k.name.value + Segments(c1, n), c1[n]);
  }

  class RouteKnot {
    var routeName: Option<String>
    var depth: int
    const depthCount: array<int>

    ghost predicate Valid()
      reads this
    {
      depthCount.Length == Levels
    }

    function State(): Knot
      reads this, depthCount
    {
      Knot(routeName, depth, depthCount[..])
    }

    /** A cursor with no name, at depth 0, with every counter at zero. */
    constructor()
      ensures Valid() && fresh(depthCount)
      ensures State() == Knot(None, 0, Zeros())
    {
      depthCount := new int[Levels];
      new;
      Clear(None);
    }

    /** Names the route, returns to depth 0 and zeroes the nine counters. */
    method Clear(debug: Option<String>)
      requires Valid()
      modifies this, depthCount
      ensures Valid()
      ensures State() == Knot(debug, 0, Zeros())
    {
      routeName := debug;
      depth := 0;
      for i := 0 to Levels
        invariant routeName == debug && depth == 0
        invariant forall j :: 0 <= j < i ==> depthCount[j] == 0
      {
        depthCount[i] := 0;
      }
    }

    /** `GetShortName`: the route name, which must be set. */
    function GetShortName(): (r: Result<String>)
      reads this
      ensures r.Ok? <==> routeName.Some?
    {
      if routeName.None? then Err(Contextual(NullOrEmpty, RouteContext)) else Ok(routeName.value)
    }

    /** `GetLongName`: the route name followed by the counters of levels 0 to d / 2. */
    method GetLongName(d: int) returns (r: Result<String>)
      requires Valid()
      ensures r == LongName(routeName, depthCount[..], d)
    {
      if routeName.None? {
        return Err(Contextual(NullOrEmpty, RouteContext));
      }
      ghost var counts := depthCount[..];
      var outName := routeName.value;
      var half := CDiv(d, 2);
      var i := 0;
      while i <= half
        invariant 0 <= i <= Levels && i <= SegmentCount(d)
        invariant outName == routeName.value + Segments(counts, i)
      {
        if i >= depthCount.Length {
          return Err(Runtime(IndexOutOfRange));
        }
        assert depthCount[i] == counts[i];
        ghost var next := outName + "-" + IntToString(counts[i]);
        assert next == routeName.value + Segments(counts, i + 1);
        outName := outName + "-" + IntToString(depthCount[i]);
        i := i + 1;
      }
      assert i == SegmentCount(d);
      assert LongName(routeName, counts, d) == Ok(outName + (if CRem(d, 2) == 1 then "-0" else ""));
      if CRem(d, 2) == 1 {
        outName := outName + "-0";
      } else {
        assert outName + "" == outName;
      }
      return Ok(outName);
    }

    /** The cursor move of the route line constructor, for a parsed depth `d`. */
    method Advance(d: int) returns (failure: Option<Error>)
      requires Valid()
      modifies this, depthCount
      ensures Valid()
      ensures (State(), failure) == Step(old(State()), d)
    {
      if d < 0 {
        var deadDepth := -3 - d;
        if depth < deadDepth {
          return Some(Indentation);
        }
        depth := deadDepth;
        return None;
      }
      if depth == d {
        failure := CountCurrent();
      } else if depth > d {
        depth := d;
        failure := CountCurrent();
      } else {
        depth := depth + 1;
        if depth != d {
          return Some(Indentation);
        }
        if depth % 2 == 0 {
          if depth / 2 >= depthCount.Length {
            return Some(Runtime(IndexOutOfRange));
          }
          depthCount[depth / 2] := 1;
        }
        failure := None;
      }
    }

    /** Counts a line at the cursor's level when it is even. */
    method CountCurrent() returns (failure: Option<Error>)
      requires Valid() && depth >= 0
      modifies depthCount
      ensures (State(), failure) == CountLevel(old(State()))
    {
      if depth % 2 == 0 {
        if depth / 2 >= depthCount.Length {
          return Some(Runtime(IndexOutOfRange));
        }
        depthCount[depth / 2] := depthCount[depth / 2] + 1;
      }
      failure := None;
    }
  }

  // ---------------------------------------------------------------------
  // Route lines

  /**
   * A route line (`F3NolanRouteData`): whether it is a dead end, its depth,
   * its name, the text keys added for it, its context (payload for a dead
   * end) and cost (gain), and for a dead end the node it goes to.
   */
  datatype RouteData = RouteData(deadEnd: bool, depth: int, name: String, keys: seq<String>,
                                 contextOrPayload: TagSet, costOrGain: TagSet, gotoName: Option<String>)
  {
    /** `IsChoiceLine`: an even depth, dead ends included. */
    predicate IsChoiceLine() { depth % 2 == 0 }

    /** The key of the short form of a choice. */
    function ShortKey(): String { name + "S" }

    /** `Goto`, which only a dead end has. */
    function Goto(): (r: Result<String>)
      ensures r.Ok? <==> gotoName.Some?
    {
      if gotoName.None? then Err(Contextual(NullOrEmpty, RouteContext)) else Ok(gotoName.value)
    }
  }

  /** The tag-set parser of a `( ... )` payload or `{ ... }` gain; `None` when it fails. */
  type TagSetParser = (String, bool) -> Option<TagSet>

  /**
   * `ExtractFromPayloadOrGainSyntax`: when the line opens with `(` (a
   * payload) or `{` (a gain) and the closer occurs, the text up to the
   * closer is parsed; on success the tags are returned with the rest of the
   * line, leading white space removed. Otherwise no tags and the line as it
   * was.
   */
  function Extract(line: String, isPayload: bool, parse: TagSetParser): (r: (TagSet, String))
    ensures |r.1| <= |line| && r.1 == line[|line| - |r.1|..]
    ensures |r.1| < |line| || r == (TagSets.Empty, line)
  {
    var opener := if isPayload then '(' else '{';
    var closer := if isPayload then ')' else '}';
    var suffixEnds := IndexOf(line, [closer]);
    if StartsWith(line, [opener]) && suffixEnds > -1 then
      match parse(line[..suffixEnds + 1], isPayload)
      case Some(tags) =>
        var rest := line[suffixEnds + 1..];
        TrimStartSuffix(rest);
        (tags, TrimStart(rest))
      case None => (TagSets.Empty, line)
    else (TagSets.Empty, line)
  }

  /**
   * The bracket split of a choice: with a `[` before the first `]`, the
   * short form is the text before `[` and the bracketed text, and the node
   * text is the line without the bracketed part. The line is recovered by
   * putting the brackets back.
   */
  function BracketSplit(s: String): (r: Option<(String, String)>)
    ensures r.Some? <==> -1 < IndexOf(s, "[") < IndexOf(s, "]")
    ensures r.Some? ==>
      var p := IndexOf(s, "[");
      p <= |r.value.0| && p <= |r.value.1| &&
      s == r.value.0[..p] + "[" + r.value.0[p..] + "]" + r.value.1[p..]
  {
    var prefixEnds := IndexOf(s, "[");
    var shortEnds := IndexOf(s, "]");
    if shortEnds > prefixEnds && prefixEnds > -1 then
      var short := s[..prefixEnds] + s[prefixEnds + 1..shortEnds];
      var node := s[..prefixEnds] + s[shortEnds + 1..];
      assert short[..prefixEnds] == s[..prefixEnds] && short[prefixEnds..] == s[prefixEnds + 1..shortEnds];
      assert node[prefixEnds..] == s[shortEnds + 1..];
      assert s[prefixEnds] == '[' && s[shortEnds] == ']';
      assert s == s[..prefixEnds] + [s[prefixEnds]] + s[prefixEnds + 1..shortEnds] + [s[shortEnds]] + s[shortEnds + 1..];
      Some((short, node))
    else None
  }

  /** The dead end at `depth` named `name`: payload, gain and the node it goes to, no text. */
  function DeadEnd(depth: int, name: String, rest: String, parse: TagSetParser): RouteData
  {
    var (payload, r1) := Extract(rest, true, parse);
    var (gain, r2) := Extract(r1, false, parse);
    var goto := if IsNullOrWhiteSpace(r2) then "" else TrimEnd(r2);
    RouteData(true, depth, name, [], payload, gain, Some(goto))
  }

  /**
   * A choice line: context and cost extracted, the bracket split (a Route
   * SyntaxError without it), the short form added under `name + "S"` and the
   * node text under `name`.
   */
  function Choice(b: Book, depth: int, name: String, rest: String, parse: TagSetParser): (r: (Result<RouteData>, Book))
    ensures r.0.Ok? ==> r.0.value.depth == depth && r.0.value.name == name
  {
    var (context, r1) := Extract(rest, true, parse);
    var (cost, r2) := Extract(r1, false, parse);
    match BracketSplit(r2)
    case None => (Err(Contextual(SyntaxError, RouteContext)), b)
    case Some((short, node)) =>
      var (s, b1) := AppendSpec(b, name + "S", short);
      if s.Err? then (Err(s.error), b1)
      else
        var (keys, b2) := AppendSpec(b1, name, node);
        if keys.Err? then (Err(keys.error), b2)
        else (Ok(RouteData(false, depth, name, keys.value, context, cost, None)), b2)
  }

  /**
   * The route line constructor for a parsed depth `d` and line text: the
   * cursor moves, the line is named after the cursor, and its texts go to
   * the book. Returns the line or the error, with the cursor and the book
   * as the error leaves them.
   */
  function RouteLine(k: Knot, b: Book, d: int, line: String, parse: TagSetParser): (Result<RouteData>, Knot, Book)
    requires |k.counts| == Levels
  {
    var (k1, failure) := Step(k, d);
    if failure.Some? then (Err(failure.value), k1, b)
    else
      var depth := if d < 0 then -3 - d else d;
      var name := LongName(k1.name, k1.counts, depth);
      if name.Err? then (Err(name.error), k1, b)
      else
        var rest := TrimStart(line);
        if d < 0 then (Ok(DeadEnd(depth, name.value, rest, parse)), k1, b)
        else if depth % 2 == 0 then
          var (r, b1) := Choice(b, depth, name.value, rest, parse);
          (r, k1, b1)
        else
          var (keys, b1) := AppendSpec(b, name.value, rest);
          if keys.Err? then (Err(keys.error), k1, b1)
          else (Ok(RouteData(false, depth, name.value, keys.value, TagSets.Empty, TagSets.Empty, None)), k1, b1)
  }

  /** `new F3NolanRouteData(depth, line, ref route, add)`, with the text book's `AppendLine` as `add`. */
  method NewRouteData(d: int, line: String, route: RouteKnot, book: MutableTextBook, parse: TagSetParser)
    returns (r: Result<RouteData>)
    requires route.Valid()
    modifies route, route.depthCount, book
    ensures route.Valid()
    ensures (r, route.State(), book.State()) == RouteLine(old(route.State()), old(book.State()), d, line, parse)
  {
    var failure := route.Advance(d);
    if failure.Some? {
      return Err(failure.value);
    }
    var depth := if d < 0 then -3 - d else d;
    var name := route.GetLongName(depth);
    if name.Err? {
      return Err(name.error);
    }
    var resultLine := TrimStart(line);
    if d < 0 {
      return Ok(DeadEnd(depth, name.value, resultLine, parse));
    }
    var context, cost := TagSets.Empty, TagSets.Empty;
    if depth % 2 == 0 {
      var payload := Extract(resultLine, true, parse);
      context, resultLine := payload.0, payload.1;
      var gain := Extract(resultLine, false, parse);
      cost, resultLine := gain.0, gain.1;
      var split := BracketSplit(resultLine);
      if split.None? {
        return Err(Contextual(SyntaxError, RouteContext));
      }
      var unusedKey := book.AppendLine(name.value + "S", split.value.0);
      if unusedKey.Err? {
        return Err(unusedKey.error);
      }
      resultLine := split.value.1;
    }
    var keys := book.AppendLine(name.value, resultLine);
    if keys.Err? {
      return Err(keys.error);
    }
    return Ok(RouteData(false, depth, name.value, keys.value, context, cost, None));
  }

  /**
   * A dead end written with `h` hyphens (parsed depth -1 - h) stands at
   * depth h - 2, as a normal line with `h` hyphens does; it stores no text,
   * leaves the book and the counters alone and always has a goto.
   */
  lemma DeadEndStoresNoText(k: Knot, b: Book, h: int, line: String, parse: TagSetParser)
    requires |k.counts| == Levels && h >= 1
    ensures var (r, k1, b1) := RouteLine(k, b, -1 - h, line, parse);
      b1 == b && k1.counts == k.counts &&
      (r.Ok? ==> r.value.deadEnd && r.value.depth == h - 2 && r.value.keys == [] && r.value.Goto().Ok?)
  {
    DeadEndKeepsCounters(k, -1 - h);
  }

  /**
   * An accepted line is named after the cursor, which now stands at its
   * depth; its name ends in `-0` exactly when it is not a choice line.
   */
  lemma RouteLineName(k: Knot, b: Book, d: int, line: String, parse: TagSetParser)
    requires |k.counts| == Levels && NonNegative(k.counts) && d >= 0
    requires RouteLine(k, b, d, line, parse).0.Ok?
    ensures var (r, k1, _) := RouteLine(k, b, d, line, parse);
      k1.depth == d == r.value.depth && Ok(r.value.name) == LongName(k.name, k1.counts, d) &&
      (EndsWith(r.value.name, "-0") <==> !r.value.IsChoiceLine())
  {
    StepKeeps(k, d);
    var k1 := Step(k, d).0;
    var name := LongName(k1.name, k1.counts, d);
    var r := RouteLine(k, b, d, line, parse).0;
    assert name.Ok? && r.value.depth == d && r.value.name == name.value by {
      if d % 2 == 0 {
        assert r == Choice(b, d, name.value, TrimStart(line), parse).0;
      } else {
        assert r.value.depth == d;
      }
    }
    if d % 2 == 0 {
      ChoiceNameNotOdd(k, d);
    } else {
      assert CRem(d, 2) == 1;
      OddNameEndsInZero(k1.name, k1.counts, d);
    }
  }

  /** The counters a name at `depth` writes, with the `0` of an odd depth: `TALK-2-1-0` has path [2, 1, 0]. */
  function Path(counts: seq<int>, depth: int): seq<int>
    requires SegmentCount(depth) <= |counts|
  {
    counts[..SegmentCount(depth)] + (if CRem(depth, 2) == 1 then [0] else [])
  }

  /** A path written as `-c` segments. */
  function Render(path: seq<int>): String
  {
    if path == [] then [] else Render(path[..|path| - 1]) + "-" + IntToString(path[|path| - 1])
  }

  /** The segments of the first `n` counters render the first `n` counters. */
  lemma {:induction false} SegmentsRender(counts: seq<int>, n: nat)
    requires n <= |counts|
    ensures Segments(counts, n) == Render(counts[..n])
  {
    if n > 0 {
      assert counts[..n][..n - 1] == counts[..n - 1];
      SegmentsRender(counts, n - 1);
    }
  }

  /** A long name is the route name followed by its path. */
  lemma LongNamePath(name: String, counts: seq<int>, depth: int)
    requires SegmentCount(depth) <= |counts|
    ensures LongName(Some(name), counts, depth) == Ok(name + Render(Path(counts, depth)))
  {
    var n := SegmentCount(depth);
    SegmentsRender(counts, n);
    PathRender(counts, depth);
    var tail: String := if CRem(depth, 2) == 1 then "-0" else "";
    assert name + Segments(counts, n) + tail == name + (Render(counts[..n]) + tail);
  }

  /** The path of a depth renders as the counters' segments, then `-0` for an odd depth. */
  lemma PathRender(counts: seq<int>, depth: int)
    requires SegmentCount(depth) <= |counts|
    ensures Render(Path(counts, depth)) ==
      Render(counts[..SegmentCount(depth)]) + (if CRem(depth, 2) == 1 then "-0" else "")
  {
    var p := counts[..SegmentCount(depth)];
    if CRem(depth, 2) == 1 {
      RenderZero(p);
    } else {
      assert Path(counts, depth) == p;
    }
  }

  /** A zero segment renders as `-0`. */
  lemma RenderZero(p: seq<int>)
    ensures Render(p + [0]) == Render(p) + "-0"
  {
    var q := p + [0];
    assert q[..|p|] == p && q[|p|] == 0;
    assert IntToString(0) == "0";
  }

  /** The cursor after the first `i` of the route lines of parsed depths `ds`, from the cursor `k`. */
  function Cursor(k: Knot, ds: seq<int>, i: nat): (r: Result<Knot>)
    requires |k.counts| == Levels && i <= |ds|
    ensures r.Ok? ==> |r.value.counts| == Levels
  {
    if i == 0 then Ok(k)
    else
      var k0 :- Cursor(k, ds, i - 1);
      var (k1, failure) := Step(k0, ds[i - 1]);
      if failure.Some? then Err(failure.value) else Ok(k1)
  }

  /** The path of the name of line `i` of the route lines of parsed depths `ds`, from the cursor `k`. */
  function PathAt(k: Knot, ds: seq<int>, i: nat): Result<seq<int>>
    requires |k.counts| == Levels && i < |ds|
  {
    var k1 :- Cursor(k, ds, i + 1);
    var depth := if ds[i] < 0 then -3 - ds[i] else ds[i];
    if SegmentCount(depth) > Levels then Err(Runtime(IndexOutOfRange)) else Ok(Path(k1.counts, depth))
  }

  /** The parsed depths of the route of the engine's "Full Script" scenario. */
  const TalkDepths: seq<int> := [0, -3, 0, 1, 2, 3, -5, 2, 0]

  /** The paths of the names the engine's tests expect for it: TALK-1, TALK-1, TALK-2, TALK-2-0, ... */
  const TalkNames: seq<seq<int>> := [[1], [1], [2], [2, 0], [2, 1], [2, 1, 0], [2, 1], [2, 2], [3]]

  /** The counters of a cursor that has only counted its first two levels. */
  function Counters(a: int, b: int): (r: seq<int>)
    ensures |r| == Levels && r[0] == a && r[1] == b
  {
    [a, b] + seq(Levels - 2, _ => 0)
  }

  /** Counting on either of the first two levels. */
  lemma CountersUpdate(a: int, b: int)
    ensures Zeros() == Counters(0, 0)
    ensures Counters(a, b)[0 := a + 1] == Counters(a + 1, b)
    ensures Counters(a, b)[1 := b + 1] == Counters(a, b + 1)
    ensures Counters(a, b)[..1] == [a] && Counters(a, b)[..2] == [a, b]
  {
    assert Zeros() == Counters(0, 0);
    assert Counters(a, b)[0 := a + 1] == Counters(a + 1, b);
    assert Counters(a, b)[1 := b + 1] == Counters(a, b + 1);
    assert Counters(a, b)[..2] == [a, b];
  }

  /** The paths of the first four depths over two counted levels. */
  lemma PathsOfCounters(a: int, b: int)
    ensures Path(Counters(a, b), 0) == [a] && Path(Counters(a, b), 1) == [a, 0]
    ensures Path(Counters(a, b), 2) == [a, b] && Path(Counters(a, b), 3) == [a, b, 0]
  {
    assert Counters(a, b)[..1] == [a];
    assert Counters(a, b)[..2] == [a, b];
  }

  /** The path of a line is read off the cursor after it. */
  lemma PathAtCursor(start: Knot, ds: seq<int>, i: nat, k1: Knot)
    requires |start.counts| == Levels && i < |ds| && Cursor(start, ds, i + 1) == Ok(k1)
    ensures var depth := if ds[i] < 0 then -3 - ds[i] else ds[i];
      SegmentCount(depth) <= Levels ==> PathAt(start, ds, i) == Ok(Path(k1.counts, depth))
  {
  }

  /** An accepted line moves the cursor one line further. */
  lemma CursorAdvance(start: Knot, ds: seq<int>, i: nat, k0: Knot, k1: Knot)
    requires |start.counts| == Levels && i < |ds| && |k0.counts| == Levels
    requires Cursor(start, ds, i) == Ok(k0) && Step(k0, ds[i]) == (k1, None)
    ensures Cursor(start, ds, i + 1) == Ok(k1)
  {
  }

  /** The cursor after each of the first five lines of the "Full Script" route. */
  lemma TalkCursorsEarly(start: Knot)
    requires start == Knot(Some("TALK"), 0, Zeros())
    ensures Cursor(start, TalkDepths, 1) == Ok(Knot(Some("TALK"), 0, Counters(1, 0)))
    ensures Cursor(start, TalkDepths, 2) == Ok(Knot(Some("TALK"), 0, Counters(1, 0)))
    ensures Cursor(start, TalkDepths, 3) == Ok(Knot(Some("TALK"), 0, Counters(2, 0)))
    ensures Cursor(start, TalkDepths, 4) == Ok(Knot(Some("TALK"), 1, Counters(2, 0)))
    ensures Cursor(start, TalkDepths, 5) == Ok(Knot(Some("TALK"), 2, Counters(2, 1)))
  {
    CountersUpdate(0, 0);
    CursorAdvance(start, TalkDepths, 0, Knot(Some("TALK"), 0, Counters(0, 0)), Knot(Some("TALK"), 0, Counters(1, 0)));
    CursorAdvance(start, TalkDepths, 1, Knot(Some("TALK"), 0, Counters(1, 0)), Knot(Some("TALK"), 0, Counters(1, 0)));
    CountersUpdate(1, 0);
    CursorAdvance(start, TalkDepths, 2, Knot(Some("TALK"), 0, Counters(1, 0)), Knot(Some("TALK"), 0, Counters(2, 0)));
    CursorAdvance(start, TalkDepths, 3, Knot(Some("TALK"), 0, Counters(2, 0)), Knot(Some("TALK"), 1, Counters(2, 0)));
    CountersUpdate(2, 0);
    CursorAdvance(start, TalkDepths, 4, Knot(Some("TALK"), 1, Counters(2, 0)), Knot(Some("TALK"), 2, Counters(2, 1)));
  }

  /** The cursor after each line of the "Full Script" route. */
  lemma TalkCursors(start: Knot)
    requires start == Knot(Some("TALK"), 0, Zeros())
    ensures Cursor(start, TalkDepths, 1) == Ok(Knot(Some("TALK"), 0, Counters(1, 0)))
    ensures Cursor(start, TalkDepths, 2) == Ok(Knot(Some("TALK"), 0, Counters(1, 0)))
    ensures Cursor(start, TalkDepths, 3) == Ok(Knot(Some("TALK"), 0, Counters(2, 0)))
    ensures Cursor(start, TalkDepths, 4) == Ok(Knot(Some("TALK"), 1, Counters(2, 0)))
    ensures Cursor(start, TalkDepths, 5) == Ok(Knot(Some("TALK"), 2, Counters(2, 1)))
    ensures Cursor(start, TalkDepths, 6) == Ok(Knot(Some("TALK"), 3, Counters(2, 1)))
    ensures Cursor(start, TalkDepths, 7) == Ok(Knot(Some("TALK"), 2, Counters(2, 1)))
    ensures Cursor(start, TalkDepths, 8) == Ok(Knot(Some("TALK"), 2, Counters(2, 2)))
    ensures Cursor(start, TalkDepths, 9) == Ok(Knot(Some("TALK"), 0, Counters(3, 2)))
  {
    TalkCursorsEarly(start);
    CursorAdvance(start, TalkDepths, 5, Knot(Some("TALK"), 2, Counters(2, 1)), Knot(Some("TALK"), 3, Counters(2, 1)));
    CursorAdvance(start, TalkDepths, 6, Knot(Some("TALK"), 3, Counters(2, 1)), Knot(Some("TALK"), 2, Counters(2, 1)));
    CountersUpdate(2, 1);
    CursorAdvance(start, TalkDepths, 7, Knot(Some("TALK"), 2, Counters(2, 1)), Knot(Some("TALK"), 2, Counters(2, 2)));
    CountersUpdate(2, 2);
    CursorAdvance(start, TalkDepths, 8, Knot(Some("TALK"), 2, Counters(2, 2)), Knot(Some("TALK"), 0, Counters(3, 2)));
  }

  /**
   * The dialogue of the engine's "Full Script" scenario: choices at depth 0,
   * a dead end, a sequence at depth 1, choices at depth 2 with a text and a
   * dead end below the first, then a last choice at depth 0.
   */
  lemma TalkPaths(start: Knot)
    requires start == Knot(Some("TALK"), 0, Zeros())
    ensures forall i :: 0 <= i < |TalkDepths| ==> PathAt(start, TalkDepths, i) == Ok(TalkNames[i])
  {
    TalkCursors(start);
    PathsOfCounters(1, 0);
    PathAtCursor(start, TalkDepths, 0, Knot(Some("TALK"), 0, Counters(1, 0)));
    PathAtCursor(start, TalkDepths, 1, Knot(Some("TALK"), 0, Counters(1, 0)));
    PathsOfCounters(2, 0);
    PathAtCursor(start, TalkDepths, 2, Knot(Some("TALK"), 0, Counters(2, 0)));
    PathAtCursor(start, TalkDepths, 3, Knot(Some("TALK"), 1, Counters(2, 0)));
    PathsOfCounters(2, 1);
    PathAtCursor(start, TalkDepths, 4, Knot(Some("TALK"), 2, Counters(2, 1)));
    PathAtCursor(start, TalkDepths, 5, Knot(Some("TALK"), 3, Counters(2, 1)));
    PathAtCursor(start, TalkDepths, 6, Knot(Some("TALK"), 2, Counters(2, 1)));
    PathsOfCounters(2, 2);
    PathAtCursor(start, TalkDepths, 7, Knot(Some("TALK"), 2, Counters(2, 2)));
    PathsOfCounters(3, 2);
    PathAtCursor(start, TalkDepths, 8, Knot(Some("TALK"), 0, Counters(3, 2)));
  }
}
