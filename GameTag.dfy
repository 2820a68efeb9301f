// A game tag: one token of the tag grammar, such as `?gold.5<CHEST>`,
// `gold.++`, `hp.1..5` or `key.*`. Parsing splits it into an operation
// prefix, the bare value, an optional location and a 16-bit meter.

module Tags {
  import opened Base
  import opened Str

  /** What a tag asks of the world, from its prefix. */
  datatype Operation = RemoveOrAppend | SucceedIfPresent | FailedIfPresent

  /** The numeric part of a tag; the defaults are (Min, Max, Max, 0). */
  datatype Meter = Meter(start: Int16, end: Int16, value: Int16, step: Int16)

  datatype GameTag = GameTag(raw: String, value: String, op: Operation, location: String, meter: Meter)

  /**
   * A tag as the engine holds it: the parse of its own raw text. Since the
   * raw text determines every other field, equality of tags here is the
   * engine's equality on `RawValue`.
   */
  type Tag = t: GameTag | Parse(t.raw) == Ok(t)
    witness GameTag("", "", RemoveOrAppend, "", Meter(MinShort, MaxShort, MinShort, 0))

  // ---------------------------------------------------------------------
  // Parsing, as a specification

  /** The `<LOCATION>` suffix: from the last `<` to the last `>`. */
  function SplitLocation(raw: String): (String, String)
  {
    var ls := LastIndexOf(raw, "<");
    var le := LastIndexOf(raw, ">");
    if ls != -1 && le != -1 && le > ls then (raw[..ls], raw[ls + 1..le]) else (raw, "")
  }

  /** The `?` / `!` prefix. */
  function SplitPrefix(v: String): (Operation, String)
  {
    if v != [] && v[0] == '?' then (SucceedIfPresent, v[1..])
    else if v != [] && v[0] == '!' then (FailedIfPresent, v[1..])
    else (RemoveOrAppend, v)
  }

  /** `ExtractNumberStep`: the number after a two-character marker at `d`, 1 when none. */
  function NumberStep(tag: String, d: nat): Result<(String, Int16)>
    requires d + 2 <= |tag|
  {
    var n :- StepNumeral(tag, d);
    Ok((tag[..d], if tag[d] == '-' then Wrap16(-(n as int)) else n))
  }

  function StepNumeral(tag: String, d: nat): Result<Int16>
    requires d + 2 <= |tag|
  {
    if d == |tag| - 2 then Ok(1) else ParseShort(tag[d + 2..])
  }

  /** The start of the run of digits that ends at `k`. */
  function DigitRunStart(s: String, k: nat): (r: nat)
    requires k <= |s|
    ensures r <= k && forall i :: r <= i < k ==> IsDigit(s[i])
    ensures r == 0 || !IsDigit(s[r - 1])
  {
    if k > 0 && IsDigit(s[k - 1]) then DigitRunStart(s, k - 1) else k
  }

  lemma DigitRunStartIs(s: String, k: nat, j: nat)
    requires j <= k <= |s|
    requires forall i :: j <= i < k ==> IsDigit(s[i])
    requires j == 0 || !IsDigit(s[j - 1])
    ensures DigitRunStart(s, k) == j
  {
  }

  /** `ExtractNumberValue`: the trailing number, or Min when there is none. */
  function NumberValue(tag: String): Int16
  {
    var e := DigitRunStart(tag, |tag|);
    if e == 0 || e == |tag| then MinShort
    else
      var s := if tag[e - 1] == '-' then e - 1 else e;
      match ParseShort(tag[s..])
      case Ok(n) => n
      case Err(_) => MinShort
  }

  /** `ExtractNumberRange`: the numbers around a `..` at `d`. */
  function NumberRange(tag: String, d: nat): Result<(String, Int16, Int16)>
    requires d + 2 <= |tag|
  {
    if d < 2 then Err(Runtime(IndexOutOfRange))
    else
      var t1 := DigitRunStart(tag, d - 1);
      if t1 == 0 then Err(Runtime(IndexOutOfRange))
      else
        var t2 := if tag[t1 - 1] == '-' then t1 - 1 else t1;
        Ok((tag[..t2], BoundsAround(tag, t2, d).0, BoundsAround(tag, t2, d).1))
  }

  /** The two numbers of `a..b` between `t` and `d` and after `d + 2`; both Max when either fails to parse. */
  function BoundsAround(tag: String, t: nat, d: nat): (Int16, Int16)
    requires t <= d && d + 2 <= |tag|
  {
    var s := ParseShort(tag[t..d]);
    var e := ParseShort(tag[d + 2..]);
    if s.Ok? && e.Ok? then (s.value, e.value) else (MaxShort, MaxShort)
  }

  /** The meter syntax of a value, and the value with that syntax removed. */
  function ParseMeter(v: String): (r: Result<(String, Meter)>)
    ensures r.Ok? ==> |r.value.0| <= |v| && r.value.0 == v[..|r.value.0|]
  {
    var ri := LastIndexOf(v, "..");
    if ri == -1 then
      if Contains(v, "++") then
        var x :- NumberStep(v, LastIndexOf(v, "++"));
        Ok((x.0, Meter(MinShort, MaxShort, MaxShort, x.1)))
      else if Contains(v, "--") then
        var x :- NumberStep(v, LastIndexOf(v, "--"));
        Ok((x.0, Meter(MinShort, MaxShort, MaxShort, x.1)))
      else if Contains(v, "<=") then
        var x :- NumberStep(v, LastIndexOf(v, "<="));
        Ok((x.0, Meter(MinShort, x.1, MaxShort, MinShort)))
      else if Contains(v, ">=") then
        var x :- NumberStep(v, LastIndexOf(v, ">="));
        Ok((x.0, Meter(x.1, MaxShort, MaxShort, MaxShort)))
      else
        Ok((v, Meter(MinShort, MaxShort, NumberValue(v), 0)))
    else if EndsWith(v, "..") then
      Ok((v[..ri], Meter(MinShort, MaxShort, MinShort, 0)))
    else
      var x :- NumberRange(v, ri);
      Ok((x.0, Meter(x.1, x.2, MaxShort, 0)))
  }

  /** The tag constructor, as a function of the raw text. */
  function Parse(raw: String): (r: Result<GameTag>)
    ensures r.Ok? ==> r.value.raw == raw
  {
    var (v0, loc) := SplitLocation(raw);
    var (op, v1) := SplitPrefix(v0);
    var m :- ParseMeter(v1);
    Ok(GameTag(raw, m.0, op, loc, m.1))
  }

  function ParseTag(raw: String): (r: Result<Tag>)
    ensures r.Ok? <==> Parse(raw).Ok?
    ensures r.Ok? ==> r.value.raw == raw && Parse(raw) == Ok(r.value)
    ensures r.Err? ==> r.error == Parse(raw).error
  {
    match Parse(raw)
    case Ok(t) => Ok(t)
    case Err(e) => Err(e)
  }

  // ---------------------------------------------------------------------
  // Parsing, as the constructor does it

  /** `ExtractNumberValue`: walks back over the trailing digits. */
  method ExtractNumberValue(tag: String) returns (v: Int16)
    ensures v == NumberValue(tag)
  {
    var tagEnded := |tag|;
    while tagEnded > 0 && IsDigit(tag[tagEnded - 1])
      invariant 0 <= tagEnded <= |tag|
      invariant DigitRunStart(tag, tagEnded) == DigitRunStart(tag, |tag|)
    {
      tagEnded := tagEnded - 1;
    }
    if tagEnded == 0 || tagEnded == |tag| {
      return MinShort;
    }
    if tag[tagEnded - 1] == '-' {
      tagEnded := tagEnded - 1;
    }
    var n := ParseShort(tag[tagEnded..]);
    v := if n.Ok? then n.value else MinShort;
  }

  /** `ExtractNumberRange`: walks back over the digits before the `..` at `d`. */
  method ExtractNumberRange(tag: String, d: nat) returns (r: Result<(String, Int16, Int16)>)
    requires d + 2 <= |tag|
    ensures r == NumberRange(tag, d)
  {
    var tagEnded: int := d - 1;
    while tagEnded > 0 && IsDigit(tag[tagEnded - 1])
      invariant d >= 1 ==> 0 <= tagEnded <= d - 1 && DigitRunStart(tag, tagEnded) == DigitRunStart(tag, d - 1)
      invariant d == 0 ==> tagEnded == -1
    {
      tagEnded := tagEnded - 1;
    }
    if tagEnded <= 0 {
      return Err(Runtime(IndexOutOfRange));
    }
    assert tagEnded == DigitRunStart(tag, d - 1);
    if tag[tagEnded - 1] == '-' {
      tagEnded := tagEnded - 1;
    }
    var start: Int16, end: Int16;
    var s := ParseShort(tag[tagEnded..d]);
    var e := ParseShort(tag[d + 2..]);
    if s.Ok? && e.Ok? {
      start, end := s.value, e.value;
    } else {
      start, end := MaxShort, MaxShort;
    }
    assert (start, end) == BoundsAround(tag, tagEnded, d);
    r := Ok((tag[..tagEnded], start, end));
  }

  /** The tag constructor: location, then prefix, then meter. */
  method NewTag(raw: String) returns (r: Result<GameTag>)
    ensures r == Parse(raw)
  {
    var op := RemoveOrAppend;
    var value := raw;
    var location := "";
    var ls := LastIndexOf(raw, "<");
    var le := LastIndexOf(raw, ">");
    if ls != -1 && le != -1 && le > ls {
      location := raw[ls + 1..le];
      value := raw[..ls];
    }
    if |value| > 0 {
      if value[0] == '?' {
        op := SucceedIfPresent;
        value := value[1..];
      } else if value[0] == '!' {
        op := FailedIfPresent;
        value := value[1..];
      }
    }
    var m := ExtractMeter(value);
    if m.Err? { return Err(m.error); }
    r := Ok(GameTag(raw, m.value.0, op, location, m.value.1));
  }

  /** The meter part of the constructor, on the value left after location and prefix. */
  method ExtractMeter(v: String) returns (r: Result<(String, Meter)>)
    ensures r == ParseMeter(v)
  {
    var value := v;
    var meter: Meter;
    var rangeIndex := LastIndexOf(value, "..");
    if rangeIndex == -1 {
      var rangeMin: Int16, rangeMax: Int16, rangeValue: Int16, rangeStep: Int16 := MinShort, MaxShort, MaxShort, 0;
      if Contains(value, "++") {
        var x := NumberStep(value, LastIndexOf(value, "++"));
        if x.Err? { return Err(x.error); }
        value, rangeStep := x.value.0, x.value.1;
      } else if Contains(value, "--") {
        var x := NumberStep(value, LastIndexOf(value, "--"));
        if x.Err? { return Err(x.error); }
        value, rangeStep := x.value.0, x.value.1;
      } else if Contains(value, "<=") {
        rangeStep := MinShort;
        var x := NumberStep(value, LastIndexOf(value, "<="));
        if x.Err? { return Err(x.error); }
        value, rangeMax := x.value.0, x.value.1;
      } else if Contains(value, ">=") {
        rangeStep := MaxShort;
        var x := NumberStep(value, LastIndexOf(value, ">="));
        if x.Err? { return Err(x.error); }
        value, rangeMin := x.value.0, x.value.1;
      } else {
        rangeValue := ExtractNumberValue(value);
      }
      meter := Meter(rangeMin, rangeMax, rangeValue, rangeStep);
    } else if EndsWith(value, "..") {
      value := value[..rangeIndex];
      meter := Meter(MinShort, MaxShort, MinShort, 0);
    } else {
      var x := ExtractNumberRange(value, rangeIndex);
      if x.Err? { return Err(x.error); }
      value := x.value.0;
      meter := Meter(x.value.1, x.value.2, MaxShort, 0);
    }
    r := Ok((value, meter));
  }

  // ---------------------------------------------------------------------
  // Rendering and equality

  function PrefixOf(op: Operation): String
  {
    match op
    case RemoveOrAppend => ""
    case SucceedIfPresent => "?"
    case FailedIfPresent => "!"
  }

  function WithLocation(v: String, loc: String): String
  {
    if loc == [] then v else v + "<" + loc + ">"
  }

  /** `ToString` is the raw text, and re-parsing it gives the same tag. */
  function ToString(t: Tag): (r: String)
    ensures Parse(r) == Ok(t)
  {
    t.raw
  }

  /** `Equals` compares raw text only, which is full equality of tags. */
  function Equals(a: Tag, b: Tag): (r: bool)
    ensures r <==> a == b
  {
    a.raw == b.raw
  }

  // ---------------------------------------------------------------------
  // Sugar predicates

  predicate IsJoker(t: GameTag) { '*' in t.raw }
  predicate IsRange(t: GameTag) { Contains(t.raw, "..") && t.meter.start > MinShort && t.meter.end < MaxShort }
  predicate IsGreater(t: GameTag) { Contains(t.raw, ">=") && t.meter.step == MaxShort }
  predicate IsLower(t: GameTag) { Contains(t.raw, "<=") && t.meter.step == MinShort }
  predicate IsIncrement(t: GameTag) { Contains(t.raw, "++") && t.meter.step > 0 }
  predicate IsDecrement(t: GameTag) { Contains(t.raw, "--") && t.meter.step < 0 }
  predicate IsMeter(t: GameTag) { MinShort < t.meter.value < MaxShort }

  predicate ContainsSugar(t: GameTag)
  {
    IsJoker(t) || IsIncrement(t) || IsDecrement(t)
    || (t.op == RemoveOrAppend && (IsGreater(t) || IsLower(t) || Contains(t.raw, "..")))
  }

  // ---------------------------------------------------------------------
  // Resolution of sugar against a pool of concrete tags

  /** The pool tags that `keep` accepts, in pool order. */
  function Where<T(==, !new)>(pool: seq<T>, keep: T -> bool): (r: seq<T>)
    ensures forall x :: x in r <==> x in pool && keep(x)
    ensures forall x :: multiset(r)[x] == if keep(x) then multiset(pool)[x] else 0
    ensures |r| <= |pool|
  {
    if pool == [] then []
    else
      assert pool == [pool[0]] + pool[1..];
      (if keep(pool[0]) then [pool[0]] else []) + Where(pool[1..], keep)
  }

  /** Parses each raw text in order; the first failure is the result. */
  function ParseAll(raws: seq<String>): (r: Result<seq<Tag>>)
    ensures r.Ok? ==> |r.value| == |raws| && forall i :: 0 <= i < |raws| ==> r.value[i].raw == raws[i]
    ensures (forall i :: 0 <= i < |raws| ==> Parse(raws[i]).Ok?) ==> r.Ok?
  {
    if raws == [] then Ok([])
    else
      var h :- ParseTag(raws[0]);
      var rest :- ParseAll(raws[1..]);
      Ok([h] + rest)
  }

  /** Parsing all texts fails with the error of the first text that does not parse. */
  lemma {:induction false} ParseAllFirstError(raws: seq<String>)
    requires ParseAll(raws).Err?
    ensures exists i :: 0 <= i < |raws| && Parse(raws[i]) == Err(ParseAll(raws).error) &&
                        (forall j :: 0 <= j < i ==> Parse(raws[j]).Ok?)
  {
    if Parse(raws[0]).Ok? {
      ParseAllFirstError(raws[1..]);
      var i :| 0 <= i < |raws[1..]| && Parse(raws[1..][i]) == Err(ParseAll(raws[1..]).error) &&
        (forall j :: 0 <= j < i ==> Parse(raws[1..][j]).Ok?);
      forall j | 0 <= j < i + 1 ensures Parse(raws[j]).Ok? {
        if j > 0 {
          assert raws[j] == raws[1..][j - 1];
        }
      }
      assert Parse(raws[i + 1]) == Err(ParseAll(raws).error);
    } else {
      assert Parse(raws[0]) == Err(ParseAll(raws).error);
    }
  }

  /**
   * `r` is what parsing `raws` one at a time yields: the first |r.items|
   * texts, parsed, and, when it stops, the error of the next text.
   */
  predicate ParsedFrom(r: Yielded<Tag>, raws: seq<String>)
  {
    |r.items| <= |raws| && (forall i :: 0 <= i < |r.items| ==> r.items[i].raw == raws[i])
    && (r.stop.None? ==> |r.items| == |raws|)
    && (r.stop.Some? ==> |r.items| < |raws| && Parse(raws[|r.items|]) == Err(r.stop.value))
  }

  lemma ParsedNext(h: Tag, raws: seq<String>, rest: Yielded<Tag>)
    requires raws != [] && h.raw == raws[0] && ParsedFrom(rest, raws[1..])
    ensures ParsedFrom(Yielded([h] + rest.items, rest.stop), raws)
  {
    RawsNext(h, rest.items, raws);
    if rest.stop.Some? {
      assert raws[|rest.items| + 1] == raws[1..][|rest.items|];
    }
  }

  /** Putting `h` in front of tags that keep the texts after the first keeps the texts. */
  lemma RawsNext(h: GameTag, items: seq<GameTag>, raws: seq<String>)
    requires raws != [] && h.raw == raws[0] && |items| < |raws|
    requires forall i :: 0 <= i < |items| ==> items[i].raw == raws[1..][i]
    ensures forall i :: 0 <= i < |items| + 1 ==> ([h] + items)[i].raw == raws[i]
  {
    forall i | 0 < i < |items| + 1 ensures ([h] + items)[i].raw == raws[i] {
      assert ([h] + items)[i] == items[i - 1];
      assert raws[1..][i - 1] == raws[i];
    }
  }

  /** An iterator constructing one tag per raw text, in order: the first failure stops it. */
  function ParseEach(raws: seq<String>): (r: Yielded<Tag>)
    ensures ParsedFrom(r, raws)
  {
    if raws == [] then Yielded([], None)
    else
      match ParseTag(raws[0])
      case Err(e) => Yielded([], Some(e))
      case Ok(h) =>
        var rest := ParseEach(raws[1..]);
        ParsedNext(h, raws, rest);
        Yielded([h] + rest.items, rest.stop)
  }

  /** `ForceLocation`: the value of `p` with a new location and prefix. */
  function ForcedRaw(p: GameTag, loc: String, op: Operation): String
  {
    PrefixOf(op) + WithLocation(p.value, loc)
  }

  /** `Increment`: the meter numeral of `p` replaced by numeral + step, with a new location and prefix. */
  function IncrementedRaw(p: GameTag, step: Int16, loc: String, op: Operation): String
  {
    var oldNumeral := IntToString(p.meter.value);
    var newNumeral := IntToString(Wrap16(p.meter.value + step));
    PrefixOf(op) + WithLocation(ReplaceAll(p.value, oldNumeral, newNumeral), loc)
  }

  function ForcedRaws(ps: seq<Tag>, loc: String, op: Operation): (r: seq<String>)
    ensures |r| == |ps| && forall i :: 0 <= i < |ps| ==> r[i] == ForcedRaw(ps[i], loc, op)
  {
    seq(|ps|, i requires 0 <= i < |ps| => ForcedRaw(ps[i], loc, op))
  }

  function IncrementedRaws(ps: seq<Tag>, step: Int16, loc: String, op: Operation): (r: seq<String>)
    ensures |r| == |ps| && forall i :: 0 <= i < |ps| ==> r[i] == IncrementedRaw(ps[i], step, loc, op)
  {
    seq(|ps|, i requires 0 <= i < |ps| => IncrementedRaw(ps[i], step, loc, op))
  }

  function ForceLocation(p: Tag, loc: String, op: Operation): Result<Tag>
  {
    ParseTag(ForcedRaw(p, loc, op))
  }

  function Increment(p: Tag, step: Int16, loc: String, op: Operation): Result<Tag>
  {
    ParseTag(IncrementedRaw(p, step, loc, op))
  }

  /** Raw texts of the prefix fallback: the joker replaced by what follows `lastPrefix`. */
  function PrefixFallbackRaws(raw: String, found: seq<Tag>, lastPrefix: String): seq<String>
    requires forall p :: p in found ==> |lastPrefix| <= |p.value|
  {
    seq(|found|, i requires 0 <= i < |found| => ReplaceAll(raw, "*", found[i].value[|lastPrefix|..]))
  }

  /** Raw texts of the suffix fallback: the joker replaced by what precedes `lastSuffix`. */
  function SuffixFallbackRaws(raw: String, found: seq<Tag>, lastSuffix: String): seq<String>
    requires forall p :: p in found ==> |lastSuffix| <= |p.value|
  {
    seq(|found|, i requires 0 <= i < |found| => ReplaceAll(raw, "*", found[i].value[..|found[i].value| - |lastSuffix|]))
  }

  /** A joker with a key before it: `x.*.y` or `x.*`. */
  predicate HasJokerPrefix(v: String) { Contains(v, ".*.") || EndsWith(v, ".*") }

  /** A joker with a key after it: `x.*.y` or `*.y`. */
  predicate HasJokerSuffix(v: String) { Contains(v, ".*.") || StartsWith(v, "*.") }

  /** Where the joker sits in a value. */
  function JokerIndex(v: String): (r: nat)
    requires '*' in v
    ensures r < |v| && v[r] == '*'
  {
    CharIndexOf(v, '*');
    IndexOf(v, "*")
  }

  /** The pool tags that the joker tag `t` stands for, in pool order. */
  function JokerMatches(t: Tag, pool: seq<Tag>): (r: seq<Tag>)
    requires '*' in t.value
    ensures var j := JokerIndex(t.value);
            forall x :: x in r <==> x in pool && (HasJokerPrefix(t.value) ==> StartsWithIgnoreCase(x.value, t.value[..j]))
                                               && (HasJokerSuffix(t.value) ==> EndsWithIgnoreCase(x.value, t.value[j + 1..]))
  {
    var j := JokerIndex(t.value);
    var tagPrefix := if HasJokerPrefix(t.value) then t.value[..j] else "";
    var tagSuffix := if HasJokerSuffix(t.value) then t.value[j + 1..] else "";
    Where(pool, (p: Tag) => (HasJokerPrefix(t.value) ==> StartsWithIgnoreCase(p.value, tagPrefix))
                            && (HasJokerSuffix(t.value) ==> EndsWithIgnoreCase(p.value, tagSuffix)))
  }

  /** The joker branch of `ResolveSyntax`. */
  function ResolveJoker(t: Tag, pool: seq<Tag>): Yielded<Tag>
    requires '*' in t.value
  {
    var hasPrefix := HasJokerPrefix(t.value);
    var hasSuffix := HasJokerSuffix(t.value);
    var j := JokerIndex(t.value);
    var hits := JokerMatches(t, pool);
    var keyStart := IndexOf(t.value, ".");
    var keyEnd := LastIndexOf(t.value, ".");
    if hits != [] || keyStart >= keyEnd then
      ParseEach(ForcedRaws(hits, t.location, t.op))
    else if hasPrefix && !hasSuffix then
      if keyStart + 1 > j then Yielded([], Some(Runtime(ArgumentOutOfRange)))
      else
        var lastPrefix := t.value[keyStart + 1..j];
        ParseEach(PrefixFallbackRaws(t.raw, Where(pool, (p: Tag) => StartsWithIgnoreCase(p.value, lastPrefix)), lastPrefix))
    else if hasSuffix && !hasPrefix then
      var tagSuffix := t.value[j + 1..];
      if keyEnd + 1 > |tagSuffix| then Yielded([], Some(Runtime(ArgumentOutOfRange)))
      else
        var lastSuffix := tagSuffix[keyEnd + 1..];
        ParseEach(SuffixFallbackRaws(t.raw, Where(pool, (p: Tag) => EndsWithIgnoreCase(p.value, lastSuffix)), lastSuffix))
    else Yielded([], None)
  }

  /** Pool tags that the increment or decrement `t` applies to. */
  function IncrementTargets(t: Tag, pool: seq<Tag>): seq<Tag>
  {
    Where(pool, (p: Tag) => StartsWithIgnoreCase(p.value, t.value) && IsMeter(p))
  }

  /** Each of the three joker shapes has a `*` in it. */
  lemma JokerHasStar(v: String)
    requires Contains(v, ".*.") || EndsWith(v, ".*") || StartsWith(v, "*.")
    ensures '*' in v
  {
    ContainsIff(v, ".*.");
    if Contains(v, ".*.") {
      var j :| ContainsAt(v, ".*.", j);
      assert v[j + 1] == v[j..j + 3][1];
    } else if EndsWith(v, ".*") {
      assert v[|v| - 1] == v[|v| - 2..][1];
    } else {
      assert v[0] == v[..2][0];
    }
  }

  /**
   * `ResolveSyntax`: the iterator of concrete tags a tag stands for, given
   * the pool. Constructing a tag can throw, which stops the iteration after
   * the tags yielded so far.
   */
  function ResolveTag(t: Tag, pool: seq<Tag>): Yielded<Tag>
  {
    if !ContainsSugar(t) then Yielded([t], None)
    else
      if HasJokerPrefix(t.value) || HasJokerSuffix(t.value) then
        JokerHasStar(t.value);
        ResolveJoker(t, pool)
      else if IsIncrement(t) || IsDecrement(t) then
        var targets := IncrementTargets(t, pool);
        ParseEach(IncrementedRaws(targets, t.meter.step, t.location, t.op))
      else if IsGreater(t) || IsLower(t) then
        Yielded(Where(pool, (p: Tag) => (if IsGreater(t) then p.meter.value >= t.meter.start else p.meter.value <= t.meter.end)
                            && StartsWithIgnoreCase(p.value, t.value) && IsMeter(p)), None)
      else if IsRange(t) then
        Yielded(Where(pool, (p: Tag) => StartsWithIgnoreCase(p.value, t.value) && p.meter.value > MinShort
                            && t.meter.start <= p.meter.value <= t.meter.end), None)
      else if t.meter.start == MinShort && t.meter.end == MaxShort && t.meter.value == MinShort then
        Yielded(Where(pool, (p: Tag) => StartsWithIgnoreCase(p.value, t.value) && IsMeter(p)), None)
      else
        Yielded([t], None)
  }
}
