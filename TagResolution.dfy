// What a single tag resolves to against a pool of concrete tags.

module TagResolution {
  import opened Base
  import opened Str
  import opened Tags
  import opened TagLemmas

  /** A tag without sugar stands for itself alone. */
  lemma ResolveSugarFree(t: Tag, pool: seq<Tag>)
    requires !ContainsSugar(t)
    ensures ResolveTag(t, pool) == Yielded([t], None)
  {
  }

  /** A sugar tag that is neither a joker, a step, a comparison, a range nor an open range stands for itself. */
  lemma ResolveFallThrough(t: Tag, pool: seq<Tag>)
    requires ContainsSugar(t) && !HasJokerPrefix(t.value) && !HasJokerSuffix(t.value)
    requires !IsIncrement(t) && !IsDecrement(t) && !IsGreater(t) && !IsLower(t) && !IsRange(t)
    requires !(t.meter.start == MinShort && t.meter.end == MaxShort && t.meter.value == MinShort)
    ensures ResolveTag(t, pool) == Yielded([t], None)
  {
  }

  /** The joker branch applies. */
  predicate JokerCase(t: GameTag)
  {
    ContainsSugar(t) && (HasJokerPrefix(t.value) || HasJokerSuffix(t.value))
  }

  /**
   * When some pool tag fits the joker, the iterator constructs those tags,
   * in pool order, each re-rooted at this tag's location with this tag's
   * prefix, and stops at the first that fails to parse.
   */
  lemma JokerForced(t: Tag, pool: seq<Tag>)
    requires JokerCase(t)
    ensures '*' in t.value
    ensures JokerMatches(t, pool) != [] ==> ParsedFrom(ResolveTag(t, pool), ForcedRaws(JokerMatches(t, pool), t.location, t.op))
  {
    JokerHasStar(t.value);
  }

  /** A joker that fits no pool tag, in a value with at most one key dot, stands for nothing. */
  lemma JokerNoMatch(t: Tag, pool: seq<Tag>)
    requires JokerCase(t) && '*' in t.value && JokerMatches(t, pool) == []
    requires IndexOf(t.value, ".") >= LastIndexOf(t.value, ".")
    ensures ResolveTag(t, pool) == Yielded([], None)
  {
  }

  /** Parsing raw texts one at a time ends without an exception exactly when parsing them all at once succeeds, with the same tags. */
  lemma {:induction false} ParseEachComplete(raws: seq<String>)
    ensures ParseAll(raws) == if ParseEach(raws).stop.None? then Ok(ParseEach(raws).items) else Err(ParseEach(raws).stop.value)
  {
    if raws != [] {
      ParseEachComplete(raws[1..]);
    }
  }

  /** The step branch applies. */
  predicate StepCase(t: GameTag)
  {
    ContainsSugar(t) && !HasJokerPrefix(t.value) && !HasJokerSuffix(t.value) && (IsIncrement(t) || IsDecrement(t))
  }

  /**
   * An increment or decrement yields, for each pool tag with a meter whose
   * value starts with this value, that tag with its numeral moved by the
   * step, at this tag's location and with this tag's prefix.
   */
  lemma IncrementResults(t: Tag, pool: seq<Tag>)
    requires StepCase(t)
    ensures var targets := IncrementTargets(t, pool);
            (forall p :: p in targets <==> p in pool && StartsWithIgnoreCase(p.value, t.value) && IsMeter(p))
            && ParsedFrom(ResolveTag(t, pool), IncrementedRaws(targets, t.meter.step, t.location, t.op))
  {
  }

  /** With a single target, the step branch parses that target's moved raw text. */
  lemma StepSingleTarget(t: Tag, p: Tag)
    requires StepCase(t) && IncrementTargets(t, [p]) == [p]
    ensures ResolveTag(t, [p]) == ParseEach([IncrementedRaw(p, t.meter.step, t.location, t.op)])
  {
    assert IncrementedRaws([p], t.meter.step, t.location, t.op) == [IncrementedRaw(p, t.meter.step, t.location, t.op)];
  }

  /** Parsing the raw text of a tag gives back that tag. */
  lemma ParseEachSingle(q: Tag)
    ensures ParseEach([q.raw]) == Yielded([q], None)
  {
    assert Parse(q.raw) == Ok(q);
    assert ParseTag(q.raw) == Ok(q);
    assert [q.raw][1..] == [];
    assert ParseEach([q.raw][1..]) == Yielded([], None);
    assert [q] + [] == [q];
  }

  /** An increment or decrement that applies to no pool tag stands for nothing. */
  lemma IncrementNoMatch(t: Tag, pool: seq<Tag>)
    requires StepCase(t)
    requires forall p :: p in pool ==> !StartsWithIgnoreCase(p.value, t.value) || !IsMeter(p)
    ensures ResolveTag(t, pool) == Yielded([], None)
  {
    WhereNone(pool, (p: Tag) => StartsWithIgnoreCase(p.value, t.value) && IsMeter(p));
    assert IncrementedRaws(IncrementTargets(t, pool), t.meter.step, t.location, t.op) == [];
  }

  lemma WhereNone(pool: seq<Tag>, keep: Tag -> bool)
    requires forall x :: x in pool ==> !keep(x)
    ensures Where(pool, keep) == []
  {
  }

  /** The comparison branch applies. */
  predicate ComparisonCase(t: GameTag)
  {
    ContainsSugar(t) && !HasJokerPrefix(t.value) && !HasJokerSuffix(t.value)
    && !IsIncrement(t) && !IsDecrement(t) && (IsGreater(t) || IsLower(t))
  }

  /**
   * `x>=n` keeps the pool tags with a meter, a value starting with `x` and a
   * meter value at least n; `x<=n` those with a meter value at most n.
   */
  lemma ComparisonFilters(t: Tag, pool: seq<Tag>)
    requires ComparisonCase(t)
    ensures ResolveTag(t, pool).stop.None?
    ensures forall x :: x in ResolveTag(t, pool).items <==>
              x in pool && StartsWithIgnoreCase(x.value, t.value) && IsMeter(x)
              && (if IsGreater(t) then x.meter.value >= t.meter.start else x.meter.value <= t.meter.end)
  {
  }

  /** The range branch applies. */
  predicate RangeCase(t: GameTag)
  {
    ContainsSugar(t) && !HasJokerPrefix(t.value) && !HasJokerSuffix(t.value)
    && !IsIncrement(t) && !IsDecrement(t) && !IsGreater(t) && !IsLower(t) && IsRange(t)
  }

  /** `x a..c` keeps the pool tags whose value starts with `x` and whose meter value lies in [a, c]. */
  lemma RangeFilters(t: Tag, pool: seq<Tag>)
    requires RangeCase(t)
    ensures ResolveTag(t, pool).stop.None?
    ensures forall x :: x in ResolveTag(t, pool).items <==>
              x in pool && StartsWithIgnoreCase(x.value, t.value) && x.meter.value > MinShort
              && t.meter.start <= x.meter.value <= t.meter.end
  {
  }

  /** `x..` keeps the pool tags with a meter whose value starts with `x`. */
  lemma OpenRangeFilters(t: Tag, pool: seq<Tag>)
    requires ContainsSugar(t) && !HasJokerPrefix(t.value) && !HasJokerSuffix(t.value)
    requires !IsIncrement(t) && !IsDecrement(t) && !IsGreater(t) && !IsLower(t) && !IsRange(t)
    requires t.meter.start == MinShort && t.meter.end == MaxShort && t.meter.value == MinShort
    ensures ResolveTag(t, pool).stop.None?
    ensures forall x :: x in ResolveTag(t, pool).items <==> x in pool && StartsWithIgnoreCase(x.value, t.value) && IsMeter(x)
  {
  }

  /** Every filtering branch yields pool tags only, unchanged. */
  lemma FiltersKeepPoolTags(t: Tag, pool: seq<Tag>)
    requires ComparisonCase(t) || RangeCase(t)
    ensures ResolveTag(t, pool).stop.None? && forall x :: x in ResolveTag(t, pool).items ==> x in pool
  {
    if ComparisonCase(t) {
      ComparisonFilters(t, pool);
    } else {
      RangeFilters(t, pool);
    }
  }
}
