// Rules (`F3NolanRuleData`): acceptance of a rule against a state, which
// either rejects or yields the rule's text key and the list of state
// operations that playing it performs, and the rule's description,
// rendering, equality and sugar expansion into a rulebook.

module Rules {
  import opened Base
  import opened Str
  import opened Lists
  import opened Tags
  import opened TagSets
  import opened Stats

  /** A rule: the match tag, four tag sets, the drag flag and the text key (`""` when there is none). */
  datatype Rule = Rule(matchTag: Tag, context: TagSet, cost: TagSet, payload: TagSet, gain: TagSet,
                       isDrag: bool, keys: String)

  /** The outcome of `Accept`: rejected (empty key, no operations) or accepted with the key and operations. */
  datatype Acceptance = Rejected | Accepted(key: String, ops: seq<RuleMeta>)

  function Meta(op: RuleOp, tag: String, loc: String): RuleMeta { RuleMeta(op, tag, loc) }

  /** Some tag has exactly this `Value`. */
  predicate HasValue(tags: seq<GameTag>, v: String)
  {
    exists i :: 0 <= i < |tags| && tags[i].value == v
  }

  /** Some tag has exactly this raw text (`GameTagSet.Contains(string)`). */
  predicate HasRaw(tags: seq<GameTag>, raw: String)
  {
    exists i :: 0 <= i < |tags| && tags[i].raw == raw
  }

  // ---------------------------------------------------------------------
  // Appending the operations of a list of checks, stopping at the first
  // failing one (the `return false` / `bCostIsValidated` pattern)

  function Collect<T>(xs: seq<T>, step: T -> Option<seq<RuleMeta>>): Option<seq<RuleMeta>>
    decreases |xs|
  {
    if xs == [] then Some([])
    else
      match Collect(xs[..|xs| - 1], step)
      case None => None
      case Some(ops) =>
        match step(xs[|xs| - 1])
        case None => None
        case Some(more) => Some(ops + more)
  }

  /** The collection succeeds exactly when every check does. */
  lemma {:induction false} CollectSome<T>(xs: seq<T>, step: T -> Option<seq<RuleMeta>>)
    ensures Collect(xs, step).Some? <==> forall i :: 0 <= i < |xs| ==> step(xs[i]).Some?
    decreases |xs|
  {
    if xs != [] {
      var init := xs[..|xs| - 1];
      CollectSome(init, step);
      assert forall i :: 0 <= i < |init| ==> init[i] == xs[i];
    }
  }

  /** Every collected operation is one that some check emitted. */
  lemma {:induction false} CollectFrom<T>(xs: seq<T>, step: T -> Option<seq<RuleMeta>>, m: RuleMeta)
    requires Collect(xs, step).Some? && m in Collect(xs, step).value
    ensures exists i :: 0 <= i < |xs| && step(xs[i]).Some? && m in step(xs[i]).value
    decreases |xs|
  {
    var init := xs[..|xs| - 1];
    var ops := Collect(init, step).value;
    if m in ops {
      CollectFrom(init, step, m);
      var i :| 0 <= i < |init| && step(init[i]).Some? && m in step(init[i]).value;
      assert init[i] == xs[i];
    } else {
      assert step(xs[|xs| - 1]).Some? && m in step(xs[|xs| - 1]).value;
    }
  }

  /** A failure in a prefix is a failure of the whole list. */
  lemma {:induction false} CollectPrefixNone<T>(xs: seq<T>, k: nat, step: T -> Option<seq<RuleMeta>>)
    requires k <= |xs| && Collect(xs[..k], step).None?
    ensures Collect(xs, step).None?
    decreases |xs| - k
  {
    if k < |xs| {
      assert xs[..k + 1][..k] == xs[..k];
      CollectPrefixNone(xs, k + 1, step);
    } else {
      assert xs[..k] == xs;
    }
  }

  lemma CollectNext<T>(xs: seq<T>, k: nat, step: T -> Option<seq<RuleMeta>>)
    requires k < |xs|
    ensures Collect(xs[..k + 1], step) ==
      match Collect(xs[..k], step)
      case None => None
      case Some(ops) =>
        match step(xs[k])
        case None => None
        case Some(more) => Some(ops + more)
  {
    assert xs[..k + 1][..k] == xs[..k];
  }

  // ---------------------------------------------------------------------
  // Cost: checked against the scene's location (`Accept`) or against DRAG
  // (`AcceptInternal`, drag rules)

  /** What a cost tag demands: plain and `?` tags present, `!` tags absent. */
  predicate CostHolds(t: GameTag, tags: seq<GameTag>)
  {
    if t.op == FailedIfPresent then !HasValue(tags, t.value) else HasValue(tags, t.value)
  }

  predicate CostsHold(cost: seq<GameTag>, tags: seq<GameTag>)
  {
    forall i :: 0 <= i < |cost| ==> CostHolds(cost[i], tags)
  }

  /** One cost tag against the tags at `loc`: plain asserts and removes, `?` asserts, `!` asserts absence. */
  function CostStep(t: GameTag, tags: seq<GameTag>, loc: String): (r: Option<seq<RuleMeta>>)
    ensures r.Some? <==> CostHolds(t, tags)
  {
    match t.op
    case RemoveOrAppend =>
      if HasValue(tags, t.value) then Some([Meta(AssertTagIn, t.value, loc), Meta(RemoveTag, t.value, loc)]) else None
    case SucceedIfPresent =>
      if HasValue(tags, t.value) then Some([Meta(AssertTagIn, t.value, loc)]) else None
    case FailedIfPresent =>
      if HasValue(tags, t.value) then None else Some([Meta(AssertNoTag, t.value, loc)])
  }

  function CostOps(cost: seq<GameTag>, tags: seq<GameTag>, loc: String): Option<seq<RuleMeta>>
  {
    Collect(cost, (t: GameTag) => CostStep(t, tags, loc))
  }

  /**
   * The cost is paid exactly when every cost tag holds; each emitted
   * operation targets `loc`, and a removal names a plain cost tag.
   */
  lemma CostOpsMeaning(cost: seq<GameTag>, tags: seq<GameTag>, loc: String)
    ensures CostOps(cost, tags, loc).Some? <==> CostsHold(cost, tags)
    ensures CostOps(cost, tags, loc).Some? ==>
      forall m :: m in CostOps(cost, tags, loc).value ==>
        m.locationOrGoal == loc &&
        (m.op == RemoveTag ==> exists i :: 0 <= i < |cost| && cost[i].op == RemoveOrAppend && cost[i].value == m.tagOrKey)
  {
    var step := (t: GameTag) => CostStep(t, tags, loc);
    CollectSome(cost, step);
    if CostOps(cost, tags, loc).Some? {
      forall m | m in CostOps(cost, tags, loc).value
        ensures m.locationOrGoal == loc
        ensures m.op == RemoveTag ==> exists i :: 0 <= i < |cost| && cost[i].op == RemoveOrAppend && cost[i].value == m.tagOrKey
      {
        CollectFrom(cost, step, m);
      }
    }
  }

  /** The cost loop: appends while the flag stays set, and stops at the first failing tag. */
  method CostLoop(cost: seq<GameTag>, tags: seq<GameTag>, loc: String) returns (r: Option<seq<RuleMeta>>)
    ensures r == CostOps(cost, tags, loc)
  {
    var step := (t: GameTag) => CostStep(t, tags, loc);
    var ops: seq<RuleMeta> := [];
    var validated := true;
    var i := 0;
    while i < |cost|
      invariant 0 <= i <= |cost|
      invariant Collect(cost[..i], step) == if validated then Some(ops) else None
      invariant !validated ==> i > 0
    {
      if !validated {
        break;
      }
      CollectNext(cost, i, step);
      var t := cost[i];
      var present := HasValue(tags, t.value);
      match t.op {
        case RemoveOrAppend =>
          validated := present;
          if validated {
            ops := ops + [Meta(AssertTagIn, t.value, loc), Meta(RemoveTag, t.value, loc)];
          }
        case SucceedIfPresent =>
          validated := present;
          if validated {
            ops := ops + [Meta(AssertTagIn, t.value, loc)];
          }
        case FailedIfPresent =>
          validated := !present;
          if validated {
            ops := ops + [Meta(AssertNoTag, t.value, loc)];
          }
      }
      i := i + 1;
    }
    if validated {
      assert cost[..i] == cost;
      r := Some(ops);
    } else {
      CollectPrefixNone(cost, i, step);
      r := None;
    }
  }

  // ---------------------------------------------------------------------
  // Gain: every gain tag is added to DRAG

  /** What a gain tag demands: it appends, and DRAG does not hold it yet. */
  predicate GainHolds(g: GameTag, drag: seq<GameTag>)
  {
    g.op == RemoveOrAppend && !HasValue(drag, g.value)
  }

  /**
   * The gain phase: rejected at the first gain tag that does not hold,
   * unless that tag's `Value` is the raw text of a cost tag, which is a
   * Rule syntax error.
   */
  function GainOps(gain: seq<GameTag>, drag: seq<GameTag>, cost: seq<GameTag>): Result<Option<seq<RuleMeta>>>
    decreases |gain|
  {
    if gain == [] then Ok(Some([]))
    else
      var before :- GainOps(gain[..|gain| - 1], drag, cost);
      var g := gain[|gain| - 1];
      if before.None? then Ok(None)
      else if GainHolds(g, drag) then Ok(Some(before.value + [Meta(AssertNoTag, g.value, "DRAG"), Meta(AppendTag, g.value, "DRAG")]))
      else if HasRaw(cost, g.value) then Err(Contextual(SyntaxError, RuleContext))
      else Ok(None)
  }

  predicate GainsHold(gain: seq<GameTag>, drag: seq<GameTag>)
  {
    forall i :: 0 <= i < |gain| ==> GainHolds(gain[i], drag)
  }

  /** The index of the first gain tag that does not hold, or `|gain|`. */
  function FirstFailingGain(gain: seq<GameTag>, drag: seq<GameTag>): (k: nat)
    ensures k <= |gain|
    ensures forall i :: 0 <= i < k ==> GainHolds(gain[i], drag)
    ensures k < |gain| ==> !GainHolds(gain[k], drag)
    ensures k == |gain| <==> GainsHold(gain, drag)
  {
    if gain == [] then 0
    else
      var k := FirstFailingGain(gain[..|gain| - 1], drag);
      if k < |gain| - 1 then k
      else if GainHolds(gain[|gain| - 1], drag) then |gain| else |gain| - 1
  }

  /**
   * The gain phase succeeds exactly when every gain tag holds, and it throws
   * exactly when the first tag that does not hold names a cost tag.
   */
  lemma {:induction false} GainOpsMeaning(gain: seq<GameTag>, drag: seq<GameTag>, cost: seq<GameTag>)
    ensures var k := FirstFailingGain(gain, drag);
      (GainOps(gain, drag, cost).Ok? && GainOps(gain, drag, cost).value.Some? <==> k == |gain|) &&
      (GainOps(gain, drag, cost).Err? <==> k < |gain| && HasRaw(cost, gain[k].value)) &&
      (GainOps(gain, drag, cost).Err? ==> GainOps(gain, drag, cost).error == Contextual(SyntaxError, RuleContext))
    decreases |gain|
  {
    if gain != [] {
      GainOpsMeaning(gain[..|gain| - 1], drag, cost);
      var init := gain[..|gain| - 1];
      assert forall i :: 0 <= i < |init| ==> init[i] == gain[i];
    }
  }

  /** The gain loop: returns at the first tag that does not hold, or throws. */
  method GainLoop(gain: seq<GameTag>, drag: seq<GameTag>, cost: seq<GameTag>) returns (r: Result<Option<seq<RuleMeta>>>)
    ensures r == GainOps(gain, drag, cost)
  {
    var ops: seq<RuleMeta> := [];
    var i := 0;
    while i < |gain|
      invariant 0 <= i <= |gain|
      invariant GainOps(gain[..i], drag, cost) == Ok(Some(ops))
    {
      var g := gain[i];
      assert gain[..i + 1][..i] == gain[..i];
      if !HasValue(drag, g.value) && g.op == RemoveOrAppend {
        ops := ops + [Meta(AssertNoTag, g.value, "DRAG"), Meta(AppendTag, g.value, "DRAG")];
      } else if HasRaw(cost, g.value) {
        GainPrefixStops(gain, i + 1, drag, cost);
        return Err(Contextual(SyntaxError, RuleContext));
      } else {
        GainPrefixStops(gain, i + 1, drag, cost);
        return Ok(None);
      }
      i := i + 1;
    }
    assert gain[..i] == gain;
    r := Ok(Some(ops));
  }

  /** Once a prefix has stopped the gain phase, the whole list stops the same way. */
  lemma {:induction false} GainPrefixStops(gain: seq<GameTag>, k: nat, drag: seq<GameTag>, cost: seq<GameTag>)
    requires k <= |gain|
    requires GainOps(gain[..k], drag, cost).Err? || GainOps(gain[..k], drag, cost).value.None?
    ensures GainOps(gain, drag, cost) == GainOps(gain[..k], drag, cost)
    decreases |gain| - k
  {
    if k < |gain| {
      assert gain[..k + 1][..k] == gain[..k];
      GainPrefixStops(gain, k + 1, drag, cost);
    } else {
      assert gain[..k] == gain;
    }
  }

  // ---------------------------------------------------------------------
  // The locations `AcceptInternal` looks at

  /** A state's locations, seen through their tags' parsed fields. */
  type Locations = seq<(String, seq<GameTag>)>

  lemma HasValueAppend(a: seq<GameTag>, b: seq<GameTag>, v: String)
    ensures HasValue(a + b, v) <==> HasValue(a, v) || HasValue(b, v)
  {
    if HasValue(a + b, v) {
      var j :| 0 <= j < |a + b| && (a + b)[j].value == v;
      if j < |a| {
        assert a[j] == (a + b)[j];
      } else {
        assert b[j - |a|] == (a + b)[j];
      }
    }
    if HasValue(a, v) {
      var j :| 0 <= j < |a| && a[j].value == v;
      assert (a + b)[j] == a[j];
    }
    if HasValue(b, v) {
      var j :| 0 <= j < |b| && b[j].value == v;
      assert (a + b)[|a| + j] == b[j];
    }
  }

  /** The tags of every location keyed exactly `DRAG`, in order. */
  function DragTags(locs: Locations): seq<GameTag>
    decreases |locs|
  {
    if locs == [] then []
    else DragTags(locs[..|locs| - 1]) + (if locs[|locs| - 1].0 == "DRAG" then locs[|locs| - 1].1 else [])
  }

  predicate DragHolds(locs: Locations, v: String)
  {
    exists i :: 0 <= i < |locs| && locs[i].0 == "DRAG" && HasValue(locs[i].1, v)
  }

  /** A value is in the DRAG tags exactly when some location keyed `DRAG` holds it. */
  lemma {:induction false} DragTagsHas(locs: Locations, v: String)
    ensures HasValue(DragTags(locs), v) <==> DragHolds(locs, v)
    decreases |locs|
  {
    if locs != [] {
      var init := locs[..|locs| - 1];
      var last := locs[|locs| - 1];
      DragTagsHas(init, v);
      var b: seq<GameTag> := if last.0 == "DRAG" then last.1 else [];
      HasValueAppend(DragTags(init), b, v);
      if DragHolds(init, v) {
        var i :| 0 <= i < |init| && init[i].0 == "DRAG" && HasValue(init[i].1, v);
        assert init[i] == locs[i];
      }
    }
  }

  /** The locations not keyed exactly `DRAG`, in order. */
  function NonDrag(locs: Locations): Locations
  {
    Filter(locs, (l: (String, seq<GameTag>)) => l.0 != "DRAG")
  }

  /** Every (location name, tag) pair of the locations, in order. */
  function Placed(locs: Locations): seq<(String, GameTag)>
    decreases |locs|
  {
    if locs == [] then []
    else Placed(locs[..|locs| - 1]) + Pairs(locs[|locs| - 1].0, locs[|locs| - 1].1)
  }

  function Pairs(key: String, tags: seq<GameTag>): (r: seq<(String, GameTag)>)
    ensures |r| == |tags| && forall i :: 0 <= i < |tags| ==> r[i] == (key, tags[i])
  {
    seq(|tags|, i requires 0 <= i < |tags| => (key, tags[i]))
  }

  // ---------------------------------------------------------------------
  // Context: comparison and range tags

  /** A context tag with `>=`, `<=` or `..` syntax. */
  predicate IsComparison(t: GameTag) { IsGreater(t) || IsLower(t) || IsRange(t) }

  predicate InRange(tag: GameTag, test: GameTag)
  {
    if IsGreater(tag) then test.meter.value < MaxShort && test.meter.value >= tag.meter.start
    else if IsLower(tag) then test.meter.value <= tag.meter.end && test.meter.value > MinShort
    else tag.meter.start <= test.meter.value <= tag.meter.end
  }

  /** A state tag that a comparison tag finds: in range, a meter, and its `Value` starts with the tag's. */
  predicate Hit(tag: GameTag, test: GameTag)
  {
    InRange(tag, test) && IsMeter(test) && StartsWith(test.value, tag.value)
  }

  predicate AnyHit(tag: GameTag, placed: seq<(String, GameTag)>)
  {
    exists i :: 0 <= i < |placed| && Hit(tag, placed[i].1)
  }

  /**
   * The scan of a comparison tag over every tag of every location: a `!`
   * tag rejects at its first hit, a `?` tag asserts every hit; the flag
   * records whether anything was hit.
   */
  function RangeScan(tag: GameTag, placed: seq<(String, GameTag)>): Option<(seq<RuleMeta>, bool)>
    decreases |placed|
  {
    if placed == [] then Some(([], false))
    else
      match RangeScan(tag, placed[..|placed| - 1])
      case None => None
      case Some(acc) => ScanOne(tag, acc, placed[|placed| - 1])
  }

  function ScanOne(tag: GameTag, acc: (seq<RuleMeta>, bool), x: (String, GameTag)): Option<(seq<RuleMeta>, bool)>
  {
    if !Hit(tag, x.1) then Some(acc)
    else if tag.op == FailedIfPresent then None
    else if tag.op == SucceedIfPresent then Some((acc.0 + [Meta(AssertTagIn, x.1.value, x.0)], true))
    else Some((acc.0, true))
  }

  function RangeOps(tag: GameTag, placed: seq<(String, GameTag)>): Option<seq<RuleMeta>>
  {
    match RangeScan(tag, placed)
    case None => None
    case Some(acc) => if tag.op == SucceedIfPresent && !acc.1 then None else Some(acc.0)
  }

  /** The scan fails only for a `!` tag with a hit; otherwise its flag says whether there was a hit. */
  lemma {:induction false} RangeScanMeaning(tag: GameTag, placed: seq<(String, GameTag)>)
    ensures RangeScan(tag, placed).None? <==> tag.op == FailedIfPresent && AnyHit(tag, placed)
    ensures RangeScan(tag, placed).Some? ==> (RangeScan(tag, placed).value.1 <==> AnyHit(tag, placed))
    decreases |placed|
  {
    if placed != [] {
      var init := placed[..|placed| - 1];
      RangeScanMeaning(tag, init);
      assert forall i :: 0 <= i < |init| ==> init[i] == placed[i];
      if AnyHit(tag, placed) && !Hit(tag, placed[|placed| - 1].1) {
        var i :| 0 <= i < |placed| && Hit(tag, placed[i].1);
        assert i < |init| && Hit(tag, init[i].1);
      }
    }
  }

  /** A comparison context tag: `!` holds when nothing is hit, `?` when something is; a plain one always holds. */
  lemma RangeOpsMeaning(tag: GameTag, placed: seq<(String, GameTag)>)
    ensures RangeOps(tag, placed).Some? <==>
      (tag.op == FailedIfPresent ==> !AnyHit(tag, placed)) && (tag.op == SucceedIfPresent ==> AnyHit(tag, placed))
  {
    RangeScanMeaning(tag, placed);
  }

  lemma RangeScanNext(tag: GameTag, placed: seq<(String, GameTag)>, x: (String, GameTag))
    ensures RangeScan(tag, placed + [x]) ==
      match RangeScan(tag, placed)
      case None => None
      case Some(acc) => ScanOne(tag, acc, x)
  {
    assert (placed + [x])[..|placed|] == placed;
  }

  lemma {:induction false} RangeScanStops(tag: GameTag, placed: seq<(String, GameTag)>, more: seq<(String, GameTag)>)
    requires RangeScan(tag, placed).None?
    ensures RangeScan(tag, placed + more).None?
    decreases |more|
  {
    if more == [] {
      assert placed + more == placed;
    } else {
      var init := more[..|more| - 1];
      RangeScanStops(tag, placed, init);
      assert placed + more == (placed + init) + [more[|more| - 1]];
      RangeScanNext(tag, placed + init, more[|more| - 1]);
    }
  }

  lemma {:induction false} PlacedAppend(a: Locations, b: Locations)
    ensures Placed(a + b) == Placed(a) + Placed(b)
    decreases |b|
  {
    if b == [] {
      assert a + b == a;
    } else {
      var init := b[..|b| - 1];
      var last := b[|b| - 1];
      PlacedAppend(a, init);
      var ab := a + b;
      assert ab[..|ab| - 1] == a + init;
      assert ab[|ab| - 1] == last;
      assert Placed(ab) == Placed(a + init) + Pairs(last.0, last.1);
      assert Placed(b) == Placed(init) + Pairs(last.0, last.1);
    }
  }

  lemma PairsNext(key: String, tags: seq<GameTag>, k: nat)
    requires k < |tags|
    ensures Pairs(key, tags[..k + 1]) == Pairs(key, tags[..k]) + [(key, tags[k])]
  {
  }

  lemma PairsSplit(key: String, tags: seq<GameTag>, k: nat)
    requires k <= |tags|
    ensures Pairs(key, tags) == Pairs(key, tags[..k]) + Pairs(key, tags[k..])
  {
  }

  /** Once the scan over a prefix of a location's tags has failed, the scan over all of them has. */
  lemma ScanTagsStops(tag: GameTag, before: seq<(String, GameTag)>, key: String, tags: seq<GameTag>, k: nat)
    requires k <= |tags| && RangeScan(tag, before + Pairs(key, tags[..k])).None?
    ensures RangeScan(tag, before + Pairs(key, tags)).None?
  {
    var head, rest := Pairs(key, tags[..k]), Pairs(key, tags[k..]);
    PairsSplit(key, tags, k);
    ConcatAssoc(before, head, rest);
    RangeScanStops(tag, before + head, rest);
  }

  /** The inner scan over the tags of one location. */
  method ScanTags(tag: GameTag, ghost before: seq<(String, GameTag)>, key: String, tags: seq<GameTag>,
                  ops0: seq<RuleMeta>, found0: bool)
    returns (r: Option<(seq<RuleMeta>, bool)>)
    requires RangeScan(tag, before) == Some((ops0, found0))
    ensures r == RangeScan(tag, before + Pairs(key, tags))
  {
    var ops, found := ops0, found0;
    var k := 0;
    ghost var placed := before;
    assert before + Pairs(key, tags[..0]) == before;
    while k < |tags|
      invariant 0 <= k <= |tags|
      invariant placed == before + Pairs(key, tags[..k])
      invariant RangeScan(tag, placed) == Some((ops, found))
    {
      var test := tags[k];
      PairsNext(key, tags, k);
      RangeScanNext(tag, placed, (key, test));
      placed := placed + [(key, test)];
      if Hit(tag, test) {
        if tag.op == FailedIfPresent {
          ScanTagsStops(tag, before, key, tags, k + 1);
          return None;
        } else if tag.op == SucceedIfPresent {
          ops := ops + [Meta(AssertTagIn, test.value, key)];
        }
        found := true;
      }
      k := k + 1;
    }
    assert tags[..k] == tags;
    r := Some((ops, found));
  }

  /** The nested scan of a comparison context tag over every location and every tag there. */
  method RangeLoop(tag: GameTag, locs: Locations) returns (r: Option<seq<RuleMeta>>)
    ensures r == RangeOps(tag, Placed(locs))
  {
    var ops: seq<RuleMeta> := [];
    var found := false;
    var j := 0;
    while j < |locs|
      invariant 0 <= j <= |locs|
      invariant RangeScan(tag, Placed(locs[..j])) == Some((ops, found))
    {
      var (key, tags) := locs[j];
      assert locs[..j + 1][..j] == locs[..j];
      var scanned := ScanTags(tag, Placed(locs[..j]), key, tags, ops, found);
      if scanned.None? {
        PlacedAppend(locs[..j + 1], locs[j + 1..]);
        assert locs[..j + 1] + locs[j + 1..] == locs;
        RangeScanStops(tag, Placed(locs[..j + 1]), Placed(locs[j + 1..]));
        return None;
      }
      ops, found := scanned.value.0, scanned.value.1;
      j := j + 1;
    }
    assert locs[..j] == locs;
    if tag.op == SucceedIfPresent && !found {
      return None;
    }
    r := Some(ops);
  }

  // ---------------------------------------------------------------------
  // Context: plain tags

  /**
   * The location a plain context tag is taken from: among the locations
   * holding its value, the last one named like the scene's location
   * (ignoring case), or else the first one.
   */
  function Chosen(v: String, name: String, locs: Locations): Option<String>
    decreases |locs|
  {
    if locs == [] then None
    else
      var acc := Chosen(v, name, locs[..|locs| - 1]);
      var l := locs[|locs| - 1];
      if HasValue(l.1, v) && (acc.None? || EqualsIgnoreCase(name, l.0)) then Some(l.0) else acc
  }

  predicate Holds(locs: Locations, i: int, v: String)
  {
    0 <= i < |locs| && HasValue(locs[i].1, v)
  }

  /**
   * The chosen location holds the value and exists exactly when some
   * location does; it is named like the scene whenever a holding location
   * is, and it is the first holding location when none is.
   */
  lemma ChosenMeaning(v: String, name: String, locs: Locations)
    ensures Chosen(v, name, locs).None? <==> forall i :: 0 <= i < |locs| ==> !Holds(locs, i, v)
    ensures Chosen(v, name, locs).Some? ==> exists i :: Holds(locs, i, v) && locs[i].0 == Chosen(v, name, locs).value
    ensures (exists i :: Holds(locs, i, v) && EqualsIgnoreCase(name, locs[i].0)) ==>
              EqualsIgnoreCase(name, Chosen(v, name, locs).value)
    ensures (forall i :: Holds(locs, i, v) ==> !EqualsIgnoreCase(name, locs[i].0)) && Chosen(v, name, locs).Some? ==>
              exists i :: Holds(locs, i, v) && locs[i].0 == Chosen(v, name, locs).value &&
                          forall j :: 0 <= j < i ==> !Holds(locs, j, v)
  {
    ChosenFound(v, name, locs);
    ChosenPrefersName(v, name, locs);
    ChosenFirstOtherwise(v, name, locs);
  }

  /** Dropping the last location keeps which of the others hold. */
  lemma HoldsInit(v: String, locs: Locations)
    requires locs != []
    ensures forall i :: 0 <= i < |locs| - 1 ==> locs[..|locs| - 1][i] == locs[i]
    ensures forall i :: 0 <= i < |locs| - 1 ==> (Holds(locs[..|locs| - 1], i, v) <==> Holds(locs, i, v))
  {
  }

  lemma {:induction false} ChosenFound(v: String, name: String, locs: Locations)
    ensures Chosen(v, name, locs).None? <==> forall i :: 0 <= i < |locs| ==> !Holds(locs, i, v)
    ensures Chosen(v, name, locs).Some? ==> exists i :: Holds(locs, i, v) && locs[i].0 == Chosen(v, name, locs).value
    decreases |locs|
  {
    if locs != [] {
      var init := locs[..|locs| - 1];
      var n := |init|;
      ChosenFound(v, name, init);
      HoldsInit(v, locs);
      var acc := Chosen(v, name, init);
      if acc.Some? && !(HasValue(locs[n].1, v) && EqualsIgnoreCase(name, locs[n].0)) {
        var i :| Holds(init, i, v) && init[i].0 == acc.value;
        assert Holds(locs, i, v) && locs[i].0 == acc.value;
      }
      if HasValue(locs[n].1, v) {
        assert Holds(locs, n, v);
      }
      if acc.None? && !HasValue(locs[n].1, v) {
        forall i | 0 <= i < |locs| ensures !Holds(locs, i, v) {
          if i < n {
            assert !Holds(init, i, v);
          }
        }
      }
    }
  }

  lemma {:induction false} ChosenPrefersName(v: String, name: String, locs: Locations)
    ensures (exists i :: Holds(locs, i, v) && EqualsIgnoreCase(name, locs[i].0)) ==>
              Chosen(v, name, locs).Some? && EqualsIgnoreCase(name, Chosen(v, name, locs).value)
    decreases |locs|
  {
    if locs != [] {
      var init := locs[..|locs| - 1];
      ChosenPrefersName(v, name, init);
      HoldsInit(v, locs);
    }
  }

  lemma {:induction false} ChosenFirstOtherwise(v: String, name: String, locs: Locations)
    ensures (forall i :: Holds(locs, i, v) ==> !EqualsIgnoreCase(name, locs[i].0)) && Chosen(v, name, locs).Some? ==>
              exists i :: Holds(locs, i, v) && locs[i].0 == Chosen(v, name, locs).value &&
                          forall j :: 0 <= j < i ==> !Holds(locs, j, v)
    decreases |locs|
  {
    if locs != [] {
      var init := locs[..|locs| - 1];
      var n := |init|;
      ChosenFound(v, name, init);
      ChosenFirstOtherwise(v, name, init);
      HoldsInit(v, locs);
      var acc := Chosen(v, name, init);
      if forall i :: Holds(locs, i, v) ==> !EqualsIgnoreCase(name, locs[i].0) {
        if acc.Some? {
          var k :| Holds(init, k, v) && init[k].0 == acc.value && forall j :: 0 <= j < k ==> !Holds(init, j, v);
          assert Holds(locs, k, v) && forall j :: 0 <= j < k ==> !Holds(locs, j, v);
        } else if HasValue(locs[n].1, v) {
          assert Holds(locs, n, v) && forall j :: 0 <= j < n ==> !Holds(locs, j, v);
        }
      }
    }
  }

  function NoTagAll(v: String, locs: Locations): (r: seq<RuleMeta>)
    ensures |r| == |locs|
    decreases |locs|
  {
    if locs == [] then [] else NoTagAll(v, locs[..|locs| - 1]) + [Meta(AssertNoTag, v, locs[|locs| - 1].0)]
  }

  /** One absence assertion per location, in order. */
  lemma {:induction false} NoTagAllAt(v: String, locs: Locations)
    ensures forall i :: 0 <= i < |locs| ==> NoTagAll(v, locs)[i] == Meta(AssertNoTag, v, locs[i].0)
    decreases |locs|
  {
    if locs != [] {
      var init := locs[..|locs| - 1];
      NoTagAllAt(v, init);
      assert forall i :: 0 <= i < |init| ==> init[i] == locs[i];
    }
  }

  lemma NoTagAllNext(v: String, locs: Locations, j: nat)
    requires j < |locs|
    ensures NoTagAll(v, locs[..j + 1]) == NoTagAll(v, locs[..j]) + [Meta(AssertNoTag, v, locs[j].0)]
  {
    assert locs[..j + 1][..j] == locs[..j];
  }

  /**
   * A plain context tag: plain and `?` need a location holding it (plain
   * also removes it there); `!` needs none, and asserts its absence from
   * every location.
   */
  function PlainOps(tag: GameTag, locs: Locations, name: String): Option<seq<RuleMeta>>
  {
    var v := tag.value;
    match Chosen(v, name, locs)
    case None =>
      if tag.op == FailedIfPresent then Some(NoTagAll(v, locs)) else None
    case Some(at) =>
      if tag.op == RemoveOrAppend then Some([Meta(AssertTagIn, v, at), Meta(RemoveTag, v, at)])
      else if tag.op == SucceedIfPresent then Some([Meta(AssertTagIn, v, at)])
      else None
  }

  /** A plain context tag holds when some location holds it, or, for a `!` tag, when none does. */
  lemma PlainOpsMeaning(tag: GameTag, locs: Locations, name: String)
    ensures PlainOps(tag, locs, name).Some? <==>
      if tag.op == FailedIfPresent then forall i :: 0 <= i < |locs| ==> !Holds(locs, i, tag.value)
      else exists i :: Holds(locs, i, tag.value)
  {
    ChosenMeaning(tag.value, name, locs);
  }

  /** The loop over the locations for one plain context tag. */
  method PlainLoop(tag: GameTag, locs: Locations, name: String) returns (r: Option<seq<RuleMeta>>)
    ensures r == PlainOps(tag, locs, name)
  {
    var v := tag.value;
    var at: Option<String> := None;
    var noTags: seq<RuleMeta> := [];
    var j := 0;
    while j < |locs|
      invariant 0 <= j <= |locs|
      invariant at == Chosen(v, name, locs[..j])
      invariant noTags == if tag.op == FailedIfPresent then NoTagAll(v, locs[..j]) else []
    {
      assert locs[..j + 1][..j] == locs[..j];
      var (key, tags) := locs[j];
      if HasValue(tags, v) {
        if at.None? || EqualsIgnoreCase(name, key) {
          at := Some(key);
        }
      }
      if tag.op == FailedIfPresent {
        noTags := noTags + [Meta(AssertNoTag, v, key)];
      }
      j := j + 1;
    }
    assert locs[..j] == locs;
    match tag.op {
      case RemoveOrAppend =>
        if at.None? {
          return None;
        }
        r := Some([Meta(AssertTagIn, v, at.value), Meta(RemoveTag, v, at.value)]);
      case SucceedIfPresent =>
        if at.None? {
          return None;
        }
        r := Some([Meta(AssertTagIn, v, at.value)]);
      case FailedIfPresent =>
        if at.Some? {
          return None;
        }
        r := Some(noTags);
    }
  }

  /** One context tag, checked against the locations other than DRAG. */
  function ContextStep(tag: GameTag, locs: Locations, name: String): Option<seq<RuleMeta>>
  {
    if IsComparison(tag) then RangeOps(tag, Placed(locs)) else PlainOps(tag, locs, name)
  }

  function ContextOps(context: seq<GameTag>, locs: Locations, name: String): Option<seq<RuleMeta>>
  {
    Collect(context, (t: GameTag) => ContextStep(t, locs, name))
  }

  predicate ContextHolds(context: seq<GameTag>, locs: Locations, name: String)
  {
    forall i :: 0 <= i < |context| ==> ContextStep(context[i], locs, name).Some?
  }

  /** The context phase holds exactly when every context tag does, each in the sense of its syntax. */
  lemma ContextOpsMeaning(context: seq<GameTag>, locs: Locations, name: String)
    ensures ContextOps(context, locs, name).Some? <==> ContextHolds(context, locs, name)
  {
    CollectSome(context, (t: GameTag) => ContextStep(t, locs, name));
  }

  /** The context loop: returns at the first tag that does not hold. */
  method ContextLoop(context: seq<GameTag>, locs: Locations, name: String) returns (r: Option<seq<RuleMeta>>)
    ensures r == ContextOps(context, locs, name)
  {
    var step := (t: GameTag) => ContextStep(t, locs, name);
    var ops: seq<RuleMeta> := [];
    var i := 0;
    while i < |context|
      invariant 0 <= i <= |context|
      invariant Collect(context[..i], step) == Some(ops)
    {
      CollectNext(context, i, step);
      var tag := context[i];
      var more: Option<seq<RuleMeta>>;
      if IsComparison(tag) {
        more := RangeLoop(tag, locs);
      } else {
        more := PlainLoop(tag, locs, name);
      }
      if more.None? {
        CollectPrefixNone(context, i + 1, step);
        return None;
      }
      ops := ops + more.value;
      i := i + 1;
    }
    assert context[..i] == context;
    r := Some(ops);
  }

  // ---------------------------------------------------------------------
  // Payload

  /** What a payload tag demands: it appends, and it does not target DRAG. */
  predicate PayloadHolds(p: GameTag)
  {
    p.op == RemoveOrAppend && !EqualsIgnoreCase(p.location, "DRAG")
  }

  predicate PayloadsHold(payload: seq<GameTag>)
  {
    forall i :: 0 <= i < |payload| ==> PayloadHolds(payload[i])
  }

  /** Where a payload tag is added: its own location, or the scene's location when it has none. */
  function Target(p: GameTag, name: String): String
  {
    if p.location == [] then name else p.location
  }

  /** An absence assertion at every location that already holds the value. */
  function NoTagWhere(v: String, locs: Locations): seq<RuleMeta>
    decreases |locs|
  {
    if locs == [] then []
    else
      var l := locs[|locs| - 1];
      NoTagWhere(v, locs[..|locs| - 1]) + (if HasValue(l.1, v) then [Meta(AssertNoTag, v, l.0)] else [])
  }

  function PayloadStep(p: GameTag, locs: Locations, name: String): Option<seq<RuleMeta>>
  {
    if !PayloadHolds(p) then None
    else Some(NoTagWhere(p.value, locs) + [Meta(AppendTag, p.value, Target(p, name))])
  }

  function PayloadOps(payload: seq<GameTag>, locs: Locations, name: String): Option<seq<RuleMeta>>
  {
    Collect(payload, (p: GameTag) => PayloadStep(p, locs, name))
  }

  /**
   * The payload phase holds exactly when every payload tag does, and then
   * every payload tag is appended at its target.
   */
  lemma PayloadOpsMeaning(payload: seq<GameTag>, locs: Locations, name: String)
    ensures PayloadOps(payload, locs, name).Some? <==> PayloadsHold(payload)
    ensures PayloadOps(payload, locs, name).Some? ==>
      forall i :: 0 <= i < |payload| ==> Meta(AppendTag, payload[i].value, Target(payload[i], name)) in PayloadOps(payload, locs, name).value
  {
    var step := (p: GameTag) => PayloadStep(p, locs, name);
    CollectSome(payload, step);
    if PayloadOps(payload, locs, name).Some? {
      forall i | 0 <= i < |payload|
        ensures Meta(AppendTag, payload[i].value, Target(payload[i], name)) in PayloadOps(payload, locs, name).value
      {
        CollectTo(payload, step, i);
      }
    }
  }

  /** Every operation a check emitted is collected. */
  lemma {:induction false} CollectTo<T>(xs: seq<T>, step: T -> Option<seq<RuleMeta>>, i: nat)
    requires i < |xs| && Collect(xs, step).Some?
    ensures step(xs[i]).Some? && forall m :: m in step(xs[i]).value ==> m in Collect(xs, step).value
    decreases |xs|
  {
    var init := xs[..|xs| - 1];
    if i < |init| {
      CollectTo(init, step, i);
      assert init[i] == xs[i];
    }
  }

  /** The loop over the locations for one payload tag. */
  method PayloadTagLoop(p: GameTag, locs: Locations, name: String) returns (r: Option<seq<RuleMeta>>)
    ensures r == PayloadStep(p, locs, name)
  {
    if p.op != RemoveOrAppend || EqualsIgnoreCase(p.location, "DRAG") {
      return None;
    }
    var ops: seq<RuleMeta> := [];
    var j := 0;
    while j < |locs|
      invariant 0 <= j <= |locs|
      invariant ops == NoTagWhere(p.value, locs[..j])
    {
      assert locs[..j + 1][..j] == locs[..j];
      if HasValue(locs[j].1, p.value) {
        ops := ops + [Meta(AssertNoTag, p.value, locs[j].0)];
      }
      j := j + 1;
    }
    assert locs[..j] == locs;
    r := Some(ops + [Meta(AppendTag, p.value, if p.location == [] then name else p.location)]);
  }

  /** The payload loop: returns at the first tag that does not hold. */
  method PayloadLoop(payload: seq<GameTag>, locs: Locations, name: String) returns (r: Option<seq<RuleMeta>>)
    ensures r == PayloadOps(payload, locs, name)
  {
    var step := (p: GameTag) => PayloadStep(p, locs, name);
    var ops: seq<RuleMeta> := [];
    var i := 0;
    while i < |payload|
      invariant 0 <= i <= |payload|
      invariant Collect(payload[..i], step) == Some(ops)
    {
      CollectNext(payload, i, step);
      var more := PayloadTagLoop(payload[i], locs, name);
      if more.None? {
        CollectPrefixNone(payload, i + 1, step);
        return None;
      }
      ops := ops + more.value;
      i := i + 1;
    }
    assert payload[..i] == payload;
    r := Some(ops);
  }

  // ---------------------------------------------------------------------
  // Acceptance

  /**
   * `AcceptInternal`: drag cost against DRAG (drag rules only), then gain,
   * context and payload against the locations other than DRAG; `name` is
   * the scene's location.
   */
  function AcceptInternalSpec(r: Rule, locs: Locations, name: String): Result<Option<seq<RuleMeta>>>
  {
    var drag := DragTags(locs);
    var dragCost := if r.isDrag then CostOps(r.cost, drag, "DRAG") else Some([]);
    if dragCost.None? then Ok(None)
    else
      var gain :- GainOps(r.gain, drag, r.cost);
      if gain.None? then Ok(None)
      else
        var others := NonDrag(locs);
        var context := ContextOps(r.context, others, name);
        if context.None? then Ok(None)
        else
          var payload := PayloadOps(r.payload, others, name);
          if payload.None? then Ok(None)
          else Ok(Some(dragCost.value + gain.value + context.value + payload.value))
  }

  /** Every phase holds: the conditions under which `AcceptInternal` accepts. */
  predicate InternalHolds(r: Rule, locs: Locations, name: String)
  {
    (r.isDrag ==> CostsHold(r.cost, DragTags(locs))) &&
    GainsHold(r.gain, DragTags(locs)) &&
    ContextHolds(r.context, NonDrag(locs), name) &&
    PayloadsHold(r.payload)
  }

  /** The gain tag at which `AcceptInternal` throws: the first that does not hold, when it names a cost tag. */
  predicate GainThrows(r: Rule, locs: Locations)
  {
    var k := FirstFailingGain(r.gain, DragTags(locs));
    k < |r.gain| && HasRaw(r.cost, r.gain[k].value)
  }

  /**
   * `AcceptInternal` accepts exactly when every phase holds; it throws
   * exactly when the drag cost holds and the first gain tag that does not
   * hold names a cost tag, and then it is a Rule syntax error.
   */
  lemma AcceptInternalMeaning(r: Rule, locs: Locations, name: String)
    ensures (AcceptInternalSpec(r, locs, name).Ok? && AcceptInternalSpec(r, locs, name).value.Some?)
              <==> InternalHolds(r, locs, name)
    ensures AcceptInternalSpec(r, locs, name).Err? <==>
              (r.isDrag ==> CostsHold(r.cost, DragTags(locs))) && GainThrows(r, locs)
    ensures AcceptInternalSpec(r, locs, name).Err? ==>
              AcceptInternalSpec(r, locs, name).error == Contextual(SyntaxError, RuleContext)
  {
    AcceptInternalAccepts(r, locs, name);
    AcceptInternalThrows(r, locs, name);
  }

  lemma AcceptInternalAccepts(r: Rule, locs: Locations, name: String)
    ensures (AcceptInternalSpec(r, locs, name).Ok? && AcceptInternalSpec(r, locs, name).value.Some?)
              <==> InternalHolds(r, locs, name)
  {
    var drag := DragTags(locs);
    CostOpsMeaning(r.cost, drag, "DRAG");
    GainOpsMeaning(r.gain, drag, r.cost);
    ContextOpsMeaning(r.context, NonDrag(locs), name);
    PayloadOpsMeaning(r.payload, NonDrag(locs), name);
    var dragCost := if r.isDrag then CostOps(r.cost, drag, "DRAG") else Some([]);
    var gain := GainOps(r.gain, drag, r.cost);
    var context := ContextOps(r.context, NonDrag(locs), name);
    var payload := PayloadOps(r.payload, NonDrag(locs), name);
    assert AcceptInternalSpec(r, locs, name).Ok? && AcceptInternalSpec(r, locs, name).value.Some? <==>
      dragCost.Some? && gain.Ok? && gain.value.Some? && context.Some? && payload.Some?;
  }

  lemma AcceptInternalThrows(r: Rule, locs: Locations, name: String)
    ensures AcceptInternalSpec(r, locs, name).Err? <==>
              (r.isDrag ==> CostsHold(r.cost, DragTags(locs))) && GainThrows(r, locs)
    ensures AcceptInternalSpec(r, locs, name).Err? ==>
              AcceptInternalSpec(r, locs, name).error == Contextual(SyntaxError, RuleContext)
  {
    var drag := DragTags(locs);
    CostOpsMeaning(r.cost, drag, "DRAG");
    GainOpsMeaning(r.gain, drag, r.cost);
  }

  method AcceptInternal(r: Rule, locs: Locations, name: String) returns (res: Result<Option<seq<RuleMeta>>>)
    ensures res == AcceptInternalSpec(r, locs, name)
  {
    var drag := DragTags(locs);
    var ops: seq<RuleMeta> := [];
    if r.isDrag {
      var dragCost := CostLoop(r.cost, drag, "DRAG");
      if dragCost.None? {
        return Ok(None);
      }
      ops := dragCost.value;
    }
    var gain := GainLoop(r.gain, drag, r.cost);
    if gain.Err? {
      return Err(gain.error);
    }
    if gain.value.None? {
      return Ok(None);
    }
    ops := ops + gain.value.value;
    var others := NonDrag(locs);
    var context := ContextLoop(r.context, others, name);
    if context.None? {
      return Ok(None);
    }
    ops := ops + context.value;
    var payload := PayloadLoop(r.payload, others, name);
    if payload.None? {
      return Ok(None);
    }
    ops := ops + payload.value;
    res := Ok(Some(ops));
  }

  /** The operations of the match tag: go to its location if it names one, assert it, and remove it if plain. */
  function MatchOps(m: GameTag, at: String): seq<RuleMeta>
  {
    (if m.location != [] then [Meta(GotoScene, [], m.location)] else [])
    + [Meta(AssertTagIn, m.value, at)]
    + (if m.op == RemoveOrAppend then [Meta(RemoveTag, m.value, at)] else [])
  }

  /**
   * `Accept`: the scene's location is the first location named like
   * `scene` ignoring case; without one the rule is rejected.
   */
  function AcceptSpec(r: Rule, scene: String, s: Stat): Result<Acceptance>
  {
    var k := FindFirst(s.locations, NameIs(scene));
    if k < 0 then Ok(Rejected) else AcceptAt(r, s.locations, s.locations[k].0, s.locations[k].1)
  }

  /**
   * `Accept` once the scene's location `at` (holding `tags`) is found: the
   * match tag must be there and must not be a `!` tag; a rule that is not
   * a drag rule pays its cost there; then `AcceptInternal` decides.
   */
  function AcceptAt(r: Rule, locs: Locations, at: String, tags: seq<GameTag>): Result<Acceptance>
  {
    var m := r.matchTag;
    if !HasValue(tags, m.value) || m.op == FailedIfPresent then Ok(Rejected)
    else
      var cost := if r.isDrag then Some([]) else CostOps(r.cost, tags, at);
      if cost.None? then Ok(Rejected)
      else
        var inner :- AcceptInternalSpec(r, locs, at);
        if inner.None? then Ok(Rejected)
        else Ok(Accepted(r.keys, MatchOps(m, at) + cost.value + inner.value))
  }

  method Accept(r: Rule, scene: String, s: Stat) returns (res: Result<Acceptance>)
    ensures res == AcceptSpec(r, scene, s)
  {
    var k := FindFirst(s.locations, NameIs(scene));
    if k < 0 {
      return Ok(Rejected);
    }
    res := AcceptFound(r, s.locations, s.locations[k].0, s.locations[k].1);
  }

  /** The body of `Accept` after the scene's location is found. */
  method AcceptFound(r: Rule, locs: Locations, at: String, tags: seq<GameTag>) returns (res: Result<Acceptance>)
    ensures res == AcceptAt(r, locs, at, tags)
  {
    var m := r.matchTag;
    if !HasValue(tags, m.value) {
      return Ok(Rejected);
    }
    if m.op == FailedIfPresent {
      return Ok(Rejected);
    }
    var ops := MatchMetas(m, at);
    var paid: seq<RuleMeta> := [];
    if !r.isDrag {
      var cost := CostLoop(r.cost, tags, at);
      if cost.None? {
        return Ok(Rejected);
      }
      paid := cost.value;
    }
    var inner := AcceptInternal(r, locs, at);
    if inner.Err? {
      return Err(inner.error);
    }
    if inner.value.None? {
      return Ok(Rejected);
    }
    res := Ok(Accepted(r.keys, ops + paid + inner.value.value));
  }

  /** The operations the matched tag contributes: go to its location, assert it, remove it. */
  method MatchMetas(m: GameTag, at: String) returns (ops: seq<RuleMeta>)
    ensures ops == MatchOps(m, at)
  {
    ops := [];
    if m.location != [] {
      ops := ops + [Meta(GotoScene, [], m.location)];
    }
    ops := ops + [Meta(AssertTagIn, m.value, at)];
    if m.op == RemoveOrAppend {
      ops := ops + [Meta(RemoveTag, m.value, at)];
    }
  }

  /** The scene's location: the first location named like `scene` ignoring case. */
  predicate SceneAt(s: Stat, scene: String, k: int)
  {
    0 <= k < |s.locations| && EqualsIgnoreCase(s.locations[k].0, scene) &&
    forall j :: 0 <= j < k ==> !EqualsIgnoreCase(s.locations[j].0, scene)
  }

  /** The search for the scene's location finds the first location named like it, or none. */
  lemma SceneFound(scene: String, s: Stat)
    ensures FindFirst(s.locations, NameIs(scene)) == -1 <==>
              forall i :: 0 <= i < |s.locations| ==> !EqualsIgnoreCase(s.locations[i].0, scene)
    ensures forall k :: SceneAt(s, scene, k) ==> k == FindFirst(s.locations, NameIs(scene))
  {
    var k := FindFirst(s.locations, NameIs(scene));
    assert forall j :: 0 <= j < |s.locations| ==> (NameIs(scene)(s.locations[j]) <==> EqualsIgnoreCase(s.locations[j].0, scene));
    if k >= 0 {
      assert SceneAt(s, scene, k);
      assert forall k' :: SceneAt(s, scene, k') ==> !(k' < k) && !(k < k');
    }
  }

  /** `Accept` looks only at the first location named like the scene. */
  lemma AcceptScene(r: Rule, scene: String, s: Stat)
    ensures (forall i :: 0 <= i < |s.locations| ==> !EqualsIgnoreCase(s.locations[i].0, scene)) ==>
              AcceptSpec(r, scene, s) == Ok(Rejected)
    ensures forall k :: SceneAt(s, scene, k) ==>
              AcceptSpec(r, scene, s) == AcceptAt(r, s.locations, s.locations[k].0, s.locations[k].1)
  {
    SceneFound(scene, s);
  }

  /** What an accepted rule has met at the scene's location, and what its operations start with. */
  predicate AcceptedAt(r: Rule, locs: Locations, at: String, tags: seq<GameTag>)
  {
    HasValue(tags, r.matchTag.value) && r.matchTag.op != FailedIfPresent &&
    (!r.isDrag ==> CostsHold(r.cost, tags)) &&
    InternalHolds(r, locs, at)
  }

  /**
   * At the scene's location, the rule is accepted exactly when the match tag
   * is there and is not a `!` tag, its cost holds there (in DRAG for a drag
   * rule) and every later phase holds; it then yields its own key and the
   * match operations first.  The rule is rejected rather than accepted in
   * every other case except the gain error, the only error there is.
   */
  lemma AcceptAtMeaning(r: Rule, locs: Locations, at: String, tags: seq<GameTag>)
    ensures (AcceptAt(r, locs, at, tags).Ok? && AcceptAt(r, locs, at, tags).value.Accepted?) <==> AcceptedAt(r, locs, at, tags)
    ensures AcceptAt(r, locs, at, tags).Ok? && AcceptAt(r, locs, at, tags).value.Accepted? ==>
              AcceptAt(r, locs, at, tags).value.key == r.keys &&
              MatchOps(r.matchTag, at) <= AcceptAt(r, locs, at, tags).value.ops
    ensures !HasValue(tags, r.matchTag.value) || r.matchTag.op == FailedIfPresent ==>
              AcceptAt(r, locs, at, tags) == Ok(Rejected)
    ensures AcceptAt(r, locs, at, tags).Err? ==> AcceptAt(r, locs, at, tags).error == Contextual(SyntaxError, RuleContext)
  {
    CostOpsMeaning(r.cost, tags, at);
    AcceptInternalMeaning(r, locs, at);
    var a := AcceptAt(r, locs, at, tags);
    if a.Ok? && a.value.Accepted? {
      var m := MatchOps(r.matchTag, at);
      assert a.value.ops[..|m|] == m;
    }
  }

  // ---------------------------------------------------------------------
  // Description, rendering and equality

  /** A tag name as the description shows it: every `.` read as ` with `. */
  function Spoken(v: String): String
  {
    ReplaceAll(v, ".", " with ")
  }

  function Values(tags: seq<GameTag>): seq<String>
  {
    Map(tags, (t: GameTag) => t.value)
  }

  /** `Description`: poke the match, or drag the cost (joined by ` and `) onto it. */
  function Description(r: Rule): String
  {
    var m := Spoken(r.matchTag.value);
    if |r.cost| > 0 then Sentence("Drag the ", Spoken(Join(Values(r.cost), " and ")) + " onto the " + m)
    else Sentence("Poke the ", m)
  }

  function Sentence(opening: String, body: String): String
  {
    opening + body + ". "
  }

  /**
   * A description is one sentence: it opens with `Poke the ` exactly when
   * the rule has no cost (`Drag the ` otherwise), it ends with `. `, and no
   * other `.` is left in it, since every dot of a name is read as ` with `.
   */
  lemma DescriptionSentence(r: Rule)
    ensures var d := Description(r);
      |d| >= 2 && d[|d| - 2..] == ". " && '.' !in d[..|d| - 2] &&
      (|r.cost| == 0 <==> StartsWith(d, "Poke the ")) &&
      (|r.cost| > 0 <==> StartsWith(d, "Drag the "))
  {
    if |r.cost| > 0 {
      DragSentence(r);
    } else {
      ReplaceCharGone(r.matchTag.value, '.', " with ");
      SentenceShape("Poke the ", Spoken(r.matchTag.value), "Drag the ");
    }
  }

  /** The sentence of a rule with a cost: it opens with "Drag the ". */
  lemma DragSentence(r: Rule)
    requires |r.cost| > 0
    ensures var d := Description(r);
      |d| >= 2 && d[|d| - 2..] == ". " && '.' !in d[..|d| - 2] &&
      StartsWith(d, "Drag the ") && !StartsWith(d, "Poke the ")
  {
    ReplaceCharGone(r.matchTag.value, '.', " with ");
    ReplaceCharGone(Join(Values(r.cost), " and "), '.', " with ");
    SentenceShape("Drag the ", Spoken(Join(Values(r.cost), " and ")) + " onto the " + Spoken(r.matchTag.value), "Poke the ");
  }

  lemma SentenceShape(opening: String, rest: String, other: String)
    requires |opening| == |other| && opening != other && '.' !in opening && '.' !in rest
    ensures var d := Sentence(opening, rest);
      |d| >= 2 && d[|d| - 2..] == ". " && '.' !in d[..|d| - 2] &&
      StartsWith(d, opening) && !StartsWith(d, other)
  {
    var d := opening + rest + ". ";
    assert d[..|d| - 2] == opening + rest;
    assert d[|d| - 2..] == ". ";
    assert d[..|opening|] == opening;
  }

  /** A dot between two names is read as ` with ` between them as spoken. */
  lemma SpokenWith(a: String, b: String)
    ensures Spoken(a + "." + b) == Spoken(a) + " with " + Spoken(b)
  {
    ReplaceCharConcat(a + ".", b, '.', " with ");
    ReplaceCharConcat(a, ".", '.', " with ");
    assert ReplaceAll(".", ".", " with ") == " with " + ReplaceAll([], ".", " with ");
  }

  /** Speaking a joined list is joining the spoken names, when the separator has no dot. */
  lemma {:induction false} SpokenJoin(names: seq<String>, sep: String)
    requires '.' !in sep
    ensures Spoken(Join(names, sep)) == Join(Map(names, Spoken), sep)
  {
    if |names| == 1 {
    } else if |names| > 1 {
      ContainsNeedsChar(sep, ".", '.');
      ReplaceAbsent(sep, ".", " with ");
      ReplaceCharConcat(names[0] + sep, Join(names[1..], sep), '.', " with ");
      ReplaceCharConcat(names[0], sep, '.', " with ");
      SpokenJoin(names[1..], sep);
      assert Map(names, Spoken)[1..] == Map(names[1..], Spoken);
    }
  }

  /**
   * The sentence of a rule with a cost names every cost tag, each spoken,
   * joined by ` and `, then the spoken match: `Drag the C1 and C2 onto the M. `.
   */
  lemma DragDescription(r: Rule)
    requires |r.cost| > 0
    ensures Description(r) ==
      "Drag the " + Join(Map(Values(r.cost), Spoken), " and ") + " onto the " + Spoken(r.matchTag.value) + ". "
  {
    SpokenJoin(Values(r.cost), " and ");
  }

  /** A name without dots is described verbatim. */
  lemma DescriptionVerbatim(r: Rule)
    requires |r.cost| == 0 && '.' !in r.matchTag.value
    ensures Description(r) == "Poke the " + r.matchTag.value + ". "
  {
    ContainsNeedsChar(r.matchTag.value, ".", '.');
    ReplaceAbsent(r.matchTag.value, ".", " with ");
    assert Spoken(r.matchTag.value) == r.matchTag.value;
  }

  /** `ToString`: the rule in script syntax. */
  function Render(r: Rule): String
  {
    var context :=
      if |r.context| > 0 then "(" + TagSets.ToString(r.context) + ")"
      else if !r.isDrag then "()" else "";
    var cost :=
      if |r.cost| > 0 then (if r.isDrag then "{" else "-{") + TagSets.ToString(r.cost) + (if r.isDrag then "}-" else "}")
      else (if r.isDrag && |r.context| == 0 then "()" else "") + "-";
    var payload := if |r.payload| > 0 then "(" + TagSets.ToString(r.payload) + ")" else "";
    var gain :=
      if |r.gain| > 0 then "{" + TagSets.ToString(r.gain) + "}"
      else if |r.payload| == 0 then "()" else "";
    Trim("++ " + context + cost + "[" + Tags.ToString(r.matchTag) + "]->" + payload + gain)
  }

  /** `Equals`: every part but the text key. */
  predicate Equals(a: Rule, b: Rule)
  {
    TagSets.Equals(a.context, b.context) && Tags.Equals(a.matchTag, b.matchTag) &&
    TagSets.Equals(a.payload, b.payload) && a.isDrag == b.isDrag &&
    TagSets.Equals(a.cost, b.cost) && TagSets.Equals(a.gain, b.gain)
  }

  /** Two rules are equal exactly when they differ at most in their text key. */
  lemma EqualsIgnoresKey(a: Rule, b: Rule)
    ensures Equals(a, b) <==> a.(keys := []) == b.(keys := [])
  {
    TagSets.EqualsIsIdentity(a.context, b.context);
    TagSets.EqualsIsIdentity(a.payload, b.payload);
    TagSets.EqualsIsIdentity(a.cost, b.cost);
    TagSets.EqualsIsIdentity(a.gain, b.gain);
  }

  /** Equal rules render alike, so the rendering is a fit hash for the equality. */
  lemma EqualsRender(a: Rule, b: Rule)
    requires Equals(a, b)
    ensures Render(a) == Render(b) && Description(a) == Description(b)
  {
    EqualsIgnoresKey(a, b);
  }

  // ---------------------------------------------------------------------
  // Sugar expansion into a rulebook (`ResolveSyntax` and its chain)

  /** Some tag of the rule has sugar syntax. */
  predicate RuleHasSugar(r: Rule)
  {
    ContainsSugar(r.matchTag) || HasSugar(r.context) || HasSugar(r.cost) || HasSugar(r.payload) || HasSugar(r.gain)
  }

  /** `rulebook.Contains(x)`: some rule equal to `x`, text key aside. */
  predicate InBook(book: seq<Rule>, x: Rule)
  {
    exists i :: 0 <= i < |book| && Equals(book[i], x)
  }

  /** Adds a rule unless an equal one is already there. */
  function AddNew(book: seq<Rule>, x: Rule): seq<Rule>
  {
    if InBook(book, x) then book else book + [x]
  }

  /** Runs `f` on the rulebook for each element in turn; the first error stops it. */
  function Fold<T>(xs: seq<T>, book: seq<Rule>, f: (T, seq<Rule>) -> Result<seq<Rule>>): Result<seq<Rule>>
    decreases |xs|
  {
    if xs == [] then Ok(book)
    else
      var b :- Fold(xs[..|xs| - 1], book, f);
      f(xs[|xs| - 1], b)
  }

  /**
   * A `foreach` over an iterator that runs `f` on the rulebook for each item
   * in turn: an error of `f` stops it at once, and the iterator's own
   * exception comes only after every item it yielded was consumed.
   */
  function Consume<T>(xs: Yielded<T>, book: seq<Rule>, f: (T, seq<Rule>) -> Result<seq<Rule>>): Result<seq<Rule>>
  {
    var b :- Fold(xs.items, book, f);
    if xs.stop.Some? then Err(xs.stop.value) else Ok(b)
  }

  /** The choices for a set resolved against a pool: itself when it has no sugar. */
  function PoolChoices(s: TagSet, pool: seq<Tag>, fuel: nat): (r: Yielded<TagSet>)
    ensures forall x :: x in r.items ==> !HasSugar(x)
  {
    if HasSugar(s) then ResolveSyntax(s, pool, fuel) else Yielded([s], None)
  }

  /** The resolutions of a set against every location's tags, one location after the other. */
  function PerLocation(s: TagSet, locs: seq<(String, TagSet)>, fuel: nat): (r: Yielded<TagSet>)
    ensures forall x :: x in r.items ==> !HasSugar(x)
    decreases |locs|
  {
    if locs == [] then Yielded([], None)
    else PerLocation(s, locs[..|locs| - 1], fuel).Then(ResolveSyntax(s, locs[|locs| - 1].1, fuel))
  }

  /** The choices for a set resolved per location: itself when it has no sugar. */
  function LocationChoices(s: TagSet, locs: seq<(String, TagSet)>, fuel: nat): (r: Yielded<TagSet>)
    ensures forall x :: x in r.items ==> !HasSugar(x)
  {
    if HasSugar(s) then PerLocation(s, locs, fuel) else Yielded([s], None)
  }

  /** The resolutions of the match tag against every location's tags, one location after the other. */
  function MatchPerLocation(m: Tag, locs: seq<(String, TagSet)>): Yielded<Tag>
    decreases |locs|
  {
    if locs == [] then Yielded([], None)
    else MatchPerLocation(m, locs[..|locs| - 1]).Then(ResolveTag(m, locs[|locs| - 1].1))
  }

  function MatchChoices(m: Tag, locs: seq<(String, TagSet)>): Yielded<Tag>
  {
    if ContainsSugar(m) then MatchPerLocation(m, locs) else Yielded([m], None)
  }

  /** `ResolvePayloadSyntax`: one rule per gain choice (against the match, context and cost), each added unless present. */
  function ExpandPayload(r: Rule, m: Tag, c: TagSet, k: TagSet, p: TagSet, book: seq<Rule>, fuel: nat): Result<seq<Rule>>
  {
    Consume(PoolChoices(r.gain, ConcatSet(m, c, k), fuel), book,
            (g: TagSet, b: seq<Rule>) => Ok(AddNew(b, Rule(m, c, k, p, g, r.isDrag, r.keys))))
  }

  /** `ResolveCostSyntax`: each payload choice, against the match, context and cost. */
  function ExpandCost(r: Rule, m: Tag, c: TagSet, k: TagSet, book: seq<Rule>, fuel: nat): Result<seq<Rule>>
  {
    Consume(PoolChoices(r.payload, ConcatSet(m, c, k), fuel), book,
            (p: TagSet, b: seq<Rule>) => ExpandPayload(r, m, c, k, p, b, fuel))
  }

  /** `ResolveContextSyntax`: each cost choice, per location. */
  function ExpandContext(r: Rule, s: Stat, m: Tag, c: TagSet, book: seq<Rule>, fuel: nat): Result<seq<Rule>>
  {
    Consume(LocationChoices(r.cost, s.locations, fuel), book,
            (k: TagSet, b: seq<Rule>) => ExpandCost(r, m, c, k, b, fuel))
  }

  /** `ResolveMatchSyntax`: each context choice, per location. */
  function ExpandMatch(r: Rule, s: Stat, m: Tag, book: seq<Rule>, fuel: nat): Result<seq<Rule>>
  {
    Consume(LocationChoices(r.context, s.locations, fuel), book,
            (c: TagSet, b: seq<Rule>) => ExpandContext(r, s, m, c, b, fuel))
  }

  /** `ResolveSyntax`: a rule without sugar is added as it is; otherwise each match choice, per location. */
  function ExpandRule(r: Rule, s: Stat, book: seq<Rule>, fuel: nat): Result<seq<Rule>>
  {
    if !RuleHasSugar(r) then Ok(book + [r])
    else Consume(MatchChoices(r.matchTag, s.locations), book, (m: Tag, b: seq<Rule>) => ExpandMatch(r, s, m, b, fuel))
  }

  // The rulebook only grows, and what expansion adds are new rules
  // without set sugar that keep the rule's drag flag and text key.

  predicate Added(r: Rule, b: seq<Rule>, i: int)
    requires 0 <= i < |b|
  {
    b[i].isDrag == r.isDrag && b[i].keys == r.keys &&
    !HasSugar(b[i].context) && !HasSugar(b[i].cost) && !HasSugar(b[i].payload) && !HasSugar(b[i].gain) &&
    forall j :: 0 <= j < i ==> !Equals(b[j], b[i])
  }

  predicate Grows(r: Rule, b0: seq<Rule>, b1: seq<Rule>)
  {
    b0 <= b1 && forall i :: |b0| <= i < |b1| ==> Added(r, b1, i)
  }

  lemma GrowsTrans(r: Rule, b0: seq<Rule>, b1: seq<Rule>, b2: seq<Rule>)
    requires Grows(r, b0, b1) && Grows(r, b1, b2)
    ensures Grows(r, b0, b2)
  {
    forall i | |b0| <= i < |b2| ensures Added(r, b2, i) {
      if i < |b1| {
        assert Added(r, b1, i);
        assert forall j :: 0 <= j <= i ==> b2[j] == b1[j];
      }
    }
  }

  /** A fold grows the rulebook when each step does. */
  lemma {:induction false} FoldGrows<T>(r: Rule, xs: seq<T>, book: seq<Rule>, f: (T, seq<Rule>) -> Result<seq<Rule>>)
    requires forall x, b :: x in xs && f(x, b).Ok? ==> Grows(r, b, f(x, b).value)
    ensures Fold(xs, book, f).Ok? ==> Grows(r, book, Fold(xs, book, f).value)
    decreases |xs|
  {
    if xs != [] {
      var init := xs[..|xs| - 1];
      assert forall x :: x in init ==> x in xs;
      FoldGrows(r, init, book, f);
      var b := Fold(init, book, f);
      if b.Ok? && Fold(xs, book, f).Ok? {
        GrowsTrans(r, book, b.value, Fold(xs, book, f).value);
      }
    }
  }

  /** Consuming an iterator grows the rulebook when each step does. */
  lemma ConsumeGrows<T>(r: Rule, xs: Yielded<T>, book: seq<Rule>, f: (T, seq<Rule>) -> Result<seq<Rule>>)
    requires forall x, b :: x in xs.items && f(x, b).Ok? ==> Grows(r, b, f(x, b).value)
    ensures Consume(xs, book, f).Ok? ==> Grows(r, book, Consume(xs, book, f).value)
  {
    FoldGrows(r, xs.items, book, f);
  }

  lemma AddNewGrows(r: Rule, b: seq<Rule>, x: Rule)
    requires x.isDrag == r.isDrag && x.keys == r.keys
    requires !HasSugar(x.context) && !HasSugar(x.cost) && !HasSugar(x.payload) && !HasSugar(x.gain)
    ensures Grows(r, b, AddNew(b, x))
  {
    if !InBook(b, x) {
      assert (b + [x])[|b|] == x;
      assert forall j :: 0 <= j < |b| ==> (b + [x])[j] == b[j];
      assert Added(r, b + [x], |b|);
    }
  }

  lemma ExpandPayloadGrows(r: Rule, m: Tag, c: TagSet, k: TagSet, p: TagSet, book: seq<Rule>, fuel: nat)
    requires !HasSugar(c) && !HasSugar(k) && !HasSugar(p)
    ensures ExpandPayload(r, m, c, k, p, book, fuel).Ok? ==> Grows(r, book, ExpandPayload(r, m, c, k, p, book, fuel).value)
  {
    var gains := PoolChoices(r.gain, ConcatSet(m, c, k), fuel);
    var f := (g: TagSet, b: seq<Rule>) => Ok(AddNew(b, Rule(m, c, k, p, g, r.isDrag, r.keys)));
    forall g, b | g in gains.items && f(g, b).Ok? ensures Grows(r, b, f(g, b).value) {
      AddNewGrows(r, b, Rule(m, c, k, p, g, r.isDrag, r.keys));
    }
    ConsumeGrows(r, gains, book, f);
  }

  lemma ExpandCostGrows(r: Rule, m: Tag, c: TagSet, k: TagSet, book: seq<Rule>, fuel: nat)
    requires !HasSugar(c) && !HasSugar(k)
    ensures ExpandCost(r, m, c, k, book, fuel).Ok? ==> Grows(r, book, ExpandCost(r, m, c, k, book, fuel).value)
  {
    var payloads := PoolChoices(r.payload, ConcatSet(m, c, k), fuel);
    var f := (p: TagSet, b: seq<Rule>) => ExpandPayload(r, m, c, k, p, b, fuel);
    forall p, b | p in payloads.items && f(p, b).Ok? ensures Grows(r, b, f(p, b).value) {
      ExpandPayloadGrows(r, m, c, k, p, b, fuel);
    }
    ConsumeGrows(r, payloads, book, f);
  }

  lemma ExpandContextGrows(r: Rule, s: Stat, m: Tag, c: TagSet, book: seq<Rule>, fuel: nat)
    requires !HasSugar(c)
    ensures ExpandContext(r, s, m, c, book, fuel).Ok? ==> Grows(r, book, ExpandContext(r, s, m, c, book, fuel).value)
  {
    var costs := LocationChoices(r.cost, s.locations, fuel);
    var f := (k: TagSet, b: seq<Rule>) => ExpandCost(r, m, c, k, b, fuel);
    forall k, b | k in costs.items && f(k, b).Ok? ensures Grows(r, b, f(k, b).value) {
      ExpandCostGrows(r, m, c, k, b, fuel);
    }
    ConsumeGrows(r, costs, book, f);
  }

  lemma ExpandMatchGrows(r: Rule, s: Stat, m: Tag, book: seq<Rule>, fuel: nat)
    ensures ExpandMatch(r, s, m, book, fuel).Ok? ==> Grows(r, book, ExpandMatch(r, s, m, book, fuel).value)
  {
    var contexts := LocationChoices(r.context, s.locations, fuel);
    var f := (c: TagSet, b: seq<Rule>) => ExpandContext(r, s, m, c, b, fuel);
    forall c, b | c in contexts.items && f(c, b).Ok? ensures Grows(r, b, f(c, b).value) {
      ExpandContextGrows(r, s, m, c, b, fuel);
    }
    ConsumeGrows(r, contexts, book, f);
  }

  /**
   * `ResolveSyntax` only appends to the rulebook: a rule without sugar is
   * appended as it is, even when an equal rule is present; an expanded rule
   * is appended only when no equal rule precedes it, has no set sugar left,
   * and keeps the drag flag and text key of the rule it came from.
   */
  lemma ExpandRuleMeaning(r: Rule, s: Stat, book: seq<Rule>, fuel: nat)
    ensures !RuleHasSugar(r) ==> ExpandRule(r, s, book, fuel) == Ok(book + [r])
    ensures RuleHasSugar(r) && ExpandRule(r, s, book, fuel).Ok? ==> Grows(r, book, ExpandRule(r, s, book, fuel).value)
  {
    if RuleHasSugar(r) {
      var matches := MatchChoices(r.matchTag, s.locations);
      var f := (m: Tag, b: seq<Rule>) => ExpandMatch(r, s, m, b, fuel);
      forall m, b | m in matches.items && f(m, b).Ok? ensures Grows(r, b, f(m, b).value) {
        ExpandMatchGrows(r, s, m, b, fuel);
      }
      ConsumeGrows(r, matches, book, f);
    }
  }

  lemma FoldNext<T>(xs: seq<T>, k: nat, book: seq<Rule>, f: (T, seq<Rule>) -> Result<seq<Rule>>)
    requires k < |xs|
    ensures Fold(xs[..k + 1], book, f) ==
      match Fold(xs[..k], book, f)
      case Err(e) => Err(e)
      case Ok(b) => f(xs[k], b)
  {
    assert xs[..k + 1][..k] == xs[..k];
  }

  /** An error in a prefix is the error of the whole fold. */
  lemma {:induction false} FoldStops<T>(xs: seq<T>, k: nat, book: seq<Rule>, f: (T, seq<Rule>) -> Result<seq<Rule>>)
    requires k <= |xs| && Fold(xs[..k], book, f).Err?
    ensures Fold(xs, book, f) == Fold(xs[..k], book, f)
    decreases |xs| - k
  {
    if k < |xs| {
      FoldNext(xs, k, book, f);
      FoldStops(xs, k + 1, book, f);
    } else {
      assert xs[..k] == xs;
    }
  }

  /**
   * Items are consumed as they are yielded: when consuming the first one
   * fails, that failure is the outcome, whatever the iterator would have
   * done afterwards.
   */
  lemma ConsumeFirst<T>(xs: Yielded<T>, book: seq<Rule>, f: (T, seq<Rule>) -> Result<seq<Rule>>)
    requires xs.items != [] && f(xs.items[0], book).Err?
    ensures Consume(xs, book, f) == f(xs.items[0], book)
  {
    FoldNext(xs.items, 0, book, f);
    assert xs.items[..0] == [];
    FoldStops(xs.items, 1, book, f);
  }

  /** The match choices of the first location come first, before any later location is resolved. */
  lemma {:induction false} MatchFirstLocation(m: Tag, locs: seq<(String, TagSet)>)
    requires |locs| >= 1
    ensures ResolveTag(m, locs[0].1).items <= MatchPerLocation(m, locs).items
    decreases |locs|
  {
    var front := locs[..|locs| - 1];
    if |locs| == 1 {
      assert MatchPerLocation(m, front) == Yielded([], None);
      assert [] + ResolveTag(m, locs[0].1).items == ResolveTag(m, locs[0].1).items;
    } else {
      MatchFirstLocation(m, front);
      assert front[0] == locs[0];
    }
  }

  /**
   * Rule expansion is depth first: when expanding the first match choice
   * of the first location fails (an exception, or a set resolution that
   * does not end), that is the outcome, however the match tag would have
   * resolved at the later locations.
   */
  lemma FirstMatchDecides(r: Rule, s: Stat, book: seq<Rule>, fuel: nat)
    requires ContainsSugar(r.matchTag) && |s.locations| >= 1
    requires ResolveTag(r.matchTag, s.locations[0].1).items != []
    requires ExpandMatch(r, s, ResolveTag(r.matchTag, s.locations[0].1).items[0], book, fuel).Err?
    ensures ExpandRule(r, s, book, fuel) == ExpandMatch(r, s, ResolveTag(r.matchTag, s.locations[0].1).items[0], book, fuel)
  {
    var matches := MatchChoices(r.matchTag, s.locations);
    MatchFirstLocation(r.matchTag, s.locations);
    assert matches.items[0] == ResolveTag(r.matchTag, s.locations[0].1).items[0];
    ConsumeFirst(matches, book, (m: Tag, b: seq<Rule>) => ExpandMatch(r, s, m, b, fuel));
  }

  method ResolvePayloadSyntax(r: Rule, m: Tag, c: TagSet, k: TagSet, p: TagSet, book: seq<Rule>, fuel: nat)
    returns (res: Result<seq<Rule>>)
    ensures res == ExpandPayload(r, m, c, k, p, book, fuel)
  {
    var gains := PoolChoices(r.gain, ConcatSet(m, c, k), fuel);
    var b := AddGains(r, m, c, k, p, gains.items, book);
    if gains.stop.Some? {
      return Err(gains.stop.value);
    }
    res := Ok(b);
  }

  /** One rule per gain choice, each added to the book unless already there. */
  method AddGains(r: Rule, m: Tag, c: TagSet, k: TagSet, p: TagSet, xs: seq<TagSet>, book: seq<Rule>)
    returns (b: seq<Rule>)
    ensures Fold(xs, book, (g: TagSet, b: seq<Rule>) => Ok(AddNew(b, Rule(m, c, k, p, g, r.isDrag, r.keys)))) == Ok(b)
  {
    var f := (g: TagSet, b: seq<Rule>) => Ok(AddNew(b, Rule(m, c, k, p, g, r.isDrag, r.keys)));
    b := book;
    var i := 0;
    while i < |xs|
      invariant 0 <= i <= |xs|
      invariant Fold(xs[..i], book, f) == Ok(b)
    {
      FoldNext(xs, i, book, f);
      var x := Rule(m, c, k, p, xs[i], r.isDrag, r.keys);
      ghost var after := AddNew(b, x);
      assert Fold(xs[..i + 1], book, f) == Ok(after);
      if !InBook(b, x) {
        b := b + [x];
      }
      assert b == after;
      i := i + 1;
    }
    assert xs[..i] == xs;
  }

  method ResolveCostSyntax(r: Rule, m: Tag, c: TagSet, k: TagSet, book: seq<Rule>, fuel: nat)
    returns (res: Result<seq<Rule>>)
    ensures res == ExpandCost(r, m, c, k, book, fuel)
  {
    var payloads := PoolChoices(r.payload, ConcatSet(m, c, k), fuel);
    var f := (p: TagSet, b: seq<Rule>) => ExpandPayload(r, m, c, k, p, b, fuel);
    var xs := payloads.items;
    var b := book;
    var i := 0;
    while i < |xs|
      invariant 0 <= i <= |xs|
      invariant Fold(xs[..i], book, f) == Ok(b)
    {
      FoldNext(xs, i, book, f);
      var next := ResolvePayloadSyntax(r, m, c, k, xs[i], b, fuel);
      if next.Err? {
        FoldStops(xs, i + 1, book, f);
        return next;
      }
      b := next.value;
      i := i + 1;
    }
    assert xs[..i] == xs;
    if payloads.stop.Some? {
      return Err(payloads.stop.value);
    }
    res := Ok(b);
  }

  method ResolveContextSyntax(r: Rule, s: Stat, m: Tag, c: TagSet, book: seq<Rule>, fuel: nat)
    returns (res: Result<seq<Rule>>)
    ensures res == ExpandContext(r, s, m, c, book, fuel)
  {
    var costs := LocationChoices(r.cost, s.locations, fuel);
    var f := (k: TagSet, b: seq<Rule>) => ExpandCost(r, m, c, k, b, fuel);
    var xs := costs.items;
    var b := book;
    var i := 0;
    while i < |xs|
      invariant 0 <= i <= |xs|
      invariant Fold(xs[..i], book, f) == Ok(b)
    {
      FoldNext(xs, i, book, f);
      var next := ResolveCostSyntax(r, m, c, xs[i], b, fuel);
      if next.Err? {
        FoldStops(xs, i + 1, book, f);
        return next;
      }
      b := next.value;
      i := i + 1;
    }
    assert xs[..i] == xs;
    if costs.stop.Some? {
      return Err(costs.stop.value);
    }
    res := Ok(b);
  }

  method ResolveMatchSyntax(r: Rule, s: Stat, m: Tag, book: seq<Rule>, fuel: nat)
    returns (res: Result<seq<Rule>>)
    ensures res == ExpandMatch(r, s, m, book, fuel)
  {
    var contexts := LocationChoices(r.context, s.locations, fuel);
    var f := (c: TagSet, b: seq<Rule>) => ExpandContext(r, s, m, c, b, fuel);
    var xs := contexts.items;
    var b := book;
    var i := 0;
    while i < |xs|
      invariant 0 <= i <= |xs|
      invariant Fold(xs[..i], book, f) == Ok(b)
    {
      FoldNext(xs, i, book, f);
      var next := ResolveContextSyntax(r, s, m, xs[i], b, fuel);
      if next.Err? {
        FoldStops(xs, i + 1, book, f);
        return next;
      }
      b := next.value;
      i := i + 1;
    }
    assert xs[..i] == xs;
    if contexts.stop.Some? {
      return Err(contexts.stop.value);
    }
    res := Ok(b);
  }

  /** `ResolveSyntax`, appending to the rulebook it is given and returning it. */
  method ResolveRuleSyntax(r: Rule, s: Stat, book: seq<Rule>, fuel: nat) returns (res: Result<seq<Rule>>)
    ensures res == ExpandRule(r, s, book, fuel)
  {
    if !RuleHasSugar(r) {
      return Ok(book + [r]);
    }
    var matches := MatchChoices(r.matchTag, s.locations);
    var f := (m: Tag, b: seq<Rule>) => ExpandMatch(r, s, m, b, fuel);
    var xs := matches.items;
    var b := book;
    var i := 0;
    while i < |xs|
      invariant 0 <= i <= |xs|
      invariant Fold(xs[..i], book, f) == Ok(b)
    {
      FoldNext(xs, i, book, f);
      var next := ResolveMatchSyntax(r, s, xs[i], b, fuel);
      if next.Err? {
        FoldStops(xs, i + 1, book, f);
        return next;
      }
      b := next.value;
      i := i + 1;
    }
    assert xs[..i] == xs;
    if matches.stop.Some? {
      return Err(matches.stop.value);
    }
    res := Ok(b);
  }
}
