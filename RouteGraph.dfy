// The dialogue-route graph a compiled route span becomes (`BuildRoute`,
// `BuildDeadEnds`, `FilterRoute` and `FilterDeadEnds` of the script
// builder): from the route lines of one span, in order, a root node whose
// stitches are the depth-0 choices, a node per odd-depth line, and a node
// per choice that has no follow-up of its own.

module RouteGraph {
  import opened Base
  import opened Str
  import opened TagSets
  import opened Stats
  import opened Rules
  import opened Stitches
  import opened TextDatas
  import opened Routes

  /** What the compiler records for a source line (the values of its `parts` dictionary). */
  datatype Part =
    | StatPart(stat: Stat)
    | RulePart(rule: Rule)
    | TextPart(text: TextData)
    | CommentPart(comment: String)
    | NodePart(node: RouteStruct)

  type Parts = map<int, Part>

  /** `m2` holds every entry of `m`, unchanged. */
  ghost predicate Grows<K, V>(m: map<K, V>, m2: map<K, V>)
  {
    forall k :: k in m ==> k in m2 && m2[k] == m[k]
  }

  /** A route bank: nodes by key. */
  type Bank = map<String, RouteStruct>

  // ---------------------------------------------------------------------
  // FilterRoute and FilterDeadEnds

  /** Entry `i` is a line, not a dead end, at exactly `depth`. */
  predicate Listed(rs: seq<RouteData>, i: int, depth: int)
  {
    0 <= i < |rs| && !rs[i].deadEnd && rs[i].depth == depth
  }

  /** No entry from `start` up to `i` (excluded) is shallower than `depth`. */
  predicate Unbroken(rs: seq<RouteData>, start: int, i: int, depth: int)
  {
    forall j :: start <= j < i && 0 <= j < |rs| ==> rs[j].depth >= depth
  }

  /** The indices `FilterRoute` collects. */
  function Filtered(start: nat, depth: int, rs: seq<RouteData>): (r: seq<int>)
    ensures forall k :: 0 <= k < |r| ==> start <= r[k] < |rs|
    decreases |rs| - start
  {
    if start >= |rs| then []
    else if !rs[start].deadEnd && rs[start].depth == depth then [start] + Filtered(start + 1, depth, rs)
    else if rs[start].depth < depth then []
    else Filtered(start + 1, depth, rs)
  }

  /**
   * `FilterRoute` collects an index exactly when it is at `start` or after,
   * holds a line (not a dead end) at exactly `depth`, and no entry from
   * `start` up to it is shallower.
   */
  lemma {:induction false} FilteredMeaning(start: nat, depth: int, rs: seq<RouteData>, i: int)
    ensures i in Filtered(start, depth, rs) <==> start <= i && Listed(rs, i, depth) && Unbroken(rs, start, i, depth)
    decreases |rs| - start
  {
    if start < |rs| {
      FilteredMeaning(start + 1, depth, rs, i);
      if !rs[start].deadEnd && rs[start].depth == depth {
        assert Filtered(start, depth, rs) == [start] + Filtered(start + 1, depth, rs);
      } else if rs[start].depth < depth {
        assert !Unbroken(rs, start, i, depth) || i <= start;
      }
    }
  }

  /** Strictly increasing. */
  predicate Increasing(s: seq<int>)
  {
    forall a, b :: 0 <= a < b < |s| ==> s[a] < s[b]
  }

  /** The collected indices are strictly increasing. */
  lemma {:induction false} FilteredIncreasing(start: nat, depth: int, rs: seq<RouteData>)
    ensures Increasing(Filtered(start, depth, rs))
    decreases |rs| - start
  {
    if start < |rs| {
      FilteredIncreasing(start + 1, depth, rs);
      var rest := Filtered(start + 1, depth, rs);
      if !rs[start].deadEnd && rs[start].depth == depth {
        var r := [start] + rest;
        assert r == Filtered(start, depth, rs);
        forall a, b | 0 <= a < b < |r|
          ensures r[a] < r[b]
        {
          assert r[b] == rest[b - 1] >= start + 1;
          if a > 0 {
            assert r[a] == rest[a - 1] < rest[b - 1];
          } else {
            assert r[a] == start;
          }
        }
      }
    }
  }

  /** `FilterRoute`: the loop, which stops at the first shallower entry. */
  method FilterRoute(inStart: nat, inDepth: int, inRoutes: seq<RouteData>) returns (result: seq<int>)
    ensures result == Filtered(inStart, inDepth, inRoutes)
  {
    result := [];
    var i := inStart;
    while i < |inRoutes|
      invariant inStart <= i
      invariant result + Filtered(i, inDepth, inRoutes) == Filtered(inStart, inDepth, inRoutes)
      decreases |inRoutes| - i
    {
      var route := inRoutes[i];
      if !route.deadEnd && route.depth == inDepth {
        assert result + [i] + Filtered(i + 1, inDepth, inRoutes) == result + ([i] + Filtered(i + 1, inDepth, inRoutes));
        result := result + [i];
      } else if route.depth < inDepth {
        assert result + [] == result;
        return;
      }
      i := i + 1;
    }
    assert result + [] == result;
  }

  /** `FilterDeadEnds`: the entry at `index`, when it is a dead end at `depth`. */
  function FilterDeadEnds(index: nat, depth: int, rs: seq<RouteData>): (r: Option<RouteData>)
    ensures r.Some? <==> index < |rs| && rs[index].deadEnd && rs[index].depth == depth
    ensures r.Some? ==> r.value == rs[index]
  {
    if index < |rs| && rs[index].deadEnd && rs[index].depth == depth then Some(rs[index]) else None
  }

  /** An entry `FilterRoute` collects is never one `FilterDeadEnds` returns. */
  lemma ListedNotDeadEnd(start: nat, depth: int, rs: seq<RouteData>, i: nat, d: int)
    requires i in Filtered(start, depth, rs)
    ensures FilterDeadEnds(i, d, rs).None?
  {
    FilteredMeaning(start, depth, rs, i);
  }

  // ---------------------------------------------------------------------
  // BuildDeadEnds

  /** The node a childless choice becomes: the dead end's keys then its own, and the dead end's goto. */
  function DeadEndNode(route: RouteData, ends: Option<RouteData>, gotoName: Option<String>): RouteStruct
  {
    RouteStruct((if ends.Some? then ends.value.keys else []) + route.keys, [], gotoName)
  }

  /**
   * `BuildDeadEnds` for the choice `route` whose follow-up starts at
   * `bankIndex`: when no line one level deeper follows, the choice becomes
   * a pending node (with the dead end right after it, if any, lending its
   * payload and gain to the stitch, its keys and its goto) and the answer
   * is true; otherwise nothing changes and the answer is false. A dead end
   * with no goto and a name already pending throw.
   */
  function DeadEnds(bankIndex: nat, rs: seq<RouteData>, route: RouteData, stitch: Stitch, pending: Bank)
    : (r: Result<(bool, Stitch, Bank)>)
    ensures r.Ok? && !r.value.0 ==> r.value.1 == stitch && r.value.2 == pending
    ensures r.Ok? && r.value.0 ==>
      (Filtered(bankIndex, route.depth + 1, rs) == [] && route.name !in pending && route.name in r.value.2 &&
       r.value.2 == pending[route.name := r.value.2[route.name]] && r.value.2[route.name].flow == [])
    ensures r.Ok? && r.value.0 ==>
      var ends := FilterDeadEnds(bankIndex, route.depth, rs);
      var node := r.value.2[route.name];
      (ends.None? ==> node == RouteStruct(route.keys, [], None) && r.value.1 == stitch) &&
      (ends.Some? ==>
        (node.text == ends.value.keys + route.keys && node.goto == ends.value.gotoName &&
         r.value.1 == stitch.(payload := ends.value.contextOrPayload, gain := ends.value.costOrGain)))
    ensures r.Err? ==>
      Filtered(bankIndex, route.depth + 1, rs) == [] &&
      ((FilterDeadEnds(bankIndex, route.depth, rs).Some? && FilterDeadEnds(bankIndex, route.depth, rs).value.gotoName.None?) ||
       route.name in pending)
  {
    if Filtered(bankIndex, route.depth + 1, rs) != [] then Ok((false, stitch, pending))
    else
      var ends := FilterDeadEnds(bankIndex, route.depth, rs);
      if ends.Some? && ends.value.Goto().Err? then Err(ends.value.Goto().error)
      else if route.name in pending then Err(Runtime(DuplicateEntry))
      else
        var stitch1 := if ends.Some? then stitch.(payload := ends.value.contextOrPayload, gain := ends.value.costOrGain) else stitch;
        var gotoName := if ends.Some? then Some(ends.value.Goto().value) else None;
        Ok((true, stitch1, pending[route.name := DeadEndNode(route, ends, gotoName)]))
  }

  /** `BuildDeadEnds`. */
  method BuildDeadEnds(bankIndex: nat, bankValues: seq<RouteData>, route: RouteData, stitch: Stitch, pending: Bank)
    returns (r: Result<(bool, Stitch, Bank)>)
    ensures r == DeadEnds(bankIndex, bankValues, route, stitch, pending)
  {
    var flowIndexes := FilterRoute(bankIndex, route.depth + 1, bankValues);
    if |flowIndexes| == 0 {
      var deadKeys: seq<String> := [];
      var flowEnds := FilterDeadEnds(bankIndex, route.depth, bankValues);
      var stitch1 := stitch;
      if flowEnds.Some? {
        deadKeys := deadKeys + flowEnds.value.keys;
        stitch1 := stitch1.(payload := flowEnds.value.contextOrPayload, gain := flowEnds.value.costOrGain);
      }
      deadKeys := deadKeys + route.keys;
      assert deadKeys == (if flowEnds.Some? then flowEnds.value.keys else []) + route.keys;
      var deadEnds := RouteStruct(deadKeys, [], None);
      if flowEnds.Some? {
        var gotoName := flowEnds.value.Goto();
        if gotoName.Err? {
          return Err(gotoName.error);
        }
        deadEnds := deadEnds.(goto := Some(gotoName.value));
      }
      if route.name in pending {
        return Err(Runtime(DuplicateEntry));
      }
      return Ok((true, stitch1, pending[route.name := deadEnds]));
    }
    return Ok((false, stitch, pending));
  }

  // ---------------------------------------------------------------------
  // The stitches of a node

  /** The stitch of choice `c` before its follow-up is known: its short key to its name, with its context and cost. */
  function ChoiceStitch(c: RouteData): Stitch
  {
    NewStitch(c.ShortKey(), c.name).(context := c.contextOrPayload, cost := c.costOrGain)
  }

  /**
   * The stitch of the choice at `j` and what it adds: a childless choice
   * becomes a pending node recorded as the part of its own line; a choice
   * with follow-up lines takes the payload and gain of a same-depth dead
   * end two entries later.
   */
  function FlowStep(rs: seq<RouteData>, j: nat, pending: Bank, parts: Parts, base: int)
    : (r: Result<(Stitch, Bank, Parts)>)
    requires j < |rs|
    ensures r.Ok? ==> Grows(pending, r.value.1) && Grows(parts, r.value.2)
    ensures r.Ok? ==>
      (r.value.0.choice == rs[j].ShortKey() && r.value.0.next == rs[j].name &&
       r.value.0.context == rs[j].contextOrPayload && r.value.0.cost == rs[j].costOrGain)
    ensures r.Ok? && Filtered(j + 1, rs[j].depth + 1, rs) == [] ==>
      (rs[j].name in r.value.1 && base + j in r.value.2 && r.value.2[base + j] == NodePart(r.value.1[rs[j].name]))
    ensures r.Ok? && Filtered(j + 1, rs[j].depth + 1, rs) != [] ==>
      (r.value.1 == pending && r.value.2 == parts &&
       var ends := FilterDeadEnds(j + 2, rs[j].depth, rs);
       (ends.Some? ==> r.value.0.payload == ends.value.contextOrPayload && r.value.0.gain == ends.value.costOrGain) &&
       (ends.None? ==> r.value.0 == ChoiceStitch(rs[j])))
  {
    var c := rs[j];
    var stitch := ChoiceStitch(c);
    match DeadEnds(j + 1, rs, c, stitch, pending)
    case Err(e) => Err(e)
    case Ok((added, stitch1, pending1)) =>
      if added then
        if base + j in parts then Err(Runtime(DuplicateEntry))
        else Ok((stitch1, pending1, parts[base + j := NodePart(pending1[c.name])]))
      else
        var ends := FilterDeadEnds(j + 2, c.depth, rs);
        if ends.Some? then Ok((stitch.(payload := ends.value.contextOrPayload, gain := ends.value.costOrGain), pending1, parts))
        else Ok((stitch, pending1, parts))
  }

  /** Every index lies inside the entries. */
  predicate Indices(rs: seq<RouteData>, idxs: seq<int>)
  {
    forall k :: 0 <= k < |idxs| ==> 0 <= idxs[k] < |rs|
  }

  /** The stitches of the choices at `idxs`, in order, and what they add. */
  function Flow(rs: seq<RouteData>, idxs: seq<int>, pending: Bank, parts: Parts, base: int)
    : (r: Result<(seq<Stitch>, Bank, Parts)>)
    requires Indices(rs, idxs)
    ensures r.Ok? ==> |r.value.0| == |idxs|
    decreases |idxs|
  {
    if idxs == [] then Ok(([], pending, parts))
    else
      var n := |idxs| - 1;
      var prev := Flow(rs, idxs[..n], pending, parts, base);
      if prev.Err? then prev
      else
        match FlowStep(rs, idxs[n], prev.value.1, prev.value.2, base)
        case Err(e) => Err(e)
        case Ok((stitch, p, q)) => Ok((prev.value.0 + [stitch], p, q))
  }

  /** The choice at `idxs[k]` offers the `k`-th stitch; a childless one is a pending node. */
  ghost predicate FlowShaped(rs: seq<RouteData>, idxs: seq<int>, flow: seq<Stitch>, pending: Bank)
    requires Indices(rs, idxs)
  {
    |flow| == |idxs| &&
    (forall k :: 0 <= k < |idxs| ==> flow[k].choice == rs[idxs[k]].ShortKey() && flow[k].next == rs[idxs[k]].name) &&
    (forall k :: 0 <= k < |idxs| && Filtered(idxs[k] + 1, rs[idxs[k]].depth + 1, rs) == [] ==> rs[idxs[k]].name in pending)
  }

  /**
   * The stitches follow the choices one for one, every childless choice
   * is left pending, and the pending nodes and the parts only grow.
   */
  lemma {:induction false} FlowShape(rs: seq<RouteData>, idxs: seq<int>, pending: Bank, parts: Parts, base: int)
    requires Indices(rs, idxs)
    requires Flow(rs, idxs, pending, parts, base).Ok?
    ensures var (flow, p, q) := Flow(rs, idxs, pending, parts, base).value;
      FlowShaped(rs, idxs, flow, p) && Grows(pending, p) && Grows(parts, q)
    decreases |idxs|
  {
    if idxs != [] {
      var n := |idxs| - 1;
      assert Indices(rs, idxs[..n]);
      FlowShape(rs, idxs[..n], pending, parts, base);
      var (flow0, p0, q0) := Flow(rs, idxs[..n], pending, parts, base).value;
      var (stitch, p, q) := FlowStep(rs, idxs[n], p0, q0, base).value;
      assert Flow(rs, idxs, pending, parts, base).value == (flow0 + [stitch], p, q);
      FlowShapedNext(rs, idxs, flow0, p0, stitch, p);
    }
  }

  /** One more choice keeps the shape. */
  lemma FlowShapedNext(rs: seq<RouteData>, idxs: seq<int>, flow: seq<Stitch>, pending: Bank, stitch: Stitch, pending1: Bank)
    requires Indices(rs, idxs) && |idxs| > 0
    requires Indices(rs, idxs[..|idxs| - 1]) && FlowShaped(rs, idxs[..|idxs| - 1], flow, pending)
    requires Grows(pending, pending1)
    requires stitch.choice == rs[idxs[|idxs| - 1]].ShortKey() && stitch.next == rs[idxs[|idxs| - 1]].name
    requires Filtered(idxs[|idxs| - 1] + 1, rs[idxs[|idxs| - 1]].depth + 1, rs) == [] ==> rs[idxs[|idxs| - 1]].name in pending1
    ensures FlowShaped(rs, idxs, flow + [stitch], pending1)
  {
    var n := |idxs| - 1;
    forall k | 0 <= k < n
      ensures (flow + [stitch])[k] == flow[k] && idxs[..n][k] == idxs[k]
    {
    }
  }

  /** One more index: the fold takes one more step. */
  lemma FlowNext(rs: seq<RouteData>, idxs: seq<int>, i: nat, pending: Bank, parts: Parts, base: int)
    requires Indices(rs, idxs) && i < |idxs|
    ensures Indices(rs, idxs[..i]) && Indices(rs, idxs[..i + 1])
    ensures var prev := Flow(rs, idxs[..i], pending, parts, base);
      Flow(rs, idxs[..i + 1], pending, parts, base) ==
        if prev.Err? then prev
        else match FlowStep(rs, idxs[i], prev.value.1, prev.value.2, base)
          case Err(e) => Err(e)
          case Ok((stitch, p, q)) => Ok((prev.value.0 + [stitch], p, q))
  {
    assert idxs[..i + 1][..i] == idxs[..i];
  }

  /** `FlowNext` after a successful prefix: the next stitch is appended, or its error is the outcome. */
  lemma FlowAdds(rs: seq<RouteData>, idxs: seq<int>, i: nat, pending: Bank, parts: Parts, base: int,
                 flow: seq<Stitch>, p: Bank, q: Parts)
    requires Indices(rs, idxs) && i < |idxs|
    requires Indices(rs, idxs[..i]) && Flow(rs, idxs[..i], pending, parts, base) == Ok((flow, p, q))
    ensures Indices(rs, idxs[..i + 1])
    ensures var step := FlowStep(rs, idxs[i], p, q, base);
      Flow(rs, idxs[..i + 1], pending, parts, base) ==
        if step.Err? then Err(step.error) else Ok((flow + [step.value.0], step.value.1, step.value.2))
  {
    FlowNext(rs, idxs, i, pending, parts, base);
  }

  /** Once the fold fails, it fails with that error to the end. */
  lemma {:induction false} FlowStops(rs: seq<RouteData>, idxs: seq<int>, i: nat, pending: Bank, parts: Parts, base: int)
    requires Indices(rs, idxs) && i <= |idxs|
    ensures Indices(rs, idxs[..i])
    ensures Flow(rs, idxs[..i], pending, parts, base).Err? ==>
      Flow(rs, idxs, pending, parts, base) == Flow(rs, idxs[..i], pending, parts, base)
    decreases |idxs| - i
  {
    if i < |idxs| {
      FlowNext(rs, idxs, i, pending, parts, base);
      FlowStops(rs, idxs, i + 1, pending, parts, base);
    } else {
      assert idxs[..i] == idxs;
    }
  }

  /** The loop over the choices of a node (`foreach (int bankIndex in bankIndexes)`). */
  method BuildFlow(rs: seq<RouteData>, idxs: seq<int>, pending: Bank, parts: Parts, base: int)
    returns (r: Result<(seq<Stitch>, Bank, Parts)>)
    requires Indices(rs, idxs)
    ensures r == Flow(rs, idxs, pending, parts, base)
  {
    var flow: seq<Stitch> := [];
    var pend, ps := pending, parts;
    for i := 0 to |idxs|
      invariant Indices(rs, idxs[..i])
      invariant Flow(rs, idxs[..i], pending, parts, base) == Ok((flow, pend, ps))
    {
      var step := AddStitch(rs, idxs[i], pend, ps, base);
      FlowAdds(rs, idxs, i, pending, parts, base, flow, pend, ps);
      if step.Err? {
        FlowStops(rs, idxs, i + 1, pending, parts, base);
        return Err(step.error);
      }
      flow := flow + [step.value.0];
      pend, ps := step.value.1, step.value.2;
    }
    assert idxs[..|idxs|] == idxs;
    return Ok((flow, pend, ps));
  }

  /** The body of that loop: the stitch of one choice. */
  method AddStitch(rs: seq<RouteData>, bankIndex: nat, pending: Bank, parts: Parts, base: int)
    returns (r: Result<(Stitch, Bank, Parts)>)
    requires bankIndex < |rs|
    ensures r == FlowStep(rs, bankIndex, pending, parts, base)
  {
    var flowCursor := rs[bankIndex];
    var flowStitch := ChoiceStitch(flowCursor);
    var built := BuildDeadEnds(bankIndex + 1, rs, flowCursor, flowStitch, pending);
    if built.Err? {
      return Err(built.error);
    }
    var (added, stitch1, pending1) := built.value;
    if added {
      if base + bankIndex in parts {
        return Err(Runtime(DuplicateEntry));
      }
      return Ok((stitch1, pending1, parts[base + bankIndex := NodePart(pending1[flowCursor.name])]));
    }
    var flowEnds := FilterDeadEnds(bankIndex + 2, flowCursor.depth, rs);
    if flowEnds.Some? {
      flowStitch := flowStitch.(payload := flowEnds.value.contextOrPayload, gain := flowEnds.value.costOrGain);
    }
    return Ok((flowStitch, pending1, parts));
  }

  // ---------------------------------------------------------------------
  // The nodes of odd-depth lines

  /** A node's contents before it is banked: its text, flow and goto, the pending nodes and the parts. */
  function NodeBody(rs: seq<RouteData>, i: nat, keys: seq<String>, pending: Bank, parts: Parts, base: int)
    : (r: Result<(RouteStruct, Bank, Parts)>)
    requires i < |rs|
    ensures r.Ok? ==> r.value.0.text == keys
    ensures r.Ok? && Filtered(i + 1, rs[i].depth + 1, rs) == [] ==>
      (r.value.0.flow == [] && r.value.1 == pending && r.value.2 == parts &&
       r.value.0.goto == (if FilterDeadEnds(i + 1, rs[i].depth - 1, rs).Some? then FilterDeadEnds(i + 1, rs[i].depth - 1, rs).value.gotoName else None))
    ensures r.Ok? && Filtered(i + 1, rs[i].depth + 1, rs) != [] ==>
      (r.value.0.goto == None && Indices(rs, Filtered(i + 1, rs[i].depth + 1, rs)) &&
       Flow(rs, Filtered(i + 1, rs[i].depth + 1, rs), pending, parts, base) == Ok((r.value.0.flow, r.value.1, r.value.2)))
  {
    var c := rs[i];
    var idxs := Filtered(i + 1, c.depth + 1, rs);
    if idxs == [] then
      var ends := FilterDeadEnds(i + 1, c.depth - 1, rs);
      if ends.None? then Ok((RouteStruct(keys, [], None), pending, parts))
      else if ends.value.Goto().Err? then Err(ends.value.Goto().error)
      else Ok((RouteStruct(keys, [], Some(ends.value.Goto().value)), pending, parts))
    else
      match Flow(rs, idxs, pending, parts, base)
      case Err(e) => Err(e)
      case Ok((flow, p, q)) => Ok((RouteStruct(keys, flow, None), p, q))
  }

  /**
   * Entry `i` of the node loop: a choice line is skipped; any other line
   * must be named with a final `-0`, and becomes the node keyed by its name
   * without it, showing its own keys then that key; the root node is then
   * recorded as the part of the line before it.
   */
  function NodeStep(rs: seq<RouteData>, i: nat, bank: Bank, pending: Bank, parts: Parts, base: int, root: RouteStruct)
    : (r: Result<(Bank, Bank, Parts)>)
    requires i < |rs|
  {
    var c := rs[i];
    if c.IsChoiceLine() then Ok((bank, pending, parts))
    else if !EndsWith(c.name, "-0") then Err(Contextual(SyntaxError, RouteContext))
    else
      var routeName := c.name[..|c.name| - 2];
      match NodeBody(rs, i, c.keys + [routeName], pending, parts, base)
      case Err(e) => Err(e)
      case Ok((node, p, q)) =>
        if routeName in bank then Err(Runtime(DuplicateEntry))
        else if base + i - 1 in q then Err(Runtime(DuplicateEntry))
        else Ok((bank[routeName := node], p, q[base + i - 1 := NodePart(root)]))
  }

  /** The key of the node a line named with a final `-0` becomes: its name without it. */
  function NodeKey(c: RouteData): (r: String)
    requires EndsWith(c.name, "-0")
    ensures r + "-0" == c.name
  {
    c.name[..|c.name| - 2]
  }

  /** Entry `i` is banked: as the node keyed by its name without `-0`, showing its keys then that key. */
  ghost predicate NodeBanked(rs: seq<RouteData>, i: nat, bank: Bank)
    requires i < |rs|
  {
    EndsWith(rs[i].name, "-0") && NodeKey(rs[i]) in bank && bank[NodeKey(rs[i])].text == rs[i].keys + [NodeKey(rs[i])]
  }

  /** What one entry of the node loop adds: nothing for a choice line, else its node and the root part before it. */
  lemma NodeStepMeaning(rs: seq<RouteData>, i: nat, bank: Bank, pending: Bank, parts: Parts, base: int, root: RouteStruct)
    requires i < |rs|
    requires NodeStep(rs, i, bank, pending, parts, base, root).Ok?
    ensures var (b, p, q) := NodeStep(rs, i, bank, pending, parts, base, root).value;
      Grows(bank, b) && Grows(pending, p) && Grows(parts, q) &&
      (rs[i].IsChoiceLine() ==> (b, p, q) == (bank, pending, parts)) &&
      (!rs[i].IsChoiceLine() ==>
        NodeBanked(rs, i, b) && NodeKey(rs[i]) !in bank && base + i - 1 in q && q[base + i - 1] == NodePart(root))
  {
    var c := rs[i];
    if !c.IsChoiceLine() {
      var key := c.name[..|c.name| - 2];
      NodeBodyGrows(rs, i, c.keys + [key], pending, parts, base);
      var (node, p, q) := NodeBody(rs, i, c.keys + [key], pending, parts, base).value;
      assert NodeStep(rs, i, bank, pending, parts, base, root).value == (bank[key := node], p, q[base + i - 1 := NodePart(root)]);
    }
  }

  /** A node's body keeps every pending node and every part it is given. */
  lemma NodeBodyGrows(rs: seq<RouteData>, i: nat, keys: seq<String>, pending: Bank, parts: Parts, base: int)
    requires i < |rs| && NodeBody(rs, i, keys, pending, parts, base).Ok?
    ensures var (_, p, q) := NodeBody(rs, i, keys, pending, parts, base).value;
      Grows(pending, p) && Grows(parts, q)
  {
    var idxs := Filtered(i + 1, rs[i].depth + 1, rs);
    if idxs != [] {
      FlowShape(rs, idxs, pending, parts, base);
    }
  }

  /** The node loop over entries 1 up to `upto` (excluded). */
  function Nodes(rs: seq<RouteData>, upto: nat, bank: Bank, pending: Bank, parts: Parts, base: int, root: RouteStruct)
    : (r: Result<(Bank, Bank, Parts)>)
    requires upto <= |rs|
    decreases upto
  {
    if upto <= 1 then Ok((bank, pending, parts))
    else
      var i := upto - 1;
      var prev := Nodes(rs, i, bank, pending, parts, base, root);
      if prev.Err? then prev
      else NodeStep(rs, i, prev.value.0, prev.value.1, prev.value.2, base, root)
  }

  /** Once the node loop fails, it fails with that error to the end. */
  lemma {:induction false} NodesStops(rs: seq<RouteData>, i: nat, upto: nat, bank: Bank, pending: Bank, parts: Parts, base: int, root: RouteStruct)
    requires i <= upto <= |rs|
    ensures Nodes(rs, i, bank, pending, parts, base, root).Err? ==>
      Nodes(rs, upto, bank, pending, parts, base, root) == Nodes(rs, i, bank, pending, parts, base, root)
    decreases upto
  {
    if i < upto {
      NodesStops(rs, i, upto - 1, bank, pending, parts, base, root);
    }
  }

  /**
   * Every entry of the node loop that is not a choice line is banked as
   * its node, with the root node recorded as the part of the line before
   * it; nothing given to the loop is lost.
   */
  lemma {:induction false} NodesBank(rs: seq<RouteData>, upto: nat, bank: Bank, pending: Bank, parts: Parts, base: int, root: RouteStruct)
    requires upto <= |rs|
    requires Nodes(rs, upto, bank, pending, parts, base, root).Ok?
    ensures var (b, p, q) := Nodes(rs, upto, bank, pending, parts, base, root).value;
      Grows(bank, b) && Grows(pending, p) && Grows(parts, q) &&
      forall i :: 1 <= i < upto && !rs[i].IsChoiceLine() ==>
        NodeBanked(rs, i, b) && base + i - 1 in q && q[base + i - 1] == NodePart(root)
    decreases upto
  {
    if upto > 1 {
      var n := upto - 1;
      NodesBank(rs, n, bank, pending, parts, base, root);
      var (b0, p0, q0) := Nodes(rs, n, bank, pending, parts, base, root).value;
      NodeStepMeaning(rs, n, b0, p0, q0, base, root);
    }
  }

  /** The body of the node loop. */
  method BuildNode(rs: seq<RouteData>, i: nat, bank: Bank, pending: Bank, parts: Parts, base: int, root: RouteStruct)
    returns (r: Result<(Bank, Bank, Parts)>)
    requires i < |rs|
    ensures r == NodeStep(rs, i, bank, pending, parts, base, root)
  {
    var routeCursor := rs[i];
    if routeCursor.IsChoiceLine() {
      return Ok((bank, pending, parts));
    }
    if !EndsWith(routeCursor.name, "-0") {
      return Err(Contextual(SyntaxError, RouteContext));
    }
    var routeName := routeCursor.name[..|routeCursor.name| - 2];
    var routeKeys := routeCursor.keys + [routeName];
    var flowNode := RouteStruct(routeKeys, [], None);
    var pend, ps := pending, parts;
    var bankIndexes := FilterRoute(i + 1, routeCursor.depth + 1, rs);
    if |bankIndexes| == 0 {
      var flowEnds := FilterDeadEnds(i + 1, routeCursor.depth - 1, rs);
      if flowEnds.Some? {
        var gotoName := flowEnds.value.Goto();
        if gotoName.Err? {
          return Err(gotoName.error);
        }
        flowNode := flowNode.(goto := Some(gotoName.value));
      }
    } else {
      var flow := BuildFlow(rs, bankIndexes, pending, parts, base);
      if flow.Err? {
        return Err(flow.error);
      }
      flowNode := flowNode.(flow := flow.value.0);
      pend, ps := flow.value.1, flow.value.2;
    }
    if routeName in bank {
      return Err(Runtime(DuplicateEntry));
    }
    if base + i - 1 in ps {
      return Err(Runtime(DuplicateEntry));
    }
    return Ok((bank[routeName := flowNode], pend, ps[base + i - 1 := NodePart(root)]));
  }

  /** The node loop (`for (int i = 1; i < results.Count; ++i)`). */
  method BuildNodes(rs: seq<RouteData>, bank: Bank, pending: Bank, parts: Parts, base: int, root: RouteStruct)
    returns (r: Result<(Bank, Bank, Parts)>)
    ensures r == Nodes(rs, |rs|, bank, pending, parts, base, root)
  {
    var b, pend, ps := bank, pending, parts;
    if |rs| == 0 {
      return Ok((b, pend, ps));
    }
    var i := 1;
    while i < |rs|
      invariant 1 <= i <= |rs|
      invariant Nodes(rs, i, bank, pending, parts, base, root) == Ok((b, pend, ps))
    {
      var step := BuildNode(rs, i, b, pend, ps, base, root);
      if step.Err? {
        NodesStops(rs, i + 1, |rs|, bank, pending, parts, base, root);
        return Err(step.error);
      }
      b, pend, ps := step.value.0, step.value.1, step.value.2;
      i := i + 1;
    }
    return Ok((b, pend, ps));
  }

  /** The pending nodes join the bank; a key it already holds throws. */
  function AddPendingSpec(bank: Bank, pending: Bank): (r: Result<Bank>)
    ensures r.Ok? <==> pending.Keys !! bank.Keys
    ensures r.Ok? ==>
      (r.value.Keys == bank.Keys + pending.Keys &&
       (forall k :: k in bank ==> r.value[k] == bank[k]) && (forall k :: k in pending ==> r.value[k] == pending[k]))
  {
    if pending.Keys !! bank.Keys then Ok(bank + pending) else Err(Runtime(DuplicateEntry))
  }

  /** `foreach (var deadNode in pendingDeadNodes) _routeBank.Add(...)`. */
  method AddPending(bank: Bank, pending: Bank) returns (r: Result<Bank>)
    ensures r == AddPendingSpec(bank, pending)
  {
    var b := bank;
    var rest := pending.Keys;
    while rest != {}
      invariant rest <= pending.Keys
      invariant (pending.Keys - rest) !! bank.Keys
      invariant b == bank + map k | k in pending.Keys - rest :: pending[k]
      decreases rest
    {
      var k :| k in rest;
      if k in b {
        return Err(Runtime(DuplicateEntry));
      }
      b := b[k := pending[k]];
      rest := rest - {k};
    }
    assert pending == map k | k in pending.Keys - rest :: pending[k];
    return Ok(b);
  }

  // ---------------------------------------------------------------------
  // The graph of a span

  /**
   * The graph assembly of `BuildRoute` from the span's route lines `rs`,
   * for the root key `key`, into the bank and the parts, the route's first
   * line being line `base` of the script. The errors, in the order they
   * are checked: a banked root key, then no route line at all, then no
   * depth-0 choice or a first line below depth 0.
   */
  function Assemble(rs: seq<RouteData>, key: String, bank: Bank, parts: Parts, base: int): (r: Result<(Bank, Parts)>)
    ensures key in bank ==> r == Err(Contextual(DuplicateKey, RouteContext))
    ensures key !in bank && |rs| == 0 ==> r == Err(Runtime(ArgumentOutOfRange))
    ensures key !in bank && |rs| > 0 && (Filtered(0, 0, rs) == [] || rs[0].depth != 0) ==>
      r == Err(Contextual(OutOfRange, RouteContext))
  {
    var idxs := Filtered(0, 0, rs);
    if key in bank then Err(Contextual(DuplicateKey, RouteContext))
    else if idxs == [] && |rs| == 0 then Err(Runtime(ArgumentOutOfRange))
    else if idxs == [] || rs[0].depth != 0 then Err(Contextual(OutOfRange, RouteContext))
    else
      match Flow(rs, idxs, map[], parts, base)
      case Err(e) => Err(e)
      case Ok((flow, pending, parts1)) =>
        var root := RouteStruct([key], flow, None);
        match Nodes(rs, |rs|, bank[key := root], pending, parts1, base, root)
        case Err(e) => Err(e)
        case Ok((bank2, pending2, parts2)) =>
          match AddPendingSpec(bank2, pending2)
          case Err(e) => Err(e)
          case Ok(bank3) => Ok((bank3, parts2))
  }

  /**
   * An assembled graph: the root node is keyed by the root key and offers
   * one stitch per depth-0 choice, in order; every line that is not a
   * choice line is banked as its node, with the root node recorded as the
   * part of the line before it; every childless depth-0 choice is banked
   * as a node under its own name; and nothing banked or recorded before is
   * lost.
   */
  lemma AssembleShape(rs: seq<RouteData>, key: String, bank: Bank, parts: Parts, base: int)
    requires Assemble(rs, key, bank, parts, base).Ok?
    ensures var (b, q) := Assemble(rs, key, bank, parts, base).value;
      var idxs := Filtered(0, 0, rs);
      key !in bank && idxs != [] && rs[0].depth == 0 && Indices(rs, idxs) &&
      Grows(bank, b) && Grows(parts, q) &&
      key in b && b[key].text == [key] && b[key].goto == None && FlowShaped(rs, idxs, b[key].flow, b) &&
      (forall i :: 1 <= i < |rs| && !rs[i].IsChoiceLine() ==>
        NodeBanked(rs, i, b) && base + i - 1 in q && q[base + i - 1] == NodePart(b[key]))
  {
    var idxs := Filtered(0, 0, rs);
    assert Indices(rs, idxs);
    var (flow, pending, parts1) := Flow(rs, idxs, map[], parts, base).value;
    FlowShape(rs, idxs, map[], parts, base);
    var root := RouteStruct([key], flow, None);
    NodesBank(rs, |rs|, bank[key := root], pending, parts1, base, root);
    var (bank2, pending2, parts2) := Nodes(rs, |rs|, bank[key := root], pending, parts1, base, root).value;
    var bank3 := AddPendingSpec(bank2, pending2).value;
    assert Assemble(rs, key, bank, parts, base) == Ok((bank3, parts2));
    GraphCombine(rs, key, idxs, bank, pending, root, bank2, pending2, bank3);
  }

  /** The last step of `AssembleShape`: the pending nodes join the bank the node loop built. */
  lemma GraphCombine(rs: seq<RouteData>, key: String, idxs: seq<int>, bank: Bank, pending: Bank, root: RouteStruct,
                     bank2: Bank, pending2: Bank, bank3: Bank)
    requires Indices(rs, idxs) && root.text == [key] && root.goto == None && FlowShaped(rs, idxs, root.flow, pending)
    requires key !in bank && Grows(bank[key := root], bank2) && Grows(pending, pending2)
    requires AddPendingSpec(bank2, pending2) == Ok(bank3)
    ensures Grows(bank2, bank3) && Grows(bank, bank3)
    ensures key in bank3 && bank3[key] == root && FlowShaped(rs, idxs, root.flow, bank3)
  {
  }

  /**
   * The depths of the route lines of the knight's dialogue in the route
   * test: three answers at depth 0, the first followed by a dead end; the
   * second answer's follow-up at depth 1, with two answers at depth 2 of
   * which the first has a follow-up at depth 3 and a dead end after it.
   */
  ghost predicate TalkLines(rs: seq<RouteData>)
  {
    |rs| == 9 &&
    rs[0].depth == 0 && !rs[0].deadEnd && rs[1].depth == 0 && rs[1].deadEnd &&
    rs[2].depth == 0 && !rs[2].deadEnd && rs[3].depth == 1 && !rs[3].deadEnd &&
    rs[4].depth == 2 && !rs[4].deadEnd && rs[5].depth == 3 && !rs[5].deadEnd &&
    rs[6].depth == 2 && rs[6].deadEnd && rs[7].depth == 2 && !rs[7].deadEnd &&
    rs[8].depth == 0 && !rs[8].deadEnd
  }

  /** Of those lines, the depth-0 answers are the first, third and last. */
  lemma TalkRootChoices(rs: seq<RouteData>)
    requires TalkLines(rs)
    ensures Filtered(0, 0, rs) == [0, 2, 8]
  {
    assert Filtered(8, 0, rs) == [8];
    assert Filtered(7, 0, rs) == Filtered(6, 0, rs) == Filtered(5, 0, rs) == [8];
    assert Filtered(4, 0, rs) == Filtered(3, 0, rs) == [8];
    assert Filtered(2, 0, rs) == [2, 8];
  }

  /**
   * The graph of that dialogue, once assembled: the root offers the three
   * answers in order; the first and the last answer, which have no
   * follow-up, are banked under their own names; the two odd-depth lines
   * are banked as their nodes, with the root recorded as the part of the
   * line before each.
   */
  lemma TalkGraph(rs: seq<RouteData>, key: String, bank: Bank, parts: Parts, base: int)
    requires TalkLines(rs)
    requires Assemble(rs, key, bank, parts, base).Ok?
    ensures var (b, q) := Assemble(rs, key, bank, parts, base).value;
      key in b && |b[key].flow| == 3 &&
      b[key].flow[0].next == rs[0].name && b[key].flow[1].next == rs[2].name && b[key].flow[2].next == rs[8].name &&
      rs[0].name in b && rs[8].name in b &&
      NodeBanked(rs, 3, b) && NodeBanked(rs, 5, b) &&
      base + 2 in q && q[base + 2] == NodePart(b[key]) && base + 4 in q && q[base + 4] == NodePart(b[key])
  {
    TalkRootChoices(rs);
    AssembleShape(rs, key, bank, parts, base);
    assert Filtered(1, 1, rs) == [];
    assert Filtered(9, 1, rs) == [];
    assert !rs[3].IsChoiceLine() && !rs[5].IsChoiceLine();
  }

  /** The graph assembly of `BuildRoute`, from its route lines on. */
  method AssembleRoute(results: seq<RouteData>, initialKey: String, bank: Bank, parts: Parts, base: int)
    returns (r: Result<(Bank, Parts)>)
    ensures r == Assemble(results, initialKey, bank, parts, base)
  {
    var bankIndexes := FilterRoute(0, 0, results);
    if initialKey in bank {
      return Err(Contextual(DuplicateKey, RouteContext));
    }
    if |bankIndexes| == 0 && |results| == 0 {
      return Err(Runtime(ArgumentOutOfRange));
    }
    if |bankIndexes| == 0 || results[0].depth != 0 {
      return Err(Contextual(OutOfRange, RouteContext));
    }
    var flow := BuildFlow(results, bankIndexes, map[], parts, base);
    if flow.Err? {
      return Err(flow.error);
    }
    var rootNode := RouteStruct([initialKey], flow.value.0, None);
    var nodes := BuildNodes(results, bank[initialKey := rootNode], flow.value.1, flow.value.2, base, rootNode);
    if nodes.Err? {
      return Err(nodes.error);
    }
    var merged := AddPending(nodes.value.0, nodes.value.1);
    if merged.Err? {
      return Err(merged.error);
    }
    return Ok((merged.value, nodes.value.2));
  }
}
