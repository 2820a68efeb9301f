// Stitches (`F3NolanStitchStruct`): a choice inside a knot, accepted
// against a state like a drag rule but more strictly: its context tags
// must sit in exactly one location, its payload tags in none, and it
// never throws.

module Stitches {
  import opened Base
  import opened Str
  import opened Lists
  import opened Tags
  import opened TagSets
  import opened Stats
  import opened Rules

  /** A stitch: the choice key, four tag sets and the key of the text that follows. */
  datatype Stitch = Stitch(choice: String, context: TagSet, cost: TagSet, payload: TagSet, gain: TagSet, next: String)

  /**
   * A node of a dialogue route (`F3NolanRouteStruct`): the text keys it
   * shows, the stitches it offers, and the node it falls through to.
   */
  datatype RouteStruct = RouteStruct(text: seq<String>, flow: seq<Stitch>, goto: Option<String>)

  /** The constructor: a stitch with empty tag sets. */
  function NewStitch(key: String, next: String): Stitch
  {
    Stitch(key, TagSets.Empty, TagSets.Empty, TagSets.Empty, TagSets.Empty, next)
  }

  // ---------------------------------------------------------------------
  // The locations holding a value

  /** The indices of the locations holding `v`, in order. */
  function Holders(v: String, locs: Locations): (r: seq<int>)
    ensures forall j :: 0 <= j < |r| ==> 0 <= r[j] < |locs|
    decreases |locs|
  {
    if locs == [] then []
    else Holders(v, locs[..|locs| - 1]) + (if HasValue(locs[|locs| - 1].1, v) then [|locs| - 1] else [])
  }

  /** The holder list holds exactly the holding locations, in increasing order. */
  lemma {:induction false} HoldersMeaning(v: String, locs: Locations)
    ensures forall j :: 0 <= j < |Holders(v, locs)| ==> Holds(locs, Holders(v, locs)[j], v)
    ensures forall i :: Holds(locs, i, v) ==> i in Holders(v, locs)
    ensures forall a, b :: 0 <= a < b < |Holders(v, locs)| ==> Holders(v, locs)[a] < Holders(v, locs)[b]
    decreases |locs|
  {
    if locs != [] {
      var init := locs[..|locs| - 1];
      HoldersMeaning(v, init);
      assert forall i :: 0 <= i < |init| ==> init[i] == locs[i];
      assert forall i :: Holds(init, i, v) <==> 0 <= i < |init| && Holds(locs, i, v);
    }
  }

  /** No location holds `v`. */
  predicate NoneHolds(v: String, locs: Locations)
  {
    forall i :: 0 <= i < |locs| ==> !Holds(locs, i, v)
  }

  /** Exactly the location at `i` holds `v`. */
  ghost predicate OnlyHolder(v: String, locs: Locations, i: int)
  {
    Holds(locs, i, v) && forall j :: Holds(locs, j, v) ==> j == i
  }

  /** No holder and exactly one holder, read off the holder list. */
  lemma HoldersCount(v: String, locs: Locations)
    ensures |Holders(v, locs)| == 0 <==> NoneHolds(v, locs)
    ensures |Holders(v, locs)| == 1 <==> exists i :: OnlyHolder(v, locs, i)
    ensures |Holders(v, locs)| == 1 ==> OnlyHolder(v, locs, Holders(v, locs)[0])
  {
    var h := Holders(v, locs);
    HoldersMeaning(v, locs);
    if |h| > 0 {
      assert Holds(locs, h[0], v);
    }
    assert |h| >= 2 ==> h[0] < h[1];
    if exists i :: OnlyHolder(v, locs, i) {
      var i :| OnlyHolder(v, locs, i);
      assert i in h;
      assert forall a :: 0 <= a < |h| ==> h[a] == i;
    }
    if |h| == 1 {
      assert OnlyHolder(v, locs, h[0]);
    }
  }

  lemma HoldersNext(v: String, locs: Locations, j: nat)
    requires j < |locs|
    ensures Holders(v, locs[..j + 1]) == Holders(v, locs[..j]) + (if HasValue(locs[j].1, v) then [j] else [])
  {
    assert locs[..j + 1][..j] == locs[..j];
  }

  /** The holders among the first locations are no more than the holders among all of them. */
  lemma {:induction false} HoldersPrefix(v: String, locs: Locations, k: nat)
    requires k <= |locs|
    ensures |Holders(v, locs[..k])| <= |Holders(v, locs)|
    decreases |locs| - k
  {
    if k < |locs| {
      HoldersNext(v, locs, k);
      HoldersPrefix(v, locs, k + 1);
    } else {
      assert locs[..k] == locs;
    }
  }

  // ---------------------------------------------------------------------
  // Gain: every gain tag appends to DRAG, and DRAG must not hold it yet

  function GainStep(g: GameTag, drag: seq<GameTag>): (r: Option<seq<RuleMeta>>)
    ensures r.Some? <==> GainHolds(g, drag)
  {
    if GainHolds(g, drag) then Some([Meta(AssertNoTag, g.value, "DRAG"), Meta(AppendTag, g.value, "DRAG")]) else None
  }

  function StitchGainOps(gain: seq<GameTag>, drag: seq<GameTag>): Option<seq<RuleMeta>>
  {
    Collect(gain, (g: GameTag) => GainStep(g, drag))
  }

  /** The gain loop: rejects at the first tag that is not a plain tag absent from DRAG. */
  method StitchGainLoop(gain: seq<GameTag>, drag: seq<GameTag>) returns (r: Option<seq<RuleMeta>>)
    ensures r == StitchGainOps(gain, drag)
  {
    var step := (g: GameTag) => GainStep(g, drag);
    var ops: seq<RuleMeta> := [];
    var i := 0;
    while i < |gain|
      invariant 0 <= i <= |gain|
      invariant Collect(gain[..i], step) == Some(ops)
    {
      CollectNext(gain, i, step);
      var g := gain[i];
      if !HasValue(drag, g.value) && g.op == RemoveOrAppend {
        ops := ops + [Meta(AssertNoTag, g.value, "DRAG"), Meta(AppendTag, g.value, "DRAG")];
      } else {
        CollectPrefixNone(gain, i + 1, step);
        return None;
      }
      i := i + 1;
    }
    assert gain[..i] == gain;
    r := Some(ops);
  }

  // ---------------------------------------------------------------------
  // Context: a tag may sit in at most one location other than DRAG

  /**
   * One context tag: two holding locations reject it whatever its syntax;
   * plain and `?` tags need one, taken from there (plain) or asserted
   * there (`?`); a `!` tag needs none and asserts its absence everywhere.
   */
  function ContextTagOps(t: GameTag, locs: Locations): Option<seq<RuleMeta>>
  {
    var h := Holders(t.value, locs);
    if |h| >= 2 then None
    else
      match t.op
      case RemoveOrAppend =>
        if |h| == 0 then None
        else Some([Meta(AssertTagIn, t.value, locs[h[0]].0), Meta(RemoveTag, t.value, locs[h[0]].0)])
      case SucceedIfPresent =>
        if |h| == 0 then None else Some([Meta(AssertTagIn, t.value, locs[h[0]].0)])
      case FailedIfPresent =>
        if |h| == 0 then Some(NoTagAll(t.value, locs)) else None
  }

  /** What a context tag demands of the locations. */
  ghost predicate ContextTagHolds(t: GameTag, locs: Locations)
  {
    if t.op == FailedIfPresent then NoneHolds(t.value, locs) else exists i :: OnlyHolder(t.value, locs, i)
  }

  /**
   * A context tag holds exactly when no location holds a `!` tag and
   * exactly one holds any other tag; that one is where it is asserted.
   */
  lemma ContextTagMeaning(t: GameTag, locs: Locations)
    ensures ContextTagOps(t, locs).Some? <==> ContextTagHolds(t, locs)
    ensures ContextTagOps(t, locs).Some? && t.op != FailedIfPresent ==>
      exists i :: OnlyHolder(t.value, locs, i) && Meta(AssertTagIn, t.value, locs[i].0) in ContextTagOps(t, locs).value
  {
    HoldersCount(t.value, locs);
  }

  /** The loop over the locations for one context tag, which stops at a second holder. */
  method ContextTagLoop(t: GameTag, locs: Locations) returns (r: Option<seq<RuleMeta>>)
    ensures r == ContextTagOps(t, locs)
  {
    var tooMany, name, noTags := ContextScan(t.value, locs, t.op == FailedIfPresent);
    if tooMany {
      return None;
    }
    var v := t.value;
    match t.op {
      case RemoveOrAppend =>
        if name.None? {
          return None;
        }
        r := Some([Meta(AssertTagIn, v, name.value), Meta(RemoveTag, v, name.value)]);
      case SucceedIfPresent =>
        if name.None? {
          return None;
        }
        r := Some([Meta(AssertTagIn, v, name.value)]);
      case FailedIfPresent =>
        if name.Some? {
          return None;
        }
        r := Some(noTags);
    }
  }

  /**
   * The scan itself: it stops at a second holder; otherwise it yields the
   * holding location, if any, and, when asked, an absence assertion per location.
   */
  method ContextScan(v: String, locs: Locations, absent: bool)
    returns (tooMany: bool, name: Option<String>, noTags: seq<RuleMeta>)
    ensures tooMany <==> |Holders(v, locs)| >= 2
    ensures !tooMany ==> name == if |Holders(v, locs)| == 0 then None else Some(locs[Holders(v, locs)[0]].0)
    ensures !tooMany ==> noTags == if absent then NoTagAll(v, locs) else []
  {
    name := None;
    noTags := [];
    ghost var h: seq<int> := [];
    var j := 0;
    while j < |locs|
      invariant 0 <= j <= |locs|
      invariant h == Holders(v, locs[..j]) && |h| <= 1
      invariant name == if |h| == 0 then None else Some(locs[h[0]].0)
      invariant noTags == if absent then NoTagAll(v, locs[..j]) else []
    {
      HoldersNext(v, locs, j);
      NoTagAllNext(v, locs, j);
      var (key, tags) := locs[j];
      if HasValue(tags, v) {
        if name.None? {
          name := Some(key);
          h := h + [j];
        } else {
          HoldersPrefix(v, locs, j + 1);
          return true, name, noTags;
        }
      }
      if absent {
        noTags := noTags + [Meta(AssertNoTag, v, key)];
      }
      j := j + 1;
    }
    assert locs[..j] == locs;
    tooMany := false;
  }

  function StitchContextOps(context: seq<GameTag>, locs: Locations): Option<seq<RuleMeta>>
  {
    Collect(context, (t: GameTag) => ContextTagOps(t, locs))
  }

  method StitchContextLoop(context: seq<GameTag>, locs: Locations) returns (r: Option<seq<RuleMeta>>)
    ensures r == StitchContextOps(context, locs)
  {
    var step := (t: GameTag) => ContextTagOps(t, locs);
    var ops: seq<RuleMeta> := [];
    var i := 0;
    while i < |context|
      invariant 0 <= i <= |context|
      invariant Collect(context[..i], step) == Some(ops)
    {
      CollectNext(context, i, step);
      var more := ContextTagLoop(context[i], locs);
      if more.None? {
        CollectPrefixNone(context, i + 1, step);
        return None;
      }
      ops := ops + more.value;
      i := i + 1;
    }
    assert context[..i] == context;
    r := Some(ops);
  }

  // ---------------------------------------------------------------------
  // Payload: a new tag placed at a named location other than DRAG

  /** The syntax a payload tag must have: plain, with a location that is not DRAG (ignoring case). */
  predicate PayloadValid(p: GameTag)
  {
    p.op == RemoveOrAppend && p.location != [] && !EqualsIgnoreCase(p.location, "DRAG")
  }

  function PayloadTagOps(p: GameTag, locs: Locations): Option<seq<RuleMeta>>
  {
    if !PayloadValid(p) || |Holders(p.value, locs)| > 0 then None
    else Some(NoTagAll(p.value, locs) + [Meta(AppendTag, p.value, p.location)])
  }

  /** The loop over the locations for one payload tag, which stops at the first holder. */
  method PayloadTagLoop(p: GameTag, locs: Locations) returns (r: Option<seq<RuleMeta>>)
    ensures r == PayloadTagOps(p, locs)
  {
    if p.op != RemoveOrAppend || p.location == [] || EqualsIgnoreCase(p.location, "DRAG") {
      return None;
    }
    var ops: seq<RuleMeta> := [];
    var j := 0;
    while j < |locs|
      invariant 0 <= j <= |locs|
      invariant |Holders(p.value, locs[..j])| == 0
      invariant ops == NoTagAll(p.value, locs[..j])
    {
      HoldersNext(p.value, locs, j);
      NoTagAllNext(p.value, locs, j);
      if HasValue(locs[j].1, p.value) {
        HoldersPrefix(p.value, locs, j + 1);
        return None;
      }
      ops := ops + [Meta(AssertNoTag, p.value, locs[j].0)];
      j := j + 1;
    }
    assert locs[..j] == locs;
    r := Some(ops + [Meta(AppendTag, p.value, p.location)]);
  }

  function StitchPayloadOps(payload: seq<GameTag>, locs: Locations): Option<seq<RuleMeta>>
  {
    Collect(payload, (p: GameTag) => PayloadTagOps(p, locs))
  }

  method StitchPayloadLoop(payload: seq<GameTag>, locs: Locations) returns (r: Option<seq<RuleMeta>>)
    ensures r == StitchPayloadOps(payload, locs)
  {
    var step := (p: GameTag) => PayloadTagOps(p, locs);
    var ops: seq<RuleMeta> := [];
    var i := 0;
    while i < |payload|
      invariant 0 <= i <= |payload|
      invariant Collect(payload[..i], step) == Some(ops)
    {
      CollectNext(payload, i, step);
      var more := PayloadTagLoop(payload[i], locs);
      if more.None? {
        CollectPrefixNone(payload, i + 1, step);
        return None;
      }
      ops := ops + more.value;
      i := i + 1;
    }
    assert payload[..i] == payload;
    r := Some(ops);
  }

  // ---------------------------------------------------------------------
  // Acceptance

  /** `Accept`: cost and gain against DRAG, then context and payload against the other locations. */
  function StitchAcceptSpec(st: Stitch, locs: Locations): Acceptance
  {
    var drag := DragTags(locs);
    var cost := CostOps(st.cost, drag, "DRAG");
    if cost.None? then Rejected
    else
      var gain := StitchGainOps(st.gain, drag);
      if gain.None? then Rejected
      else
        var others := NonDrag(locs);
        var context := StitchContextOps(st.context, others);
        if context.None? then Rejected
        else
          var payload := StitchPayloadOps(st.payload, others);
          if payload.None? then Rejected
          else Accepted(st.next, cost.value + gain.value + context.value + payload.value)
  }

  /** Every phase holds: the conditions under which a stitch is accepted. */
  ghost predicate StitchHolds(st: Stitch, locs: Locations)
  {
    CostsHold(st.cost, DragTags(locs)) &&
    GainsHold(st.gain, DragTags(locs)) &&
    ContextsHold(st.context, NonDrag(locs)) &&
    PayloadsFree(st.payload, NonDrag(locs))
  }

  lemma PayloadTagMeaning(p: GameTag, locs: Locations)
    ensures PayloadTagOps(p, locs).Some? <==> PayloadValid(p) && NoneHolds(p.value, locs)
  {
    HoldersCount(p.value, locs);
  }

  /** The gain phase holds exactly when every gain tag does, and then each is appended to DRAG. */
  lemma StitchGainMeaning(gain: seq<GameTag>, drag: seq<GameTag>)
    ensures StitchGainOps(gain, drag).Some? <==> GainsHold(gain, drag)
    ensures StitchGainOps(gain, drag).Some? ==>
      forall i :: 0 <= i < |gain| ==> Meta(AppendTag, gain[i].value, "DRAG") in StitchGainOps(gain, drag).value
  {
    var step := (g: GameTag) => GainStep(g, drag);
    CollectSome(gain, step);
    if StitchGainOps(gain, drag).Some? {
      forall i | 0 <= i < |gain| ensures Meta(AppendTag, gain[i].value, "DRAG") in StitchGainOps(gain, drag).value {
        CollectTo(gain, step, i);
      }
    }
  }

  ghost predicate ContextsHold(context: seq<GameTag>, locs: Locations)
  {
    forall i :: 0 <= i < |context| ==> ContextTagHolds(context[i], locs)
  }

  lemma StitchContextMeaning(context: seq<GameTag>, locs: Locations)
    ensures StitchContextOps(context, locs).Some? <==> ContextsHold(context, locs)
  {
    var step := (t: GameTag) => ContextTagOps(t, locs);
    CollectSome(context, step);
    forall i | 0 <= i < |context| ensures step(context[i]).Some? <==> ContextTagHolds(context[i], locs) {
      ContextTagMeaning(context[i], locs);
    }
  }

  predicate PayloadsFree(payload: seq<GameTag>, locs: Locations)
  {
    forall i :: 0 <= i < |payload| ==> PayloadValid(payload[i]) && NoneHolds(payload[i].value, locs)
  }

  /** The payload phase holds exactly when every payload tag is valid and new, and then each is appended at its location. */
  lemma StitchPayloadMeaning(payload: seq<GameTag>, locs: Locations)
    ensures StitchPayloadOps(payload, locs).Some? <==> PayloadsFree(payload, locs)
    ensures StitchPayloadOps(payload, locs).Some? ==>
      forall i :: 0 <= i < |payload| ==> Meta(AppendTag, payload[i].value, payload[i].location) in StitchPayloadOps(payload, locs).value
  {
    var step := (p: GameTag) => PayloadTagOps(p, locs);
    CollectSome(payload, step);
    forall i | 0 <= i < |payload| ensures step(payload[i]).Some? <==> PayloadValid(payload[i]) && NoneHolds(payload[i].value, locs) {
      PayloadTagMeaning(payload[i], locs);
    }
    if StitchPayloadOps(payload, locs).Some? {
      forall i | 0 <= i < |payload|
        ensures Meta(AppendTag, payload[i].value, payload[i].location) in StitchPayloadOps(payload, locs).value
      {
        CollectTo(payload, step, i);
      }
    }
  }

  /**
   * A stitch is accepted exactly when every phase holds, and then it yields
   * its `Next` key, adds every gain tag to DRAG and every payload tag at
   * its location.
   */
  lemma StitchAcceptMeaning(st: Stitch, locs: Locations)
    ensures StitchAcceptSpec(st, locs).Accepted? <==> StitchHolds(st, locs)
    ensures StitchAcceptSpec(st, locs).Accepted? ==>
      StitchAcceptSpec(st, locs).key == st.next &&
      (forall i :: 0 <= i < |st.gain| ==> Meta(AppendTag, st.gain[i].value, "DRAG") in StitchAcceptSpec(st, locs).ops) &&
      (forall i :: 0 <= i < |st.payload| ==> Meta(AppendTag, st.payload[i].value, st.payload[i].location) in StitchAcceptSpec(st, locs).ops)
  {
    var drag := DragTags(locs);
    var others := NonDrag(locs);
    CostOpsMeaning(st.cost, drag, "DRAG");
    StitchGainMeaning(st.gain, drag);
    StitchContextMeaning(st.context, others);
    StitchPayloadMeaning(st.payload, others);
  }

  /** A stitch with empty tag sets is accepted by any state, with no operations. */
  lemma NewStitchAccepts(key: String, next: String, s: Stat)
    ensures StitchAcceptSpec(NewStitch(key, next), s.locations) == Accepted(next, [])
  {
  }

  method Accept(st: Stitch, s: Stat) returns (r: Acceptance)
    ensures r == StitchAcceptSpec(st, s.locations)
  {
    var locs: Locations := s.locations;
    var drag := DragTags(locs);
    var cost := CostLoop(st.cost, drag, "DRAG");
    if cost.None? {
      return Rejected;
    }
    var gain := StitchGainLoop(st.gain, drag);
    if gain.None? {
      return Rejected;
    }
    var others := NonDrag(locs);
    var context := StitchContextLoop(st.context, others);
    if context.None? {
      return Rejected;
    }
    var payload := StitchPayloadLoop(st.payload, others);
    if payload.None? {
      return Rejected;
    }
    r := Accepted(st.next, cost.value + gain.value + context.value + payload.value);
  }
}
