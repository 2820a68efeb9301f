// The world state: a list of named locations, each holding a tag set, and
// the operations an accepted rule applies to it.

module Stats {
  import opened Base
  import opened Str
  import opened Lists
  import opened Tags
  import opened TagSets

  /** What an emitted operation does. */
  datatype RuleOp = AssertTagIn | AssertNoTag | AppendTag | RemoveTag | PushText | PushScene | GotoScene | UnlockGoal

  /** One emitted operation: its kind, the tag or key it names, and the location or goal it targets. */
  datatype RuleMeta = RuleMeta(op: RuleOp, tagOrKey: String, locationOrGoal: String)

  /** The state: locations in list order, each a name and a tag set. */
  datatype Stat = Stat(locations: seq<(String, TagSet)>)

  const EmptyStat: Stat := Stat([])

  /** The rendering of a state without locations. */
  const EmptyRendering: String := "== [DRAG, ]"

  predicate IsEmpty(s: Stat) { |s.locations| == 0 }

  // ---------------------------------------------------------------------
  // The indexer

  function NameIs(name: String): ((String, TagSet)) -> bool
  {
    (loc: (String, TagSet)) => EqualsIgnoreCase(loc.0, name)
  }

  /** The first location whose name equals `name` ignoring case; KeyNotFound when there is none. */
  function Get(s: Stat, name: String): (r: Result<(String, TagSet)>)
    ensures r.Err? <==> forall i :: 0 <= i < |s.locations| ==> !EqualsIgnoreCase(s.locations[i].0, name)
    ensures r.Err? ==> r.error == Script(KeyNotFound)
    ensures r.Ok? ==> exists i :: 0 <= i < |s.locations| && s.locations[i] == r.value
                        && EqualsIgnoreCase(r.value.0, name)
                        && forall j :: 0 <= j < i ==> !EqualsIgnoreCase(s.locations[j].0, name)
  {
    var i := FindFirst(s.locations, NameIs(name));
    if i < 0 then Err(Script(KeyNotFound)) else Ok(s.locations[i])
  }

  // ---------------------------------------------------------------------
  // The working dictionary of `Apply`: location name to raw tag texts

  type Dict = seq<(String, seq<String>)>

  predicate DistinctKeys(d: Dict)
  {
    forall i, j :: 0 <= i < j < |d| ==> d[i].0 != d[j].0
  }

  predicate DistinctNames(locs: seq<(String, TagSet)>)
  {
    forall i, j :: 0 <= i < j < |locs| ==> locs[i].0 != locs[j].0
  }

  function KeyIs(k: String): ((String, seq<String>)) -> bool
  {
    (e: (String, seq<String>)) => e.0 == k
  }

  /** `TryGetValue`: the list stored under exactly `k`. */
  function Lookup(d: Dict, k: String): (r: Option<seq<String>>)
    ensures r.None? <==> forall i :: 0 <= i < |d| ==> d[i].0 != k
  {
    var i := FindFirst(d, KeyIs(k));
    if i < 0 then None else Some(d[i].1)
  }

  /** With distinct keys, each entry is what its key looks up. */
  lemma LookupAt(d: Dict, i: int)
    requires DistinctKeys(d) && 0 <= i < |d|
    ensures Lookup(d, d[i].0) == Some(d[i].1)
  {
    var j := FindFirst(d, KeyIs(d[i].0));
    assert j >= 0 && d[j].0 == d[i].0;
  }

  function CopyLocation(loc: (String, TagSet)): (String, seq<String>)
  {
    (loc.0, ToList(loc.1))
  }

  /** `ToDictionary`: each location's sorted raw texts under its name; a repeated name is a runtime error. */
  function ToDictionary(locs: seq<(String, TagSet)>): (r: Result<Dict>)
    ensures r.Ok? <==> DistinctNames(locs)
    ensures r.Err? ==> r.error == Runtime(DuplicateEntry)
    ensures r.Ok? ==> DistinctKeys(r.value) && |r.value| == |locs|
                      && forall i :: 0 <= i < |locs| ==> r.value[i] == (locs[i].0, ToList(locs[i].1))
  {
    if DistinctNames(locs) then Ok(Map(locs, CopyLocation)) else Err(Runtime(DuplicateEntry))
  }

  /** One operation on the dictionary and the scene. */
  function ApplyOp(d: Dict, scene: String, m: RuleMeta): (r: (Result<Dict>, String))
    requires DistinctKeys(d)
    ensures r.0.Ok? ==> DistinctKeys(r.0.value)
  {
    match m.op
    case RemoveTag =>
      var i := FindFirst(d, KeyIs(m.locationOrGoal));
      if i < 0 then (Err(Script(KeyNotFound)), scene)
      else
        var rest := RemoveAll(d[i].1, m.tagOrKey);
        if rest == [] then
          DropKeepsDistinct(d, i);
          (Ok(d[..i] + d[i + 1..]), scene)
        else (Ok(d[i := (d[i].0, rest)]), scene)
    case AppendTag =>
      var i := FindFirst(d, KeyIs(m.locationOrGoal));
      if i < 0 then (Ok(d + [(m.locationOrGoal, [m.tagOrKey])]), scene)
      else (Ok(d[i := (d[i].0, d[i].1 + [m.tagOrKey])]), scene)
    case GotoScene => (Ok(d), m.locationOrGoal)
    case _ => (Ok(d), scene)
  }

  lemma DropKeepsDistinct(d: Dict, i: int)
    requires DistinctKeys(d) && 0 <= i < |d|
    ensures DistinctKeys(d[..i] + d[i + 1..])
  {
    var e := d[..i] + d[i + 1..];
    forall a, b | 0 <= a < b < |e|
      ensures e[a].0 != e[b].0
    {
      var a' := if a < i then a else a + 1;
      var b' := if b < i then b else b + 1;
      assert e[a] == d[a'] && e[b] == d[b'];
    }
  }

  /**
   * The operations in order; the first failure stops the run, keeping the
   * scene as it was when it failed.
   */
  function Run(d: Dict, scene: String, ms: seq<RuleMeta>): (r: (Result<Dict>, String))
    requires DistinctKeys(d)
    ensures r.0.Ok? ==> DistinctKeys(r.0.value)
    decreases |ms|
  {
    if ms == [] then (Ok(d), scene)
    else
      var (rd, sc) := Run(d, scene, ms[..|ms| - 1]);
      if rd.Err? then (rd, sc) else ApplyOp(rd.value, sc, ms[|ms| - 1])
  }

  /** The state rebuilt from the dictionary: every raw text is parsed again and each list sorted. */
  function Rebuild(d: Dict): Result<Stat>
  {
    if d == [] then Ok(EmptyStat)
    else
      var s :- FromStrings(d[0].1);
      var rest :- Rebuild(d[1..]);
      Ok(Stat([(d[0].0, s)] + rest.locations))
  }

  /** A rebuilt state has the dictionary's location names, in order. */
  lemma {:induction false} RebuildNames(d: Dict)
    ensures var r := Rebuild(d);
            r.Ok? ==> |r.value.locations| == |d| && forall i :: 0 <= i < |d| ==> r.value.locations[i].0 == d[i].0
  {
    if d != [] && Rebuild(d).Ok? {
      RebuildNames(d[1..]);
      var rest := Rebuild(d[1..]).value.locations;
      forall i | 0 <= i < |d| ensures Rebuild(d).value.locations[i].0 == d[i].0 {
        if i > 0 {
          assert Rebuild(d).value.locations[i] == rest[i - 1];
          assert d[1..][i - 1] == d[i];
        }
      }
    }
  }

  /** What `Apply` returns and where the scene is left, on success and on failure alike. */
  function ApplySpec(s: Stat, meta: seq<RuleMeta>, scene: String): (Result<Stat>, String)
  {
    match ToDictionary(s.locations)
    case Err(e) => (Err(e), scene)
    case Ok(d) =>
      var (rd, sc) := Run(d, scene, meta);
      match rd
      case Err(e) => (Err(e), sc)
      case Ok(d') => (Rebuild(d'), sc)
  }

  /**
   * `Apply`: the locations are copied into a dictionary of raw texts, the
   * operations are applied to the copy one after the other, and a new state
   * is built from it. The receiver, a value, is unchanged.
   */
  method Apply(s: Stat, meta: seq<RuleMeta>, scene: String) returns (r: Result<Stat>, newScene: String)
    ensures (r, newScene) == ApplySpec(s, meta, scene)
  {
    var copied := ToDictionary(s.locations);
    if copied.Err? {
      return Err(copied.error), scene;
    }
    var d0 := copied.value;
    var d := d0;
    newScene := scene;
    var i := 0;
    while i < |meta|
      invariant 0 <= i <= |meta|
      invariant DistinctKeys(d)
      invariant Run(d0, scene, meta[..i]) == (Ok(d), newScene)
    {
      assert meta[..i + 1][..i] == meta[..i];
      var next;
      next, newScene := ApplyStep(d, newScene, meta[i]);
      if next.Err? {
        RunStops(d0, scene, meta, i + 1);
        return Err(next.error), newScene;
      }
      d := next.value;
      i := i + 1;
    }
    assert meta[..|meta|] == meta;
    r := Rebuild(d);
  }

  /** The body of `Apply`'s loop: one operation on the working dictionary, updated in place. */
  method ApplyStep(d: Dict, scene: String, m: RuleMeta) returns (r: Result<Dict>, newScene: String)
    requires DistinctKeys(d)
    ensures (r, newScene) == ApplyOp(d, scene, m)
  {
    var dict := d;
    newScene := scene;
    if m.op == RemoveTag {
      var k := FindFirst(dict, KeyIs(m.locationOrGoal));
      if k < 0 {
        return Err(Script(KeyNotFound)), newScene;
      }
      var rest := RemoveAll(dict[k].1, m.tagOrKey);
      if rest == [] {
        dict := dict[..k] + dict[k + 1..];
      } else {
        dict := dict[k := (dict[k].0, rest)];
      }
    } else if m.op == AppendTag {
      var k := FindFirst(dict, KeyIs(m.locationOrGoal));
      if k < 0 {
        dict := dict + [(m.locationOrGoal, [m.tagOrKey])];
      } else {
        dict := dict[k := (dict[k].0, dict[k].1 + [m.tagOrKey])];
      }
    } else if m.op == GotoScene {
      newScene := m.locationOrGoal;
    }
    r := Ok(dict);
  }

  /** Once the run fails, the remaining operations change nothing. */
  lemma {:induction false} RunStops(d: Dict, scene: String, ms: seq<RuleMeta>, n: int)
    requires DistinctKeys(d) && 0 <= n <= |ms| && Run(d, scene, ms[..n]).0.Err?
    ensures Run(d, scene, ms) == Run(d, scene, ms[..n])
    decreases |ms| - n
  {
    if n < |ms| {
      assert ms[..n + 1][..n] == ms[..n];
      RunStops(d, scene, ms, n + 1);
    } else {
      assert ms[..n] == ms;
    }
  }

  // ---------------------------------------------------------------------
  // What each operation does to the dictionary

  /** Two dictionaries with the same entries under `k` look `k` up alike. */
  lemma LookupSame(d: Dict, e: Dict, k: String)
    requires DistinctKeys(d) && DistinctKeys(e)
    requires forall x :: x in d && x.0 == k <==> x in e && x.0 == k
    ensures Lookup(d, k) == Lookup(e, k)
  {
    var i := FindFirst(d, KeyIs(k));
    if i >= 0 {
      assert d[i] in d;
      var j :| 0 <= j < |e| && e[j] == d[i];
      LookupAt(e, j);
    } else {
      forall j | 0 <= j < |e| ensures e[j].0 != k {
        assert e[j] in e;
      }
    }
  }

  /**
   * RemoveTag on a missing location fails with KeyNotFound. Otherwise every
   * occurrence of the text leaves that location, the location goes once it is
   * empty, no other location changes, and the scene stays.
   */
  lemma RemoveTagEffect(d: Dict, scene: String, m: RuleMeta)
    requires DistinctKeys(d) && m.op == RemoveTag
    ensures ApplyOp(d, scene, m).1 == scene
    ensures ApplyOp(d, scene, m).0.Err? <==> Lookup(d, m.locationOrGoal).None?
    ensures ApplyOp(d, scene, m).0.Err? ==> ApplyOp(d, scene, m).0.error == Script(KeyNotFound)
    ensures ApplyOp(d, scene, m).0.Ok? ==>
              var rest := RemoveAll(Lookup(d, m.locationOrGoal).value, m.tagOrKey);
              Lookup(ApplyOp(d, scene, m).0.value, m.locationOrGoal) == (if rest == [] then None else Some(rest))
    ensures ApplyOp(d, scene, m).0.Ok? ==>
              forall k :: k != m.locationOrGoal ==> Lookup(ApplyOp(d, scene, m).0.value, k) == Lookup(d, k)
  {
    var loc := m.locationOrGoal;
    var i := FindFirst(d, KeyIs(loc));
    if i >= 0 {
      LookupAt(d, i);
      var rest := RemoveAll(d[i].1, m.tagOrKey);
      var e := ApplyOp(d, scene, m).0.value;
      if rest == [] {
        assert e == d[..i] + d[i + 1..];
        forall k | k != loc ensures Lookup(e, k) == Lookup(d, k) {
          DropOthers(d, i, k);
          LookupSame(d, e, k);
        }
        assert forall j :: 0 <= j < |e| ==> e[j].0 != loc by {
          forall j | 0 <= j < |e| ensures e[j].0 != loc {
            assert e[j] == if j < i then d[j] else d[j + 1];
          }
        }
      } else {
        assert e == d[i := (loc, rest)];
        LookupAt(e, i);
        forall k | k != loc ensures Lookup(e, k) == Lookup(d, k) {
          UpdateOthers(d, i, (loc, rest), k);
          LookupSame(d, e, k);
        }
      }
    }
  }

  lemma DropOthers(d: Dict, i: int, k: String)
    requires 0 <= i < |d| && d[i].0 != k
    ensures forall x :: x in d && x.0 == k <==> x in d[..i] + d[i + 1..] && x.0 == k
  {
    assert d == d[..i] + [d[i]] + d[i + 1..];
  }

  lemma UpdateOthers(d: Dict, i: int, v: (String, seq<String>), k: String)
    requires 0 <= i < |d| && d[i].0 != k && v.0 != k
    ensures forall x :: x in d && x.0 == k <==> x in d[i := v] && x.0 == k
  {
    assert d == d[..i] + [d[i]] + d[i + 1..];
    assert d[i := v] == d[..i] + [v] + d[i + 1..];
  }

  /**
   * AppendTag adds the text at the end of the location's list, without
   * removing duplicates, creating the location when it is missing; no other
   * location changes and the scene stays.
   */
  lemma AppendTagEffect(d: Dict, scene: String, m: RuleMeta)
    requires DistinctKeys(d) && m.op == AppendTag
    ensures ApplyOp(d, scene, m).1 == scene && ApplyOp(d, scene, m).0.Ok?
    ensures var before := Lookup(d, m.locationOrGoal);
            Lookup(ApplyOp(d, scene, m).0.value, m.locationOrGoal)
              == Some((if before.Some? then before.value else []) + [m.tagOrKey])
    ensures forall k :: k != m.locationOrGoal ==> Lookup(ApplyOp(d, scene, m).0.value, k) == Lookup(d, k)
  {
    var loc := m.locationOrGoal;
    var i := FindFirst(d, KeyIs(loc));
    var e := ApplyOp(d, scene, m).0.value;
    if i >= 0 {
      LookupAt(d, i);
      var v := (d[i].0, d[i].1 + [m.tagOrKey]);
      assert e == d[i := v];
      LookupAt(e, i);
      forall k | k != loc ensures Lookup(e, k) == Lookup(d, k) {
        UpdateOthers(d, i, v, k);
        LookupSame(d, e, k);
      }
    } else {
      assert e == d + [(loc, [m.tagOrKey])];
      assert Lookup(d, loc).None?;
      assert e[|d|] == (loc, [m.tagOrKey]);
      assert [] + [m.tagOrKey] == [m.tagOrKey];
      LookupAt(e, |d|);
      forall k | k != loc ensures Lookup(e, k) == Lookup(d, k) {
        LookupSame(d, e, k);
      }
    }
  }

  /** GotoScene moves the scene to the named goal and leaves the dictionary alone. */
  lemma GotoSceneEffect(d: Dict, scene: String, m: RuleMeta)
    requires DistinctKeys(d) && m.op == GotoScene
    ensures ApplyOp(d, scene, m) == (Ok(d), m.locationOrGoal)
  {
  }

  /** The operations that only assert or refer elsewhere. */
  predicate Passive(m: RuleMeta)
  {
    m.op != RemoveTag && m.op != AppendTag && m.op != GotoScene
  }

  /** A run of operations none of which removes, appends or moves the scene changes nothing. */
  lemma {:induction false} RunPassive(d: Dict, scene: String, ms: seq<RuleMeta>)
    requires DistinctKeys(d)
    requires forall i :: 0 <= i < |ms| ==> Passive(ms[i])
    ensures Run(d, scene, ms) == (Ok(d), scene)
    decreases |ms|
  {
    if ms != [] {
      RunPassive(d, scene, ms[..|ms| - 1]);
    }
  }

  /** Rebuilding the untouched copy gives back the same locations. */
  lemma {:induction false} RebuildCopy(locs: seq<(String, TagSet)>)
    ensures Rebuild(Map(locs, CopyLocation)) == Ok(Stat(locs))
  {
    if locs != [] {
      var d := Map(locs, CopyLocation);
      assert d[1..] == Map(locs[1..], CopyLocation);
      RebuildCopy(locs[1..]);
      assert d[0] == (locs[0].0, ToList(locs[0].1));
      FromStringsToList(locs[0].1);
      RebuildCons(d, locs[0].1, Stat(locs[1..]));
      assert [(locs[0].0, locs[0].1)] + locs[1..] == locs;
    }
  }

  /** Rebuilding a first location and the rest. */
  lemma RebuildCons(d: Dict, s: TagSet, rest: Stat)
    requires d != [] && FromStrings(d[0].1) == Ok(s) && Rebuild(d[1..]) == Ok(rest)
    ensures Rebuild(d) == Ok(Stat([(d[0].0, s)] + rest.locations))
  {
  }

  /**
   * `Apply` with only passive operations, on a state whose location names are
   * distinct, returns the same state and leaves the scene where it was.
   */
  lemma ApplyPassive(s: Stat, meta: seq<RuleMeta>, scene: String)
    requires DistinctNames(s.locations)
    requires forall i :: 0 <= i < |meta| ==> Passive(meta[i])
    ensures ApplySpec(s, meta, scene) == (Ok(s), scene)
  {
    var d := Map(s.locations, CopyLocation);
    assert ToDictionary(s.locations) == Ok(d);
    RunPassive(d, scene, meta);
    RebuildCopy(s.locations);
  }

  // ---------------------------------------------------------------------
  // Rendering and equality

  /** `KeyValuePair.ToString`: the name and the set's rendering, bracketed. */
  function LocationString(loc: (String, TagSet)): String
  {
    "[" + loc.0 + ", " + TagSets.ToString(loc.1) + "]"
  }

  predicate IsDragString(x: String) { StartsWith(x, "[DRAG,") }

  /**
   * The order of the rendered locations: ordinal among the ordinary ones,
   * those of DRAG after all of them.
   */
  function OrderLocations(xs: seq<String>): (r: seq<String>)
    ensures multiset(r) == multiset(xs)
    ensures forall i, j :: 0 <= i < j < |r| && IsDragString(r[i]) ==> IsDragString(r[j])
    ensures forall i, j :: 0 <= i < j < |r| && !IsDragString(r[j]) ==> LessEq(r[i], r[j])
  {
    var notDrag := (x: String) => !IsDragString(x);
    var plain := SortBy(Filter(xs, notDrag), Id);
    var drag := SortBy(Filter(xs, IsDragString), Id);
    OrderedParts(plain, drag);
    FilterSplit(xs, notDrag, IsDragString);
    plain + drag
  }

  lemma OrderedParts(plain: seq<String>, drag: seq<String>)
    requires forall x :: x in multiset(plain) ==> !IsDragString(x)
    requires forall x :: x in multiset(drag) ==> IsDragString(x)
    requires SortedBy(plain, Id)
    ensures forall i, j :: 0 <= i < j < |plain + drag| && IsDragString((plain + drag)[i]) ==> IsDragString((plain + drag)[j])
    ensures forall i, j :: 0 <= i < j < |plain + drag| && !IsDragString((plain + drag)[j]) ==> LessEq((plain + drag)[i], (plain + drag)[j])
  {
    var r := plain + drag;
    forall i | 0 <= i < |r| ensures IsDragString(r[i]) <==> i >= |plain| {
      if i < |plain| {
        assert r[i] == plain[i] && plain[i] in multiset(plain);
      } else {
        assert r[i] == drag[i - |plain|] && drag[i - |plain|] in multiset(drag);
      }
    }
    forall i, j | 0 <= i < j < |r| && !IsDragString(r[j]) ensures LessEq(r[i], r[j]) {
      assert r[i] == plain[i] && r[j] == plain[j];
      assert LessEq(Id(plain[i]), Id(plain[j]));
    }
  }

  /** Each rendered location followed by one space. */
  function Spaced(xs: seq<String>): String
  {
    if xs == [] then [] else xs[0] + " " + Spaced(xs[1..])
  }

  /** `ToString`: `== ` and the ordered location renderings, trimmed; a state without locations renders as an empty DRAG. */
  function Render(s: Stat): String
  {
    if IsEmpty(s) then EmptyRendering
    else Trim("== " + Spaced(OrderLocations(Map(s.locations, LocationString))))
  }

  /** `Equals`: equal renderings. */
  predicate Equals(a: Stat, b: Stat)
  {
    Render(a) == Render(b)
  }

  /** The order of the rendering depends only on which renderings there are, counted. */
  lemma OrderLocationsPermutation(xs: seq<String>, ys: seq<String>)
    requires multiset(xs) == multiset(ys)
    ensures OrderLocations(xs) == OrderLocations(ys)
  {
    var notDrag := (x: String) => !IsDragString(x);
    assert multiset(Filter(xs, notDrag)) == multiset(Filter(ys, notDrag));
    assert multiset(Filter(xs, IsDragString)) == multiset(Filter(ys, IsDragString));
    IdInjective();
    SortPermutationEqual(Filter(xs, notDrag), Filter(ys, notDrag), Id);
    SortPermutationEqual(Filter(xs, IsDragString), Filter(ys, IsDragString), Id);
  }

  /** Equality ignores the order of the locations. */
  lemma EqualsIgnoresOrder(a: Stat, b: Stat)
    requires multiset(a.locations) == multiset(b.locations)
    ensures Equals(a, b)
  {
    assert |a.locations| == |multiset(a.locations)| == |multiset(b.locations)| == |b.locations|;
    MapPermutation(a.locations, b.locations, LocationString);
    OrderLocationsPermutation(Map(a.locations, LocationString), Map(b.locations, LocationString));
  }

  /** The empty state equals the state whose only location is an empty DRAG. */
  lemma EmptyEqualsEmptyDrag()
    ensures Equals(EmptyStat, Stat([("DRAG", Empty)]))
  {
    DragRender();
  }

  lemma DragRender()
    ensures Render(Stat([("DRAG", Empty)])) == EmptyRendering
  {
    var drag := Stat([("DRAG", Empty)]);
    var spaced := Spaced(OrderLocations(Map(drag.locations, LocationString)));
    DragSpaced();
    ConcatAssoc("== ", "[DRAG, ]", " ");
    TrimDragLine();
    assert Render(drag) == Trim("== " + spaced);
  }

  lemma DragSpaced()
    ensures Spaced(OrderLocations(Map([("DRAG", Empty)], LocationString))) == "[DRAG, ]" + " "
  {
    var x := LocationString(("DRAG", Empty));
    DragLocationString();
    assert Map([("DRAG", Empty)], LocationString) == [x];
    OrderSingle(x);
    assert Spaced([x]) == x + " " + Spaced([]);
  }

  lemma DragLocationString()
    ensures LocationString(("DRAG", Empty)) == "[DRAG, ]"
  {
    assert Raws(Empty) == [];
    assert TagSets.ToString(Empty) == [];
  }

  lemma OrderSingle(x: String)
    ensures OrderLocations([x]) == [x]
  {
    var ordered := OrderLocations([x]);
    assert multiset(ordered) == multiset{x};
    assert |ordered| == 1;
    assert ordered[0] in multiset(ordered);
  }

  lemma TrimDragLine()
    ensures Trim("== " + "[DRAG, ]" + " ") == EmptyRendering
  {
    var line := "== " + "[DRAG, ]" + " ";
    assert line == "== [DRAG, ] ";
    assert TrimStart(line) == line;
    assert IsWhite(line[|line| - 1]);
    assert line[..|line| - 1] == EmptyRendering;
    assert TrimEnd(EmptyRendering) == EmptyRendering;
  }
}
