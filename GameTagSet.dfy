// The tag set: a list of tags kept sorted by raw text, and its resolution
// of sugar, one sugar tag at a time.

module TagSets {
  import opened Base
  import opened Str
  import opened Tags
  import Lists

  function Raw(t: Tag): String { t.raw }

  function Id(s: String): String { s }

  /** A tag set holds its tags sorted by raw text; duplicates are kept. */
  type TagSet = s: seq<Tag> | SortedBy(s, Raw)

  /** A tag is its raw text: two tags with the same raw text are the same tag. */
  lemma RawInjective()
    ensures Injective(Raw)
  {
    forall x: Tag, y: Tag | Raw(x) == Raw(y) ensures x == y {
      assert Parse(x.raw) == Ok(x) && Parse(y.raw) == Ok(y);
    }
  }

  lemma IdInjective()
    ensures Injective(Id)
  {
  }

  /** The constructor: the tags sorted by raw text. */
  function MakeSet(tags: seq<Tag>): (r: TagSet)
    ensures multiset(r) == multiset(tags) && |r| == |tags|
  {
    SortBy(tags, Raw)
  }

  /**
   * The constructor from raw texts: each is parsed, then the tags are
   * sorted.  It succeeds exactly when every text parses, with one tag per
   * text (the same texts, counted); otherwise it fails with the error of
   * the first text that does not parse.
   */
  function FromStrings(raws: seq<String>): (r: Result<TagSet>)
    ensures r.Ok? ==> |r.value| == |raws| && multiset(Raws(r.value)) == multiset(raws)
    ensures r.Ok? ==> forall x :: x in r.value ==> x.raw in raws
    ensures r.Ok? <==> AllParse(raws)
    ensures r.Err? ==> FirstFailure(raws, r.error)
  {
    match ParseAll(raws)
    case Err(e) =>
      ParseAllFirstError(raws);
      Err(e)
    case Ok(tags) =>
      var s := MakeSet(tags);
      assert forall i :: 0 <= i < |raws| ==> Parse(raws[i]) == Ok(tags[i]);
      Lists.MapPermutation(s, tags, Raw);
      assert Raws(s) == Lists.Map(s, Raw);
      assert raws == Lists.Map(tags, Raw);
      assert forall x :: x in s ==> x.raw in multiset(Raws(s));
      Ok(s)
  }

  /** Every text parses. */
  predicate AllParse(raws: seq<String>)
  {
    forall i :: 0 <= i < |raws| ==> Parse(raws[i]).Ok?
  }

  /** `e` is the error of the first text that does not parse. */
  predicate FirstFailure(raws: seq<String>, e: Error)
  {
    exists i :: 0 <= i < |raws| && Parse(raws[i]) == Err(e) &&
                (forall j :: 0 <= j < i ==> Parse(raws[j]).Ok?)
  }

  const Empty: TagSet := []

  /** `Contains(tag)`: tag equality, which is raw-text equality. */
  predicate Contains(s: TagSet, t: Tag)
  {
    t in s
  }

  /** `Contains(string)`: some tag has exactly this raw text. */
  predicate ContainsRaw(s: TagSet, raw: String)
  {
    exists i :: 0 <= i < |s| && s[i].raw == raw
  }

  /** The two `Contains` agree. */
  lemma ContainsRawIff(s: TagSet, t: Tag)
    ensures ContainsRaw(s, t.raw) <==> Contains(s, t)
  {
    RawInjective();
    if ContainsRaw(s, t.raw) {
      var i :| 0 <= i < |s| && s[i].raw == t.raw;
      assert Raw(s[i]) == Raw(t);
    }
  }

  /** The raw texts of a list of tags, in order. */
  function Raws(s: seq<Tag>): (r: seq<String>)
    ensures |r| == |s| && forall i :: 0 <= i < |s| ==> r[i] == s[i].raw
  {
    seq(|s|, i requires 0 <= i < |s| => s[i].raw)
  }

  /** `ToList`: the raw texts, sorted. */
  function ToList(s: TagSet): (r: seq<String>)
    ensures |r| == |s|
  {
    SortBy(Raws(s), Id)
  }

  /** Since the set is already sorted by raw text, `ToList` lists the raw texts in set order. */
  lemma ToListRaws(s: TagSet)
    ensures ToList(s) == Raws(s)
  {
    var rs := Raws(s);
    assert SortedBy(rs, Id) by {
      forall i, j | 0 <= i < j < |rs| ensures LessEq(Id(rs[i]), Id(rs[j])) {
        assert LessEq(Raw(s[i]), Raw(s[j]));
      }
    }
    IdInjective();
    SortSorted(rs, Id);
  }

  /** `ToString`: the sorted raw texts joined with `;`. */
  function ToString(s: TagSet): (r: String)
    ensures r == Join(Raws(s), ";")
  {
    ToListRaws(s);
    Join(ToList(s), ";")
  }

  /** `Equals`: equal counts, and equal sorted raw texts position by position. */
  predicate Equals(a: TagSet, b: TagSet)
  {
    |a| == |b| && forall i :: 0 <= i < |a| ==> ToList(a)[i] == ToList(b)[i]
  }

  /** Two tag lists with the same raw texts are the same list. */
  lemma {:induction false} RawsInjective(a: seq<Tag>, b: seq<Tag>)
    requires Raws(a) == Raws(b)
    ensures a == b
  {
    RawInjective();
    assert |a| == |b|;
    forall i | 0 <= i < |a| ensures a[i] == b[i] {
      assert Raw(a[i]) == Raws(a)[i] == Raws(b)[i] == Raw(b[i]);
    }
  }

  /** Set equality is order-insensitive: it holds exactly when both hold the same tags, counted. */
  lemma {:induction false} EqualsIff(a: TagSet, b: TagSet)
    ensures Equals(a, b) <==> multiset(a) == multiset(b)
  {
    ToListRaws(a);
    ToListRaws(b);
    if Equals(a, b) {
      assert Raws(a) == Raws(b);
      RawsInjective(a, b);
    }
    if multiset(a) == multiset(b) {
      RawInjective();
      SortedUnique(a, b, Raw);
    }
  }

  /** Equality of tag sets is identity of their sorted lists. */
  lemma EqualsIsIdentity(a: TagSet, b: TagSet)
    ensures Equals(a, b) <==> a == b
  {
    if Equals(a, b) {
      ToListRaws(a);
      ToListRaws(b);
      assert Raws(a) == Raws(b);
      RawsInjective(a, b);
    }
  }

  /** Building a set from any ordering of the same tags gives the same set. */
  lemma MakeSetPermutation(s: seq<Tag>, t: seq<Tag>)
    ensures MakeSet(s) == MakeSet(t) <==> multiset(s) == multiset(t)
  {
    RawInjective();
    SortPermutationEqual(s, t, Raw);
  }

  /** A set of sorted tags is its own constructor's result. */
  lemma MakeSetSorted(s: TagSet)
    ensures MakeSet(s) == s
  {
    RawInjective();
    SortSorted(s, Raw);
  }

  /** Parsing the raw texts of tags gives back those tags. */
  lemma {:induction false} ParseAllRaws(s: seq<Tag>)
    ensures ParseAll(Raws(s)) == Ok(s)
  {
    if s != [] {
      var rs := Raws(s);
      ParseAllRaws(s[1..]);
      assert rs[1..] == Raws(s[1..]);
      ParseTagRaw(s[0]);
      assert ParseTag(rs[0]) == Ok(s[0]) && ParseAll(rs[1..]) == Ok(s[1..]);
      assert ParseAll(rs) == Ok([s[0]] + s[1..]);
      assert s == [s[0]] + s[1..];
    }
  }

  lemma ParseTagRaw(t: Tag)
    ensures ParseTag(t.raw) == Ok(t)
  {
    assert Parse(t.raw) == Ok(t);
  }

  /** Building a set from the raw texts `ToList` gives back the set. */
  lemma FromStringsToList(s: TagSet)
    ensures FromStrings(ToList(s)) == Ok(s)
  {
    ToListRaws(s);
    ParseAllRaws(s);
    MakeSetSorted(s);
  }

  predicate HasSugar(s: seq<Tag>)
  {
    exists i :: 0 <= i < |s| && ContainsSugar(s[i])
  }

  /**
   * `ReplaceTag`: every tag equal to `oldTag` removed, `newTag` added once, the
   * other tags kept.
   */
  function ReplaceTag(oldTag: Tag, newTag: Tag, tags: seq<Tag>): (r: TagSet)
    ensures forall x :: multiset(r)[x] == (if x == oldTag then 0 else multiset(tags)[x]) + (if x == newTag then 1 else 0)
  {
    var kept := Where(tags, (t: Tag) => t != oldTag);
    MakeSet(kept + [newTag])
  }

  /** `ConcatSet`: the match tag, the context and the cost, sorted together. */
  function ConcatSet(m: Tag, context: TagSet, cost: TagSet): (r: TagSet)
    ensures |r| == 1 + |context| + |cost|
    ensures multiset(r) == multiset{m} + multiset(context) + multiset(cost)
  {
    MakeSet([m] + context + cost)
  }

  /** The position of the first tag with sugar, or -1. */
  function FirstSugar(s: seq<GameTag>): (r: int)
    ensures -1 <= r < |s|
    ensures r == -1 ==> forall i :: 0 <= i < |s| ==> !ContainsSugar(s[i])
    ensures r >= 0 ==> ContainsSugar(s[r]) && forall j :: 0 <= j < r ==> !ContainsSugar(s[j])
  {
    FirstSugarFrom(s, 0)
  }

  function FirstSugarFrom(s: seq<GameTag>, i: nat): (r: int)
    requires i <= |s|
    ensures r == -1 || i <= r < |s|
    ensures r == -1 ==> forall j :: i <= j < |s| ==> !ContainsSugar(s[j])
    ensures r >= 0 ==> ContainsSugar(s[r]) && forall j :: i <= j < r ==> !ContainsSugar(s[j])
    decreases |s| - i
  {
    if i == |s| then -1
    else if ContainsSugar(s[i]) then i
    else FirstSugarFrom(s, i + 1)
  }

  /**
   * `ResolveSyntax` on a set: an iterator. The first sugar tag is resolved
   * against the pool, and each tag it yields replaces it in turn; a
   * resulting set that still has sugar is resolved before the next tag is
   * taken, depth first. An exception stops everything after the sets
   * yielded so far. The engine's recursion need not terminate, so the model
   * takes a fuel bound and stops with Diverged when it runs out.
   */
  function ResolveSyntax(s: TagSet, pool: seq<Tag>, fuel: nat): (r: Yielded<TagSet>)
    ensures forall x :: x in r.items ==> !HasSugar(x)
  {
    ResolveSet(s, (t: Tag) => ResolveTag(t, pool), fuel)
  }

  /** The set resolution, for any iterator `resolve` of the tags one tag stands for. */
  function ResolveSet(s: TagSet, resolve: Tag -> Yielded<Tag>, fuel: nat): (r: Yielded<TagSet>)
    ensures SugarFree(r)
    decreases fuel, 0
  {
    var k := FirstSugar(s);
    if k == -1 then Yielded([], None)
    else if fuel == 0 then Yielded([], Some(Diverged))
    else ResolveEach(s, s[k], resolve(s[k]), resolve, fuel - 1)
  }

  /**
   * The sets that each tag `resolved` yields leads to, in order; the
   * exception that stops `resolved` comes after all of them.
   */
  function ResolveEach(s: TagSet, t: Tag, resolved: Yielded<Tag>, resolve: Tag -> Yielded<Tag>, fuel: nat): (r: Yielded<TagSet>)
    ensures SugarFree(r)
    decreases fuel, 1, |resolved.items|
  {
    if resolved.items == [] then Yielded([], resolved.stop)
    else
      var next := ReplaceTag(t, resolved.items[0], s);
      var head := if HasSugar(next) then ResolveSet(next, resolve, fuel) else Yielded([next], None);
      var rest := ResolveEach(s, t, Yielded(resolved.items[1..], resolved.stop), resolve, fuel);
      ThenSugarFree(head, rest);
      head.Then(rest)
  }

  /** Every set an iterator yields is free of sugar. */
  predicate SugarFree(y: Yielded<TagSet>)
  {
    forall x :: x in y.items ==> !HasSugar(x)
  }

  lemma ThenSugarFree(a: Yielded<TagSet>, b: Yielded<TagSet>)
    requires SugarFree(a) && SugarFree(b)
    ensures SugarFree(a.Then(b))
  {
  }

  /** A set without sugar resolves to nothing. */
  lemma ResolveSugarFree(s: TagSet, resolve: Tag -> Yielded<Tag>, fuel: nat)
    requires !HasSugar(s)
    ensures ResolveSet(s, resolve, fuel) == Yielded([], None)
  {
  }

  /** The sets that each resolved tag gives when it replaces `t`. */
  function Replacements(s: TagSet, t: Tag, resolved: seq<Tag>): (r: seq<TagSet>)
    ensures |r| == |resolved|
  {
    if resolved == [] then []
    else [ReplaceTag(t, resolved[0], s)] + Replacements(s, t, resolved[1..])
  }

  /**
   * Only the first sugar tag is expanded: when every replacement of it is
   * sugar-free, the result is those replacements, in the order the tag
   * resolved, and the tag's own exception, if any, comes after them.
   */
  lemma {:induction false} ResolveFirstOnly(s: TagSet, resolve: Tag -> Yielded<Tag>, fuel: nat)
    requires FirstSugar(s) >= 0 && fuel > 0
    requires FlatReplacements(s, s[FirstSugar(s)], resolve(s[FirstSugar(s)]).items)
    ensures ResolveSet(s, resolve, fuel)
         == Yielded(Replacements(s, s[FirstSugar(s)], resolve(s[FirstSugar(s)]).items), resolve(s[FirstSugar(s)]).stop)
  {
    var f: nat := fuel - 1;
    ResolveSetUnfold(s, resolve, f);
    assert f + 1 == fuel;
    var y := resolve(s[FirstSugar(s)]);
    ResolveEachFlat(s, s[FirstSugar(s)], y.items, y.stop, resolve, f);
    assert Yielded(y.items, y.stop) == y;
  }

  /** Every set obtained by putting one of `resolved` in place of `t` is sugar-free. */
  predicate FlatReplacements(s: TagSet, t: Tag, resolved: seq<Tag>)
  {
    resolved == [] || (!HasSugar(ReplaceTag(t, resolved[0], s)) && FlatReplacements(s, t, resolved[1..]))
  }

  /** One step of the set resolution: the first sugar tag's iterator, replacement by replacement. */
  lemma ResolveSetUnfold(s: TagSet, resolve: Tag -> Yielded<Tag>, fuel: nat)
    requires FirstSugar(s) >= 0
    ensures ResolveSet(s, resolve, fuel + 1) == ResolveEach(s, s[FirstSugar(s)], resolve(s[FirstSugar(s)]), resolve, fuel)
  {
  }

  lemma {:induction false} ResolveEachFlat(s: TagSet, t: Tag, resolved: seq<Tag>, stop: Option<Error>, resolve: Tag -> Yielded<Tag>, fuel: nat)
    requires FlatReplacements(s, t, resolved)
    ensures ResolveEach(s, t, Yielded(resolved, stop), resolve, fuel) == Yielded(Replacements(s, t, resolved), stop)
    decreases |resolved|
  {
    if resolved != [] {
      ResolveEachFlat(s, t, resolved[1..], stop, resolve, fuel);
      assert Yielded(resolved, stop).items[1..] == resolved[1..];
    }
  }

  /** Two tag sets with the same tags, counted, are the same set. */
  lemma SameTags(a: TagSet, b: TagSet)
    requires multiset(a) == multiset(b)
    ensures a == b
  {
    RawInjective();
    SortedUnique(a, b, Raw);
  }

  /**
   * A first sugar tag that occurs once and resolves to itself, as the
   * fall-through branch of tag resolution does, gives back the same set
   * forever: the resolution never ends.
   */
  lemma {:induction false} ResolveDiverges(s: TagSet, resolve: Tag -> Yielded<Tag>, fuel: nat)
    requires FirstSugar(s) >= 0
    requires resolve(s[FirstSugar(s)]) == Yielded([s[FirstSugar(s)]], None)
    requires multiset(s)[s[FirstSugar(s)]] == 1
    ensures ResolveSet(s, resolve, fuel) == Yielded([], Some(Diverged))
  {
    if fuel > 0 {
      var f: nat := fuel - 1;
      var t := s[FirstSugar(s)];
      ReplaceSelf(t, s);
      assert HasSugar(s);
      ResolveDiverges(s, resolve, f);
      ResolveEachHeadStops(s, t, Yielded([t], None), resolve, f);
      ResolveSetUnfold(s, resolve, f);
      assert f + 1 == fuel;
    }
  }

  /** Replacing a tag that occurs once by itself leaves the set as it was. */
  lemma ReplaceSelf(t: Tag, s: TagSet)
    requires multiset(s)[t] == 1
    ensures ReplaceTag(t, t, s) == s
  {
    var r := ReplaceTag(t, t, s);
    forall x
      ensures multiset(r)[x] == multiset(s)[x]
    {
    }
    assert multiset(r) == multiset(s);
    SameTags(r, s);
  }

  /**
   * A first replacement whose own resolution stops, with an exception or
   * for lack of fuel, stops the whole step the same way: the later tags of
   * the iterator are never looked at.
   */
  lemma ResolveEachHeadStops(s: TagSet, t: Tag, resolved: Yielded<Tag>, resolve: Tag -> Yielded<Tag>, fuel: nat)
    requires resolved.items != [] && HasSugar(ReplaceTag(t, resolved.items[0], s))
    requires ResolveSet(ReplaceTag(t, resolved.items[0], s), resolve, fuel).stop.Some?
    ensures ResolveEach(s, t, resolved, resolve, fuel) == ResolveSet(ReplaceTag(t, resolved.items[0], s), resolve, fuel)
  {
  }
}
