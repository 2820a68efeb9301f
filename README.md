# Nolan narrative engine — a verified Dafny model

Nolan compiles a plain-text interactive-fiction script into *tapes*. A tape holds an initial world state (a *stat*), a rule book and a text book. During play, rules and dialogue routes turn the world state into new states. This project models the engine's core, from the tag grammar up to the script builder, and proves what each operation promises.

- **Game tags** (`Tags`, `TagLemmas`, `TagResolution`, `TagExamples`).
  - A tag token is parsed into parts:
    - a `?`/`!` operation prefix;
    - a `<LOCATION>` suffix;
    - a 16-bit meter: a trailing number, `a..b`, a trailing `..`, `++n`/`--n`, `<=n` or `>=n`.
  - Sugar (a `*` joker, a step, a comparison, a range) is resolved against a pool of concrete tags.
- **Tag sets** (`TagSets`): sorted lists of tags, raw-string equality, `ReplaceTag` and `ConcatSet`. Sugar expansion goes leftmost-first and depth-first.
- **World state** (`Stats`):
  - a list of (location, tag set) pairs;
  - the case-insensitive indexer;
  - `Apply`, which folds Remove/Append/Goto operations over a copy;
  - the canonical rendering that decides equality.
- **Rules and stitches** (`Rules`, `Stitches`).
  - Acceptance checks match, cost, gain, context and payload against a stat. It either rejects or emits an ordered list of operations.
  - Rule descriptions and rendering.
  - Sugar expansion of a rule into a rule book, which only appends.
- **Dialogue routes** (`Routes`, `RouteGraph`).
  - `RouteKnot` is the hierarchical cursor that turns hyphen depths into names such as `TALK-2-1-0`.
  - The route-line constructor.
  - Filtering and dead ends.
  - Assembly of route nodes with stitch edges and gotos.
- **Texts** (`TextBooks`, `TextDatas`):
  - the mutable text book that splits lines into signals and sequences and hands out keys;
  - its read-only indexer;
  - the round-robin text data;
  - the text formatter.
- **Script compilation** (`ScriptLines`, `Builder`):
  - classification of lines by their doubled opener, and merging of continuation lines;
  - `Build` with its parts, tapes and routes;
  - `Compute`, which labels accepted rules by their description.
- **Play state** (`ScriptData`): the `Transient` scene/stat/text stacks, with `Push` and `Undo`.

Shared definitions live in `Base` (Option/Result, the error kinds and contexts, 16-bit integers), `Str` (ordinal string operations, ASCII case folding, sorting) and `Lists` (sequence helpers).

Exceptions are modelled as `Result` values.
- `Script(kind)` stands for the engine's own exceptions.
- `Contextual(kind, context)` is an engine exception of any kind together with the phase that raised it: a syntax error while building a part of the script, or the text indexer's `OutOfRange` and `KeyNotFound` at lookup.
- `Runtime(kind)` stands for .NET exceptions (a missing dictionary key, an index out of range, a duplicate key).
- `Diverged` reports that the fuel bound on tag-set expansion ran out.

The engine's stateful objects are classes whose methods are proved against specification functions:
- `RouteKnot`;
- `MutableTextBook`;
- `ScriptBuilder`;
- `Transient`.

The engine's loops are `while` loops with invariants, proved against recursive specifications (acceptance, `Apply`, the text-data constructor, the route builder and more).

## Model

| member | source | states |
|---|---|---|
| Base.Wrap16 | src/Core/Nolan/GameTag.cs:252 | the `(short)` cast lands in the 16-bit range and keeps every value already in it |
| Base.Wrap16Congruent | src/Core/Nolan/GameTag.cs:252 | the cast differs from its argument by a multiple of 65536: one past the largest value wraps to the smallest and one below the smallest to the largest |
| Tags.Parse | src/Core/Nolan/GameTag.cs:61-140 | the tag constructor as a function of the raw text; a parsed tag keeps its raw text |
| Tags.ParseTag | src/Core/Nolan/GameTag.cs:61-140 | succeeds exactly when `Parse` does, yielding the same tag with the same raw text, and fails with the same error otherwise |
| Tags.ParseMeter | src/Core/Nolan/GameTag.cs:94-140 | the value left once the meter syntax is removed is a prefix of the value; the lemmas `TagLemmas.PlusMarker`, `MinusMarker`, `LowerMarker`, `GreaterMarker`, `OpenRangeMarker` and `RangeMarker` state each case |
| Tags.NewTag | src/Core/Nolan/GameTag.cs:61-140 | the constructor, step by step (location, then prefix, then meter), yields exactly `Parse(raw)` |
| Tags.ExtractMeter | src/Core/Nolan/GameTag.cs:94-140 | the meter part of the constructor, with its branches on `..`, `++`, `--`, `<=`, `>=`, yields exactly `ParseMeter` |
| Tags.ExtractNumberValue | src/Core/Nolan/GameTag.cs:175-203 | the backward walk over trailing digits, with one optional `-` and Min on a parse failure, equals `NumberValue` |
| Tags.ExtractNumberRange | src/Core/Nolan/GameTag.cs:205-231 | the backward walk before `..` and the two short parses (both Max on failure) equal `NumberRange` |
| Tags.ToString | src/Core/Nolan/GameTag.cs:273-276 | `ToString` is the raw text, and re-parsing it gives back the same tag |
| Tags.Equals | src/Core/Nolan/GameTag.cs:278-291 | comparing raw texts is exactly equality of tags |
| Tags.JokerMatches | src/Core/Nolan/GameTag.cs:316-336 | a pool tag is kept exactly when it starts (prefix joker) and ends (suffix joker) with the text around `*`, ignoring case |
| Tags.JokerHasStar | src/Core/Nolan/GameTag.cs:309-318 | each joker shape (`.*.`, trailing `.*`, leading `*.`) has a `*`, so `IndexOf('*')` finds it |
| Tags.ParseEach | src/Core/Nolan/GameTag.cs:376-386 | an iterator constructing one tag per raw text: the tags yielded keep their texts in order, all texts are used when nothing is thrown, and an exception is the parse error of the first text not yielded |
| Tags.ParseAllFirstError | src/Core/Nolan/GameTagSet.cs:45-48 | parsing a list of texts fails with the error of the first text that does not parse, every text before it parsing |
| Tags.ParseAll | src/Core/Nolan/GameTagSet.cs:45-48 | parsing raw texts one by one: on success one tag per text, in order, each keeping its text; succeeds when every text parses |
| TagLemmas.ParseAffixes | src/Core/Nolan/GameTag.cs:63-92 | a raw text built from a `?`/`!` prefix, a body and a `<location>` parses to that operation, that location and the body's meter |
| TagLemmas.LocationSuffix | src/Core/Nolan/GameTag.cs:68-75 | the suffix from the last `<` to the last `>` is split off exactly as it was appended |
| TagLemmas.PrefixSplits | src/Core/Nolan/GameTag.cs:77-92 | a leading `?` gives SucceedIfPresent, `!` gives FailedIfPresent, and the prefix is stripped; anything else is RemoveOrAppend |
| TagLemmas.ValueStart | src/Core/Nolan/GameTag.cs:61-140 | a parsed tag's value is a contiguous piece of its raw text |
| TagLemmas.PlusMarker | src/Core/Nolan/GameTag.cs:98-101 | `x++n` has value `x`, step n (1 when there is no number) and meter value Max |
| TagLemmas.MinusMarker | src/Core/Nolan/GameTag.cs:102-105 | `x--n` has value `x`, step -n (-1 when there is no number) and meter value Max |
| TagLemmas.LowerMarker | src/Core/Nolan/GameTag.cs:106-111 | `x<=n` has value `x`, end n, step Min and meter value Max |
| TagLemmas.GreaterMarker | src/Core/Nolan/GameTag.cs:112-117 | `x>=n` has value `x`, start n, step Max and meter value Max |
| TagLemmas.OpenRangeMarker | src/Core/Nolan/GameTag.cs:127-132 | a trailing `..` is stripped and gives meter (Min, Max, Min, 0) |
| TagLemmas.RangeMarker | src/Core/Nolan/GameTag.cs:133-140 | `x a..c` (numbers after a non-digit, non-dash) gives value `x` and meter (a, c) |
| TagLemmas.RangeNumbersAt | src/Core/Nolan/GameTag.cs:205-231 | the range extraction reads back `a` before the `..` (with its sign) and `c` after it, cutting the value before `a` |
| TagLemmas.TrailingNumber | src/Core/Nolan/GameTag.cs:175-203 | a numeral n written after a non-digit, non-dash character is read back as n |
| TagLemmas.NoTrailingNumber | src/Core/Nolan/GameTag.cs:184-188 | an empty value, one not ending in a digit, or one of digits only has meter value Min |
| TagLemmas.PlainNumber | src/Core/Nolan/GameTag.cs:175-203 | a plain name followed by a numeral has that number as meter value |
| TagLemmas.PlainMeter | src/Core/Nolan/GameTag.cs:118-125 | a plain name followed by a numeral n keeps its text, with meter (Min, Max, n, 0) |
| TagLemmas.StepIsNotMeter | src/Core/Nolan/GameTag.cs:297-299 | a non-zero step implies meter value Max, so an increment, decrement or comparison tag is never meter syntax |
| TagResolution.ResolveSugarFree | src/Core/Nolan/GameTag.cs:301-307 | a tag without sugar resolves to exactly itself |
| TagResolution.ResolveFallThrough | src/Core/Nolan/GameTag.cs:376-433 | a sugar tag that no branch handles falls through to itself |
| TagResolution.JokerForced | src/Core/Nolan/GameTag.cs:314-336 | when the joker matches, the iterator constructs the matches in pool order, each forced to this tag's location and prefix, and stops at the first that fails to parse, after the tags before it |
| TagResolution.JokerNoMatch | src/Core/Nolan/GameTag.cs:340-373 | a joker that matches nothing, in a value without two distinct dots, yields nothing |
| TagResolution.ParseEachComplete | src/Core/Nolan/GameTagSet.cs:45-48 | building a list from raw texts succeeds with exactly the tags the lazy iterator yields when it ends without exception, and otherwise fails with that exception |
| TagResolution.IncrementResults | src/Core/Nolan/GameTag.cs:376-386 | the targets are exactly the meter pool tags starting with this value ignoring case; the iterator constructs, in order, each target's numeral replaced by numeral + step with this location and prefix, and stops at the first that fails to parse, after the tags before it |
| TagResolution.StepSingleTarget | src/Core/Nolan/GameTag.cs:376-386 | with one matching target, the iterator constructs exactly that target incremented |
| TagResolution.ParseEachSingle | src/Core/Nolan/GameTag.cs:273-291 | re-parsing a tag's raw text yields that tag and ends without exception |
| TagResolution.IncrementNoMatch | src/Core/Nolan/GameTag.cs:376-386 | an increment with no matching meter tag yields nothing |
| TagResolution.ComparisonFilters | src/Core/Nolan/GameTag.cs:389-401 | `>=`/`<=` yields exactly the pool tags with this prefix, meter syntax and a value at least start / at most end |
| TagResolution.RangeFilters | src/Core/Nolan/GameTag.cs:404-416 | a range yields exactly the pool tags with this prefix and a meter value above Min within [start, end] |
| TagResolution.OpenRangeFilters | src/Core/Nolan/GameTag.cs:419-429 | an open range `x..` yields exactly the meter pool tags starting with this value |
| TagResolution.FiltersKeepPoolTags | src/Core/Nolan/GameTag.cs:389-416 | comparison and range resolution only filter: every result is an unchanged pool tag |
| TagExamples.GoldPlain | src/Core/Nolan/GameTag.cs:118-125 | `gold.n` parses with meter value n |
| TagExamples.GoldPlus | src/Core/Nolan/GameTag.cs:98-101 | `gold.++` parses to value `gold.` with step 1 |
| TagExamples.GoldIncrement | src/Core/Nolan/GameTag.cs:376-386 | `gold.++` against the pool {`gold.5`} yields exactly `gold.6` and ends without exception |
| TagSets.MakeSet | src/Core/Nolan/GameTagSet.cs:36-39 | the set constructor keeps every tag, duplicates included: same length and same tags counted; sorted by raw text |
| TagSets.FromStrings | src/Core/Nolan/GameTagSet.cs:45-48 | the constructor from raw texts succeeds exactly when every text parses, with one tag per text (the same texts, counted, sorted); otherwise it fails with the error of the first text that does not parse |
| TagSets.MakeSetPermutation | src/Core/Nolan/GameTagSet.cs:36-39 | two lists give the same set exactly when they hold the same tags counted, whatever their order |
| TagSets.MakeSetSorted | src/Core/Nolan/GameTagSet.cs:36-39 | building a set from a set's own list gives the same set |
| TagSets.ContainsRawIff | src/Core/Nolan/GameTagSet.cs:55-68 | `Contains(raw)` of a tag's raw text holds exactly when `Contains(tag)` does |
| TagSets.ToListRaws | src/Core/Nolan/GameTagSet.cs:69-72 | `ToList` is the raw texts in the set's (already sorted) order |
| TagSets.ToString | src/Core/Nolan/GameTagSet.cs:96-99 | the raw texts joined with `;` |
| TagSets.EqualsIff | src/Core/Nolan/GameTagSet.cs:106-118 | two sets are `Equals` exactly when they hold the same tags counted, whatever order they were built in |
| TagSets.EqualsIsIdentity | src/Core/Nolan/GameTagSet.cs:106-118 | `Equals` is equality of the sorted lists |
| TagSets.RawsInjective | src/Core/Nolan/GameTagSet.cs:106-118 | equal sorted raw texts mean equal tag lists |
| TagSets.ParseAllRaws | src/Core/Nolan/GameTagSet.cs:45-72 | re-parsing the raw texts of a list of tags gives that list |
| TagSets.FromStringsToList | src/Core/Nolan/GameTagSet.cs:45-72 | a set rebuilt from its `ToList` is the same set |
| TagSets.ReplaceTag | src/Core/Nolan/GameTagSet.cs:167-172 | every copy of the old tag removed, the new tag added once, every other tag kept, counted |
| TagSets.ReplaceSelf | src/Core/Nolan/GameTagSet.cs:167-172 | replacing a tag held once by itself gives the same set |
| TagSets.ConcatSet | src/Core/Nolan/GameTagSet.cs:174-180 | the match tag plus every context and cost tag: size 1 + the two sizes, and exactly those tags counted |
| TagSets.FirstSugar | src/Core/Nolan/GameTagSet.cs:141-145 | the first sugar-bearing member in sorted order, or -1 exactly when there is none |
| TagSets.ResolveSyntax | src/Core/Nolan/GameTagSet.cs:139-165 | every set the lazy expansion yields, before any exception it throws, is free of sugar |
| TagSets.ResolveSet | src/Core/Nolan/GameTagSet.cs:139-165 | with any single-tag resolver, every set the lazy expansion yields is free of sugar |
| TagSets.ResolveEach | src/Core/Nolan/GameTagSet.cs:147-160 | the loop over one tag's resolutions expands each replacement set fully before the next resolution, and yields only sugar-free sets |
| TagSets.ResolveSugarFree | src/Core/Nolan/GameTagSet.cs:139-165 | a set without sugar yields nothing |
| TagSets.ResolveFirstOnly | src/Core/Nolan/GameTagSet.cs:141-162 | only the first sugar-bearing member is expanded: when its replacements are all sugar-free, the result is one set per resolved tag, in order, followed by the resolver's exception if it threw one |
| TagSets.ResolveSetUnfold | src/Core/Nolan/GameTagSet.cs:141-162 | expanding a set is the loop over its first sugar-bearing member's resolutions |
| TagSets.ResolveEachFlat | src/Core/Nolan/GameTagSet.cs:155-158 | sugar-free replacement sets are yielded as they are, in order, and the resolver's exception comes after them |
| TagSets.ResolveEachHeadStops | src/Core/Nolan/GameTagSet.cs:149-153 | a replacement set that still has sugar is expanded depth-first before the next resolution is drawn: when its expansion stops with an exception, the loop yields what it yielded and stops with that exception |
| TagSets.ResolveDiverges | src/Core/Nolan/GameTagSet.cs:149-153 | a sugar tag held once that resolves to itself makes the recursion run until the fuel is spent, yielding nothing |
| Stats.Get | src/Core/Nolan/Struct/Struct.Stat.cs:64-75 | the indexer: the first location whose name equals `name` ignoring case; `KeyNotFound` exactly when no location's name does |
| Stats.Lookup | src/Core/Nolan/Struct/Struct.Stat.cs:88 | `TryGetValue` on the working dictionary: nothing exactly when no entry has the key |
| Stats.LookupAt | src/Core/Nolan/Struct/Struct.Stat.cs:88 | on a dictionary with distinct keys, `TryGetValue` finds each entry's own list |
| Stats.ToDictionary | src/Core/Nolan/Struct/Struct.Stat.cs:79-82 | the copy into a dictionary succeeds exactly when the names are distinct (`DuplicateEntry` otherwise); then one entry per location, in order, holding its tags' raw texts |
| Stats.ApplyOp | src/Core/Nolan/Struct/Struct.Stat.cs:86-113 | one operation of the loop keeps the dictionary's keys distinct |
| Stats.Run | src/Core/Nolan/Struct/Struct.Stat.cs:84-114 | the whole loop keeps the dictionary's keys distinct |
| Stats.RunStops | src/Core/Nolan/Struct/Struct.Stat.cs:96 | once an operation throws, the loop's outcome is that error, whatever follows |
| Stats.RebuildNames | src/Core/Nolan/Struct/Struct.Stat.cs:116 | the new stat has the dictionary's names, in its order |
| Stats.Apply | src/Core/Nolan/Struct/Struct.Stat.cs:77-117 | the method (copy, loop over the operations, rebuild) yields exactly `ApplySpec`, the new stat or the error together with where the scene is left |
| Stats.ApplyStep | src/Core/Nolan/Struct/Struct.Stat.cs:86-113 | the loop body's branches compute `ApplyOp` |
| Stats.RemoveTagEffect | src/Core/Nolan/Struct/Struct.Stat.cs:86-98 | RemoveTag throws `KeyNotFound` exactly when the location is missing; otherwise every copy of the raw text leaves that location, which is dropped once empty; no other location changes and the scene stays |
| Stats.AppendTagEffect | src/Core/Nolan/Struct/Struct.Stat.cs:99-109 | AppendTag never fails: the tag goes at the end of the location, which is created when missing, without deduplication; no other location changes and the scene stays |
| Stats.GotoSceneEffect | src/Core/Nolan/Struct/Struct.Stat.cs:110-113 | GotoScene moves the scene and leaves every location as it was |
| Stats.RunPassive | src/Core/Nolan/Struct/Struct.Stat.cs:84-114 | a loop over operations none of which is RemoveTag, AppendTag or GotoScene changes neither the dictionary nor the scene |
| Stats.RebuildCopy | src/Core/Nolan/Struct/Struct.Stat.cs:79-116 | rebuilding the copied locations gives back the same stat (the raw texts parse back to the same tag sets) |
| Stats.ApplyPassive | src/Core/Nolan/Struct/Struct.Stat.cs:77-117 | `Apply` with only passive operations returns the same stat and leaves the scene as it was |
| Stats.OrderLocations | src/Core/Nolan/Struct/Struct.Stat.cs:134-147 | the location renderings reordered, none lost or added: DRAG ones after all others, the others in ordinal order |
| Stats.OrderLocationsPermutation | src/Core/Nolan/Struct/Struct.Stat.cs:134-147 | the ordering does not depend on the order of its input |
| Stats.EqualsIgnoresOrder | src/Core/Nolan/Struct/Struct.Stat.cs:123-165 | two stats holding the same locations in any order are `Equals` |
| Stats.EmptyEqualsEmptyDrag | src/Core/Nolan/Struct/Struct.Stat.cs:123-165 | the empty stat equals a stat whose only location is an empty DRAG, since both render alike |
| Stats.DragRender | src/Core/Nolan/Struct/Struct.Stat.cs:123-153 | a lone empty DRAG location renders as `== [DRAG, ]`, the empty stat's rendering |
| Rules.CollectSome | src/Core/Nolan/Struct/Struct.Rule.cs:231-409 | a phase that loops over tags accepts exactly when every tag's check does |
| Rules.CollectFrom | src/Core/Nolan/Struct/Struct.Rule.cs:231-409 | every operation a phase collects was emitted by the check of one of its tags |
| Rules.CollectTo | src/Core/Nolan/Struct/Struct.Rule.cs:231-409 | every operation a tag's check emits is in the phase's collection |
| Rules.CostStep | src/Core/Nolan/Struct/Struct.Rule.cs:238-266 | one cost tag yields operations exactly when it holds: plain and `?` tags present, `!` tags absent |
| Rules.CostOpsMeaning | src/Core/Nolan/Struct/Struct.Rule.cs:231-268 | the cost is paid exactly when every cost tag holds; every emitted operation targets the location checked, and every removal names a plain cost tag |
| Rules.CostLoop | src/Core/Nolan/Struct/Struct.Rule.cs:174-212 | the flag-driven cost loop, which stops at the first failing tag, computes `CostOps` |
| Rules.FirstFailingGain | src/Core/Nolan/Struct/Struct.Rule.cs:271-286 | the first gain tag that does not hold (it must append, and DRAG must not hold it yet): all before it hold, and it is past the end exactly when all hold |
| Rules.GainOpsMeaning | src/Core/Nolan/Struct/Struct.Rule.cs:271-286 | the gain phase accepts exactly when every gain tag holds, and throws a Rule `SyntaxError` exactly when the first failing tag's value is the raw text of a cost tag |
| Rules.GainLoop | src/Core/Nolan/Struct/Struct.Rule.cs:271-286 | the gain loop, returning or throwing at the first failing tag, computes `GainOps` |
| Rules.GainPrefixStops | src/Core/Nolan/Struct/Struct.Rule.cs:278-285 | once a prefix of the gain tags has stopped the phase, the later tags are never looked at |
| Rules.DragTagsHas | src/Core/Nolan/Struct/Struct.Rule.cs:229 | a value is among the DRAG tags exactly when some location keyed exactly `DRAG` holds it |
| Rules.Pairs | src/Core/Nolan/Struct/Struct.Rule.cs:299-301 | the nested loops visit each tag of a location paired with that location's name, in order |
| Rules.RangeScanMeaning | src/Core/Nolan/Struct/Struct.Rule.cs:297-330 | the scan of a comparison tag fails only for a `!` tag that hits some meter tag; otherwise its flag says whether any tag was hit |
| Rules.RangeOpsMeaning | src/Core/Nolan/Struct/Struct.Rule.cs:295-335 | a comparison context tag holds when, for `!`, nothing is hit and, for `?`, something is; a plain one always holds |
| Rules.RangeScanStops | src/Core/Nolan/Struct/Struct.Rule.cs:318-321 | once the scan has rejected, later tags do not change that |
| Rules.ScanTags | src/Core/Nolan/Struct/Struct.Rule.cs:301-329 | the inner loop over one location's tags extends the scan of the locations before it |
| Rules.RangeLoop | src/Core/Nolan/Struct/Struct.Rule.cs:295-335 | the nested loop over every location and tag computes `RangeOps` on all (name, tag) pairs |
| Rules.ChosenMeaning | src/Core/Nolan/Struct/Struct.Rule.cs:339-347 | the location a plain context tag is taken from holds its value and exists exactly when some location does; it is named like the scene's location whenever a holding location is; otherwise it is the first holding location |
| Rules.ChosenFound | src/Core/Nolan/Struct/Struct.Rule.cs:339-347 | a location is chosen exactly when some location holds the value, and the chosen one holds it |
| Rules.ChosenPrefersName | src/Core/Nolan/Struct/Struct.Rule.cs:343-346 | a holding location named like the scene's location (ignoring case) wins |
| Rules.ChosenFirstOtherwise | src/Core/Nolan/Struct/Struct.Rule.cs:343-346 | without such a location, the first holding location is kept |
| Rules.NoTagAll | src/Core/Nolan/Struct/Struct.Rule.cs:349-352 | a `!` context tag emits one absence assertion per location |
| Rules.NoTagAllAt | src/Core/Nolan/Struct/Struct.Rule.cs:349-352 | the absence assertions name each location in turn |
| Rules.PlainOpsMeaning | src/Core/Nolan/Struct/Struct.Rule.cs:339-382 | a plain or `?` context tag holds when some location holds it; a `!` tag when none does |
| Rules.PlainLoop | src/Core/Nolan/Struct/Struct.Rule.cs:339-382 | the loop over the locations for one plain context tag computes `PlainOps` |
| Rules.ContextOpsMeaning | src/Core/Nolan/Struct/Struct.Rule.cs:289-384 | the context phase holds exactly when every context tag does, each in the sense of its syntax |
| Rules.ContextLoop | src/Core/Nolan/Struct/Struct.Rule.cs:289-384 | the context loop, returning at the first tag that does not hold, computes `ContextOps` |
| Rules.PayloadOpsMeaning | src/Core/Nolan/Struct/Struct.Rule.cs:387-410 | the payload phase holds exactly when every payload tag appends and does not target DRAG; then each is appended at its own location or, without one, at the scene's location |
| Rules.PayloadTagLoop | src/Core/Nolan/Struct/Struct.Rule.cs:389-409 | the loop over the locations for one payload tag computes `PayloadStep` |
| Rules.PayloadLoop | src/Core/Nolan/Struct/Struct.Rule.cs:387-410 | the payload loop, returning at the first tag that does not hold, computes `PayloadOps` |
| Rules.AcceptInternalMeaning | src/Core/Nolan/Struct/Struct.Rule.cs:227-413 | `AcceptInternal` accepts exactly when every phase holds; it throws a Rule `SyntaxError` exactly when the drag cost holds and the first failing gain tag names a cost tag |
| Rules.AcceptInternalAccepts | src/Core/Nolan/Struct/Struct.Rule.cs:227-413 | the acceptance half of `AcceptInternalMeaning` |
| Rules.AcceptInternalThrows | src/Core/Nolan/Struct/Struct.Rule.cs:271-286 | the throwing half of `AcceptInternalMeaning` |
| Rules.AcceptInternal | src/Core/Nolan/Struct/Struct.Rule.cs:227-413 | the four loops in sequence compute `AcceptInternalSpec` |
| Rules.Accept | src/Core/Nolan/Struct/Struct.Rule.cs:136-225 | the method computes `AcceptSpec`: rejected without a location named like the scene, otherwise decided there |
| Rules.AcceptFound | src/Core/Nolan/Struct/Struct.Rule.cs:148-224 | the body after the scene's location is found computes `AcceptAt` |
| Rules.MatchMetas | src/Core/Nolan/Struct/Struct.Rule.cs:160-172 | the match tag's operations: go to its location if it names one, assert it, and remove it when plain |
| Rules.SceneFound | src/Core/Nolan/Struct/Struct.Rule.cs:140-146 | the search for the scene's location finds none exactly when no location is named like the scene, and otherwise the first one |
| Rules.AcceptScene | src/Core/Nolan/Struct/Struct.Rule.cs:140-146 | without such a location the rule is rejected; with one, only the first such location decides |
| Rules.AcceptAtMeaning | src/Core/Nolan/Struct/Struct.Rule.cs:148-224 | at the scene's location the rule is accepted exactly when the match tag is there and is not `!`, its cost holds and `AcceptInternal` accepts; the key is the rule's text key and the operations start with the match tag's; a missing or `!` match tag rejects; errors are Rule syntax errors |
| Rules.DescriptionSentence | src/Core/Nolan/Struct/Struct.Rule.cs:415-429 | a description is one sentence ending in `. ` with no other `.` in it, opening with `Poke the ` exactly when the rule has no cost and `Drag the ` otherwise |
| Rules.DragSentence | src/Core/Nolan/Struct/Struct.Rule.cs:419-426 | a rule with a cost is described as a drag sentence |
| Rules.SpokenWith | src/Core/Nolan/Struct/Struct.Rule.cs:417 | a `.` between two names is said as ` with ` between the two names as said |
| Rules.SpokenJoin | src/Core/Nolan/Struct/Struct.Rule.cs:421-423 | replacing dots after joining with a dot-free separator is joining the names with their dots replaced |
| Rules.DragDescription | src/Core/Nolan/Struct/Struct.Rule.cs:419-426 | a rule with a cost reads `Drag the C1 and C2 … onto the M. `, every cost tag's value and the match value with their dots said as ` with ` |
| Rules.DescriptionVerbatim | src/Core/Nolan/Struct/Struct.Rule.cs:415-429 | a match name without dots is quoted verbatim in a poke sentence |
| Rules.EqualsIgnoresKey | src/Core/Nolan/Struct/Struct.Rule.cs:494-503 | two rules are equal exactly when they differ at most in their text key |
| Rules.EqualsRender | src/Core/Nolan/Struct/Struct.Rule.cs:435-503 | equal rules render and describe alike |
| Rules.PoolChoices | src/Core/Nolan/Struct/Struct.Rule.cs:593-612 | every set yielded for a set resolved against a pool, before any exception, is free of sugar |
| Rules.PerLocation | src/Core/Nolan/Struct/Struct.Rule.cs:561-566 | the sets yielded location after location, each location's after the previous one's, are free of sugar |
| Rules.LocationChoices | src/Core/Nolan/Struct/Struct.Rule.cs:559-572 | every set yielded for a set resolved per location is free of sugar |
| Rules.FoldGrows | src/Core/Nolan/Struct/Struct.Rule.cs:523-647 | a loop of steps that each only append new rules whose context, cost, payload and gain sets carry no sugar only appends such rules |
| Rules.AddNewGrows | src/Core/Nolan/Struct/Struct.Rule.cs:624-627 | `Contains`-then-`Add` appends a rule only when no equal rule is there |
| Rules.ExpandPayloadGrows | src/Core/Nolan/Struct/Struct.Rule.cs:608-647 | `ResolvePayloadSyntax` only appends rules with no equal rule before them, whose context, cost, payload and gain sets carry no sugar, keeping the drag flag and text key; the match tag may keep sugar that tag resolution falls through on |
| Rules.ExpandCostGrows | src/Core/Nolan/Struct/Struct.Rule.cs:593-606 | so does `ResolveCostSyntax` |
| Rules.ExpandContextGrows | src/Core/Nolan/Struct/Struct.Rule.cs:575-591 | so does `ResolveContextSyntax` |
| Rules.ExpandMatchGrows | src/Core/Nolan/Struct/Struct.Rule.cs:557-573 | so does `ResolveMatchSyntax` |
| Rules.ExpandRuleMeaning | src/Core/Nolan/Struct/Struct.Rule.cs:523-555 | `ResolveSyntax` appends a rule without sugar as it is (even when an equal rule is present); otherwise it only appends new rules whose context, cost, payload and gain sets carry no sugar, keeping its drag flag and text key |
| Rules.ConsumeGrows | src/Core/Nolan/Struct/Struct.Rule.cs:523-647 | consuming an iterator whose every choice only appends new rules with sugar-free sets only appends such rules |
| Rules.ConsumeFirst | src/Core/Nolan/Struct/Struct.Rule.cs:529-535 | when expanding the first choice throws, the loop throws that, whatever the iterator would yield or throw later |
| Rules.MatchFirstLocation | src/Core/Nolan/Struct/Struct.Rule.cs:529-535 | the match tags resolved at the first location come first, in order, among the match choices |
| Rules.FirstMatchDecides | src/Core/Nolan/Struct/Struct.Rule.cs:523-546 | when expanding the first match choice of the first location throws, the rule's expansion throws that, before any later choice is resolved |
| Rules.FoldStops | src/Core/Nolan/Struct/Struct.Rule.cs:523-647 | an error in one step is the outcome of the whole expansion |
| Rules.ResolvePayloadSyntax | src/Core/Nolan/Struct/Struct.Rule.cs:608-647 | the method computes `ExpandPayload`: each choice the lazy iterator yields is expanded before the next is resolved, and an exception the iterator throws comes after the choices yielded before it |
| Rules.AddGains | src/Core/Nolan/Struct/Struct.Rule.cs:612-628 | the loop over gain choices adds each rule unless an equal one is there |
| Rules.ResolveCostSyntax | src/Core/Nolan/Struct/Struct.Rule.cs:593-606 | the method computes `ExpandCost`: each choice the lazy iterator yields is expanded before the next is resolved, and an exception the iterator throws comes after the choices yielded before it |
| Rules.ResolveContextSyntax | src/Core/Nolan/Struct/Struct.Rule.cs:575-591 | the method computes `ExpandContext`: each choice the lazy iterator yields is expanded before the next is resolved, and an exception the iterator throws comes after the choices yielded before it |
| Rules.ResolveMatchSyntax | src/Core/Nolan/Struct/Struct.Rule.cs:557-573 | the method computes `ExpandMatch`: each choice the lazy iterator yields is expanded before the next is resolved, and an exception the iterator throws comes after the choices yielded before it |
| Rules.ResolveRuleSyntax | src/Core/Nolan/Struct/Struct.Rule.cs:523-546 | the method computes `ExpandRule` on the rulebook it is given, expanding each match choice before the next is resolved |
| Stitches.Holders | src/Core/Nolan/Struct/Struct.Stitch.cs:97-116 | the indices of the locations holding a value, each a valid index |
| Stitches.HoldersMeaning | src/Core/Nolan/Struct/Struct.Stitch.cs:97-116 | the holders are exactly the locations holding the value, in increasing order |
| Stitches.HoldersCount | src/Core/Nolan/Struct/Struct.Stitch.cs:97-116 | no holder exactly when no location holds the value; one holder exactly when a single location does, and then it is that one |
| Stitches.GainStep | src/Core/Nolan/Struct/Struct.Stitch.cs:79-88 | one gain tag yields operations exactly when it appends and DRAG does not hold it yet |
| Stitches.StitchGainMeaning | src/Core/Nolan/Struct/Struct.Stitch.cs:77-89 | the stitch's gain phase holds exactly when every gain tag does, and then every gain tag is appended to DRAG |
| Stitches.StitchGainLoop | src/Core/Nolan/Struct/Struct.Stitch.cs:77-89 | the gain loop, returning at the first failing tag, computes `StitchGainOps` |
| Stitches.ContextTagMeaning | src/Core/Nolan/Struct/Struct.Stitch.cs:93-148 | a `!` context tag holds when no location other than DRAG holds it; a plain or `?` tag when exactly one does, and then it is asserted there |
| Stitches.ContextScan | src/Core/Nolan/Struct/Struct.Stitch.cs:97-116 | the scan over the locations reports a second holder exactly when there are two or more; otherwise the holder's name, and one absence assertion per location for a `!` tag |
| Stitches.ContextTagLoop | src/Core/Nolan/Struct/Struct.Stitch.cs:95-148 | the checks of one context tag compute `ContextTagOps` |
| Stitches.StitchContextMeaning | src/Core/Nolan/Struct/Struct.Stitch.cs:91-149 | the context phase holds exactly when every context tag does |
| Stitches.StitchContextLoop | src/Core/Nolan/Struct/Struct.Stitch.cs:91-149 | the context loop, returning at the first failing tag, computes `StitchContextOps` |
| Stitches.PayloadTagMeaning | src/Core/Nolan/Struct/Struct.Stitch.cs:153-170 | one payload tag holds exactly when it appends, names a location other than DRAG, and no location other than DRAG holds it |
| Stitches.PayloadTagLoop | src/Core/Nolan/Struct/Struct.Stitch.cs:153-170 | the checks of one payload tag compute `PayloadTagOps` |
| Stitches.StitchPayloadMeaning | src/Core/Nolan/Struct/Struct.Stitch.cs:151-171 | the payload phase holds exactly when every payload tag does, and then each is appended at its own location |
| Stitches.StitchPayloadLoop | src/Core/Nolan/Struct/Struct.Stitch.cs:151-171 | the payload loop, returning at the first failing tag, computes `StitchPayloadOps` |
| Stitches.StitchAcceptMeaning | src/Core/Nolan/Struct/Struct.Stitch.cs:34-175 | a stitch is accepted exactly when its cost and gain hold against DRAG and its context and payload against the other locations; then the key is the next knot and every gain and payload tag is appended |
| Stitches.NewStitchAccepts | src/Core/Nolan/Struct/Struct.Stitch.cs:34-175 | a stitch made from a key and a next knot alone is always accepted, with no operations |
| Stitches.Accept | src/Core/Nolan/Struct/Struct.Stitch.cs:34-175 | the method computes `StitchAcceptSpec` |
| Routes.LongName | src/Core/Nolan/Struct/Struct.Route.cs:69-84 | `GetLongName(depth)`: the route name followed by more text; a Route `NullOrEmpty` error exactly when the name is unset, and an index error exactly when depth / 2 reaches past the nine counters |
| Routes.OddNameEndsInZero | src/Core/Nolan/Struct/Struct.Route.cs:73-81 | an odd-depth name is the name of the even depth above it followed by `-0` |
| Routes.EvenName | src/Core/Nolan/Struct/Struct.Route.cs:73-76 | an even-depth name ends with `-` and the counter of its own level |
| Routes.LongNamePath | src/Core/Nolan/Struct/Struct.Route.cs:69-84 | a long name is the route name followed by its path: the counters of levels 0 to depth / 2, then `0` at an odd depth |
| Routes.SegmentsAgree | src/Core/Nolan/Struct/Struct.Route.cs:73-76 | counters agreeing on their first entries write the same segments |
| Routes.LastSegmentDiffers | src/Core/Nolan/Struct/Struct.Route.cs:73-76 | names differing only in their last counter differ |
| Routes.Step | src/Core/Nolan/Struct/Struct.Route.cs:113-157 | the cursor move of a route line keeps nine counters |
| Routes.StepKeeps | src/Core/Nolan/Struct/Struct.Route.cs:113-157 | the cursor move keeps the counters non-negative and the name; after an accepted normal line the cursor stands at its depth, and an even level has counted it |
| Routes.DeadEndKeepsCounters | src/Core/Nolan/Struct/Struct.Route.cs:113-124 | a dead end touches no counter; it raises a Route error exactly when it stands deeper than the cursor, and otherwise moves the cursor to its depth |
| Routes.SiblingNamesDiffer | src/Core/Nolan/Struct/Struct.Route.cs:127-159 | the next choice at or above the cursor's level gets a name different from the one its level had before |
| Routes.ChoiceNameNotOdd | src/Core/Nolan/Struct/Struct.Route.cs:127-159 | after an accepted choice line, its name does not end in `-0`, so it never clashes with an odd-depth text name |
| Routes.RouteKnot.constructor | src/Core/Nolan/Struct/Struct.Route.cs:45-51 | a cursor with no name, at depth 0, with nine counters at zero |
| Routes.RouteKnot.Clear | src/Core/Nolan/Struct/Struct.Route.cs:52-63 | names the route, returns to depth 0 and zeroes every counter |
| Routes.RouteKnot.GetShortName | src/Core/Nolan/Struct/Struct.Route.cs:65-68 | succeeds exactly when the route is named |
| Routes.RouteKnot.GetLongName | src/Core/Nolan/Struct/Struct.Route.cs:69-84 | the loop over the counters computes `LongName` |
| Routes.RouteKnot.Advance | src/Core/Nolan/Struct/Struct.Route.cs:113-157 | the in-place cursor move computes `Step`, new state and error alike |
| Routes.RouteKnot.CountCurrent | src/Core/Nolan/Struct/Struct.Route.cs:129-141 | counts a line at the cursor's level when that level is even |
| Routes.Goto | src/Core/Nolan/Struct/Struct.Route.cs:97-98 | succeeds exactly when the line has a goto, which only dead ends have |
| Routes.Extract | src/Core/Nolan/Struct/Struct.Route.cs:203-217 | `ExtractFromPayloadOrGainSyntax` leaves a suffix of the line; either it consumed something or it returned the empty set and the line unchanged |
| Routes.BracketSplit | src/Core/Nolan/Struct/Struct.Route.cs:184-196 | a split exists exactly when a `[` comes before the first `]`; then the short form and the node text put back together with the brackets give the line |
| Routes.Choice | src/Core/Nolan/Struct/Struct.Route.cs:178-199 | an accepted choice line keeps the depth and name it was given |
| Routes.NewRouteData | src/Core/Nolan/Struct/Struct.Route.cs:111-201 | the constructor, moving the cursor and adding texts to the book in place, computes `RouteLine` on the old cursor and book |
| Routes.DeadEndStoresNoText | src/Core/Nolan/Parser/Parser.Route.cs:33-43 | a dead end written with `h` hyphens stands at depth h - 2, as a normal line with `h` hyphens does; it stores no text and no counter changes, and it has a goto |
| Routes.RouteLineName | src/Core/Nolan/Struct/Struct.Route.cs:111-201 | an accepted normal line is named after the moved cursor, which stands at its depth; its name ends in `-0` exactly when it is not a choice line |
| Routes.PathAtCursor | src/Core/Nolan/Struct/Struct.Route.cs:159 | a line's name is read off the cursor after its move |
| Routes.CursorAdvance | src/Core/Nolan/Struct/Struct.Route.cs:113-157 | an accepted line moves the cursor one line further |
| Routes.TalkCursors | tests/Core.Tests/CoreTests.cs:59-69 | the cursor after each route line of the "Full Script" scenario |
| Routes.TalkPaths | tests/Core.Tests/CoreTests.cs:59-69 | the route lines of the "Full Script" scenario are named TALK-1, TALK-1, TALK-2, TALK-2-0, TALK-2-1, TALK-2-1-0, TALK-2-1, TALK-2-2, TALK-3, as that scenario expects |
| RouteGraph.Filtered | src/Core/Nolan/ScriptBuilder.cs:458-477 | `FilterRoute` returns indices from the start on, within the list |
| RouteGraph.FilteredMeaning | src/Core/Nolan/ScriptBuilder.cs:458-477 | an index is listed exactly when it is past the start, is a normal line at the depth, and no line between the start and it stands above the depth |
| RouteGraph.FilteredIncreasing | src/Core/Nolan/ScriptBuilder.cs:458-477 | the listed indices increase |
| RouteGraph.FilterRoute | src/Core/Nolan/ScriptBuilder.cs:458-477 | the loop with its early break computes `Filtered` |
| RouteGraph.FilterDeadEnds | src/Core/Nolan/ScriptBuilder.cs:479-492 | the line at the index is returned exactly when it exists, is a dead end and stands at the depth |
| RouteGraph.ListedNotDeadEnd | src/Core/Nolan/ScriptBuilder.cs:458-492 | a line `FilterRoute` lists is never one `FilterDeadEnds` returns |
| RouteGraph.DeadEnds | src/Core/Nolan/ScriptBuilder.cs:377-408 | `BuildDeadEnds`: without lines one level deeper, the line becomes a pending node (its dead end's texts then its own, the dead end's goto), and the stitch takes the dead end's payload and gain; with such lines nothing changes; it throws on a dead end without goto or a name already pending |
| RouteGraph.BuildDeadEnds | src/Core/Nolan/ScriptBuilder.cs:377-408 | the method computes `DeadEnds` |
| RouteGraph.FlowStep | src/Core/Nolan/ScriptBuilder.cs:284-304 | one flow stitch: choice is the line's short key, next its name, context and cost its own; a leaf line is pending and recorded as a part at its line; otherwise the lone-answer rule takes payload and gain from the dead end two lines on |
| RouteGraph.Flow | src/Core/Nolan/ScriptBuilder.cs:282-305 | one stitch per listed index |
| RouteGraph.FlowShape | src/Core/Nolan/ScriptBuilder.cs:282-305 | every stitch of a flow goes to its line, every leaf line is pending, and the pending nodes and parts only grow |
| RouteGraph.FlowStops | src/Core/Nolan/ScriptBuilder.cs:282-305 | an error in a flow stitch is the outcome of the whole flow |
| RouteGraph.BuildFlow | src/Core/Nolan/ScriptBuilder.cs:282-305 | the loop over the listed indices computes `Flow` |
| RouteGraph.AddStitch | src/Core/Nolan/ScriptBuilder.cs:284-304 | the loop body computes `FlowStep` |
| RouteGraph.NodeBody | src/Core/Nolan/ScriptBuilder.cs:323-364 | a node keeps its texts; without deeper lines it has no flow and takes the goto of the dead end just below; otherwise it has no goto and its flow is the flow of the deeper lines |
| RouteGraph.NodeKey | src/Core/Nolan/ScriptBuilder.cs:322 | the bank key is the name without its final `-0` |
| RouteGraph.NodeStepMeaning | src/Core/Nolan/ScriptBuilder.cs:309-369 | a choice line changes nothing; any other line is banked under its name without `-0`, which was not in the bank, and the line before it is recorded as a part holding the root node |
| RouteGraph.NodesStops | src/Core/Nolan/ScriptBuilder.cs:309-369 | an error at one line is the outcome of the whole loop |
| RouteGraph.NodesBank | src/Core/Nolan/ScriptBuilder.cs:309-369 | after the loop every non-choice line after the first is banked and recorded as a part; bank, pending nodes and parts only grow |
| RouteGraph.BuildNode | src/Core/Nolan/ScriptBuilder.cs:311-368 | the loop body computes `NodeStep` |
| RouteGraph.BuildNodes | src/Core/Nolan/ScriptBuilder.cs:309-369 | the loop computes `Nodes` |
| RouteGraph.AddPendingSpec | src/Core/Nolan/ScriptBuilder.cs:371-374 | adding the pending nodes succeeds exactly when none is already banked, and then the bank holds both, each with its own node |
| RouteGraph.AddPending | src/Core/Nolan/ScriptBuilder.cs:371-374 | the loop computes `AddPendingSpec` |
| RouteGraph.Assemble | src/Core/Nolan/ScriptBuilder.cs:264-375 | a route whose key is banked is a Route `DuplicateKey`; no line at all an out-of-range error; no first-level choice or a first line not at depth 0 a Route `OutOfRange` |
| RouteGraph.AssembleShape | src/Core/Nolan/ScriptBuilder.cs:264-375 | an assembled route banks its key with its own text, no goto and one stitch per first-level choice going to that line; every non-choice line is banked and recorded as a part holding the root; bank and parts only grow |
| RouteGraph.GraphCombine | src/Core/Nolan/ScriptBuilder.cs:307-374 | adding the pending nodes keeps the root node and its stitches' targets |
| RouteGraph.TalkRootChoices | tests/Core.Tests/CoreTests.cs:37-69 | the first-level choices of the "Full Script" route are its lines 0, 2 and 8 |
| RouteGraph.TalkGraph | tests/Core.Tests/CoreTests.cs:37-69 | the "Full Script" route banks a root with three stitches going to TALK-1, TALK-2 and TALK-3, the nodes of TALK-2-0 and TALK-2-1-0, and records their parts |
| RouteGraph.AssembleRoute | src/Core/Nolan/ScriptBuilder.cs:264-375 | the method computes `Assemble` |
| TextBooks.SignalLinesDisplayable | src/Core/Nolan/TextBook.cs:104-135 | the signal loop over one piece yields only signals and trimmed non-empty lines |
| TextBooks.GatherDisplayable | src/Core/Nolan/TextBook.cs:101-136 | so does the loop over every `</>` piece |
| TextBooks.PlainPieces | src/Core/Nolan/TextBook.cs:101-136 | a line with neither `</>` nor `<$` yields itself trimmed, or nothing when blank |
| TextBooks.SignalStep | src/Core/Nolan/TextBook.cs:108-128 | one turn of the signal loop: the trimmed text before the signal when not blank, the signal itself, then the loop over the trimmed rest |
| TextBooks.SplitSignals | src/Core/Nolan/TextBook.cs:104-135 | the signal loop computes `SignalLines` |
| TextBooks.PlainLines | src/Core/Nolan/TextBook.cs:101-136 | the loops over the pieces and signals compute `Pieces` |
| TextBooks.PartsOf | src/Core/Nolan/TextBook.cs:84 | every part of a sequence line is shorter than the line |
| TextBooks.AppendPartsStops | src/Core/Nolan/TextBook.cs:84-87 | an error on one part of a sequence is the outcome of the whole sequence |
| TextBooks.AppendPlainMeaning | src/Core/Nolan/TextBook.cs:101-187 | a plain line throws a Text `NullOrEmpty`, leaving the book as it was, exactly when it has no displayed line; otherwise its lines follow the name's existing ones, nothing else changes, a range is recorded exactly when several lines were added, and one key per line is returned, last line first |
| TextBooks.AddPiecesMeaning | src/Core/Nolan/TextBook.cs:143-187 | adding displayed lines: the lines follow the existing ones, a range is recorded exactly when there are several, keys are returned last first |
| TextBooks.AddPiecesLines | src/Core/Nolan/TextBook.cs:143-187 | the lines half of `AddPiecesMeaning` |
| TextBooks.AddPiecesRange | src/Core/Nolan/TextBook.cs:143-167 | the range half of `AddPiecesMeaning` |
| TextBooks.AppendSequenceMeaning | src/Core/Nolan/TextBook.cs:70-99 | a sequence line throws a Text `DuplicateKey` when its name exists and a Text `SyntaxError` unless it opens with `(?<` or `(!<`, leaving the book as it was; on success it returns only its name, adds every part, and records `name_0` as a loop key for `(?<` or a once key otherwise |
| TextBooks.MutableTextBook.constructor | src/Core/Nolan/TextBook.cs:21-28 | a new book is empty |
| TextBooks.MutableTextBook.Clear | src/Core/Nolan/TextBook.cs:58-65 | clearing empties lines, ranges and both key lists |
| TextBooks.MutableTextBook.AppendLine | src/Core/Nolan/TextBook.cs:66-188 | `AppendLine` updates the book in place as `AppendSpec` says, sequence and plain lines alike |
| TextBooks.MutableTextBook.AppendSequence | src/Core/Nolan/TextBook.cs:70-99 | the sequence branch, with its recursive calls per part, computes `AppendSpec` |
| TextBooks.MutableTextBook.AppendPlain | src/Core/Nolan/TextBook.cs:101-187 | the plain branch computes `AppendSpec` |
| TextBooks.KeyLoop | src/Core/Nolan/TextBook.cs:171-185 | the key loop, counting down, yields a signal's own text or `name`/`name_i` for each added line, last line first |
| TextBooks.InitialSequence | src/Core/Nolan/TextBook.cs:29-44 | `LOOP` with the loop keys comes first when there are loop keys, `ONCE` with the once keys last when there are once keys, and nothing else; it fails only when a key list does not parse as tags |
| TextBooks.BareKey | src/Core/Nolan/TextBook.cs:196-210 | a key without `_` and without marker reads line 0, as written and as intended |
| TextBooks.NumberedKey | src/Core/Nolan/TextBook.cs:206-224 | `name_j` is split at its last `_` into the name and `j`: always by the corrected indexer, and by the indexer as written once the book has two entries |
| TextBooks.LookupLineKeys | src/Core/Nolan/TextBook.cs:196-225 | with the intended tests (no one-entry shortcut, the line checked against its own entry), every key `AppendLine` hands out reads back the line it was given for, in any book |
| TextBooks.LookupKeys | src/Core/Nolan/TextBook.cs:196-225 | as written, a key reads back its line when its index is below the number of entries |
| TextBooks.LookupCountsEntries | src/Core/Nolan/TextBook.cs:212-216 | as written, line j of an entry with at least j + 1 lines throws `OutOfRange` whenever the book has at most j entries, though the line exists |
| TextBooks.LookupCountsEntriesExample | src/Core/Nolan/TextBook.cs:212-216 | a book with entries `a` (three lines) and `b` (one): `a_2` throws `OutOfRange` as written and reads `z` as intended |
| TextBooks.LookupOneEntryExample | src/Core/Nolan/TextBook.cs:207-210 | a book whose only entry `a` has lines x and y: as written `a_1` is looked up whole and is missing; as intended it reads `y` |
| TextDatas.Run | src/Core/Nolan/Struct/Struct.Text.cs:33-38 | the loop over the lines yields one list of keys per line |
| TextDatas.RunStops | src/Core/Nolan/Struct/Struct.Text.cs:37 | an error on one line is the outcome of the whole loop |
| TextDatas.Gather | src/Core/Nolan/Struct/Struct.Text.cs:33-38 | the keys gathered per name: one list per name |
| TextDatas.GatherCollects | src/Core/Nolan/Struct/Struct.Text.cs:35-37 | name j collects, in order, the keys of lines j, j + n, j + 2n, … |
| TextDatas.Distribute | src/Core/Nolan/Struct/Struct.Text.cs:24-39 | the round-robin constructor keeps the names in order; repeated names are a `DuplicateEntry` and lines without names a `DivideByZero`, both before any line is added |
| TextDatas.DistributeShares | src/Core/Nolan/Struct/Struct.Text.cs:33-38 | name j holds exactly the keys of the lines dealt to it, and nothing when there are fewer lines than j + 1 |
| TextDatas.Single | src/Core/Nolan/Struct/Struct.Text.cs:17-22 | the one-name constructor names its entry and adds the line to the book |
| TextDatas.SingleIsDistribute | src/Core/Nolan/Struct/Struct.Text.cs:17-39 | the one-name constructor is the round-robin one with one name and one line |
| TextDatas.NewTextData | src/Core/Nolan/Struct/Struct.Text.cs:24-39 | the method, adding to the book in place, computes `Distribute` |
| TextDatas.DeclareNames | src/Core/Nolan/Struct/Struct.Text.cs:26-29 | declaring the names succeeds exactly when they are distinct |
| TextDatas.FillTexts | src/Core/Nolan/Struct/Struct.Text.cs:31-38 | the loop computes `Run` on the book, gathered per name |
| TextDatas.NewSingleText | src/Core/Nolan/Struct/Struct.Text.cs:17-22 | the method computes `Single` |
| TextDatas.Name | src/Core/Nolan/Struct/Struct.Text.cs:41-42 | a name exists exactly when there is one, and it is one of the names |
| TextDatas.Get | src/Core/Nolan/Struct/Struct.Text.cs:60-71 | a Text `KeyNotFound` exactly when the name is absent; otherwise that name's keys |
| TextDatas.Value | src/Core/Nolan/Struct/Struct.Text.cs:43 | the keys of the first name, when there is one |
| TextDatas.Keys | src/Core/Nolan/Struct/Struct.Text.cs:56-59 | the keys listed are exactly the names the indexer accepts |
| TextDatas.NameOfDistribute | src/Core/Nolan/Struct/Struct.Text.cs:24-43 | after the round-robin constructor, `Name` is the first name and `Value` its keys |
| TextDatas.ParseTextFormat | src/Core/Nolan/Struct/Struct.Text.cs:73-91 | the emphasis loop computes `TextFormat` |
| TextDatas.BreaksLeaveNoMarkup | src/Core/Nolan/Struct/Struct.Text.cs:75 | replacing `<>` with a line break leaves no `<>` |
| TextDatas.PlainTextFormat | src/Core/Nolan/Struct/Struct.Text.cs:73-91 | a line without `<*` only has its `<>` replaced by a break: same length, no `<>` left |
| ScriptLines.OpenerFrom | src/Core/Nolan/ScriptBuilder.cs:56-64 | the first delimiter from the given one on that opens the line, and none exactly when no later delimiter does |
| ScriptLines.OpenersExclusive | src/Core/Nolan/ScriptBuilder.cs:56-64 | at most one delimiter opens a line, so the order of the delimiter loop does not matter |
| ScriptLines.ClassifyMeaning | src/Core/Nolan/ScriptBuilder.cs:47-68 | a line is a continuation exactly when no delimiter opens it; an opened line keeps its text after the two-character opener, trimmed; every non-empty line's content ends in one space, and only the empty line has no content |
| ScriptLines.NewLine | src/Core/Nolan/ScriptBuilder.cs:47-68 | the delimiter loop computes `Classify` |
| ScriptLines.Merge | src/Core/Nolan/ScriptBuilder.cs:70-76 | a merge keeps the delimiter and appends the next line's content only when that line is a continuation |
| ScriptLines.Parse | src/Core/Nolan/ScriptBuilder.cs:433-456 | the loop computes `Parsed`, and succeeds exactly when it kept a line |
| ScriptLines.ParsedCount | src/Core/Nolan/ScriptBuilder.cs:433-456 | one parsed line per opened line, and no parsed line is a continuation |
| ScriptLines.ParseSucceedsIff | src/Core/Nolan/ScriptBuilder.cs:433-456 | parsing succeeds exactly when some line of the script is opened by a delimiter |
| ScriptLines.MergeKeepsText | src/Core/Nolan/ScriptBuilder.cs:445-452 | merging a continuation into the last line adds its text after everything parsed so far |
| ScriptLines.StepKeepsText | src/Core/Nolan/ScriptBuilder.cs:437-453 | one step of the loop adds the line's text at the end, except a continuation with nothing before it, which is dropped |
| ScriptLines.ParseKeepsText | src/Core/Nolan/ScriptBuilder.cs:433-456 | no text is lost or reordered: the continuations before the first opened line, then the parsed lines' texts, give every line's text in order |
| ScriptLines.PrefixOf | src/Core/Nolan/ScriptBuilder.cs:523-540 | every context maps to a doubled delimiter character |
| ScriptLines.ContextRoundTrip | src/Core/Nolan/ScriptBuilder.cs:523-559 | a context survives the prefix and back exactly when it is not the tape context |
| ScriptLines.PrefixRoundTrip | src/Core/Nolan/ScriptBuilder.cs:523-559 | a prefix survives the context and back exactly when it is one of `++ -- == ** ?? //` |
| ScriptData.PushSpec | src/Core/Nolan/Struct/Struct.Script.cs:55-62 | a push appends the scene, the stat and the text entry, each on top of its own stack, keeps the sequence indexes, and keeps the stacks balanced |
| ScriptData.RemoveEqual | src/Core/Nolan/Struct/Struct.Script.cs:94 | `List.Remove` on stats drops the first stat `Equals` to the given one, and only it, or nothing when none is |
| ScriptData.UndoBalanced | src/Core/Nolan/Struct/Struct.Script.cs:81-112 | on balanced stacks, undo succeeds exactly when more than one scene is stacked and otherwise changes nothing; on success each stack loses one copy of its top, and the sequence indexes are reset |
| ScriptData.UndoPopsUnrepeatedTop | src/Core/Nolan/Struct/Struct.Script.cs:81-112 | when no top repeats lower in its stack, undo pops the tops |
| ScriptData.PopSpec | src/Core/Nolan/Struct/Struct.Script.cs:81-112 | the intended undo keeps the stacks balanced |
| ScriptData.PopUndoesPush | src/Core/Nolan/Struct/Struct.Script.cs:55-112 | the intended undo restores the stacks before a push, with the sequence indexes reset |
| ScriptData.UndoRevisitedScene | src/Core/Nolan/Struct/Struct.Script.cs:85 | as written, undo after returning to the first scene removes the bottom copy: the current scene stays the revisited one, not the scene before it |
| ScriptData.Transient.constructor | src/Core/Nolan/Struct/Struct.Script.cs:36-48 | one scene, one stat and the chapter's text entry, no sequence index, balanced stacks |
| ScriptData.Transient.InitialStat | src/Core/Nolan/Struct/Struct.Script.cs:32 | the bottom stat, or the empty stat on an empty stack |
| ScriptData.Transient.CurrentStat | src/Core/Nolan/Struct/Struct.Script.cs:33 | the top stat, or the empty stat on an empty stack |
| ScriptData.Transient.InitialScene | src/Core/Nolan/Struct/Struct.Script.cs:34 | the bottom scene, or empty when the stat stack is empty |
| ScriptData.Transient.CurrentScene | src/Core/Nolan/Struct/Struct.Script.cs:35 | the top scene, or empty when the stat stack is empty |
| ScriptData.Transient.HasText | src/Core/Nolan/Struct/Struct.Script.cs:64-67 | the top text entry has a first key and it is not empty |
| ScriptData.Transient.Push | src/Core/Nolan/Struct/Struct.Script.cs:55-62 | the in-place push computes `PushSpec`; the pushed scene and stat become current and the initial scene stays |
| ScriptData.Transient.Undo | src/Core/Nolan/Struct/Struct.Script.cs:81-112 | the in-place undo computes `UndoSpec`, early returns and partial removals included |
| ScriptData.Transient.UndoStatStack | src/Core/Nolan/Struct/Struct.Script.cs:92-99 | the stat step of undo |
| ScriptData.Transient.UndoTextStack | src/Core/Nolan/Struct/Struct.Script.cs:101-108 | the text step of undo |
| ScriptData.Transient.UndoTop | src/Core/Nolan/Struct/Struct.Script.cs:81-112 | the corrected undo pops the top of every stack, as `PopSpec` says |
| Builder.Add | src/Core/Nolan/ScriptBuilder.cs:516 | `Dictionary.Add` appends the entry exactly when no key equals the name (ignoring case), and throws `DuplicateEntry` otherwise |
| Builder.AddKeepsDistinct | src/Core/Nolan/ScriptBuilder.cs:516 | a successful add keeps the keys distinct |
| Builder.LabelledMeaning | src/Core/Nolan/ScriptBuilder.cs:503-520 | the labels of `Compute` are distinct and pair one to one, in order, with the accepted rules: each is the rule's description, or it followed by ` duplicate`, and holds that rule's key and operations |
| Builder.RepeatedLabels | src/Core/Nolan/ScriptBuilder.cs:509-516 | a description already used gets ` duplicate` once; a third use throws `DuplicateEntry` |
| Builder.SecondRepeatLabelled | src/Core/Nolan/ScriptBuilder.cs:503-520 | two accepted copies of a rule are labelled by its description and by it with ` duplicate` |
| Builder.ThirdRepeatThrows | src/Core/Nolan/ScriptBuilder.cs:509-516 | a third accepted copy makes `Compute` throw `DuplicateEntry` |
| Builder.LabelledStops | src/Core/Nolan/ScriptBuilder.cs:505-518 | an error on one rule is the outcome of the whole loop |
| Builder.Compute | src/Core/Nolan/ScriptBuilder.cs:494-521 | the method (sugar resolution of every rule, then acceptance and labelling) computes `ComputeSpec` |
| Builder.LabelRules | src/Core/Nolan/ScriptBuilder.cs:505-518 | the labelling loop computes `Labelled` |
| Builder.LabelRule | src/Core/Nolan/ScriptBuilder.cs:507-517 | the loop body computes `LabelStep` |
| Builder.AddPart | src/Core/Nolan/ScriptBuilder.cs:147-190 | `parts.Add` records a part exactly when its index is new, and throws `DuplicateEntry` otherwise |
| Builder.TapeRulesMeaning | src/Core/Nolan/ScriptBuilder.cs:211-219 | the rulebook of a tape is collected exactly when every rule line so far has a part (a missing one throws `MissingKey`); it holds every rule part of a rule line and nothing else |
| Builder.TapeSpec | src/Core/Nolan/ScriptBuilder.cs:195-230 | without a tape label nothing happens; otherwise the tape (its stat, its rulebook, the frozen text book with the route bank) is added under the label and the label, bank and book are cleared; a label already used is an error |
| Builder.TapeKeepsDistinct | src/Core/Nolan/ScriptBuilder.cs:195-230 | closing a tape keeps the tape names distinct and leaves no open label |
| Builder.LaterRuleLineThrows | src/Core/Nolan/ScriptBuilder.cs:213-219 | a rule line with no part yet, anywhere in the script, makes closing a tape throw `MissingKey` |
| Builder.PartSpec | src/Core/Nolan/ScriptBuilder.cs:147-190 | a part line adds at most its own index to the parts; a stat line opens a tape with a stat part; other lines keep the tapes, label and bank; goal, step and other lines change nothing; a comment records its trimmed text, or throws on a repeated index |
| Builder.PartKeepsDistinct | src/Core/Nolan/ScriptBuilder.cs:147-190 | a part line keeps the tape names distinct |
| Builder.SpanLinesStops | src/Core/Nolan/ScriptBuilder.cs:254-262 | an error on one route line is the outcome of the whole span |
| Builder.SpanLinesKeepName | src/Core/Nolan/ScriptBuilder.cs:254-262 | reading the route lines keeps the route name and non-negative counters |
| Builder.RouteMeaning | src/Core/Nolan/ScriptBuilder.cs:232-375 | a built route keeps the tapes and label, banks its key, which was not banked, with its own text, and only grows bank and parts; a key already banked throws a Route `DuplicateKey` unless reading the lines failed first |
| Builder.ReadRouteLine | src/Core/Nolan/ScriptBuilder.cs:256-261 | one route line read in place computes `SpanStep` |
| Builder.ReadSpan | src/Core/Nolan/ScriptBuilder.cs:254-262 | the loop over the route lines, in place on the cursor and the book, computes `SpanLines` |
| Builder.RuleLineBefore | src/Core/Nolan/ScriptBuilder.cs:111-120 | the nearest rule line before the route, or -1 when there is none |
| Builder.FindRuleLine | src/Core/Nolan/ScriptBuilder.cs:111-120 | the backward loop computes `RuleLineBefore` |
| Builder.ScanStep | src/Core/Nolan/ScriptBuilder.cs:89-126 | one turn of the build loop keeps the route bounds consistent |
| Builder.Scanned | src/Core/Nolan/ScriptBuilder.cs:89-126 | the build loop keeps the route bounds consistent |
| Builder.ScannedStops | src/Core/Nolan/ScriptBuilder.cs:89-126 | an error at one line is the outcome of the whole loop |
| Builder.RouteKeepsTapes | src/Core/Nolan/ScriptBuilder.cs:232-375 | building a route changes neither the tapes nor the label |
| Builder.ScanStepKeepsDistinct | src/Core/Nolan/ScriptBuilder.cs:89-126 | one turn of the build loop keeps the tape names distinct |
| Builder.ScannedKeepsDistinct | src/Core/Nolan/ScriptBuilder.cs:89-126 | the build loop keeps the tape names distinct |
| Builder.BuildKeepsDistinct | src/Core/Nolan/ScriptBuilder.cs:80-145 | a built script has distinct tape names and no open label |
| Builder.LoneRouteLineJoinsNext | src/Core/Nolan/ScriptBuilder.cs:91-109 | a single route line followed by another line is not built alone: it joins the next route line into one route |
| Builder.ScannedPartsBefore | src/Core/Nolan/ScriptBuilder.cs:89-107 | before any route line, no route is open and only earlier lines have parts |
| Builder.SecondTapeThrows | src/Core/Nolan/ScriptBuilder.cs:213-219 | a second stat line followed by a rule line makes the build throw `MissingKey`: closing the first tape looks up the later rule line's part before it exists. This is the engine's behaviour as written, kept deliberately: a script with rules can hold only one tape |
| Builder.FindKey | src/Core/Nolan/ScriptBuilder.cs:78 | the first tape whose name equals the key ignoring case, or -1 exactly when none does |
| Builder.FindsEveryKey | src/Core/Nolan/ScriptBuilder.cs:418-429 | with distinct names, every tape is found under its own name |
| Builder.ScriptBuilder.constructor | src/Core/Nolan/ScriptBuilder.cs:192-193 | no tape, no label, an empty bank and an empty book |
| Builder.ScriptBuilder.Keys | src/Core/Nolan/ScriptBuilder.cs:413-416 | the tape names, in order |
| Builder.ScriptBuilder.Tape | src/Core/Nolan/ScriptBuilder.cs:418-429 | the indexer throws a Knot `KeyNotFound` exactly when no tape is named so (ignoring case), and otherwise returns such a tape |
| Builder.ScriptBuilder.Last | src/Core/Nolan/ScriptBuilder.cs:431 | the last tape's name, or an error when there is none |
| Builder.ScriptBuilder.BuildTape | src/Core/Nolan/ScriptBuilder.cs:195-230 | the method updates the builder as `TapeSpec` says, or reports its error |
| Builder.ScriptBuilder.BuildPart | src/Core/Nolan/ScriptBuilder.cs:147-190 | the method updates the builder and the parts as `PartSpec` says |
| Builder.ScriptBuilder.BuildRoute | src/Core/Nolan/ScriptBuilder.cs:232-375 | the method, reading the lines into a cursor and the book in place, then assembling the graph, computes `RouteSpec` |
| Builder.ScriptBuilder.BuildLine | src/Core/Nolan/ScriptBuilder.cs:91-126 | one turn of the build loop computes `ScanStep` |
| Builder.ScriptBuilder.Build | src/Core/Nolan/ScriptBuilder.cs:80-145 | the whole build computes `BuildSpec` |

## Left out

- The Pidgin parser combinators are not part of this model (`F3NolanDataRuleParser`, `F3NolanDataStatParser`, `F3NolanDataTextParser`, the tag-set and route-sentence parsers, payload/gain extraction). They enter as function-valued parameters (`Builder.Hooks`, `Routes.Extract`'s extractor), because they are library wrappers. Only the route parser's depth contract (h-2, and -1-h for dead ends) is stated.
- `InitializeSequence`, `GetInitialKeys` and `ComputeKeys` are referenced but not defined in the core. `InitializeSequence` is the `initialize` hook. The keys that `Transient` pushes are passed in by the caller.
- Culture-sensitive string operations are modelled as ordinal comparison, with ASCII case folding for the case-insensitive ones. This covers `OrderBy`'s default comparer, `StartsWith`, `IndexOf` and `InvariantCultureIgnoreCase`. `Char.IsNumber` is modelled as the ASCII digits.
- `Char.IsWhiteSpace` is modelled as the ASCII space and `\t` to `\r`. This also covers `Trim`, `TrimStart`, `TrimEnd` and `IsNullOrWhiteSpace`. Unicode space separators (U+0085, U+00A0, U+2000 to U+200A, U+3000 and the like) are not trimmed, so script, route, text-book and stat lines carrying them keep them.
- `Stats.OrderLocations`: the comparator leaves the order between two `DRAG` renderings unspecified; the model orders them ordinally.
- `TagSets.ResolveSyntax` and `Rules.ResolveRuleSyntax` take a fuel bound; running out is `Diverged`, a stop of the lazy iterator in its place in iterator order, after the items yielded before it. The engine's recursion need not terminate: a sugar tag that falls through to yielding itself recurses forever. The model states nothing about runs longer than the fuel.
- The `(short)` cast in `Increment` is modelled as 16-bit two's-complement wrap-around (`Base.Wrap16`). `short.Parse` is modelled as optional surrounding white space, an optional sign and digits, with format and overflow errors.
- Dictionaries are association lists in insertion order. Slot reuse after a removal, which can change .NET's enumeration order, is not modelled.
- Hash codes (`GetHashCode`) are not modelled. Equality is modelled through the raw strings and renderings that the hash codes mirror.
- The state of a `ScriptBuilder` after an exception is not modelled. A failing `Build` returns the error and the caller discards the builder.
- The text book's sorted-key iterators (`GetIterator`, `GetLineIterator`, `GetRangeIterator`) are not modelled. They only enumerate the book's dictionaries in sorted key order, for export.
- `JsonConverter.cs`, the `NolanApp` command line, `NolanDataStruct.cs`/`NolanTextStruct.cs` (older copies of the same types) and the `Exception.cs` messages are not part of this model. `Exception.cs` supplies the error kinds only.
- The process-wide `GameTags` registry is left out: it is a hidden global that only export reads.
- Text entries on the `Transient` text stack compare by key and array identity, as the engine's key/array pairs do; arrays are never compared element by element.

## Findings

| source | as written | input that shows it | evidently intended | confidence | as-written member | corrected member |
|---|---|---|---|---|---|---|
| src/Core/Nolan/TextBook.cs:212-216 | the indexer rejects `prefix_n` when `n` is at least the number of entries in the book (`lines.Count()`) | a book with entries `a` = [x, y, z] and `b` = [w]: key `a_2` throws `OutOfRange` although `a` has a third line | compare `n` with the length of the entry `lines[prefix]` | not executed | TextBooks.LookupCountsEntries | TextBooks.LookupLineKeys |
| src/Core/Nolan/TextBook.cs:207-210 | in a book with one entry every key, `prefix_n` included, is looked up whole as line 0 | a book whose only entry `a` = [x, y]: key `a_1` throws .NET's `KeyNotFoundException` although `a` has a second line | split `prefix_n` whatever the number of entries | not executed | TextBooks.LookupOneEntryExample | TextBooks.LookupLineKeys |
| src/Core/Nolan/Struct/Struct.Script.cs:83-104 | `Undo` calls `List.Remove(Last())`, which deletes the first element equal to the top | scenes [A, B, A]: undo leaves [B, A], so the current scene is still A instead of B | remove the last element of each stack | not executed | ScriptData.UndoRevisitedScene | ScriptData.Transient.UndoTop |
