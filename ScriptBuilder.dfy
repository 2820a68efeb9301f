// The script compiler (`F3NolanScriptBuilder`): the rule labelling of
// `Compute`, and the builder that turns classified lines into tapes, each
// a compiled script with its initial state, its rules and its text book.

module Builder {
  import opened Base
  import opened Str
  import opened Stats
  import opened Rules
  import opened TextBooks
  import opened TextDatas
  import opened Routes
  import opened ScriptLines
  import opened ScriptData
  import opened TagSets
  import RouteGraph

  // ---------------------------------------------------------------------
  // Dictionaries whose keys compare ignoring case

  /** Some key of `d` equals `name` ignoring case (`ContainsKey` with `OrdinalIgnoreCase`). */
  predicate HasKey<V>(d: seq<(String, V)>, name: String)
  {
    exists i :: 0 <= i < |d| && EqualsIgnoreCase(d[i].0, name)
  }

  /** No two keys of `d` are equal ignoring case. */
  ghost predicate KeysDistinct<V>(d: seq<(String, V)>)
  {
    forall i, j :: 0 <= i < j < |d| ==> !EqualsIgnoreCase(d[i].0, d[j].0)
  }

  /** `Add`: the entry goes last; a key already present, ignoring case, throws. */
  function Add<V>(d: seq<(String, V)>, name: String, v: V): (r: Result<seq<(String, V)>>)
    ensures r.Ok? <==> !HasKey(d, name)
    ensures r.Ok? ==> |r.value| == |d| + 1 && r.value[..|d|] == d && r.value[|d|] == (name, v)
    ensures r.Err? ==> r.error == Runtime(DuplicateEntry)
  {
    if HasKey(d, name) then Err(Runtime(DuplicateEntry)) else Ok(d + [(name, v)])
  }

  /** An addition that succeeds keeps the keys distinct. */
  lemma AddKeepsDistinct<V>(d: seq<(String, V)>, name: String, v: V)
    requires KeysDistinct(d) && Add(d, name, v).Ok?
    ensures KeysDistinct(Add(d, name, v).value)
  {
    var r := Add(d, name, v).value;
    forall i, j | 0 <= i < j < |r|
      ensures !EqualsIgnoreCase(r[i].0, r[j].0)
    {
      if j == |d| {
        assert r[i] == d[i];
      } else {
        assert r[i] == d[i] && r[j] == d[j];
      }
    }
  }

  // ---------------------------------------------------------------------
  // Compute

  /** What `Compute` maps a label to: the accepted rule's text key and operations. */
  type Labels = seq<(String, (String, seq<RuleMeta>))>

  const Duplicate: String := " duplicate"

  /** The label of an accepted rule: its description, with ` duplicate` appended when the description is taken. */
  function LabelOf(d: Labels, name: String): String
  {
    if HasKey(d, name) then name + Duplicate else name
  }

  /** How the rules are judged: `Accept` in a scene and a state. */
  type Judge = Rule -> Result<Acceptance>

  function Judgement(scene: String, stat: Stat): Judge
  {
    (r: Rule) => AcceptSpec(r, scene, stat)
  }

  /** One rule of the labelling loop: a rejected rule adds nothing; an accepted one is added under its label. */
  function LabelStep(d: Labels, rule: Rule, judge: Judge): Result<Labels>
  {
    var acc :- judge(rule);
    if acc.Rejected? then Ok(d) else Add(d, LabelOf(d, Description(rule)), (acc.key, acc.ops))
  }

  /** The labelling loop over a rulebook. */
  function Labelled(book: seq<Rule>, judge: Judge): Result<Labels>
    decreases |book|
  {
    if book == [] then Ok([])
    else
      var d :- Labelled(book[..|book| - 1], judge);
      LabelStep(d, book[|book| - 1], judge)
  }

  /** The description and outcome of every rule of the book that is accepted, in order. */
  function AcceptedEntries(book: seq<Rule>, judge: Judge): Labels
    decreases |book|
  {
    if book == [] then []
    else
      var n := |book| - 1;
      var acc := judge(book[n]);
      AcceptedEntries(book[..n], judge) +
        (if acc.Ok? && acc.value.Accepted? then [(Description(book[n]), (acc.value.key, acc.value.ops))] else [])
  }

  /**
   * A labelling that succeeds has one entry per accepted rule, in order,
   * each with that rule's key and operations, under the rule's description
   * or the description followed by ` duplicate`; and no two labels are
   * equal ignoring case.
   */
  lemma {:induction false} LabelledMeaning(book: seq<Rule>, judge: Judge)
    requires Labelled(book, judge).Ok?
    ensures var d := Labelled(book, judge).value;
      var e := AcceptedEntries(book, judge);
      KeysDistinct(d) && |d| == |e| &&
      forall k :: 0 <= k < |d| ==> d[k].1 == e[k].1 && (d[k].0 == e[k].0 || d[k].0 == e[k].0 + Duplicate)
    decreases |book|
  {
    if book != [] {
      var n := |book| - 1;
      LabelledMeaning(book[..n], judge);
      var d0 := Labelled(book[..n], judge).value;
      var e0 := AcceptedEntries(book[..n], judge);
      var acc := judge(book[n]);
      assert Labelled(book, judge) == LabelStep(d0, book[n], judge);
      if acc.value.Accepted? {
        var name := Description(book[n]);
        var v := (acc.value.key, acc.value.ops);
        AddKeepsDistinct(d0, LabelOf(d0, name), v);
        var d := d0 + [(LabelOf(d0, name), v)];
        var e := e0 + [(name, v)];
        assert Labelled(book, judge) == Ok(d);
        assert AcceptedEntries(book, judge) == e;
        assert forall k :: 0 <= k < |d0| ==> d[k] == d0[k] && e[k] == e0[k];
      } else {
        assert AcceptedEntries(book, judge) == e0 + [];
      }
    }
  }

  /** Every string equals itself ignoring case. */
  lemma EqualsIgnoreCaseRefl(s: String)
    ensures EqualsIgnoreCase(s, s)
  {
  }

  /**
   * A label is taken as it is the first time, with ` duplicate` the
   * second time; the third time both are taken and the addition throws.
   */
  lemma RepeatedLabels(name: String, v: (String, seq<RuleMeta>))
    ensures LabelOf([], name) == name && Add([], name, v) == Ok([(name, v)])
    ensures LabelOf([(name, v)], name) == name + Duplicate
    ensures Add([(name, v)], name + Duplicate, v) == Ok([(name, v), (name + Duplicate, v)])
    ensures var d := [(name, v), (name + Duplicate, v)];
      Add(d, LabelOf(d, name), v) == Err(Runtime(DuplicateEntry))
  {
    EqualsIgnoreCaseRefl(name);
    EqualsIgnoreCaseRefl(name + Duplicate);
    var d1 := [(name, v)];
    assert EqualsIgnoreCase(d1[0].0, name);
    assert |name + Duplicate| != |name|;
    assert !EqualsIgnoreCase(d1[0].0, name + Duplicate);
    assert !HasKey(d1, name + Duplicate);
    var d := [(name, v), (name + Duplicate, v)];
    assert d1 + [(name + Duplicate, v)] == d;
    assert EqualsIgnoreCase(d[0].0, name);
    assert HasKey(d, name);
    assert EqualsIgnoreCase(d[1].0, name + Duplicate);
    assert HasKey(d, name + Duplicate);
  }

  /** An accepted rule met twice is labelled by its description, then by the description followed by ` duplicate`. */
  lemma SecondRepeatLabelled(rule: Rule, judge: Judge)
    requires judge(rule).Ok? && judge(rule).value.Accepted?
    ensures var acc := judge(rule).value;
      Labelled([rule, rule], judge) ==
        Ok([(Description(rule), (acc.key, acc.ops)), (Description(rule) + Duplicate, (acc.key, acc.ops))])
  {
    var acc := judge(rule).value;
    var name := Description(rule);
    var v := (acc.key, acc.ops);
    RepeatedLabels(name, v);
    assert Labelled([rule], judge) == Ok([(name, v)]) by {
      assert [rule][..0] == [];
      assert Labelled([rule], judge) == LabelStep([], rule, judge);
      assert LabelStep([], rule, judge) == Add([], LabelOf([], name), v);
    }
    assert [rule, rule][..1] == [rule];
    assert Labelled([rule, rule], judge) == LabelStep([(name, v)], rule, judge);
    assert LabelStep([(name, v)], rule, judge) == Add([(name, v)], LabelOf([(name, v)], name), v);
  }

  /** Met a third time, an accepted rule throws: both its labels are taken. */
  lemma ThirdRepeatThrows(rule: Rule, judge: Judge)
    requires judge(rule).Ok? && judge(rule).value.Accepted?
    ensures Labelled([rule, rule, rule], judge) == Err(Runtime(DuplicateEntry))
  {
    var acc := judge(rule).value;
    RepeatedLabels(Description(rule), (acc.key, acc.ops));
    SecondRepeatLabelled(rule, judge);
    assert [rule, rule, rule][..2] == [rule, rule];
  }

  /** The expansion step of `Compute`: one rule's `ResolveSyntax` into the rulebook. */
  function Expander(stat: Stat, fuel: nat): (Rule, seq<Rule>) -> Result<seq<Rule>>
  {
    (r: Rule, b: seq<Rule>) => ExpandRule(r, stat, b, fuel)
  }

  /** `Compute`: every rule expanded into one rulebook, then the accepted rules labelled. */
  function ComputeSpec(scene: String, stat: Stat, rules: seq<Rule>, fuel: nat): Result<Labels>
  {
    var book :- Fold(rules, [], Expander(stat, fuel));
    Labelled(book, Judgement(scene, stat))
  }

  /** Once the labelling loop fails, it fails with that error to the end. */
  lemma {:induction false} LabelledStops(book: seq<Rule>, i: nat, judge: Judge)
    requires i <= |book| && Labelled(book[..i], judge).Err?
    ensures Labelled(book, judge) == Labelled(book[..i], judge)
    decreases |book| - i
  {
    if i < |book| {
      assert book[..i + 1][..i] == book[..i];
      LabelledStops(book, i + 1, judge);
    } else {
      assert book[..i] == book;
    }
  }

  /** `Compute`, its two loops. */
  method Compute(scene: String, stat: Stat, rules: seq<Rule>, fuel: nat) returns (r: Result<Labels>)
    ensures r == ComputeSpec(scene, stat, rules, fuel)
  {
    var rulebook: seq<Rule> := [];
    for i := 0 to |rules|
      invariant Fold(rules[..i], [], Expander(stat, fuel)) == Ok(rulebook)
    {
      FoldNext(rules, i, [], Expander(stat, fuel));
      var next := ResolveRuleSyntax(rules[i], stat, rulebook, fuel);
      if next.Err? {
        FoldStops(rules, i + 1, [], Expander(stat, fuel));
        return Err(next.error);
      }
      rulebook := next.value;
    }
    assert rules[..|rules|] == rules;
    r := LabelRules(rulebook, scene, stat);
  }

  /** The labelling loop of `Compute`. */
  method LabelRules(rulebook: seq<Rule>, scene: String, stat: Stat) returns (r: Result<Labels>)
    ensures r == Labelled(rulebook, Judgement(scene, stat))
  {
    ghost var judge := Judgement(scene, stat);
    var result: Labels := [];
    for i := 0 to |rulebook|
      invariant Labelled(rulebook[..i], judge) == Ok(result)
    {
      assert rulebook[..i + 1][..i] == rulebook[..i];
      var next := LabelRule(result, rulebook[i], scene, stat);
      if next.Err? {
        LabelledStops(rulebook, i + 1, judge);
        return next;
      }
      result := next.value;
    }
    assert rulebook[..|rulebook|] == rulebook;
    return Ok(result);
  }

  /** The body of that loop: an accepted rule added under its label. */
  method LabelRule(result: Labels, rule: Rule, scene: String, stat: Stat) returns (r: Result<Labels>)
    ensures r == LabelStep(result, rule, Judgement(scene, stat))
  {
    var acc := Accept(rule, scene, stat);
    if acc.Err? {
      return Err(acc.error);
    }
    if acc.value.Rejected? {
      return Ok(result);
    }
    var name := Description(rule);
    if HasKey(result, name) {
      name := name + Duplicate;
    }
    if HasKey(result, name) {
      return Err(Runtime(DuplicateEntry));
    }
    return Ok(result + [(name, (acc.value.key, acc.value.ops))]);
  }

  // ---------------------------------------------------------------------
  // The builder

  /**
   * What the builder hands its lines to and this model leaves out: the
   * grammars of the stat, rule, text and route lines (each answers the
   * parse, or nothing when the line does not parse), the tag set parser of
   * the route lines, and the stat's `InitializeSequence`. The rule grammar
   * answers the rule and its embedded text (a name and its lines); the
   * builder fills in the rule's text key.
   */
  datatype Hooks = Hooks(
    stat: String -> Option<Stat>,
    rule: String -> Option<(Rule, Option<(String, seq<String>)>)>,
    text: String -> Option<(String, String)>,
    route: String -> Option<(int, String)>,
    tags: TagSetParser,
    initialize: (Stat, seq<(String, TagSet)>) -> Stat)

  /** The tapes built so far, by label, in the order they were added. */
  type Tapes = seq<(String, Script)>

  /** The builder's state: the tapes, the label of the tape being read, the route bank and the text book. */
  datatype BuildState = BuildState(tapes: Tapes, tapeLabel: Option<String>, bank: RouteGraph.Bank, book: Book)

  /** The line a tape's stat is read from; never moved from the first line. */
  const TapeStart: nat := 0

  /** `parts.Add(k, p)`: a line that already has a part throws. */
  function AddPart(parts: RouteGraph.Parts, k: int, p: RouteGraph.Part): (r: Result<RouteGraph.Parts>)
    ensures r.Ok? <==> k !in parts
    ensures r.Ok? ==> r.value == parts[k := p]
    ensures r.Err? ==> r.error == Runtime(DuplicateEntry)
  {
    if k in parts then Err(Runtime(DuplicateEntry)) else Ok(parts[k := p])
  }

  /**
   * The stat of a tape: the part of the first line when that line is a
   * stat line holding a stat, initialised with the book's initial
   * sequence; the empty stat otherwise. No lines at all, or a stat line
   * with no part, throws.
   */
  function TapeStat(book: Book, lines: seq<Line>, parts: RouteGraph.Parts, hooks: Hooks): Result<Stat>
  {
    if |lines| <= TapeStart then Err(Runtime(ArgumentOutOfRange))
    else if lines[TapeStart].delimiter != '=' then Ok(EmptyStat)
    else if TapeStart !in parts then Err(Runtime(MissingKey))
    else if !parts[TapeStart].StatPart? then Ok(EmptyStat)
    else
      var sequence :- InitialSequence(book);
      Ok(hooks.initialize(parts[TapeStart].stat, sequence))
  }

  /** The rulebook loop of a tape over the first `n` lines: the rule of every rule line, in order. */
  function TapeRules(lines: seq<Line>, parts: RouteGraph.Parts, n: nat): Result<seq<Rule>>
    requires n <= |lines|
  {
    if n == 0 then Ok([])
    else
      var rules :- TapeRules(lines, parts, n - 1);
      var j := n - 1;
      if lines[j].delimiter != '+' then Ok(rules)
      else if j !in parts then Err(Runtime(MissingKey))
      else if parts[j].RulePart? then Ok(rules + [parts[j].rule])
      else Ok(rules)
  }

  /**
   * The rulebook loop fails exactly when some rule line has no part, and
   * then with `MissingKey`; when it succeeds, it holds the rule of every
   * rule line whose part is a rule, and nothing else.
   */
  lemma {:induction false} TapeRulesMeaning(lines: seq<Line>, parts: RouteGraph.Parts, n: nat)
    requires n <= |lines|
    ensures TapeRules(lines, parts, n).Ok? <==>
      forall j :: 0 <= j < n && lines[j].delimiter == '+' ==> j in parts
    ensures TapeRules(lines, parts, n).Err? ==> TapeRules(lines, parts, n).error == Runtime(MissingKey)
    ensures TapeRules(lines, parts, n).Ok? ==>
      (forall j :: 0 <= j < n && lines[j].delimiter == '+' && parts[j].RulePart? ==>
         parts[j].rule in TapeRules(lines, parts, n).value) &&
      (forall r :: r in TapeRules(lines, parts, n).value ==>
         exists j :: 0 <= j < n && lines[j].delimiter == '+' && j in parts && parts[j] == RouteGraph.RulePart(r))
  {
    if n > 0 {
      TapeRulesMeaning(lines, parts, n - 1);
      var j := n - 1;
      var prev := TapeRules(lines, parts, n - 1);
      if prev.Ok? && lines[j].delimiter == '+' && j in parts && parts[j].RulePart? {
        var rules := prev.value + [parts[j].rule];
        assert TapeRules(lines, parts, n) == Ok(rules);
        forall r | r in rules
          ensures exists i :: 0 <= i < n && lines[i].delimiter == '+' && i in parts && parts[i] == RouteGraph.RulePart(r)
        {
          if r !in prev.value {
            assert parts[j] == RouteGraph.RulePart(r);
          }
        }
      }
    }
  }

  /**
   * `BuildTape`: with no tape being read, nothing happens. Otherwise the
   * tape (its stat, its rulebook, the book and bank frozen into its text
   * book) is added under its label, and the book, the bank and the label
   * are cleared.
   */
  function TapeSpec(st: BuildState, lines: seq<Line>, parts: RouteGraph.Parts, hooks: Hooks): (r: Result<BuildState>)
    ensures st.tapeLabel.None? ==> r == Ok(st)
    ensures st.tapeLabel.Some? && r.Ok? ==>
      TapeStat(st.book, lines, parts, hooks).Ok? && TapeRules(lines, parts, |lines|).Ok? &&
      r.value == BuildState(st.tapes + [(st.tapeLabel.value, Script.Script(TapeStat(st.book, lines, parts, hooks).value,
        TapeRules(lines, parts, |lines|).value, Freeze(st.book, st.bank)))], None, map[], EmptyBook)
    ensures st.tapeLabel.Some? && HasKey(st.tapes, st.tapeLabel.value) ==> r.Err?
  {
    if st.tapeLabel.None? then Ok(st)
    else
      var text := Freeze(st.book, st.bank);
      var stat :- TapeStat(st.book, lines, parts, hooks);
      var rules :- TapeRules(lines, parts, |lines|);
      var tapes :- Add(st.tapes, st.tapeLabel.value, Script.Script(stat, rules, text));
      Ok(BuildState(tapes, None, map[], EmptyBook))
  }

  /** A tape that is built keeps the labels distinct ignoring case, and leaves no tape being read. */
  lemma TapeKeepsDistinct(st: BuildState, lines: seq<Line>, parts: RouteGraph.Parts, hooks: Hooks)
    requires KeysDistinct(st.tapes) && TapeSpec(st, lines, parts, hooks).Ok?
    ensures KeysDistinct(TapeSpec(st, lines, parts, hooks).value.tapes)
    ensures st.tapeLabel.Some? ==> TapeSpec(st, lines, parts, hooks).value.tapeLabel.None?
  {
    if st.tapeLabel.Some? {
      var stat := TapeStat(st.book, lines, parts, hooks).value;
      var rules := TapeRules(lines, parts, |lines|).value;
      AddKeepsDistinct(st.tapes, st.tapeLabel.value, Script.Script(stat, rules, Freeze(st.book, st.bank)));
    }
  }

  /**
   * The tape of a stat line is built when the next stat line is met, while
   * the rule lines after it have no part yet: the rulebook loop reads every
   * line of the script, so a later rule line throws `MissingKey`.
   */
  lemma LaterRuleLineThrows(st: BuildState, lines: seq<Line>, parts: RouteGraph.Parts, hooks: Hooks, j: nat)
    requires st.tapeLabel.Some? && TapeStat(st.book, lines, parts, hooks).Ok?
    requires j < |lines| && lines[j].delimiter == '+' && j !in parts
    ensures TapeSpec(st, lines, parts, hooks) == Err(Runtime(MissingKey))
  {
    TapeRulesMeaning(lines, parts, |lines|);
  }

  /** Once the rulebook loop fails, it fails with that error to the end. */
  lemma {:induction false} TapeRulesStops(lines: seq<Line>, parts: RouteGraph.Parts, i: nat, n: nat)
    requires i <= n <= |lines| && TapeRules(lines, parts, i).Err?
    ensures TapeRules(lines, parts, n) == TapeRules(lines, parts, i)
    decreases n - i
  {
    if i < n {
      TapeRulesStops(lines, parts, i + 1, n);
    }
  }

  /**
   * `BuildPart`: the part of line `index`. A stat line first builds the
   * tape being read, then opens a new one labelled by the trimmed text
   * before its `[` (a line without `[` throws) and records its stat, the
   * empty stat when the stat does not parse. A rule line records its rule,
   * its embedded text sent to the book; a text line records its text, sent
   * to the book; a comment line records its trimmed content. A rule or
   * text line that does not parse, and every other line, records nothing.
   */
  function PartSpec(st: BuildState, lines: seq<Line>, index: nat, parts: RouteGraph.Parts, hooks: Hooks)
    : (r: Result<(BuildState, RouteGraph.Parts)>)
    requires index < |lines|
    ensures r.Ok? ==> r.value.1 == parts || (index !in parts && index in r.value.1 && r.value.1 == parts[index := r.value.1[index]])
    ensures r.Ok? && lines[index].delimiter == '=' ==>
      r.value.0.tapeLabel.Some? && index in r.value.1 && r.value.1[index].StatPart?
    ensures r.Ok? && lines[index].delimiter != '=' ==>
      r.value.0.tapes == st.tapes && r.value.0.tapeLabel == st.tapeLabel && r.value.0.bank == st.bank
    ensures lines[index].delimiter !in "=+#/" ==> r == Ok((st, parts))
    ensures lines[index].delimiter == '/' ==>
      r == if index in parts then Err(Runtime(DuplicateEntry))
           else Ok((st, parts[index := RouteGraph.CommentPart(Trim(lines[index].content))]))
  {
    var line := lines[index];
    match line.delimiter
    case '=' =>
      var st1 :- TapeSpec(st, lines, parts, hooks);
      var content := Trim(line.content);
      var at := IndexOf(content, "[");
      if at < 0 then Err(Runtime(ArgumentOutOfRange))
      else
        var stat := hooks.stat("== " + content[at..]);
        var parts1 :- AddPart(parts, index, RouteGraph.StatPart(if stat.Some? then stat.value else EmptyStat));
        Ok((st1.(tapeLabel := Some(Trim(content[..at]))), parts1))
    case '+' =>
      (match hooks.rule("++ " + line.content)
      case None => Ok((st, parts))
      case Some((rule, None)) =>
        var parts1 :- AddPart(parts, index, RouteGraph.RulePart(rule.(keys := [])));
        Ok((st, parts1))
      case Some((rule, Some((name, texts)))) =>
        var (data, book1) := Distribute(BankAdder, st.book, [name], texts);
        if data.Err? then Err(data.error)
        else
          var parts1 :- AddPart(parts, index, RouteGraph.RulePart(rule.(keys := name)));
          Ok((st.(book := book1), parts1))
      )
    case '#' =>
      (match hooks.text("## " + line.content)
      case None => Ok((st, parts))
      case Some((name, text)) =>
        var (data, book1) := Single(BankAdder, st.book, name, text);
        if data.Err? then Err(data.error)
        else
          var parts1 :- AddPart(parts, index, RouteGraph.TextPart(data.value));
          Ok((st.(book := book1), parts1))
      )
    case '/' =>
      var parts1 :- AddPart(parts, index, RouteGraph.CommentPart(Trim(line.content)));
      Ok((st, parts1))
    case _ => Ok((st, parts))
  }

  /** A part that is built keeps the tape labels distinct ignoring case. */
  lemma PartKeepsDistinct(st: BuildState, lines: seq<Line>, index: nat, parts: RouteGraph.Parts, hooks: Hooks)
    requires index < |lines| && KeysDistinct(st.tapes) && PartSpec(st, lines, index, parts, hooks).Ok?
    ensures KeysDistinct(PartSpec(st, lines, index, parts, hooks).value.0.tapes)
  {
    if lines[index].delimiter == '=' {
      TapeKeepsDistinct(st, lines, parts, hooks);
    }
  }

  /** The route name a span is read under: the text key of the rule of line `ruleLine`, or `FAIL`. */
  function RouteName(parts: RouteGraph.Parts, ruleLine: int): String
  {
    if ruleLine in parts && parts[ruleLine].RulePart? && parts[ruleLine].rule.keys != [] then parts[ruleLine].rule.keys
    else "FAIL"
  }

  /**
   * The route line loop of `BuildRoute` over the lines `ls`: each line
   * parsed and built by the route line constructor, which moves the cursor
   * `k` and sends texts to the book `b`; a line that does not parse is
   * skipped. Returns the route lines with the cursor and the book.
   */
  function SpanLines(k: Knot, b: Book, ls: seq<Line>, hooks: Hooks): (r: (Result<seq<RouteData>>, Knot, Book))
    requires |k.counts| == Levels
    ensures |r.1.counts| == Levels
    decreases |ls|
  {
    if ls == [] then (Ok([]), k, b)
    else SpanStep(SpanLines(k, b, ls[..|ls| - 1], hooks), ls[|ls| - 1], hooks)
  }

  /** One line of that loop, after the route lines `acc` read so far with the cursor and the book. */
  function SpanStep(acc: (Result<seq<RouteData>>, Knot, Book), l: Line, hooks: Hooks): (r: (Result<seq<RouteData>>, Knot, Book))
    requires |acc.1.counts| == Levels
    ensures |r.1.counts| == Levels
  {
    var (prev, k, b) := acc;
    if prev.Err? then acc
    else
      match hooks.route("--" + l.content)
      case None => acc
      case Some((d, line)) =>
        var (res, k1, b1) := RouteLine(k, b, d, line, hooks.tags);
        if res.Err? then (Err(res.error), k1, b1) else (Ok(prev.value + [res.value]), k1, b1)
  }

  /** The route line loop over one more line is one more step. */
  lemma SpanLinesNext(k: Knot, b: Book, ls: seq<Line>, i: nat, hooks: Hooks)
    requires |k.counts| == Levels && i < |ls|
    ensures SpanLines(k, b, ls[..i + 1], hooks) == SpanStep(SpanLines(k, b, ls[..i], hooks), ls[i], hooks)
  {
    assert ls[..i + 1][..i] == ls[..i];
  }

  /** Once the route line loop fails, it fails with that outcome to the end. */
  lemma {:induction false} SpanLinesStops(k: Knot, b: Book, ls: seq<Line>, i: nat, hooks: Hooks)
    requires |k.counts| == Levels && i <= |ls| && SpanLines(k, b, ls[..i], hooks).0.Err?
    ensures SpanLines(k, b, ls, hooks) == SpanLines(k, b, ls[..i], hooks)
    decreases |ls| - i
  {
    if i < |ls| {
      assert ls[..i + 1][..i] == ls[..i];
      SpanLinesStops(k, b, ls, i + 1, hooks);
    } else {
      assert ls[..i] == ls;
    }
  }

  /** The route line loop never renames the cursor, and its counters stay non-negative. */
  lemma {:induction false} SpanLinesKeepName(k: Knot, b: Book, ls: seq<Line>, hooks: Hooks)
    requires |k.counts| == Levels && NonNegative(k.counts)
    ensures SpanLines(k, b, ls, hooks).1.name == k.name && NonNegative(SpanLines(k, b, ls, hooks).1.counts)
    decreases |ls|
  {
    if ls != [] {
      SpanLinesKeepName(k, b, ls[..|ls| - 1], hooks);
      var (prev, k1, b1) := SpanLines(k, b, ls[..|ls| - 1], hooks);
      if prev.Ok? {
        match hooks.route("--" + ls[|ls| - 1].content)
        case None =>
        case Some((d, line)) =>
          StepKeeps(k1, d);
      }
    }
  }

  /**
   * `BuildRoute` over the span of lines `start` to `end`, labelled by the
   * rule line `ruleLine`: the route lines read under the route name, then
   * the graph assembled into the bank and the parts, the span's first line
   * being the base of its parts.
   */
  function RouteSpec(st: BuildState, lines: seq<Line>, ruleLine: int, start: nat, end: nat,
                     parts: RouteGraph.Parts, hooks: Hooks): Result<(BuildState, RouteGraph.Parts)>
    requires start <= end < |lines|
  {
    var (results, k, b) := SpanLines(Knot(Some(RouteName(parts, ruleLine)), 0, Zeros()), st.book, lines[start..end + 1], hooks);
    if results.Err? then Err(results.error)
    else if k.name.None? then Err(Contextual(NullOrEmpty, RouteContext))
    else
      var (bank, parts1) :- RouteGraph.Assemble(results.value, k.name.value, st.bank, parts, start);
      Ok((st.(bank := bank, book := b), parts1))
  }

  /**
   * A span that is built is banked under its route name, which was not
   * banked before: the root node's text is that name; nothing banked and
   * no part recorded before is lost, and the tapes are untouched. A span
   * whose route name is banked already throws `DuplicateKey`, unless a
   * route line fails first.
   */
  lemma RouteMeaning(st: BuildState, lines: seq<Line>, ruleLine: int, start: nat, end: nat,
                     parts: RouteGraph.Parts, hooks: Hooks)
    requires start <= end < |lines|
    ensures var r := RouteSpec(st, lines, ruleLine, start, end, parts, hooks);
      var key := RouteName(parts, ruleLine);
      (r.Ok? ==>
        r.value.0.tapes == st.tapes && r.value.0.tapeLabel == st.tapeLabel &&
        key !in st.bank && key in r.value.0.bank && r.value.0.bank[key].text == [key] &&
        RouteGraph.Grows(st.bank, r.value.0.bank) && RouteGraph.Grows(parts, r.value.1)) &&
      (key in st.bank ==>
        (r.Err? && (r.error == Contextual(DuplicateKey, RouteContext) ||
                    SpanLines(Knot(Some(key), 0, Zeros()), st.book, lines[start..end + 1], hooks).0.Err?)))
  {
    var key := RouteName(parts, ruleLine);
    var k0 := Knot(Some(key), 0, Zeros());
    SpanLinesKeepName(k0, st.book, lines[start..end + 1], hooks);
    var (results, k, b) := SpanLines(k0, st.book, lines[start..end + 1], hooks);
    if results.Ok? && RouteSpec(st, lines, ruleLine, start, end, parts, hooks).Ok? {
      RouteGraph.AssembleShape(results.value, key, st.bank, parts, start);
    }
  }

  /** One line of the route line loop, as `SpanStep` describes it. */
  method ReadRouteLine(l: Line, results: seq<RouteData>, routeCache: RouteKnot, textbook: MutableTextBook, hooks: Hooks)
    returns (r: Result<seq<RouteData>>)
    requires routeCache.Valid()
    modifies routeCache, routeCache.depthCount, textbook
    ensures routeCache.Valid()
    ensures (r, routeCache.State(), textbook.State()) ==
      SpanStep((Ok(results), old(routeCache.State()), old(textbook.State())), l, hooks)
  {
    var parsed := hooks.route("--" + l.content);
    if parsed.None? {
      return Ok(results);
    }
    var result := NewRouteData(parsed.value.0, parsed.value.1, routeCache, textbook, hooks.tags);
    if result.Err? {
      return Err(result.error);
    }
    return Ok(results + [result.value]);
  }

  /** The route line loop of `BuildRoute` over the lines of one span, as `SpanLines` describes it. */
  method ReadSpan(span: seq<Line>, routeCache: RouteKnot, textbook: MutableTextBook, hooks: Hooks)
    returns (r: Result<seq<RouteData>>)
    requires routeCache.Valid()
    modifies routeCache, routeCache.depthCount, textbook
    ensures routeCache.Valid()
    ensures (r, routeCache.State(), textbook.State()) == SpanLines(old(routeCache.State()), old(textbook.State()), span, hooks)
  {
    ghost var k0 := routeCache.State();
    ghost var b0 := textbook.State();
    var results: seq<RouteData> := [];
    for j := 0 to |span|
      invariant routeCache.Valid()
      invariant SpanLines(k0, b0, span[..j], hooks) == (Ok(results), routeCache.State(), textbook.State())
    {
      SpanLinesNext(k0, b0, span, j, hooks);
      var next := ReadRouteLine(span[j], results, routeCache, textbook, hooks);
      if next.Err? {
        SpanLinesStops(k0, b0, span, j + 1, hooks);
        return next;
      }
      results := next.value;
    }
    assert span[..|span|] == span;
    return Ok(results);
  }

  /** The rule line a span is labelled by: the nearest rule line before line `j`, or -1. */
  function RuleLineBefore(lines: seq<Line>, j: nat): (r: int)
    requires j <= |lines|
    ensures -1 <= r < j
    ensures r >= 0 ==> lines[r].delimiter == '+'
    ensures forall k :: r < k < j ==> lines[k].delimiter != '+'
  {
    if j == 0 then -1
    else if lines[j - 1].delimiter == '+' then j - 1
    else RuleLineBefore(lines, j - 1)
  }

  /** The backward search of `Build` for a span's rule line. */
  method FindRuleLine(lines: seq<Line>, routeStart: nat) returns (routeLabel: int)
    requires routeStart <= |lines|
    ensures routeLabel == RuleLineBefore(lines, routeStart)
  {
    var j: nat := routeStart;
    while j > 0
      invariant j <= routeStart
      invariant RuleLineBefore(lines, routeStart) == RuleLineBefore(lines, j)
    {
      if lines[j - 1].delimiter == '+' {
        return j - 1;
      }
      j := j - 1;
    }
    return -1;
  }

  /**
   * The state of the line loop of `Build`: the builder, the parts, and the
   * first and last lines of the pending route span, -1 for none.
   */
  datatype Scan = Scan(st: BuildState, parts: RouteGraph.Parts, routeStart: int, routeEnd: int)

  /**
   * The span bounds before line `i`: no span, or a first route line, with
   * a later last route line once a second route line has been met.
   */
  predicate Pending(s: Scan, lines: seq<Line>, i: nat)
    requires i <= |lines|
  {
    (s.routeStart == -1 && s.routeEnd == -1) ||
    (0 <= s.routeStart < i && lines[s.routeStart].delimiter == '-' &&
     (s.routeEnd == -1 || (s.routeStart < s.routeEnd < i && lines[s.routeEnd].delimiter == '-')))
  }

  /**
   * One line of `Build`: a route line opens the pending span or becomes its
   * last line; any other line gets its part, after which a span with two
   * route lines or more is built, labelled by the nearest rule line before
   * it, and closed.
   */
  function ScanStep(s: Scan, lines: seq<Line>, i: nat, hooks: Hooks): (r: Result<Scan>)
    requires i < |lines| && Pending(s, lines, i)
    ensures r.Ok? ==> Pending(r.value, lines, i + 1)
  {
    if lines[i].delimiter == '-' then
      Ok(if s.routeStart == -1 then s.(routeStart := i) else s.(routeEnd := i))
    else
      var (st1, parts1) :- PartSpec(s.st, lines, i, s.parts, hooks);
      if s.routeStart > -1 && s.routeEnd > s.routeStart then
        var (st2, parts2) :- RouteSpec(st1, lines, RuleLineBefore(lines, s.routeStart), s.routeStart, s.routeEnd, parts1, hooks);
        Ok(Scan(st2, parts2, -1, -1))
      else Ok(Scan(st1, parts1, s.routeStart, s.routeEnd))
  }

  /** The line loop of `Build` over the first `n` lines, from a builder with no tapes and no tape being read. */
  function Scanned(st: BuildState, lines: seq<Line>, n: nat, hooks: Hooks): (r: Result<Scan>)
    requires n <= |lines|
    ensures r.Ok? ==> Pending(r.value, lines, n)
  {
    if n == 0 then Ok(Scan(st.(tapes := [], tapeLabel := None), map[], -1, -1))
    else
      var s :- Scanned(st, lines, n - 1, hooks);
      ScanStep(s, lines, n - 1, hooks)
  }

  /** The line loop over one more line, after a successful prefix, is one more step. */
  lemma ScannedNext(st: BuildState, lines: seq<Line>, n: nat, hooks: Hooks)
    requires n < |lines| && Scanned(st, lines, n, hooks).Ok?
    ensures Scanned(st, lines, n + 1, hooks) == ScanStep(Scanned(st, lines, n, hooks).value, lines, n, hooks)
  {
  }

  /** Once the line loop fails, it fails with that error to the end. */
  lemma {:induction false} ScannedStops(st: BuildState, lines: seq<Line>, i: nat, n: nat, hooks: Hooks)
    requires i <= n <= |lines| && Scanned(st, lines, i, hooks).Err?
    ensures Scanned(st, lines, n, hooks) == Scanned(st, lines, i, hooks)
    decreases n - i
  {
    if i < n {
      ScannedStops(st, lines, i + 1, n, hooks);
    }
  }

  /** `Build`: the line loop, the last pending span, then the last tape. */
  function BuildSpec(st: BuildState, lines: seq<Line>, hooks: Hooks): Result<(BuildState, RouteGraph.Parts)>
  {
    var s :- Scanned(st, lines, |lines|, hooks);
    var (st1, parts1) :-
      if s.routeStart > -1 && s.routeEnd > s.routeStart
      then RouteSpec(s.st, lines, RuleLineBefore(lines, s.routeStart), s.routeStart, s.routeEnd, s.parts, hooks)
      else Ok((s.st, s.parts));
    var st2 :- TapeSpec(st1, lines, parts1, hooks);
    Ok((st2, parts1))
  }

  /** A span that is built leaves the tapes and the tape being read as they were. */
  lemma RouteKeepsTapes(st: BuildState, lines: seq<Line>, ruleLine: int, start: nat, end: nat,
                        parts: RouteGraph.Parts, hooks: Hooks)
    requires start <= end < |lines| && RouteSpec(st, lines, ruleLine, start, end, parts, hooks).Ok?
    ensures RouteSpec(st, lines, ruleLine, start, end, parts, hooks).value.0.tapes == st.tapes
    ensures RouteSpec(st, lines, ruleLine, start, end, parts, hooks).value.0.tapeLabel == st.tapeLabel
  {
  }

  /** One line of the loop keeps the tape labels distinct ignoring case. */
  lemma ScanStepKeepsDistinct(s: Scan, lines: seq<Line>, i: nat, hooks: Hooks)
    requires i < |lines| && Pending(s, lines, i) && KeysDistinct(s.st.tapes) && ScanStep(s, lines, i, hooks).Ok?
    ensures KeysDistinct(ScanStep(s, lines, i, hooks).value.st.tapes)
  {
    if lines[i].delimiter != '-' {
      PartKeepsDistinct(s.st, lines, i, s.parts, hooks);
      var (st1, parts1) := PartSpec(s.st, lines, i, s.parts, hooks).value;
      if s.routeStart > -1 && s.routeEnd > s.routeStart {
        RouteKeepsTapes(st1, lines, RuleLineBefore(lines, s.routeStart), s.routeStart, s.routeEnd, parts1, hooks);
      }
    }
  }

  /** The line loop keeps the tape labels distinct ignoring case. */
  lemma {:induction false} ScannedKeepsDistinct(st: BuildState, lines: seq<Line>, n: nat, hooks: Hooks)
    requires n <= |lines| && Scanned(st, lines, n, hooks).Ok?
    ensures KeysDistinct(Scanned(st, lines, n, hooks).value.st.tapes)
  {
    if n > 0 {
      ScannedKeepsDistinct(st, lines, n - 1, hooks);
      ScannedNextKeepsDistinct(st, lines, n - 1, hooks);
    }
  }

  /** One more line keeps the tape labels distinct. */
  lemma ScannedNextKeepsDistinct(st: BuildState, lines: seq<Line>, n: nat, hooks: Hooks)
    requires n < |lines| && Scanned(st, lines, n, hooks).Ok? && Scanned(st, lines, n + 1, hooks).Ok?
    requires KeysDistinct(Scanned(st, lines, n, hooks).value.st.tapes)
    ensures KeysDistinct(Scanned(st, lines, n + 1, hooks).value.st.tapes)
  {
    ScannedNext(st, lines, n, hooks);
    ScanStepKeepsDistinct(Scanned(st, lines, n, hooks).value, lines, n, hooks);
  }

  /**
   * A build that succeeds leaves no tape being read, and no two tapes with
   * labels equal ignoring case.
   */
  lemma BuildKeepsDistinct(st: BuildState, lines: seq<Line>, hooks: Hooks)
    requires BuildSpec(st, lines, hooks).Ok?
    ensures KeysDistinct(BuildSpec(st, lines, hooks).value.0.tapes)
    ensures BuildSpec(st, lines, hooks).value.0.tapeLabel.None?
  {
    ScannedKeepsDistinct(st, lines, |lines|, hooks);
    var s := Scanned(st, lines, |lines|, hooks).value;
    var (st1, parts1) := (if s.routeStart > -1 && s.routeEnd > s.routeStart
      then RouteSpec(s.st, lines, RuleLineBefore(lines, s.routeStart), s.routeStart, s.routeEnd, s.parts, hooks)
      else Ok((s.st, s.parts))).value;
    if s.routeStart > -1 && s.routeEnd > s.routeStart {
      RouteKeepsTapes(s.st, lines, RuleLineBefore(lines, s.routeStart), s.routeStart, s.routeEnd, s.parts, hooks);
    }
    TapeKeepsDistinct(st1, lines, parts1, hooks);
  }

  /**
   * A route line alone does not close: the next route line, even after
   * other lines, becomes the last line of its span, and the span takes in
   * the lines between.
   */
  lemma LoneRouteLineJoinsNext(st: BuildState, lines: seq<Line>, hooks: Hooks)
    requires |lines| >= 3 && lines[0].delimiter == '-' && lines[1].delimiter != '-' && lines[2].delimiter == '-'
    requires Scanned(st, lines, 3, hooks).Ok?
    ensures Scanned(st, lines, 3, hooks).value.routeStart == 0
    ensures Scanned(st, lines, 3, hooks).value.routeEnd == 2
  {
    assert Scanned(st, lines, 1, hooks) == Ok(Scan(st.(tapes := [], tapeLabel := None), map[], 0, -1));
    assert Scanned(st, lines, 2, hooks).value.routeStart == 0 && Scanned(st, lines, 2, hooks).value.routeEnd == -1;
  }

  /** With no route line among the first `n` lines, every part recorded is that of an earlier line. */
  lemma {:induction false} ScannedPartsBefore(st: BuildState, lines: seq<Line>, n: nat, hooks: Hooks)
    requires n <= |lines| && Scanned(st, lines, n, hooks).Ok?
    requires forall k :: 0 <= k < n ==> lines[k].delimiter != '-'
    ensures Scanned(st, lines, n, hooks).value.routeStart == -1
    ensures forall k :: k in Scanned(st, lines, n, hooks).value.parts ==> 0 <= k < n
  {
    if n > 0 {
      ScannedPartsBefore(st, lines, n - 1, hooks);
      ScannedNext(st, lines, n - 1, hooks);
      PartStepKeys(Scanned(st, lines, n - 1, hooks).value, lines, n - 1, hooks);
    }
  }

  /** Away from route lines, one step of the line loop records at most the part of its own line. */
  lemma PartStepKeys(s: Scan, lines: seq<Line>, i: nat, hooks: Hooks)
    requires i < |lines| && Pending(s, lines, i) && lines[i].delimiter != '-' && s.routeStart == -1
    requires ScanStep(s, lines, i, hooks).Ok?
    ensures ScanStep(s, lines, i, hooks).value.routeStart == -1
    ensures forall k :: k in ScanStep(s, lines, i, hooks).value.parts ==> k in s.parts || k == i
  {
    var (st1, parts1) := PartSpec(s.st, lines, i, s.parts, hooks).value;
    assert ScanStep(s, lines, i, hooks) == Ok(Scan(st1, parts1, -1, s.routeEnd));
  }

  /**
   * In a script without route lines, a second tape whose stat line comes
   * before a rule line cannot be started: building the first tape reads
   * the part of that rule line, which is not recorded yet, and the whole
   * build throws `MissingKey`.
   */
  lemma SecondTapeThrows(st: BuildState, lines: seq<Line>, hooks: Hooks, i: nat, j: nat)
    requires i < j < |lines| && lines[i].delimiter == '=' && lines[j].delimiter == '+'
    requires forall k :: 0 <= k < i ==> lines[k].delimiter != '-'
    requires Scanned(st, lines, i, hooks).Ok?
    requires var s := Scanned(st, lines, i, hooks).value;
      s.st.tapeLabel.Some? && TapeStat(s.st.book, lines, s.parts, hooks).Ok?
    ensures BuildSpec(st, lines, hooks) == Err(Runtime(MissingKey))
  {
    ScannedPartsBefore(st, lines, i, hooks);
    var s := Scanned(st, lines, i, hooks).value;
    LaterRuleLineThrows(s.st, lines, s.parts, hooks, j);
    assert Scanned(st, lines, i + 1, hooks) == Err(Runtime(MissingKey));
    ScannedStops(st, lines, i + 1, |lines|, hooks);
  }

  /** The keys of `d`, in order. */
  function KeysOf<V>(d: seq<(String, V)>): (r: seq<String>)
    ensures |r| == |d| && forall i :: 0 <= i < |d| ==> r[i] == d[i].0
  {
    if d == [] then [] else KeysOf(d[..|d| - 1]) + [d[|d| - 1].0]
  }

  /** The position of the key of `d` equal to `name` ignoring case, the first one; -1 for none. */
  function FindKey<V>(d: seq<(String, V)>, name: String): (r: int)
    ensures -1 <= r < |d|
    ensures r == -1 <==> !HasKey(d, name)
    ensures r >= 0 ==> EqualsIgnoreCase(d[r].0, name) && forall i :: 0 <= i < r ==> !EqualsIgnoreCase(d[i].0, name)
  {
    if d == [] then -1
    else if EqualsIgnoreCase(d[0].0, name) then 0
    else
      var r := FindKey(d[1..], name);
      assert forall i :: 1 <= i < |d| ==> d[1..][i - 1] == d[i];
      if r == -1 then -1 else r + 1
  }

  /** With keys distinct ignoring case, every key is found at its own position. */
  lemma FindsEveryKey<V>(d: seq<(String, V)>, i: nat)
    requires KeysDistinct(d) && i < |d|
    ensures FindKey(d, d[i].0) == i
  {
    EqualsIgnoreCaseRefl(d[i].0);
    var r := FindKey(d, d[i].0);
    assert r != -1 by { assert EqualsIgnoreCase(d[i].0, d[i].0); }
  }

  /** A method's outcome `r`, with the state `st` it leaves, is the one `spec` describes; the state after an error is not described. */
  predicate Agrees(r: Result<RouteGraph.Parts>, st: BuildState, spec: Result<(BuildState, RouteGraph.Parts)>)
  {
    match r
    case Err(e) => spec == Err(e)
    case Ok(p) => spec == Ok((st, p))
  }

  /** `F3NolanScriptBuilder`: the tapes compiled from the lines of a script. */
  class ScriptBuilder {
    var tapes: Tapes
    var tapeLabel: Option<String>
    var routeBank: RouteGraph.Bank
    const textbook: MutableTextBook

    function State(): BuildState
      reads this, textbook
    {
      BuildState(tapes, tapeLabel, routeBank, textbook.State())
    }

    /** A builder with no tapes, no tape being read, an empty bank and an empty book. */
    constructor()
      ensures State() == BuildState([], None, map[], EmptyBook)
      ensures fresh(textbook)
    {
      tapes := [];
      tapeLabel := None;
      routeBank := map[];
      textbook := new MutableTextBook();
    }

    /** `Keys`: the tape labels, in the order the tapes were built. */
    function Keys(): (r: seq<String>)
      reads this
      ensures |r| == |tapes| && forall i :: 0 <= i < |tapes| ==> r[i] == tapes[i].0
    {
      KeysOf(tapes)
    }

    /** The indexer: the tape whose label equals `name` ignoring case; `KeyNotFound` when there is none. */
    function Tape(name: String): (r: Result<Script>)
      reads this
      ensures r.Err? <==> !HasKey(tapes, name)
      ensures r.Err? ==> r.error == Contextual(KeyNotFound, KnotContext)
      ensures r.Ok? ==> exists i :: 0 <= i < |tapes| && EqualsIgnoreCase(tapes[i].0, name) && r.value == tapes[i].1
    {
      var i := FindKey(tapes, name);
      if i < 0 then Err(Contextual(KeyNotFound, KnotContext)) else Ok(tapes[i].1)
    }

    /** `Last`: the label of the tape built last; with no tape, it throws. */
    function Last(): (r: Result<String>)
      reads this
      ensures r.Ok? <==> tapes != []
      ensures r.Ok? ==> r.value == tapes[|tapes| - 1].0
      ensures r.Err? ==> r.error == Runtime(EmptySequence)
    {
      if tapes == [] then Err(Runtime(EmptySequence)) else Ok(tapes[|tapes| - 1].0)
    }

    /** `BuildTape`, as `TapeSpec` describes it. */
    method BuildTape(lines: seq<Line>, parts: RouteGraph.Parts, hooks: Hooks) returns (failure: Option<Error>)
      modifies this, textbook
      ensures failure.None? <==> TapeSpec(old(State()), lines, parts, hooks).Ok?
      ensures failure.Some? ==> failure.value == TapeSpec(old(State()), lines, parts, hooks).error
      ensures failure.None? ==> State() == TapeSpec(old(State()), lines, parts, hooks).value
    {
      if tapeLabel.None? {
        return None;
      }
      var scriptText := Freeze(textbook.State(), routeBank);
      var scriptStat := EmptyStat;
      if |lines| <= TapeStart {
        return Some(Runtime(ArgumentOutOfRange));
      }
      if lines[TapeStart].delimiter == '=' {
        if TapeStart !in parts {
          return Some(Runtime(MissingKey));
        }
        if parts[TapeStart].StatPart? {
          var sequenceStat := InitialSequence(textbook.State());
          if sequenceStat.Err? {
            return Some(sequenceStat.error);
          }
          scriptStat := hooks.initialize(parts[TapeStart].stat, sequenceStat.value);
        }
      }
      assert TapeStat(textbook.State(), lines, parts, hooks) == Ok(scriptStat);
      var rulebook: seq<Rule> := [];
      for j := 0 to |lines|
        invariant TapeRules(lines, parts, j) == Ok(rulebook)
      {
        if lines[j].delimiter == '+' {
          if j !in parts {
            TapeRulesStops(lines, parts, j + 1, |lines|);
            return Some(Runtime(MissingKey));
          }
          if parts[j].RulePart? {
            rulebook := rulebook + [parts[j].rule];
          }
        }
      }
      var added := Add(tapes, tapeLabel.value, Script.Script(scriptStat, rulebook, scriptText));
      if added.Err? {
        return Some(added.error);
      }
      tapes := added.value;
      textbook.Clear();
      routeBank := map[];
      tapeLabel := None;
      return None;
    }

    /** `BuildPart`, as `PartSpec` describes it. */
    method BuildPart(lines: seq<Line>, index: nat, parts: RouteGraph.Parts, hooks: Hooks) returns (r: Result<RouteGraph.Parts>)
      requires index < |lines|
      modifies this, textbook
      ensures Agrees(r, State(), PartSpec(old(State()), lines, index, parts, hooks))
    {
      var line := lines[index];
      match line.delimiter
      case '=' =>
        var failure := BuildTape(lines, parts, hooks);
        if failure.Some? {
          return Err(failure.value);
        }
        var content := Trim(line.content);
        var statIndex := IndexOf(content, "[");
        if statIndex < 0 {
          return Err(Runtime(ArgumentOutOfRange));
        }
        tapeLabel := Some(Trim(content[..statIndex]));
        var stat := hooks.stat("== " + content[statIndex..]);
        r := AddPart(parts, index, RouteGraph.StatPart(if stat.Some? then stat.value else EmptyStat));
      case '+' =>
        var rule := hooks.rule("++ " + line.content);
        if rule.None? {
          return Ok(parts);
        }
        var keys: String := [];
        if rule.value.1.Some? {
          var (name, texts) := rule.value.1.value;
          var textData := NewTextData([name], texts, textbook);
          if textData.Err? {
            return Err(textData.error);
          }
          keys := name;
        }
        r := AddPart(parts, index, RouteGraph.RulePart(rule.value.0.(keys := keys)));
      case '#' =>
        var text := hooks.text("## " + line.content);
        if text.None? {
          return Ok(parts);
        }
        var textData := NewSingleText(text.value.0, text.value.1, textbook);
        if textData.Err? {
          return Err(textData.error);
        }
        r := AddPart(parts, index, RouteGraph.TextPart(textData.value));
      case '/' =>
        r := AddPart(parts, index, RouteGraph.CommentPart(Trim(line.content)));
      case _ =>
        r := Ok(parts);
    }

    /** `BuildRoute`, as `RouteSpec` describes it. */
    method BuildRoute(lines: seq<Line>, routeLabel: int, routeStart: nat, routeEnd: nat,
                      parts: RouteGraph.Parts, hooks: Hooks) returns (r: Result<RouteGraph.Parts>)
      requires routeStart <= routeEnd < |lines|
      modifies this, textbook
      ensures Agrees(r, State(), RouteSpec(old(State()), lines, routeLabel, routeStart, routeEnd, parts, hooks))
    {
      var routeCache := new RouteKnot();
      if routeLabel in parts && parts[routeLabel].RulePart? && parts[routeLabel].rule.keys != [] {
        routeCache.Clear(Some(parts[routeLabel].rule.keys));
      } else {
        routeCache.Clear(Some("FAIL"));
      }
      var results := ReadSpan(lines[routeStart..routeEnd + 1], routeCache, textbook, hooks);
      if results.Err? {
        return Err(results.error);
      }
      var initialKey := routeCache.GetShortName();
      if initialKey.Err? {
        return Err(initialKey.error);
      }
      var assembled := RouteGraph.AssembleRoute(results.value, initialKey.value, routeBank, parts, routeStart);
      if assembled.Err? {
        return Err(assembled.error);
      }
      routeBank := assembled.value.0;
      return Ok(assembled.value.1);
    }

    /** One line of `Build`, as `ScanStep` describes it. */
    method BuildLine(lines: seq<Line>, i: nat, parts: RouteGraph.Parts, routeStart: int, routeEnd: int, hooks: Hooks)
      returns (r: Result<(RouteGraph.Parts, int, int)>)
      requires i < |lines| && Pending(Scan(State(), parts, routeStart, routeEnd), lines, i)
      modifies this, textbook
      ensures var spec := ScanStep(Scan(old(State()), parts, routeStart, routeEnd), lines, i, hooks);
        match r
        case Err(e) => spec == Err(e)
        case Ok((p, s, e)) => spec == Ok(Scan(State(), p, s, e))
    {
      if lines[i].delimiter == '-' {
        if routeStart == -1 {
          return Ok((parts, i, routeEnd));
        }
        return Ok((parts, routeStart, i));
      }
      var built := BuildPart(lines, i, parts, hooks);
      if built.Err? {
        return Err(built.error);
      }
      if routeStart > -1 && routeEnd > routeStart {
        var routeLabel := FindRuleLine(lines, routeStart);
        var routed := BuildRoute(lines, routeLabel, routeStart, routeEnd, built.value, hooks);
        if routed.Err? {
          return Err(routed.error);
        }
        return Ok((routed.value, -1, -1));
      }
      return Ok((built.value, routeStart, routeEnd));
    }

    /** `Build`, as `BuildSpec` describes it. */
    method Build(lines: seq<Line>, hooks: Hooks) returns (r: Result<RouteGraph.Parts>)
      modifies this, textbook
      ensures Agrees(r, State(), BuildSpec(old(State()), lines, hooks))
    {
      ghost var st0 := State();
      tapeLabel := None;
      tapes := [];
      var parts: RouteGraph.Parts := map[];
      var routeStart, routeEnd := -1, -1;
      for i := 0 to |lines|
        invariant Scanned(st0, lines, i, hooks) == Ok(Scan(State(), parts, routeStart, routeEnd))
      {
        var next := BuildLine(lines, i, parts, routeStart, routeEnd, hooks);
        if next.Err? {
          ScannedStops(st0, lines, i + 1, |lines|, hooks);
          return Err(next.error);
        }
        parts, routeStart, routeEnd := next.value.0, next.value.1, next.value.2;
      }
      if routeStart > -1 && routeEnd > routeStart {
        var routeLabel := FindRuleLine(lines, routeStart);
        var routed := BuildRoute(lines, routeLabel, routeStart, routeEnd, parts, hooks);
        if routed.Err? {
          return routed;
        }
        parts := routed.value;
      }
      var failure := BuildTape(lines, parts, hooks);
      if failure.Some? {
        return Err(failure.value);
      }
      return Ok(parts);
    }
  }
}
