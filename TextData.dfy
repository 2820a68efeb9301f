// A node's text (`F3NolanTextData`): the keys the text bank handed back
// for each of its names, filled by sending the node's lines to the bank
// one by one, and the inline text markup helper.

module TextDatas {
  import opened Base
  import opened Str
  import opened Lists
  import opened TextBooks

  /** No name occurs twice. */
  predicate Distinct(names: seq<String>)
  {
    forall i, j :: 0 <= i < j < |names| ==> names[i] != names[j]
  }

  /**
   * The keys of each name of a text: `entries[j]` is the list of
   * `names[j]`, the names in the order the engine's dictionary was filled.
   */
  datatype TextData = TextData(names: seq<String>, entries: seq<seq<String>>)
  {
    /** The names are distinct dictionary keys, one list each. */
    predicate Valid()
    {
      Distinct(names) && |entries| == |names|
    }
  }

  /**
   * The callback a text is filled through: it takes the bank, a name and a
   * line, and gives the keys the bank hands back (or its failure) and the
   * bank after it. The compiler always passes the text bank's `AppendLine`.
   */
  type Adder = (Book, String, String) -> (Result<seq<String>>, Book)

  /** The text bank's `AppendLine` as a callback. */
  const BankAdder: Adder := (b: Book, name: String, line: String) => AppendSpec(b, name, line)

  /**
   * The bank's answers to the first `k` lines, line `i` sent under
   * `names[i mod |names|]`, and the bank after them; the first failure
   * stops the run.
   */
  function Run(add: Adder, b: Book, names: seq<String>, lines: seq<String>, k: nat): (r: (Result<seq<seq<String>>>, Book))
    requires |names| > 0 && k <= |lines|
    ensures r.0.Ok? ==> |r.0.value| == k
  {
    if k == 0 then (Ok([]), b)
    else
      var (done, b1) := Run(add, b, names, lines, k - 1);
      if done.Err? then (done, b1)
      else
        var (added, b2) := add(b1, names[(k - 1) % |names|], lines[k - 1]);
        if added.Err? then (Err(added.error), b2) else (Ok(done.value + [added.value]), b2)
  }

  /** Once a run has failed, running further lines changes nothing. */
  lemma {:induction false} RunStops(add: Adder, b: Book, names: seq<String>, lines: seq<String>, k: nat, n: nat)
    requires |names| > 0 && k <= n <= |lines|
    requires Run(add, b, names, lines, k).0.Err?
    ensures Run(add, b, names, lines, n) == Run(add, b, names, lines, k)
    decreases n
  {
    if n > k {
      RunStops(add, b, names, lines, k, n - 1);
    }
  }

  /** `count` empty lists. */
  function Blank(count: nat): (e: seq<seq<String>>)
    ensures |e| == count && forall j :: 0 <= j < count ==> e[j] == []
  {
    seq(count, _ => [])
  }

  /** The first `k` answers, answer `i` appended to list `i mod count`. */
  function Gather(count: nat, results: seq<seq<String>>, k: nat): (e: seq<seq<String>>)
    requires count > 0 && k <= |results|
    ensures |e| == count
  {
    if k == 0 then Blank(count)
    else
      var e := Gather(count, results, k - 1);
      e[(k - 1) % count := e[(k - 1) % count] + results[k - 1]]
  }

  /** Gathering `k` answers reads only the first `k`. */
  lemma {:induction false} GatherExtend(count: nat, results: seq<seq<String>>, x: seq<String>, k: nat)
    requires count > 0 && k <= |results|
    ensures Gather(count, results + [x], k) == Gather(count, results, k)
  {
    if k > 0 {
      GatherExtend(count, results, x, k - 1);
      assert (results + [x])[k - 1] == results[k - 1];
    }
  }

  /** The answers among the first `k` whose index is `j` modulo `count`, joined in order. */
  function Collected(count: nat, results: seq<seq<String>>, j: nat, k: nat): seq<String>
    requires count > 0 && k <= |results|
  {
    if k == 0 then []
    else Collected(count, results, j, k - 1) + (if (k - 1) % count == j then results[k - 1] else [])
  }

  /** List `j` holds, in order, the answers to exactly the lines whose index is `j` modulo `count`. */
  lemma {:induction false} GatherCollects(count: nat, results: seq<seq<String>>, j: nat, k: nat)
    requires count > 0 && j < count && k <= |results|
    ensures Gather(count, results, k)[j] == Collected(count, results, j, k)
  {
    if k > 0 {
      GatherCollects(count, results, j, k - 1);
      if (k - 1) % count != j {
        assert Collected(count, results, j, k) == Collected(count, results, j, k - 1) + [];
      }
    }
  }

  /** A number below the modulus is its own remainder. */
  lemma ModSmall(x: int, n: int)
    requires 0 <= x < n
    ensures x % n == x
  {
  }

  /** A list whose position is past the last line receives nothing. */
  lemma {:induction false} CollectedNone(count: nat, results: seq<seq<String>>, j: nat, k: nat)
    requires j < count && k <= j && k <= |results|
    ensures Collected(count, results, j, k) == []
  {
    if k > 0 {
      CollectedNone(count, results, j, k - 1);
      ModSmall(k - 1, count);
    }
  }

  /**
   * The multi-name constructor: every name is declared first (a repeated
   * name is a duplicate dictionary entry), then line `i` is sent to the
   * bank under `names[i mod |names|]` and the answer appended to that
   * name's list. With no names, the first line divides by zero.
   */
  function Distribute(add: Adder, b: Book, names: seq<String>, lines: seq<String>): (r: (Result<TextData>, Book))
    ensures r.0.Ok? ==> r.0.value.names == names && r.0.value.Valid()
    ensures !Distinct(names) ==> r == (Err(Runtime(DuplicateEntry)), b)
    ensures Distinct(names) && |names| == 0 && |lines| > 0 ==> r == (Err(Runtime(DivideByZero)), b)
  {
    if !Distinct(names) then (Err(Runtime(DuplicateEntry)), b)
    else if |lines| == 0 then (Ok(TextData(names, Blank(|names|))), b)
    else if |names| == 0 then (Err(Runtime(DivideByZero)), b)
    else
      var (results, b1) := Run(add, b, names, lines, |lines|);
      if results.Err? then (Err(results.error), b1)
      else (Ok(TextData(names, Gather(|names|, results.value, |lines|))), b1)
  }

  /**
   * The list of name `j` holds, in order, the bank's answers to exactly the
   * lines whose index is `j` modulo the number of names; a name past the
   * last line has an empty list.
   */
  lemma DistributeShares(add: Adder, b: Book, names: seq<String>, lines: seq<String>, j: nat)
    requires Distribute(add, b, names, lines).0.Ok? && j < |names| && |lines| > 0
    ensures var results := Run(add, b, names, lines, |lines|).0;
      var d := Distribute(add, b, names, lines).0.value;
      results.Ok? && d.entries[j] == Collected(|names|, results.value, j, |lines|) &&
      (|lines| <= j ==> d.entries[j] == [])
  {
    var results := Run(add, b, names, lines, |lines|).0;
    GatherCollects(|names|, results.value, j, |lines|);
    if |lines| <= j {
      CollectedNone(|names|, results.value, j, |lines|);
    }
  }

  /**
   * The single-name constructor: one entry, the name, holding the bank's
   * answer to the one line.
   */
  function Single(add: Adder, b: Book, name: String, line: String): (r: (Result<TextData>, Book))
    ensures r.0.Ok? ==> r.0.value.names == [name] && r.0.value.Valid()
    ensures r.1 == add(b, name, line).1
  {
    var (added, b1) := add(b, name, line);
    if added.Err? then (Err(added.error), b1) else (Ok(TextData([name], [added.value])), b1)
  }

  /** The single-name constructor is the multi-name one with one name and one line. */
  lemma SingleIsDistribute(add: Adder, b: Book, name: String, line: String)
    ensures Single(add, b, name, line) == Distribute(add, b, [name], [line])
  {
    var (added, b1) := add(b, name, line);
    assert Run(add, b, [name], [line], 0) == (Ok([]), b);
    if added.Ok? {
      assert [] + [added.value] == [added.value];
      assert Run(add, b, [name], [line], 1) == (Ok([added.value]), b1);
      assert Blank(1) == [[]];
      assert [] + added.value == added.value;
      assert Gather(1, [added.value], 1) == [[]][0 := added.value] == [added.value];
    }
  }

  /** The multi-name constructor, filling the lists through the bank. */
  method NewTextData(names: seq<String>, lines: seq<String>, book: MutableTextBook) returns (r: Result<TextData>)
    modifies book
    ensures (r, book.State()) == Distribute(BankAdder, old(book.State()), names, lines)
  {
    var declared := DeclareNames(names);
    if !declared {
      return Err(Runtime(DuplicateEntry));
    }
    if |lines| == 0 {
      return Ok(TextData(names, Blank(|names|)));
    }
    if |names| == 0 {
      return Err(Runtime(DivideByZero));
    }
    var entries := FillTexts(names, lines, book);
    if entries.Err? {
      return Err(entries.error);
    }
    return Ok(TextData(names, entries.value));
  }

  /** The declaring loop: each name added as a dictionary key, a repeated one refused. */
  method DeclareNames(names: seq<String>) returns (ok: bool)
    ensures ok <==> Distinct(names)
  {
    var keys: set<String> := {};
    for i := 0 to |names|
      invariant keys == set k | 0 <= k < i :: names[k]
      invariant Distinct(names[..i])
    {
      if names[i] in keys {
        assert names[..i + 1][i] == names[i];
        return false;
      }
      assert names[..i + 1] == names[..i] + [names[i]];
      keys := keys + {names[i]};
    }
    assert names[..|names|] == names;
    return true;
  }

  /** The filling loop: line `i` sent to the bank under `names[i mod |names|]`. */
  method FillTexts(names: seq<String>, lines: seq<String>, book: MutableTextBook) returns (r: Result<seq<seq<String>>>)
    requires |names| > 0
    modifies book
    ensures var (results, b) := Run(BankAdder, old(book.State()), names, lines, |lines|);
      book.State() == b && r == (if results.Err? then Err(results.error) else Ok(Gather(|names|, results.value, |lines|)))
  {
    var entries := Blank(|names|);
    ghost var b0 := book.State();
    ghost var results: seq<seq<String>> := [];
    var i := 0;
    while i < |lines|
      invariant 0 <= i <= |lines|
      invariant Run(BankAdder, b0, names, lines, i) == (Ok(results), book.State())
      invariant entries == Gather(|names|, results, i) && |results| == i
    {
      var added := SendLine(names, lines, i, book, b0, results);
      if added.Err? {
        RunStops(BankAdder, b0, names, lines, i + 1, |lines|);
        return Err(added.error);
      }
      GatherExtend(|names|, results, added.value, i);
      var nameIndex := i % |names|;
      entries := entries[nameIndex := entries[nameIndex] + added.value];
      results := results + [added.value];
      i := i + 1;
    }
    return Ok(entries);
  }

  /** One turn of the filling loop: line `i` sent to the bank under its name. */
  method SendLine(names: seq<String>, lines: seq<String>, i: nat, book: MutableTextBook, ghost b0: Book, ghost results: seq<seq<String>>)
    returns (added: Result<seq<String>>)
    requires |names| > 0 && i < |lines|
    requires Run(BankAdder, b0, names, lines, i) == (Ok(results), book.State())
    modifies book
    ensures Run(BankAdder, b0, names, lines, i + 1) ==
      (if added.Err? then Err(added.error) else Ok(results + [added.value]), book.State())
  {
    added := book.AppendLine(names[i % |names|], lines[i]);
  }

  /** The single-name constructor. */
  method NewSingleText(name: String, line: String, book: MutableTextBook) returns (r: Result<TextData>)
    modifies book
    ensures (r, book.State()) == Single(BankAdder, old(book.State()), name, line)
  {
    var added := book.AppendLine(name, line);
    if added.Err? {
      return Err(added.error);
    }
    return Ok(TextData([name], [added.value]));
  }

  /** `Name`: the first name; a text with no names has no first key. */
  function Name(d: TextData): (r: Result<String>)
    ensures r.Ok? <==> |d.names| > 0
    ensures r.Ok? ==> r.value in d.names
  {
    if |d.names| == 0 then Err(Runtime(EmptySequence)) else Ok(d.names[0])
  }

  /** The indexer: the list of a name, `KeyNotFound` for a name the text lacks. */
  function Get(d: TextData, name: String): (r: Result<seq<String>>)
    requires d.Valid()
    ensures r.Err? <==> name !in d.names
    ensures r.Err? ==> r.error == Contextual(KeyNotFound, TextContext)
    ensures forall j :: 0 <= j < |d.names| && d.names[j] == name ==> r == Ok(d.entries[j])
  {
    var j := FirstIndex(d.names, name);
    if j < 0 then Err(Contextual(KeyNotFound, TextContext)) else Ok(d.entries[j])
  }

  /** `Value`: the list of the first name. */
  function Value(d: TextData): (r: Result<seq<String>>)
    requires d.Valid()
    ensures r.Ok? <==> |d.names| > 0
    ensures r.Ok? ==> r.value == d.entries[0]
  {
    var name :- Name(d);
    Get(d, name)
  }

  /** `Keys`: every name, in order; exactly the names the indexer knows. */
  function Keys(d: TextData): (r: seq<String>)
    requires d.Valid()
    ensures forall n :: n in r <==> Get(d, n).Ok?
  {
    d.names
  }

  /** A text the constructor built is named by its first name, and its value is that name's list. */
  lemma NameOfDistribute(add: Adder, b: Book, names: seq<String>, lines: seq<String>)
    requires Distribute(add, b, names, lines).0.Ok? && |names| > 0
    ensures var d := Distribute(add, b, names, lines).0.value;
      Name(d) == Ok(names[0]) && Value(d) == Get(d, names[0]) == Ok(d.entries[0])
  {
  }

  // ---------------------------------------------------------------------
  // Inline markup

  /** The two characters `\n` that stand for a line break in the exported text. */
  const Break: String := "\\n"

  /**
   * The emphasis loop of `ParseTextFormat` from the `<*` found at `index`
   * of the original line (or -1 when none is left): the signal runs in the
   * rewritten text from that index to just past its first `/>`, and every
   * copy of it is rewritten to `\n<Emphasis>…</>`.
   */
  function FormatFrom(line: String, result: String, index: int): (r: Result<String>)
    requires -1 <= index <= |line|
    decreases if index < 0 then 0 else |line| + 1 - index
  {
    if index < 0 then Ok(result)
    else
      var last := IndexOf(result, "/>") + 2;
      if last < index || last > |result| then Err(Runtime(ArgumentOutOfRange))
      else
        var signal := result[index..last];
        if signal == [] then Err(Runtime(EmptyPattern))
        else
          var styled := ReplaceAll(ReplaceAll(signal, "<*", Break + "<Emphasis>"), "/>", "</>");
          var result1 := ReplaceAll(result, signal, styled);
          if last > |line| then Err(Runtime(ArgumentOutOfRange))
          else FormatFrom(line, result1, IndexOfFrom(line, "<*", last))
  }

  /** `ParseTextFormat`: every `<>` becomes `\n`, then the emphasis loop. */
  function TextFormat(line: String): Result<String>
  {
    FormatFrom(line, ReplaceAll(line, "<>", Break), IndexOf(line, "<*"))
  }

  /** `ParseTextFormat`, with its loop. */
  method ParseTextFormat(line: String) returns (r: Result<String>)
    ensures r == TextFormat(line)
  {
    var result := ReplaceAll(line, "<>", Break);
    var emphasisIndex := IndexOf(line, "<*");
    while emphasisIndex > -1
      invariant -1 <= emphasisIndex <= |line|
      invariant FormatFrom(line, result, emphasisIndex) == TextFormat(line)
      decreases if emphasisIndex < 0 then 0 else |line| + 1 - emphasisIndex
    {
      var emphasisLast := IndexOf(result, "/>") + 2;
      if emphasisLast < emphasisIndex || emphasisLast > |result| {
        return Err(Runtime(ArgumentOutOfRange));
      }
      var signal := result[emphasisIndex..emphasisLast];
      if signal == [] {
        return Err(Runtime(EmptyPattern));
      }
      result := ReplaceAll(result, signal, ReplaceAll(ReplaceAll(signal, "<*", Break + "<Emphasis>"), "/>", "</>"));
      if emphasisLast > |line| {
        return Err(Runtime(ArgumentOutOfRange));
      }
      emphasisIndex := IndexOfFrom(line, "<*", emphasisLast);
    }
    return Ok(result);
  }

  /** Replacing by text of the same length keeps the length. */
  lemma {:induction false} ReplaceKeepsLength(s: String, pat: String, rep: String)
    requires |pat| > 0 && |rep| == |pat|
    ensures |ReplaceAll(s, pat, rep)| == |s|
    decreases |s|
  {
    if |s| >= |pat| {
      if s[..|pat|] == pat {
        ReplaceKeepsLength(s[|pat|..], pat, rep);
      } else {
        ReplaceKeepsLength(s[1..], pat, rep);
      }
    }
  }

  /** The text after `<>` is replaced starts with the break or with the text's own first character. */
  lemma BreaksHead(s: String)
    requires |s| > 0
    ensures var r := ReplaceAll(s, "<>", Break); |r| > 0 && (r[0] == '\\' || r[0] == s[0])
  {
  }

  /** Text with no `<>` keeps none when the break is put in front. */
  lemma NoMarkupAfterBreak(rest: String)
    requires forall i :: !ContainsAt(rest, "<>", i)
    ensures forall i :: !ContainsAt(Break + rest, "<>", i)
  {
    var r := Break + rest;
    forall i ensures !ContainsAt(r, "<>", i) {
      if 2 <= i && i + 2 <= |r| {
        assert r[i..i + 2] == rest[i - 2..i];
        assert !ContainsAt(rest, "<>", i - 2);
      } else if 0 <= i && i + 2 <= |r| {
        assert r[i..i + 2] == [r[i], r[i + 1]] && r[0] == '\\' && r[1] == 'n';
      }
    }
  }

  /** Text with no `<>` keeps none when a character that does not open one with its head is put in front. */
  lemma NoMarkupAfterChar(c: char, rest: String)
    requires forall i :: !ContainsAt(rest, "<>", i)
    requires |rest| > 0 ==> !(c == '<' && rest[0] == '>')
    ensures forall i :: !ContainsAt([c] + rest, "<>", i)
  {
    var r := [c] + rest;
    forall i ensures !ContainsAt(r, "<>", i) {
      if 1 <= i && i + 2 <= |r| {
        assert r[i..i + 2] == rest[i - 1..i + 1];
        assert !ContainsAt(rest, "<>", i - 1);
      } else if i == 0 && 2 <= |r| {
        assert r[0..2] == [c, rest[0]];
      }
    }
  }

  /** After replacing, no `<>` is left. */
  lemma {:induction false} BreaksLeaveNoMarkup(s: String)
    ensures forall i :: !ContainsAt(ReplaceAll(s, "<>", Break), "<>", i)
    decreases |s|
  {
    if |s| >= 2 {
      if s[..2] == "<>" {
        BreaksLeaveNoMarkup(s[2..]);
        NoMarkupAfterBreak(ReplaceAll(s[2..], "<>", Break));
      } else {
        var rest := ReplaceAll(s[1..], "<>", Break);
        BreaksLeaveNoMarkup(s[1..]);
        BreaksHead(s[1..]);
        assert s[..2] == [s[0], s[1]];
        NoMarkupAfterChar(s[0], rest);
      }
    }
  }

  /**
   * On text with no `<*`, `ParseTextFormat` only turns each `<>` into the
   * two characters `\n`: the length is kept and no `<>` is left.
   */
  lemma PlainTextFormat(line: String)
    requires !Contains(line, "<*")
    ensures TextFormat(line) == Ok(ReplaceAll(line, "<>", Break))
    ensures |TextFormat(line).value| == |line|
    ensures forall i :: !ContainsAt(TextFormat(line).value, "<>", i)
  {
    ReplaceKeepsLength(line, "<>", Break);
    BreaksLeaveNoMarkup(line);
  }
}
