// The script compiler's first pass (`F3NolanScriptBuilder.Line`, `Merge`
// and `Parse`): every source line is classified by its two-character
// opener, and an unmarked line is joined onto the classified line before
// it. Also the mapping between compilation contexts and their openers.

module ScriptLines {
  import opened Base
  import opened Str
  import Lists

  /** The openers, in the order they are tried: stat, tape, rule, route, text, comment, goal, step. */
  const Delimiters: seq<char> := ['=', '>', '+', '-', '#', '/', '*', '?']

  /** The mark of a continuation line. */
  const Concat: char := '~'

  /** A source line once classified: its delimiter and its content. */
  datatype Line = Line(delimiter: char, content: String)

  /** `line` opens with the delimiter `d`: `d` twice, or `=>` for the stat delimiter. */
  predicate Opens(line: String, d: char)
  {
    StartsWith(line, [d, d]) || (d == '=' && StartsWith(line, "=>"))
  }

  /** The first delimiter, from position `j` of the list on, that opens `line`. */
  function OpenerFrom(line: String, j: nat): (r: Option<char>)
    requires j <= |Delimiters|
    ensures r.Some? ==> Opens(line, r.value) && r.value in Delimiters
    ensures r.None? <==> forall k :: j <= k < |Delimiters| ==> !Opens(line, Delimiters[k])
    decreases |Delimiters| - j
  {
    if j == |Delimiters| then None
    else if Opens(line, Delimiters[j]) then Some(Delimiters[j])
    else OpenerFrom(line, j + 1)
  }

  /** Two delimiters never open the same line, so the order they are tried in does not matter. */
  lemma OpenersExclusive(line: String, c: char, d: char)
    requires Opens(line, c) && Opens(line, d)
    ensures c == d
  {
    assert line[0] == line[..2][0];
  }

  /**
   * `new Line(line)`: an empty line is an empty continuation; a line
   * opened by a delimiter gets it, with the rest of the line trimmed and a
   * space appended as content; any other line is a continuation whose
   * content is the trimmed line and a space.
   */
  function Classify(line: String): (r: Line)
  {
    if line == [] then Line(Concat, [])
    else
      match OpenerFrom(line, 0)
      case Some(d) => Line(d, Trim(line[2..]) + " ")
      case None => Line(Concat, Trim(line) + " ")
  }

  /**
   * A line is classified exactly when some delimiter opens it, and then
   * under that delimiter; only an empty line has empty content, and every
   * other content ends with a space.
   */
  lemma ClassifyMeaning(line: String)
    ensures var r := Classify(line);
      (r.delimiter != Concat <==> exists k :: 0 <= k < |Delimiters| && Opens(line, Delimiters[k])) &&
      (r.delimiter != Concat ==> Opens(line, r.delimiter) && r.content == Trim(line[2..]) + " ") &&
      (r.delimiter == Concat && line != [] ==> r.content == Trim(line) + " ") &&
      (r.content == [] <==> line == []) &&
      (line != [] ==> r.content[|r.content| - 1] == ' ')
  {
    var r := Classify(line);
    if line != [] {
      var o := OpenerFrom(line, 0);
      if o.Some? {
        var k :| 0 <= k < |Delimiters| && Delimiters[k] == o.value;
        assert Opens(line, Delimiters[k]);
      }
    }
  }

  /** The constructor of `Line`: the delimiters tried in order. */
  method NewLine(line: String) returns (r: Line)
    ensures r == Classify(line)
  {
    if line == [] {
      return Line(Concat, []);
    }
    for j := 0 to |Delimiters|
      invariant OpenerFrom(line, j) == OpenerFrom(line, 0)
    {
      var d := Delimiters[j];
      if StartsWith(line, [d, d]) || (d == '=' && StartsWith(line, "=>")) {
        return Line(d, Trim(line[2..]) + " ");
      }
    }
    return Line(Concat, Trim(line) + " ");
  }

  /** `Merge`: a non-empty continuation's content is appended; anything else leaves the line as it was. */
  function Merge(l: Line, next: Line): (r: Line)
    ensures r.delimiter == l.delimiter
    ensures r.content == l.content + (if next.delimiter == Concat then next.content else [])
  {
    if next.delimiter == Concat && next.content != [] then l.(content := l.content + next.content) else l
  }

  /** One step of `Parse`: a classified line is added, a continuation merged into the last line or dropped. */
  function ParseStep(lines: seq<Line>, next: Line): seq<Line>
  {
    if next.delimiter != Concat then lines + [next]
    else if |lines| > 0 then lines[..|lines| - 1] + [Merge(lines[|lines| - 1], next)]
    else lines
  }

  /** The lines `Parse` builds from a script. */
  function Parsed(script: seq<String>): seq<Line>
    decreases |script|
  {
    if script == [] then []
    else ParseStep(Parsed(script[..|script| - 1]), Classify(script[|script| - 1]))
  }

  /** `Parse`: the lines built, and whether there is any. */
  method Parse(script: seq<String>) returns (ok: bool, lines: seq<Line>)
    ensures lines == Parsed(script)
    ensures ok <==> |lines| > 0
  {
    lines := [];
    for i := 0 to |script|
      invariant lines == Parsed(script[..i])
    {
      assert script[..i + 1][..i] == script[..i];
      var nextLine := NewLine(script[i]);
      if nextLine.delimiter != Concat {
        lines := lines + [nextLine];
      } else if |lines| > 0 {
        var lastLine := lines[|lines| - 1];
        lines := lines[..|lines| - 1];
        lastLine := Merge(lastLine, nextLine);
        lines := lines + [lastLine];
      }
    }
    assert script[..|script|] == script;
    return |lines| > 0, lines;
  }

  /** How many lines of the script a delimiter opens. */
  function ClassifiedCount(script: seq<String>): nat
    decreases |script|
  {
    if script == [] then 0
    else ClassifiedCount(script[..|script| - 1]) + (if Classify(script[|script| - 1]).delimiter != Concat then 1 else 0)
  }

  /** There are as many parsed lines as classified source lines, and every one of them is classified. */
  lemma {:induction false} ParsedCount(script: seq<String>)
    ensures |Parsed(script)| == ClassifiedCount(script)
    ensures forall k :: 0 <= k < |Parsed(script)| ==> Parsed(script)[k].delimiter != Concat
    decreases |script|
  {
    if script != [] {
      ParsedCount(script[..|script| - 1]);
    }
  }

  /** No classified line in the script means no classified line anywhere. */
  lemma {:induction false} CountZero(script: seq<String>)
    ensures ClassifiedCount(script) == 0 <==> forall i :: 0 <= i < |script| ==> Classify(script[i]).delimiter == Concat
    decreases |script|
  {
    if script != [] {
      var n := |script| - 1;
      var prefix := script[..n];
      CountZero(prefix);
      assert ClassifiedCount(script) ==
        ClassifiedCount(prefix) + (if Classify(script[n]).delimiter != Concat then 1 else 0);
      assert forall i :: 0 <= i < n ==> prefix[i] == script[i];
    }
  }

  /** `Parse` succeeds exactly when some line of the script is classified. */
  lemma ParseSucceedsIff(script: seq<String>)
    ensures |Parsed(script)| > 0 <==> exists i :: 0 <= i < |script| && Classify(script[i]).delimiter != Concat
  {
    ParsedCount(script);
    CountZero(script);
  }

  /** The contents of lines, end to end. */
  function Flatten(lines: seq<Line>): String
    decreases |lines|
  {
    if lines == [] then [] else Flatten(lines[..|lines| - 1]) + lines[|lines| - 1].content
  }

  /** The contents of all the script's lines once classified, end to end. */
  function Texts(script: seq<String>): String
    decreases |script|
  {
    if script == [] then [] else Texts(script[..|script| - 1]) + Classify(script[|script| - 1]).content
  }

  /** The contents of the continuation lines before the first classified line. */
  function Lead(script: seq<String>): String
    decreases |script|
  {
    if script == [] then []
    else
      var n := |script| - 1;
      Lead(script[..n]) + (if ClassifiedCount(script[..n]) == 0 && Classify(script[n]).delimiter == Concat then Classify(script[n]).content else [])
  }

  /** Adding a line adds its content at the end. */
  lemma FlattenSnoc(lines: seq<Line>, l: Line)
    ensures Flatten(lines + [l]) == Flatten(lines) + l.content
  {
    assert (lines + [l])[..|lines|] == lines;
  }

  /** Merging a continuation into the last line adds the continuation's content at the end. */
  lemma MergeKeepsText(p: seq<Line>, l: Line)
    requires |p| > 0 && l.delimiter == Concat
    ensures Flatten(p[..|p| - 1] + [Merge(p[|p| - 1], l)]) == Flatten(p) + l.content
  {
    var q := p[..|p| - 1];
    var last := p[|p| - 1];
    var m := Merge(last, l);
    FlattenSnoc(q, m);
    FlattenSnoc(q, last);
    Lists.FrontLast(p);
    Lists.ConcatAssoc(Flatten(q), last.content, l.content);
  }

  /** One step of `Parse` adds the new line's content, unless it is a continuation with no line to join. */
  lemma StepKeepsText(p: seq<Line>, l: Line)
    ensures Flatten(ParseStep(p, l)) == Flatten(p) + (if l.delimiter != Concat || |p| > 0 then l.content else [])
  {
    if l.delimiter != Concat {
      FlattenSnoc(p, l);
    } else if |p| > 0 {
      MergeKeepsText(p, l);
    } else {
      assert Flatten(ParseStep(p, l)) == Flatten(p) + [];
    }
  }

  /**
   * The step of `ParseKeepsText` on contents alone: a content `c` goes to
   * the lead when it joins no line, and to the parsed contents otherwise.
   */
  lemma JoinTexts(lead: String, flat: String, texts: String, c: String, joined: bool)
    requires lead + flat == texts && (!joined ==> flat == [])
    ensures (lead + (if joined then [] else c)) + (flat + (if joined then c else [])) == texts + c
  {
    if joined {
      assert lead + [] == lead;
      Lists.ConcatAssoc(lead, flat, c);
    } else {
      assert flat + [] == flat;
      assert lead + flat == lead;
    }
  }

  /**
   * `Parse` loses no text but the leading continuations: those and the
   * parsed contents, end to end, are all the script's contents in order.
   */
  lemma {:induction false} ParseKeepsText(script: seq<String>)
    ensures Lead(script) + Flatten(Parsed(script)) == Texts(script)
    decreases |script|
  {
    if script != [] {
      var n := |script| - 1;
      var prefix := script[..n];
      var p := Parsed(prefix);
      var l := Classify(script[n]);
      var joined := l.delimiter != Concat || |p| > 0;
      ParseKeepsText(prefix);
      assert |p| == ClassifiedCount(prefix) by {
        ParsedCount(prefix);
      }
      StepKeepsText(p, l);
      JoinTexts(Lead(prefix), Flatten(p), Texts(prefix), l.content, joined);
    }
  }

  // ---------------------------------------------------------------------
  // Contexts and their openers

  /** `GetPrefixFromContext`: the opener of a context; the text and tape contexts have the comment opener. */
  function PrefixOf(c: ScriptContext): (r: String)
    ensures |r| == 2 && r[0] == r[1] && r[0] in Delimiters
  {
    match c
    case RuleContext => "++"
    case RouteContext => "--"
    case StatContext => "=="
    case PageContext => "**"
    case GoalContext => "??"
    case _ => "//"
  }

  /** `GetContextFromPrefix`: the context of an opener; anything unknown is the text context. */
  function ContextOf(prefix: String): ScriptContext
  {
    if prefix == "++" then RuleContext
    else if prefix == "--" then RouteContext
    else if prefix == "==" then StatContext
    else if prefix == "**" then PageContext
    else if prefix == "??" then GoalContext
    else TextContext
  }

  /** Every context but the tape context survives the trip to its opener and back. */
  lemma ContextRoundTrip(c: ScriptContext)
    ensures ContextOf(PrefixOf(c)) == c <==> c != KnotContext
  {
  }

  /** The openers that survive the trip to their context and back are the six the mapping names. */
  lemma PrefixRoundTrip(p: String)
    ensures PrefixOf(ContextOf(p)) == p <==> p in ["++", "--", "==", "**", "??", "//"]
  {
  }
}
