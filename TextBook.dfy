// The text bank: the mutable book (`F3NolanMutableTextBook`) that the
// compiler appends lines to, and the read-only book (`F3NolanTextBook`)
// a tape carries, with its key indexer.

module TextBooks {
  import opened Base
  import opened Str
  import opened Lists
  import opened Tags
  import opened TagSets
  import opened Stitches

  /** The contents of a mutable text book: lines and line ranges per name, and the sequence keys. */
  datatype Book = Book(lines: map<String, seq<String>>, ranges: map<String, seq<(int, int)>>,
                       loopKeys: seq<String>, onceKeys: seq<String>)

  const EmptyBook: Book := Book(map[], map[], [], [])

  // ---------------------------------------------------------------------
  // Splitting a line into displayed lines

  /** A signal such as `<$Shake/>`, which becomes a line, and a key, of its own. */
  predicate IsSignal(x: String) { StartsWith(x, "<$") && EndsWith(x, "/>") }

  /** What a displayed line looks like: not empty, and a signal or trimmed text. */
  predicate Displayable(x: String)
  {
    x != [] && (IsSignal(x) || (!IsWhite(x[0]) && !IsWhite(x[|x| - 1])))
  }

  predicate AllDisplayable(xs: seq<String>)
  {
    forall k :: 0 <= k < |xs| ==> Displayable(xs[k])
  }

  lemma DisplayableConcat(xs: seq<String>, ys: seq<String>)
    requires AllDisplayable(xs) && AllDisplayable(ys)
    ensures AllDisplayable(xs + ys)
  {
    forall k | 0 <= k < |xs + ys| ensures Displayable((xs + ys)[k]) {
      if k >= |xs| {
        assert (xs + ys)[k] == ys[k - |xs|];
      }
    }
  }

  /** The first `<$` before the first `/>` opens a signal that the `/>` closes. */
  lemma SignalSlice(span: String, s: int, e: int)
    requires -1 < s < e && ContainsAt(span, "<$", s) && ContainsAt(span, "/>", e)
    ensures e + 2 <= |span| && IsSignal(span[s..e + 2])
  {
    assert span[s + 1] == span[s..s + 2][1];
    assert span[e] == span[e..e + 2][0];
    var signal := span[s..e + 2];
    assert signal[..2] == span[s..s + 2];
    assert signal[|signal| - 2..] == span[e..e + 2];
  }

  /** The signal loop over one `</>` piece: text before each signal, the signal, then the rest. */
  function SignalLines(span: String): (r: seq<String>)
    decreases |span|, 1
  {
    SignalsAt(span, IndexOf(span, "<$"), IndexOf(span, "/>"))
  }

  /** The signal loop once the first `<$` is found at `s` and the first `/>` at `e`. */
  function SignalsAt(span: String, s: int, e: int): (r: seq<String>)
    requires s == -1 || ContainsAt(span, "<$", s)
    requires e == -1 || ContainsAt(span, "/>", e)
    decreases |span|, 0
  {
    if s > -1 && s < e then
      SignalSlice(span, s, e);
      TextBefore(span, s) + [span[s..e + 2]] + SignalLines(Trim(span[e + 2..]))
    else if Trim(span) != [] then [Trim(span)] else []
  }

  /** The text before a signal, trimmed, when there is any. */
  function TextBefore(span: String, s: nat): seq<String>
    requires s <= |span|
  {
    if s > 0 && Trim(span[..s]) != [] then [Trim(span[..s])] else []
  }

  /** Every line the signal loop yields is displayable. */
  lemma {:induction false} SignalLinesDisplayable(span: String)
    ensures AllDisplayable(SignalLines(span))
    decreases |span|
  {
    var s := IndexOf(span, "<$");
    var e := IndexOf(span, "/>");
    if s > -1 && s < e {
      SignalSlice(span, s, e);
      var before := TextBefore(span, s);
      SignalLinesDisplayable(Trim(span[e + 2..]));
      assert AllDisplayable([span[s..e + 2]]);
      DisplayableConcat(before, [span[s..e + 2]]);
      DisplayableConcat(before + [span[s..e + 2]], SignalLines(Trim(span[e + 2..])));
    }
  }

  /** The displayed lines of each piece, in order. */
  function Gather(pieces: seq<String>): seq<String>
    decreases |pieces|
  {
    if pieces == [] then [] else Gather(pieces[..|pieces| - 1]) + SignalLines(pieces[|pieces| - 1])
  }

  /** Every displayed line of a plain line is displayable. */
  lemma {:induction false} GatherDisplayable(pieces: seq<String>)
    ensures AllDisplayable(Gather(pieces))
    decreases |pieces|
  {
    if pieces != [] {
      GatherDisplayable(pieces[..|pieces| - 1]);
      SignalLinesDisplayable(pieces[|pieces| - 1]);
      DisplayableConcat(Gather(pieces[..|pieces| - 1]), SignalLines(pieces[|pieces| - 1]));
    }
  }

  /** The displayed lines of a plain line: split on `</>`, then on signals. */
  function Pieces(line: String): seq<String>
  {
    Gather(Split(line, "</>"))
  }

  /** A line with no `</>` and no signal is displayed as itself, trimmed, or not at all when blank. */
  lemma PlainPieces(line: String)
    requires !Str.Contains(line, "</>") && !Str.Contains(line, "<$")
    ensures Pieces(line) == if Trim(line) == [] then [] else [Trim(line)]
  {
    assert Split(line, "</>") == [line];
    assert [line][..0] == [];
    LastIndexOfLast(line, "<$");
    assert IndexOf(line, "<$") == -1;
    assert Gather([line]) == Gather([]) + SignalLines(line);
  }

  /** One round of the signal loop. */
  lemma SignalStep(span: String, s: int, e: int)
    requires s == IndexOf(span, "<$") && e == IndexOf(span, "/>") && -1 < s < e
    ensures e + 2 <= |span|
    ensures SignalLines(span) == TextBefore(span, s) + [span[s..e + 2]] + SignalLines(Trim(span[e + 2..]))
  {
    SignalSlice(span, s, e);
  }

  /** The loop over the signals of one piece. */
  method SplitSignals(piece: String) returns (out: seq<String>)
    ensures out == SignalLines(piece)
  {
    out := [];
    var span := piece;
    var s := IndexOf(span, "<$");
    var e := IndexOf(span, "/>");
    while s > -1 && s < e
      invariant s == IndexOf(span, "<$") && e == IndexOf(span, "/>")
      invariant out + SignalLines(span) == SignalLines(piece)
      decreases |span|
    {
      SignalStep(span, s, e);
      var more: seq<String> := [];
      if s > 0 {
        var text := Trim(span[..s]);
        if text != [] {
          more := [text];
        }
      }
      more := more + [span[s..e + 2]];
      ConcatAssoc(out, more, SignalLines(Trim(span[e + 2..])));
      span := Trim(span[e + 2..]);
      out := out + more;
      s := IndexOf(span, "<$");
      e := IndexOf(span, "/>");
    }
    var text := Trim(span);
    if text != [] {
      out := out + [text];
    }
  }

  // ---------------------------------------------------------------------
  // Text keys

  /** The key of line `j` of an entry: a signal keys itself, line 0 is `name`, line j is `name_j`. */
  function KeyOf(name: String, all: seq<String>, j: nat): String
    requires j < |all|
  {
    if IsSignal(all[j]) then all[j] else if j == 0 then name else name + "_" + IntToString(j)
  }

  /** The keys of the `n` lines from `start`, last line first. */
  function KeysFor(name: String, all: seq<String>, start: nat, n: nat): seq<String>
    requires start + n <= |all|
  {
    seq(n, k requires 0 <= k < n => KeyOf(name, all, start + n - 1 - k))
  }

  // ---------------------------------------------------------------------
  // AppendLine

  /** A sequence line: it opens with `(` and, trailing space aside, closes with `>)`. */
  predicate IsSequenceLine(line: String)
  {
    StartsWith(line, "(") && EndsWith(TrimEnd(line), ">)")
  }

  /** The lines of `name` so far, or none. */
  function Existing(b: Book, name: String): seq<String>
  {
    if name in b.lines then b.lines[name] else []
  }

  /** Adds displayed lines after the existing ones, records their range when there are several, and keys them. */
  function AddPieces(b: Book, name: String, pieces: seq<String>): (Result<seq<String>>, Book)
  {
    var start := |Existing(b, name)|;
    var all := Existing(b, name) + pieces;
    var ranges :=
      if |pieces| > 1 then
        b.ranges[name := (if name in b.ranges then b.ranges[name] else []) + [(start, start + |pieces|)]]
      else b.ranges;
    (Ok(KeysFor(name, all, start, |pieces|)), b.(lines := b.lines[name := all], ranges := ranges))
  }

  /**
   * `AppendLine(name, line)`: the keys it returns and the book after it,
   * including the lines a failing sequence has already added.
   */
  function AppendSpec(b: Book, name: String, line: String): (Result<seq<String>>, Book)
    decreases |line|, 2
  {
    if IsSequenceLine(line) then
      if name in b.lines then (Err(Contextual(DuplicateKey, TextContext)), b)
      else if !StartsWith(line, "(?<") && !StartsWith(line, "(!<") then (Err(Contextual(SyntaxError, TextContext)), b)
      else if |line| < 6 then (Err(Runtime(ArgumentOutOfRange)), b)
      else
        var (failure, b1) := SequenceParts(b, name, line);
        if failure.Some? then (Err(failure.value), b1)
        else if StartsWith(line, "(?<") then (Ok([name]), b1.(loopKeys := b1.loopKeys + [name + "_0"]))
        else (Ok([name]), b1.(onceKeys := b1.onceKeys + [name + "_0"]))
    else
      var pieces := Pieces(line);
      if pieces == [] then (Err(Contextual(NullOrEmpty, TextContext)), b)
      else AddPieces(b, name, pieces)
  }

  /** The parts between `(?<` or `(!<` and `>)`, split on `><`. */
  function PartsOf(line: String): (r: seq<String>)
    requires |line| >= 6
    ensures forall k :: 0 <= k < |r| ==> |r[k]| < |line|
  {
    SplitPieceLength(line[3..|line| - 3], "><");
    Split(line[3..|line| - 3], "><")
  }

  /** The parts of a sequence line appended under `name`. */
  function SequenceParts(b: Book, name: String, line: String): (Option<Error>, Book)
    requires |line| >= 6
    decreases |line|, 1
  {
    AppendParts(b, name, PartsOf(line), |line|)
  }

  /** The parts of a sequence appended one after the other, stopping at the first error. */
  function AppendParts(b: Book, name: String, parts: seq<String>, bound: nat): (Option<Error>, Book)
    requires forall k :: 0 <= k < |parts| ==> |parts[k]| < bound
    decreases bound, 0, |parts|
  {
    if parts == [] then (None, b)
    else
      var (failure, b1) := AppendParts(b, name, parts[..|parts| - 1], bound);
      if failure.Some? then (failure, b1)
      else
        var (r, b2) := AppendSpec(b1, name, parts[|parts| - 1]);
        (if r.Err? then Some(r.error) else None, b2)
  }

  lemma AppendPartsNext(b: Book, name: String, parts: seq<String>, bound: nat, i: nat)
    requires forall k :: 0 <= k < |parts| ==> |parts[k]| < bound
    requires i < |parts|
    ensures AppendParts(b, name, parts[..i + 1], bound) ==
      var (failure, b1) := AppendParts(b, name, parts[..i], bound);
      if failure.Some? then (failure, b1)
      else
        var (r, b2) := AppendSpec(b1, name, parts[i]);
        (if r.Err? then Some(r.error) else None, b2)
  {
    assert parts[..i + 1][..i] == parts[..i];
  }

  /** Once a part has failed, the later parts are not appended. */
  lemma {:induction false} AppendPartsStops(b: Book, name: String, parts: seq<String>, bound: nat, i: nat)
    requires forall k :: 0 <= k < |parts| ==> |parts[k]| < bound
    requires i <= |parts| && AppendParts(b, name, parts[..i], bound).0.Some?
    ensures AppendParts(b, name, parts, bound) == AppendParts(b, name, parts[..i], bound)
    decreases |parts| - i
  {
    if i < |parts| {
      AppendPartsNext(b, name, parts, bound, i);
      AppendPartsStops(b, name, parts, bound, i + 1);
    } else {
      assert parts[..i] == parts;
    }
  }

  /**
   * A plain line adds its displayed lines after the lines `name` already
   * has, touching no other name and neither sequence list; it records a
   * range exactly when it adds several lines; it returns one key per added
   * line, last line first; and it fails exactly when nothing displayable
   * remains.
   */
  lemma AppendPlainMeaning(b: Book, name: String, line: String)
    requires !IsSequenceLine(line)
    ensures AppendSpec(b, name, line).0.Err? <==> Pieces(line) == []
    ensures AppendSpec(b, name, line).0.Err? ==>
      AppendSpec(b, name, line) == (Err(Contextual(NullOrEmpty, TextContext)), b)
    ensures AppendSpec(b, name, line).0.Ok? ==> AddedPieces(b, name, Pieces(line), AppendSpec(b, name, line))
  {
    var pieces := Pieces(line);
    if pieces != [] {
      assert AppendSpec(b, name, line) == AddPieces(b, name, pieces);
      AddPiecesMeaning(b, name, pieces);
    }
  }

  /**
   * What adding displayed lines does: they follow the lines `name` already
   * has, no other name and neither sequence list changes, a range is
   * recorded exactly when there are several, and there is one key per added
   * line, last line first.
   */
  ghost predicate AddedPieces(b: Book, name: String, pieces: seq<String>, after: (Result<seq<String>>, Book))
  {
    AddedLines(b, name, pieces, after) && AddedRange(b, name, |pieces|, after.1)
  }

  /** The lines follow the existing ones, nothing else changes, and there is one key per line, last first. */
  ghost predicate AddedLines(b: Book, name: String, pieces: seq<String>, after: (Result<seq<String>>, Book))
  {
    var (r, b') := after;
    var n := |pieces|;
    var start := |Existing(b, name)|;
    r.Ok? && name in b'.lines &&
    b'.lines[name] == Existing(b, name) + pieces &&
    (forall k :: k != name ==> (k in b'.lines <==> k in b.lines) && (k in b.lines ==> b'.lines[k] == b.lines[k])) &&
    b'.loopKeys == b.loopKeys && b'.onceKeys == b.onceKeys &&
    |r.value| == n &&
    forall k :: 0 <= k < n ==> r.value[k] == KeyOf(name, b'.lines[name], start + n - 1 - k)
  }

  /** A range `(start, start + n)` is recorded for `name` exactly when `n` lines were added. */
  ghost predicate AddedRange(b: Book, name: String, n: nat, b': Book)
  {
    var start := |Existing(b, name)|;
    (n > 1 <==> b'.ranges != b.ranges || (name in b.ranges && b.ranges[name] != b'.ranges[name])) &&
    (n > 1 ==> name in b'.ranges && |b'.ranges[name]| > 0 && b'.ranges[name][|b'.ranges[name]| - 1] == (start, start + n))
  }

  lemma AddPiecesMeaning(b: Book, name: String, pieces: seq<String>)
    requires pieces != []
    ensures AddedPieces(b, name, pieces, AddPieces(b, name, pieces))
  {
    AddPiecesLines(b, name, pieces);
    AddPiecesRange(b, name, pieces);
  }

  lemma AddPiecesLines(b: Book, name: String, pieces: seq<String>)
    ensures AddedLines(b, name, pieces, AddPieces(b, name, pieces))
  {
  }

  lemma AddPiecesRange(b: Book, name: String, pieces: seq<String>)
    ensures AddedRange(b, name, |pieces|, AddPieces(b, name, pieces).1)
  {
    if |pieces| > 1 {
      var (r, b') := AddPieces(b, name, pieces);
      assert name in b'.ranges;
      var rs := if name in b.ranges then b.ranges[name] else [];
      assert b'.ranges[name] == rs + [(|Existing(b, name)|, |Existing(b, name)| + |pieces|)];
      assert |b'.ranges[name]| == |rs| + 1;
    }
  }

  /**
   * A sequence line on a new name appends each of its parts under that
   * name, returns just `[name]`, and records `name_0` as a loop (`(?<`)
   * or once (`(!<`) sequence; an existing name is a duplicate key and
   * any other opener a syntax error, both leaving the book unchanged.
   */
  lemma AppendSequenceMeaning(b: Book, name: String, line: String)
    requires IsSequenceLine(line)
    ensures name in b.lines ==> AppendSpec(b, name, line) == (Err(Contextual(DuplicateKey, TextContext)), b)
    ensures name !in b.lines && !StartsWith(line, "(?<") && !StartsWith(line, "(!<") ==>
      AppendSpec(b, name, line) == (Err(Contextual(SyntaxError, TextContext)), b)
    ensures AppendSpec(b, name, line).0.Ok? ==>
      var (r, b') := AppendSpec(b, name, line);
      |line| >= 6 && r.value == [name] &&
      var (failure, b1) := SequenceParts(b, name, line);
      failure.None? && b'.lines == b1.lines && b'.ranges == b1.ranges &&
      (StartsWith(line, "(?<") ==> b'.loopKeys == b1.loopKeys + [name + "_0"] && b'.onceKeys == b1.onceKeys) &&
      (!StartsWith(line, "(?<") ==> b'.onceKeys == b1.onceKeys + [name + "_0"] && b'.loopKeys == b1.loopKeys)
  {
  }

  // ---------------------------------------------------------------------
  // The mutable book

  class MutableTextBook {
    var lines: map<String, seq<String>>
    var ranges: map<String, seq<(int, int)>>
    var loopKeys: seq<String>
    var onceKeys: seq<String>

    function State(): Book
      reads this
    {
      Book(lines, ranges, loopKeys, onceKeys)
    }

    constructor()
      ensures State() == EmptyBook
    {
      lines := map[];
      ranges := map[];
      loopKeys := [];
      onceKeys := [];
    }

    method Clear()
      modifies this
      ensures State() == EmptyBook
    {
      lines := map[];
      ranges := map[];
      loopKeys := [];
      onceKeys := [];
    }

    method AppendLine(name: String, line: String) returns (res: Result<seq<String>>)
      modifies this
      ensures (res, State()) == AppendSpec(old(State()), name, line)
      decreases |line|, 1
    {
      if StartsWith(line, "(") && EndsWith(TrimEnd(line), ">)") {
        res := AppendSequence(name, line);
      } else {
        res := AppendPlain(name, line);
      }
    }

    /** The sequence case: each part of `(?<a><b>)` or `(!<a><b>)` appended under `name`. */
    method AppendSequence(name: String, line: String) returns (res: Result<seq<String>>)
      requires IsSequenceLine(line)
      modifies this
      ensures (res, State()) == AppendSpec(old(State()), name, line)
      decreases |line|, 0
    {
      if name in lines {
        return Err(Contextual(DuplicateKey, TextContext));
      }
      var isLoop := StartsWith(line, "(?<");
      if !isLoop && !StartsWith(line, "(!<") {
        return Err(Contextual(SyntaxError, TextContext));
      }
      if |line| < 6 {
        return Err(Runtime(ArgumentOutOfRange));
      }
      var parts := PartsOf(line);
      var i := 0;
      while i < |parts|
        invariant 0 <= i <= |parts|
        invariant AppendParts(old(State()), name, parts[..i], |line|) == (None, State())
      {
        AppendPartsNext(old(State()), name, parts, |line|, i);
        var r := AppendLine(name, parts[i]);
        if r.Err? {
          AppendPartsStops(old(State()), name, parts, |line|, i + 1);
          return Err(r.error);
        }
        i := i + 1;
      }
      assert parts[..i] == parts;
      if isLoop {
        loopKeys := loopKeys + [name + "_0"];
      } else {
        onceKeys := onceKeys + [name + "_0"];
      }
      return Ok([name]);
    }

    /** The plain case: the displayed lines appended, their range recorded, their keys returned. */
    method AppendPlain(name: String, line: String) returns (res: Result<seq<String>>)
      requires !IsSequenceLine(line)
      modifies this
      ensures (res, State()) == AppendSpec(old(State()), name, line)
    {
      ghost var b := State();
      var trimLines := PlainLines(line);
      if trimLines == [] {
        return Err(Contextual(NullOrEmpty, TextContext));
      }
      assert AppendSpec(b, name, line) == AddPieces(b, name, trimLines);
      assert b.lines == lines && b.ranges == ranges;
      var existing := if name in lines then lines[name] else [];
      var start := |existing|;
      lines := lines[name := existing + trimLines];
      if |trimLines| > 1 {
        var recorded := if name in ranges then ranges[name] else [];
        ranges := ranges[name := recorded + [(start, start + |trimLines|)]];
      }
      var keys := KeyLoop(name, lines[name], start, |trimLines|);
      res := Ok(keys);
    }
  }

  /** The loop over the `</>` pieces of a plain line. */
  method PlainLines(line: String) returns (out: seq<String>)
    ensures out == Pieces(line)
  {
    var pieces := Split(line, "</>");
    out := [];
    var i := 0;
    while i < |pieces|
      invariant 0 <= i <= |pieces|
      invariant out == Gather(pieces[..i])
    {
      assert pieces[..i + 1][..i] == pieces[..i];
      var more := SplitSignals(pieces[i]);
      out := out + more;
      i := i + 1;
    }
    assert pieces[..i] == pieces;
  }

  /** The key loop: from the last added line down to the first. */
  method KeyLoop(name: String, all: seq<String>, start: nat, n: nat) returns (keys: seq<String>)
    requires start + n <= |all|
    ensures keys == KeysFor(name, all, start, n)
  {
    keys := [];
    var i := start + n;
    while i > start
      invariant start <= i <= start + n
      invariant keys == KeysFor(name, all, i, start + n - i)
    {
      KeysForNext(name, all, i, start + n - i);
      var text := all[i - 1];
      var key;
      if StartsWith(text, "<$") && EndsWith(text, "/>") {
        key := text;
      } else if i == 1 {
        key := name;
      } else {
        key := name + "_" + IntToString(i - 1);
      }
      assert key == KeyOf(name, all, i - 1);
      keys := keys + [key];
      i := i - 1;
    }
  }

  /** One more line, just before the others, adds its key at the end. */
  lemma KeysForNext(name: String, all: seq<String>, i: nat, m: nat)
    requires 0 < i && i + m <= |all|
    ensures KeysFor(name, all, i - 1, m + 1) == KeysFor(name, all, i, m) + [KeyOf(name, all, i - 1)]
  {
    var a := KeysFor(name, all, i - 1, m + 1);
    var b := KeysFor(name, all, i, m) + [KeyOf(name, all, i - 1)];
    assert |a| == |b|;
    forall k | 0 <= k < m + 1 ensures a[k] == b[k] {
    }
  }

  // ---------------------------------------------------------------------
  // Sequences

  /** `GetInitialSequence`: a LOOP location, then a ONCE location, each only when it has keys. */
  function InitialSequence(b: Book): (r: Result<seq<(String, TagSet)>>)
    ensures r.Ok? ==> |r.value| == (if b.loopKeys == [] then 0 else 1) + (if b.onceKeys == [] then 0 else 1)
    ensures r.Ok? && b.loopKeys != [] ==> r.value[0].0 == "LOOP" && Ok(r.value[0].1) == FromStrings(b.loopKeys)
    ensures r.Ok? && b.onceKeys != [] ==>
      r.value[|r.value| - 1].0 == "ONCE" && Ok(r.value[|r.value| - 1].1) == FromStrings(b.onceKeys)
    ensures r.Err? ==> FromStrings(b.loopKeys).Err? || FromStrings(b.onceKeys).Err?
  {
    var loop: seq<(String, TagSet)> :-
      if b.loopKeys == [] then Ok([]) else (var s :- FromStrings(b.loopKeys); Ok([("LOOP", s)]));
    var once: seq<(String, TagSet)> :-
      if b.onceKeys == [] then Ok([]) else (var s :- FromStrings(b.onceKeys); Ok([("ONCE", s)]));
    Ok(loop + once)
  }

  // ---------------------------------------------------------------------
  // The read-only book and its indexer

  /** A tape's text book: the lines and ranges taken from the mutable book, and the route nodes. */
  datatype TextBook = TextBook(lines: map<String, seq<String>>, ranges: map<String, seq<(int, int)>>,
                               routes: map<String, RouteStruct>)

  function Freeze(b: Book, routes: map<String, RouteStruct>): TextBook
  {
    TextBook(b.lines, b.ranges, routes)
  }

  const MinInt32: int := -0x8000_0000
  const MaxInt32: int := 0x7fff_ffff

  /** A trailing `%` (loop) or `#` (sequence) marker dropped. */
  function StripMarker(key: String): String
  {
    if EndsWith(key, "%") || EndsWith(key, "#") then key[..|key| - 1] else key
  }

  /** `lines[key][0]`. */
  function FirstLine(book: TextBook, key: String): Result<String>
  {
    if key !in book.lines then Err(Runtime(MissingKey))
    else if book.lines[key] == [] then Err(Runtime(IndexOutOfRange))
    else Ok(book.lines[key][0])
  }

  /**
   * The indexer as written: a key with no `_` after its first character,
   * or any key of a one-entry book, reads line 0; otherwise `name_n` reads
   * line `n` of `name`, where `n` is checked against the number of entries.
   */
  function Lookup(book: TextBook, key0: String): Result<String>
  {
    var key := StripMarker(key0);
    var lineEnds := LastIndexOf(key, "_");
    if |book.lines| == 1 || lineEnds < 1 then FirstLine(book, key)
    else
      var n :- ParseInteger(key[lineEnds + 1..], MinInt32, MaxInt32);
      NumberedAsWritten(book, key[..lineEnds], n)
  }

  /** Line `n` of `lineKey`, with `n` checked against the number of entries first. */
  function NumberedAsWritten(book: TextBook, lineKey: String, n: int): Result<String>
  {
    if n >= |book.lines| then Err(Contextual(OutOfRange, TextContext))
    else if lineKey !in book.lines then Err(Contextual(KeyNotFound, TextContext))
    else if n < 0 || n >= |book.lines[lineKey]| then Err(Runtime(IndexOutOfRange))
    else Ok(book.lines[lineKey][n])
  }

  /**
   * The indexer with the entry count left out of both tests, as the
   * out-of-range error intends: any book, one-entry books included, reads
   * `name_n` as line `n` of `name`, checked against the lines of `name`.
   */
  function LookupLine(book: TextBook, key0: String): Result<String>
  {
    var key := StripMarker(key0);
    var lineEnds := LastIndexOf(key, "_");
    if lineEnds < 1 then FirstLine(book, key)
    else
      var n :- ParseInteger(key[lineEnds + 1..], MinInt32, MaxInt32);
      Numbered(book, key[..lineEnds], n)
  }

  /** Line `n` of `lineKey`, with `n` checked against that entry's lines. */
  function Numbered(book: TextBook, lineKey: String, n: int): Result<String>
  {
    if lineKey !in book.lines then Err(Contextual(KeyNotFound, TextContext))
    else if n < 0 || n >= |book.lines[lineKey]| then Err(Contextual(OutOfRange, TextContext))
    else Ok(book.lines[lineKey][n])
  }

  /** Where `name_j` splits: at the `_` before the numeral. */
  lemma KeySplit(name: String, j: nat)
    requires 0 < j <= MaxInt32
    ensures var key := name + "_" + IntToString(j);
      StripMarker(key) == key && LastIndexOf(key, "_") == |name| && key[..|name|] == name &&
      ParseInteger(key[|name| + 1..], MinInt32, MaxInt32) == Ok(j)
  {
    KeyNumeral(name, j);
    KeyUnderscore(name, j);
    var digits := IntToString(j);
    assert (name + "_" + digits)[|name + "_" + digits| - 1] == digits[|digits| - 1];
    DigitUnmarked(name + "_" + digits);
    assert (name + "_" + IntToString(j))[..|name|] == name;
  }

  lemma KeyNumeral(name: String, j: nat)
    requires 0 < j <= MaxInt32
    ensures ParseInteger((name + "_" + IntToString(j))[|name| + 1..], MinInt32, MaxInt32) == Ok(j)
  {
    assert (name + "_" + IntToString(j))[|name| + 1..] == IntToString(j);
    ParseIntegerRoundTrip(j, MinInt32, MaxInt32);
  }

  /** A key ending in a digit carries no marker. */
  lemma DigitUnmarked(key: String)
    requires key != [] && IsDigit(key[|key| - 1])
    ensures StripMarker(key) == key
  {
    assert key[|key| - 1..] == [key[|key| - 1]];
  }

  lemma KeyUnderscore(name: String, j: nat)
    requires 0 < j
    ensures LastIndexOf(name + "_" + IntToString(j), "_") == |name|
  {
    var digits := IntToString(j);
    forall i | 0 <= i < |digits| ensures digits[i] !in "_" {
      assert IsDigit(digits[i]);
    }
    LastOccurrence(name, "_", digits);
  }

  /** A name with no `_` in it reads line 0 under either indexer. */
  lemma BareKey(book: TextBook, name: String)
    requires '_' !in name && !EndsWith(name, "%") && !EndsWith(name, "#")
    ensures Lookup(book, name) == FirstLine(book, name) && LookupLine(book, name) == FirstLine(book, name)
  {
    NotContainsChar(name, '_');
  }

  /**
   * `name_j` is parsed back into `name` and `j` by the corrected indexer in
   * any book, and by the indexer as written in a book of two or more entries.
   */
  lemma NumberedKey(book: TextBook, name: String, j: nat)
    requires 0 < j <= MaxInt32 && |name| >= 1
    ensures LookupLine(book, name + "_" + IntToString(j)) == Numbered(book, name, j)
    ensures |book.lines| >= 2 ==> Lookup(book, name + "_" + IntToString(j)) == NumberedAsWritten(book, name, j)
  {
    KeySplit(name, j);
  }

  /**
   * The keys `AppendLine` hands out read back their lines through the
   * corrected indexer, in any book: line 0 by the bare name (which then has
   * no `_`), line j by `name_j`.
   */
  lemma LookupLineKeys(b: Book, routes: map<String, RouteStruct>, name: String, j: nat)
    requires name in b.lines && j < |b.lines[name]| && !IsSignal(b.lines[name][j])
    requires |name| >= 1 && !EndsWith(name, "%") && !EndsWith(name, "#")
    requires j == 0 ==> '_' !in name
    requires j <= MaxInt32
    ensures LookupLine(Freeze(b, routes), KeyOf(name, b.lines[name], j)) == Ok(b.lines[name][j])
  {
    if j == 0 {
      BareKey(Freeze(b, routes), name);
    } else {
      NumberedKey(Freeze(b, routes), name, j);
    }
  }

  /** The as-written indexer agrees when the line number is below the number of entries. */
  lemma LookupKeys(b: Book, routes: map<String, RouteStruct>, name: String, j: nat)
    requires name in b.lines && j < |b.lines[name]| && !IsSignal(b.lines[name][j])
    requires |b.lines| >= 2 && |name| >= 1 && !EndsWith(name, "%") && !EndsWith(name, "#")
    requires j == 0 ==> '_' !in name
    requires j < |b.lines| && j <= MaxInt32
    ensures Lookup(Freeze(b, routes), KeyOf(name, b.lines[name], j)) == Ok(b.lines[name][j])
  {
    if j == 0 {
      BareKey(Freeze(b, routes), name);
    } else {
      NumberedKey(Freeze(b, routes), name, j);
    }
  }

  /**
   * The indexer as written refuses `name_j` whenever `j` is at least the
   * number of entries, though the entry has a line `j`, which the corrected
   * indexer reads.
   */
  lemma LookupCountsEntries(b: Book, routes: map<String, RouteStruct>, name: String, j: nat)
    requires name in b.lines && j < |b.lines[name]| && !IsSignal(b.lines[name][j])
    requires 2 <= |b.lines| <= j <= MaxInt32 && |name| >= 1
    ensures Lookup(Freeze(b, routes), KeyOf(name, b.lines[name], j)) == Err(Contextual(OutOfRange, TextContext))
    ensures LookupLine(Freeze(b, routes), KeyOf(name, b.lines[name], j)) == Ok(b.lines[name][j])
  {
    NumberedKey(Freeze(b, routes), name, j);
  }

  /** A book whose entry `a` has three lines and whose entry `b` has one: `a_2` is refused. */
  lemma LookupCountsEntriesExample()
    ensures var b := Book(map["a" := ["x", "y", "z"], "b" := ["w"]], map[], [], []);
      Lookup(Freeze(b, map[]), KeyOf("a", b.lines["a"], 2)) == Err(Contextual(OutOfRange, TextContext)) &&
      LookupLine(Freeze(b, map[]), KeyOf("a", b.lines["a"], 2)) == Ok("z")
  {
    var b := Book(map["a" := ["x", "y", "z"], "b" := ["w"]], map[], [], []);
    assert b.lines.Keys == {"a", "b"};
    assert |b.lines| == 2;
    assert !IsSignal("z");
    LookupCountsEntries(b, map[], "a", 2);
  }

  /**
   * The one-entry shortcut as written reads `name_j` as a whole key, so in a
   * book whose only entry `a` has two lines `a_1` is missing, though the
   * corrected indexer reads line 1 of `a`.
   */
  lemma LookupOneEntryExample()
    ensures var b := Book(map["a" := ["x", "y"]], map[], [], []);
      Lookup(Freeze(b, map[]), KeyOf("a", b.lines["a"], 1)) == Err(Runtime(MissingKey)) &&
      LookupLine(Freeze(b, map[]), KeyOf("a", b.lines["a"], 1)) == Ok("y")
  {
    var b := Book(map["a" := ["x", "y"]], map[], [], []);
    var book := Freeze(b, map[]);
    assert !IsSignal("y");
    var key := "a" + "_" + IntToString(1);
    assert KeyOf("a", b.lines["a"], 1) == key;
    KeySplit("a", 1);
    assert book.lines.Keys == {"a"};
    assert |book.lines| == 1 && key != "a";
    assert Lookup(book, key) == FirstLine(book, key);
    NumberedKey(book, "a", 1);
  }
}
