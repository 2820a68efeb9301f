// A compiled script (`F3NolanScriptData`) and its play-time state
// (`Transient`): the scene, stat and text stacks a player pushes onto and
// undoes, and the auto-increment indexes of text sequences.

module ScriptData {
  import opened Base
  import opened Str
  import opened Lists
  import opened Stats
  import opened Rules
  import opened TextBooks

  /** A compiled tape: its initial world state, its rules and its text book. */
  datatype Script = Script(initialStat: Stat, ruleBook: seq<Rule>, textBook: TextBook)

  /**
   * A pushed text: its key and the array of keys to show. Two entries are
   * the same only when the key is equal and the array is the same object,
   * as for the engine's key/array pairs.
   */
  type TextEntry = (String, array<String>)

  /** The three stacks and the sequence indexes of a play session. */
  datatype Stacks = Stacks(scenes: seq<String>, stats: seq<Stat>, texts: seq<TextEntry>, indexes: map<String, int>)

  /** The stacks grow together and never lose their first entry. */
  predicate Balanced(st: Stacks)
  {
    |st.scenes| == |st.stats| == |st.texts| >= 1
  }

  /** `Push`: one entry onto each stack, on top of the ones already there. */
  function PushSpec(st: Stacks, scene: String, data: Stat, text: TextEntry): (r: Stacks)
    ensures Balanced(st) ==> Balanced(r)
    ensures |r.scenes| == |st.scenes| + 1 && r.scenes[..|st.scenes|] == st.scenes && r.scenes[|st.scenes|] == scene
    ensures |r.stats| == |st.stats| + 1 && r.stats[..|st.stats|] == st.stats && r.stats[|st.stats|] == data
    ensures |r.texts| == |st.texts| + 1 && r.texts[..|st.texts|] == st.texts && r.texts[|st.texts|] == text
    ensures r.indexes == st.indexes
  {
    Stacks(st.scenes + [scene], st.stats + [data], st.texts + [text], st.indexes)
  }

  /** `List<Stat>.Remove(y)`: stats are equal when they render alike. */
  function RemoveEqual(s: seq<Stat>, y: Stat): (r: seq<Stat>)
    ensures var k := FindFirst(s, SameKey(Stats.Render, y));
      (k < 0 ==> r == s) &&
      (k >= 0 ==> Stats.Equals(s[k], y) && |r| == |s| - 1 && multiset(r) + multiset{s[k]} == multiset(s))
  {
    RemoveFirstBy(s, Stats.Render, y)
  }

  /**
   * `Undo` as written: each stack in turn, if it holds more than one entry,
   * loses the first entry equal to its top one (`Remove(Last())`);
   * otherwise the undo stops there and fails. On success the sequence
   * indexes are cleared.
   */
  function UndoSpec(st: Stacks): (r: (bool, Stacks))
  {
    if |st.scenes| <= 1 then (false, st)
    else UndoStats(st.(scenes := RemoveFirst(st.scenes, st.scenes[|st.scenes| - 1])))
  }

  /** The second step of `Undo`, on the stat stack. */
  function UndoStats(st: Stacks): (r: (bool, Stacks))
  {
    if |st.stats| <= 1 then (false, st)
    else UndoTexts(st.(stats := RemoveEqual(st.stats, st.stats[|st.stats| - 1])))
  }

  /** The last step of `Undo`, on the text stack. */
  function UndoTexts(st: Stacks): (r: (bool, Stacks))
  {
    if |st.texts| <= 1 then (false, st)
    else (true, st.(texts := RemoveFirst(st.texts, st.texts[|st.texts| - 1]), indexes := map[]))
  }

  /**
   * On balanced stacks, an undo at depth one fails and changes nothing;
   * deeper, it succeeds, takes one entry off every stack (an entry equal to
   * the top one), keeps them balanced and clears the sequence indexes.
   */
  lemma UndoBalanced(st: Stacks)
    requires Balanced(st)
    ensures var (ok, r) := UndoSpec(st);
      (ok <==> |st.scenes| > 1) &&
      (!ok ==> r == st) &&
      (ok ==> Balanced(r) && |r.scenes| == |st.scenes| - 1 && r.indexes == map[] &&
         multiset(r.scenes) + multiset{st.scenes[|st.scenes| - 1]} == multiset(st.scenes) &&
         multiset(r.texts) + multiset{st.texts[|st.texts| - 1]} == multiset(st.texts))
  {
    if |st.scenes| > 1 {
      var n := |st.scenes| - 1;
      var st1 := st.(scenes := RemoveFirst(st.scenes, st.scenes[n]));
      assert st.scenes[n] in st.scenes;
      var st2 := st1.(stats := RemoveEqual(st.stats, st.stats[n]));
      assert SameKey(Stats.Render, st.stats[n])(st.stats[n]);
      assert st.texts[n] in st.texts;
      assert UndoSpec(st) == UndoStats(st1) == UndoTexts(st2);
    }
  }

  /** `Undo` pops the top entries when none of them occurs lower in its stack. */
  lemma UndoPopsUnrepeatedTop(st: Stacks)
    requires Balanced(st) && |st.scenes| > 1
    requires var n := |st.scenes| - 1;
      st.scenes[n] !in st.scenes[..n] && st.texts[n] !in st.texts[..n] &&
      forall i :: 0 <= i < n ==> !Stats.Equals(st.stats[i], st.stats[n])
    ensures UndoSpec(st) == PopSpec(st)
  {
    var n := |st.scenes| - 1;
    RemoveLast(st.scenes);
    RemoveLast(st.texts);
    forall i | 0 <= i < n
      ensures Stats.Render(st.stats[i]) != Stats.Render(st.stats[n])
    {
      assert !Stats.Equals(st.stats[i], st.stats[n]);
    }
    RemoveLastBy(st.stats, Stats.Render);
  }

  /**
   * The undo the stacks call for: drop the top entry of every stack. It
   * fails and changes nothing at depth one.
   */
  function PopSpec(st: Stacks): (r: (bool, Stacks))
    requires Balanced(st)
    ensures Balanced(r.1)
  {
    if |st.scenes| <= 1 then (false, st)
    else
      var n := |st.scenes| - 1;
      (true, Stacks(st.scenes[..n], st.stats[..n], st.texts[..n], map[]))
  }

  /** The intended undo takes back a push exactly, but for the cleared sequence indexes. */
  lemma PopUndoesPush(st: Stacks, scene: String, data: Stat, text: TextEntry)
    requires Balanced(st)
    ensures PopSpec(PushSpec(st, scene, data, text)) == (true, st.(indexes := map[]))
  {
  }

  /**
   * As written, a scene revisited is undone at its first visit: with the
   * scenes A, B, A (the player went back to A), `Undo` leaves B, A on the
   * stack, so the current scene stays A instead of going back to B, which
   * is where the intended pop leads.
   */
  lemma UndoRevisitedScene(st: Stacks)
    requires Balanced(st) && |st.scenes| == 3
    requires st.scenes[0] == st.scenes[2] != st.scenes[1]
    ensures UndoSpec(st).1.scenes == [st.scenes[1], st.scenes[2]]
    ensures PopSpec(st).1.scenes == [st.scenes[0], st.scenes[1]]
    ensures UndoSpec(st).1.scenes[1] == st.scenes[0] != st.scenes[1] == PopSpec(st).1.scenes[1]
  {
    assert FirstIndex(st.scenes, st.scenes[2]) == 0;
    assert RemoveFirst(st.scenes, st.scenes[2]) == st.scenes[..0] + st.scenes[1..] == st.scenes[1..];
    var st1 := st.(scenes := st.scenes[1..]);
    assert UndoSpec(st) == UndoStats(st1);
    assert UndoStats(st1).1.scenes == st.scenes[1..];
  }

  /** `Transient`: the play-time state of a script. */
  class Transient {
    const ruleBook: seq<Rule>
    const textBook: TextBook
    var sceneStack: seq<String>
    var statStack: seq<Stat>
    var textStack: seq<TextEntry>
    var seqTextStack: map<String, int>

    function State(): Stacks
      reads this
    {
      Stacks(sceneStack, statStack, textStack, seqTextStack)
    }

    /**
     * The session of a chapter: one entry on each stack, no sequence index.
     * The chapter's opening keys are looked up by the caller.
     */
    constructor(rulebook: seq<Rule>, textbook: TextBook, scene: String, data: Stat, chapter: String, chapterIntro: array<String>)
      ensures ruleBook == rulebook && textBook == textbook
      ensures State() == Stacks([scene], [data], [(chapter, chapterIntro)], map[])
      ensures Balanced(State())
    {
      ruleBook := rulebook;
      textBook := textbook;
      sceneStack := [scene];
      statStack := [data];
      textStack := [(chapter, chapterIntro)];
      seqTextStack := map[];
    }

    /** The first stat, or the empty stat on an empty stack. */
    function InitialStat(): (r: Stat)
      reads this
      ensures |statStack| > 0 ==> r == statStack[0]
      ensures |statStack| == 0 ==> r == EmptyStat
    {
      if |statStack| == 0 then EmptyStat else statStack[0]
    }

    /** The top stat, or the empty stat on an empty stack. */
    function CurrentStat(): (r: Stat)
      reads this
      ensures |statStack| > 0 ==> r == statStack[|statStack| - 1]
      ensures |statStack| == 0 ==> r == EmptyStat
    {
      if |statStack| == 0 then EmptyStat else statStack[|statStack| - 1]
    }

    /**
     * The first scene, or `""` when the stat stack is empty (the engine
     * tests that stack, then reads the scene stack).
     */
    function InitialScene(): (r: String)
      reads this
      requires |statStack| > 0 ==> |sceneStack| > 0
      ensures |statStack| > 0 ==> r == sceneStack[0]
      ensures |statStack| == 0 ==> r == ""
    {
      if |statStack| == 0 then "" else sceneStack[0]
    }

    /** The top scene, or `""` when the stat stack is empty. */
    function CurrentScene(): (r: String)
      reads this
      requires |statStack| > 0 ==> |sceneStack| > 0
      ensures |statStack| > 0 ==> r == sceneStack[|sceneStack| - 1]
      ensures |statStack| == 0 ==> r == ""
    {
      if |statStack| == 0 then "" else sceneStack[|sceneStack| - 1]
    }

    /** `HasText`: the top text has a first key and it is not empty. */
    function HasText(): (r: bool)
      reads this, if |textStack| > 0 then {textStack[|textStack| - 1].1} else {}
      requires |textStack| > 0
      ensures r <==> textStack[|textStack| - 1].1.Length > 0 && textStack[|textStack| - 1].1[0] != ""
    {
      var top := textStack[|textStack| - 1].1;
      top.Length > 0 && top[0] != ""
    }

    method Push(scene: String, data: Stat, textKey: String, textValue: array<String>)
      modifies this
      ensures State() == PushSpec(old(State()), scene, data, (textKey, textValue))
      ensures CurrentScene() == scene && CurrentStat() == data
      ensures old(|sceneStack| > 0) ==> InitialScene() == old(sceneStack[0])
    {
      sceneStack := sceneStack + [scene];
      statStack := statStack + [data];
      textStack := textStack + [(textKey, textValue)];
    }

    /** `Undo`, as written. */
    method Undo() returns (ok: bool)
      modifies this
      ensures (ok, State()) == UndoSpec(old(State()))
    {
      if |sceneStack| > 1 {
        sceneStack := RemoveFirst(sceneStack, sceneStack[|sceneStack| - 1]);
      } else {
        return false;
      }
      ok := UndoStatStack();
    }

    /** The stat and text steps of `Undo`. */
    method UndoStatStack() returns (ok: bool)
      modifies this
      ensures (ok, State()) == UndoStats(old(State()))
    {
      if |statStack| > 1 {
        statStack := RemoveEqual(statStack, statStack[|statStack| - 1]);
      } else {
        return false;
      }
      ok := UndoTextStack();
    }

    /** The text step of `Undo`. */
    method UndoTextStack() returns (ok: bool)
      modifies this
      ensures (ok, State()) == UndoTexts(old(State()))
    {
      if |textStack| > 1 {
        textStack := RemoveFirst(textStack, textStack[|textStack| - 1]);
      } else {
        return false;
      }
      seqTextStack := map[];
      return true;
    }

    /** The undo the stacks call for: the top entries popped. */
    method UndoTop() returns (ok: bool)
      requires Balanced(State())
      modifies this
      ensures (ok, State()) == PopSpec(old(State()))
    {
      if |sceneStack| <= 1 {
        return false;
      }
      var n := |sceneStack| - 1;
      sceneStack, statStack, textStack := sceneStack[..n], statStack[..n], textStack[..n];
      seqTextStack := map[];
      return true;
    }
  }
}
