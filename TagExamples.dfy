// A worked example of increment resolution.

module TagExamples {
  import opened Base
  import opened Str
  import opened Tags
  import opened TagLemmas
  import opened TagResolution

  /** `gold.n` for a non-negative n is a plain tag with meter value n. */
  lemma GoldPlain(n: Int16)
    requires n >= 0
    ensures var raw := "gold." + IntToString(n);
            Parse(raw) == Ok(GameTag(raw, raw, RemoveOrAppend, "", Meter(MinShort, MaxShort, n, 0)))
  {
    var v := "gold." + IntToString(n);
    assert v[..5] == "gold.";
    NoDoubleDot("gold.");
    assert v[5..] == IntToString(n);
    PlainMeter(v, 5, n);
    assert '<' !in v by {
      assert forall i :: 5 <= i < |v| ==> v[i] == IntToString(n)[i - 5];
    }
    ParseAffixes(RemoveOrAppend, v, "");
    assert PrefixOf(RemoveOrAppend) + WithLocation(v, "") == v;
  }

  lemma GoldPlus()
    ensures Parse("gold.++") == Ok(GameTag("gold.++", "gold.", RemoveOrAppend, "", Meter(MinShort, MaxShort, MaxShort, 1)))
  {
    var v := "gold.++";
    assert v[..5] == "gold." && v[5..7] == "++" && v[7..] == [];
    NoDoubleDot("gold.");
    PlusMarker(v, 5, 1);
    ParseAffixes(RemoveOrAppend, v, "");
    assert PrefixOf(RemoveOrAppend) + WithLocation(v, "") == v;
  }

  /** Pool `{gold.5}` with `gold.++` yields `gold.6`. */
  lemma GoldIncrement(t: Tag, p: Tag, q: Tag)
    requires t.raw == "gold.++" && p.raw == "gold.5" && q.raw == "gold.6"
    ensures ResolveTag(t, [p]) == Yielded([q], None)
  {
    GoldTags(t, p);
    GoldStepCase();
    GoldTargets(t, p);
    StepSingleTarget(t, p);
    GoldRaw();
    ParseEachSingle(q);
  }

  const GoldPlusTag := GameTag("gold.++", "gold.", RemoveOrAppend, "", Meter(MinShort, MaxShort, MaxShort, 1))
  const GoldFiveTag := GameTag("gold.5", "gold.5", RemoveOrAppend, "", Meter(MinShort, MaxShort, 5, 0))

  lemma GoldTags(t: Tag, p: Tag)
    requires t.raw == "gold.++" && p.raw == "gold.5"
    ensures t == GoldPlusTag && p == GoldFiveTag
  {
    GoldPlus();
    GoldPlain(5);
    assert "gold." + IntToString(5) == "gold.5";
  }

  lemma GoldStepCase()
    ensures StepCase(GoldPlusTag)
  {
    GoldIsIncrement();
    GoldNoJoker();
  }

  lemma GoldIsIncrement()
    ensures IsIncrement(GoldPlusTag)
  {
    var v := GoldPlusTag.raw;
    assert ContainsAt(v, "++", 5);
    ContainsIff(v, "++");
  }

  lemma GoldNoJoker()
    ensures !HasJokerPrefix("gold.") && !HasJokerSuffix("gold.")
  {
    ContainsNeedsChar("gold.", ".*.", '*');
    assert "gold."[3..] != ".*";
  }

  lemma GoldTargets(t: Tag, p: Tag)
    requires t == GoldPlusTag && p == GoldFiveTag
    ensures IncrementTargets(t, [p]) == [p]
  {
    assert StartsWithIgnoreCase(p.value, t.value);
  }

  lemma GoldRaw()
    ensures IncrementedRaw(GoldFiveTag, 1, "", RemoveOrAppend) == "gold.6"
  {
    assert IntToString(5) == "5" && IntToString(6) == "6";
    assert ReplaceAll("gold.5", "5", "6") == "gold.6";
  }

  /** A value whose only dot is its last character has no `..`. */
  lemma NoDoubleDot(s: String)
    requires s != [] && '.' !in s[..|s| - 1]
    ensures !Contains(s, "..")
  {
    ContainsIff(s, "..");
    forall j | 0 <= j && j + 2 <= |s| ensures !ContainsAt(s, "..", j) {
      assert s[j..j + 2][0] == s[j] == s[..|s| - 1][j];
    }
  }
}
