/** Where a plan switches layouts: exactly at its first key, where the layout changes, and at the focus's first character and chosen letter. */
module SequenceSwitches {
  import opened Wrappers
  import opened PhysicalKeys
  import opened SequencePlan

  lemma UnsupportedIs(s: State, c: char, intended: nat, explicit: Option<nat>, intervenes: bool)
    requires intended < 2
    ensures Placed(s, c, intended, explicit, intervenes).unsupported == s.unsupported + if IsTypable(c) then {} else {c}
  {
    hide ByCharacter, KeyAt;
  }

  /** What one character adds: a key that switches exactly if the layout changes, it is the first, or the focus asks for it. */
  lemma OneSwitch(text: Text, row: Row, s: State, c: char, m: Mark)
    requires LowersKeys(text) && row.IsCorpusRow() && s.intended < 2 && IsTypable(c)
    ensures var r := PlanOne(text, row, false, s, c, m);
      |r.keys| == |s.keys| + 1 && s.keys == r.keys[..|s.keys|]
      && (r.keys[|s.keys|].explicit.Some? <==> s.first || r.intended != s.intended || (row.group.Some? && (m.letter || m.starts)))
  {
    hide LowersKeys, ScriptGroup, ByCharacter, KeyAt, Placed;
    var group := ScriptGroup(text, c);
    if group.Some? { LetterKey(text, group.value, c); }
    var (intended, explicit) := Asked(text, row, false, s, c, m);
    PlacedLast(s, c, intended, explicit);
  }

  lemma PlacedLast(s: State, c: char, intended: nat, explicit: Option<nat>)
    requires intended < 2 && IsTypable(c)
    ensures var r := Placed(s, c, intended, explicit, false);
      && |r.keys| == |s.keys| + 1 && s.keys == r.keys[..|s.keys|]
      && r.intended == (if ByCharacter(intended, c).Some? then intended else 1 - intended)
      && r.keys[|s.keys|].explicit == if ByCharacter(intended, c).Some? then explicit else Some(1 - intended)
  {
    hide ByCharacter, KeyAt;
  }

  lemma {:induction false} PrefixSupported(text: Text, row: Row, s: State, characters: string, starts: Option<nat>, letter: Option<nat>, n: nat)
    requires row.IsCorpusRow() && s.intended < 2 && n <= |characters|
    requires PlanAll(text, row, false, s, characters, starts, letter).unsupported == {}
    ensures PlanAll(text, row, false, s, characters[..n], starts, letter).unsupported == {}
    decreases |characters|
  {
    hide PlanOne;
    if n < |characters| {
      var last := |characters| - 1;
      PrefixSupported(text, row, s, characters[..last], starts, letter, n);
      assert characters[..last][..n] == characters[..n];
    } else {
      assert characters[..n] == characters;
    }
  }

  /** The layout after so many keys of a plan. */
  function LayoutAfter(keys: seq<PhysicalKey>, start: nat, n: nat): nat
    requires n <= |keys|
  {
    Play(Editor("", start), keys[..n]).group
  }

  /** Whether the focus asks for its layout at this character. */
  ghost predicate IsAskedAt(text: Text, row: Row, before: string, k: nat) {
    row.group.Some? && ((row.original != "" && k == |before|)
                        || (FocusLetter(text, row, 0).Some? && k == |before| + FocusLetter(text, row, 0).value))
  }

  /** A correct plan's key carries a switch exactly where one is needed or the focus asks for it. */
  lemma SwitchesExactly(text: Text, row: Row, before: string, after: string, start: nat, k: nat)
    requires LowersKeys(text) && row.IsCorpusRow() && PlanFor(text, row, false, before, after).unsupported == {}
    requires k < |PlanFor(text, row, false, before, after).keys|
    ensures var keys := PlanFor(text, row, false, before, after).keys;
      keys[k].explicit.Some? <==> k == 0 || LayoutAfter(keys, start, k + 1) != LayoutAfter(keys, start, k) || IsAskedAt(text, row, before, k)
  {
    var all, s := before + row.original + after, Begin(text, row, before);
    var starts, letter := StartPlace(row, before), LetterPlace(text, row, before);
    hide LowersKeys, PlanAll, Play, FocusLetter, LayoutAfter, FirstGroup, IsAskedAt, LetterPlace, StartPlace;
    CorrectSoFar(text, row, s, all, starts, letter, start);
    StepSwitches(text, row, s, all, starts, letter, start, k, PlanFor(text, row, false, before, after).keys);
    AskedAtPlace(text, row, before, k);
  }

  lemma AskedAtPlace(text: Text, row: Row, before: string, k: nat)
    ensures IsAskedAt(text, row, before, k)
       <==> row.group.Some? && (LetterPlace(text, row, before) == Some(k) || StartPlace(row, before) == Some(k))
  {
    hide FocusLetter;
  }

  lemma {:induction false} StepSwitches(text: Text, row: Row, s: State, all: string, starts: Option<nat>,
                                        letter: Option<nat>, start: nat, k: nat, keys: seq<PhysicalKey>)
    requires LowersKeys(text) && row.IsCorpusRow() && s.intended < 2 && s.first && s.keys == [] && s.unsupported == {} && k < |all|
    requires PlanAll(text, row, false, s, all, starts, letter).unsupported == {} && keys == PlanAll(text, row, false, s, all, starts, letter).keys
    requires |keys| == |all|
    ensures keys[k].explicit.Some? <==>
      k == 0 || LayoutAfter(keys, start, k + 1) != LayoutAfter(keys, start, k) || (row.group.Some? && (letter == Some(k) || starts == Some(k)))
  {
    hide LowersKeys, PlanOne, IsTypable;
    PrefixSupported(text, row, s, all, starts, letter, k);
    PrefixSupported(text, row, s, all, starts, letter, k + 1);
    KeysGrow(text, row, false, s, all, starts, letter, k);
    KeysGrow(text, row, false, s, all, starts, letter, k + 1);
    CorrectSoFar(text, row, s, all[..k], starts, letter, start);
    CorrectSoFar(text, row, s, all[..k + 1], starts, letter, start);
    var was := PlanAll(text, row, false, s, all[..k], starts, letter);
    var now := PlanAll(text, row, false, s, all[..k + 1], starts, letter);
    assert all[..k + 1][..k] == all[..k];
    assert now == PlanOne(text, row, false, was, all[k], Mark(starts == Some(k), letter == Some(k)));
    TypableIs(text, row, was, all[k], Mark(starts == Some(k), letter == Some(k)));
    OneSwitch(text, row, was, all[k], Mark(starts == Some(k), letter == Some(k)));
    hide PlanAll, Play;
    assert keys[..k] == was.keys && keys[..k + 1] == now.keys && keys[k] == now.keys[k];
  }

  lemma TypableIs(text: Text, row: Row, s: State, c: char, m: Mark)
    requires row.IsCorpusRow() && s.intended < 2 && s.unsupported == {} && PlanOne(text, row, false, s, c, m).unsupported == {}
    ensures IsTypable(c)
  {
    hide Placed, Asked;
    var (intended, explicit) := Asked(text, row, false, s, c, m);
    UnsupportedIs(s, c, intended, explicit, false);
  }
}
