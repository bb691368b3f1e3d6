/** Making a plan character by character, replaying it key by key, and what the wrong plan's replay types. */
module SequenceReplay {
  import opened Wrappers
  import opened PhysicalKeys
  import opened SequencePlan

  // ---- making the plan

  /** The layout and the explicit switch a character asks for. */
  method AskCharacter(text: Text, row: Row, wrong: bool, s: State, c: char, m: Mark) returns (intended: nat, explicit: Option<nat>)
    requires row.IsCorpusRow() && s.intended < 2
    ensures (intended, explicit) == Asked(text, row, wrong, s, c, m)
  {
    intended, explicit := s.intended, None;
    var group := ScriptGroup(text, c);
    if s.first || (group.Some? && group.value != intended) {
      if group.Some? { intended := group.value; }
      explicit := Some(intended);
    }
    if m.starts && row.group.Some? {
      intended, explicit := row.group.value, row.group;
    }
    if m.letter && row.group.Some? {
      intended := row.group.value;
      explicit := Some(if wrong then Flip(row.group.value) else row.group.value);
    }
  }

  /** The first key with the character in the layout asked for, else in the other, else none. */
  method PlaceCharacter(s: State, c: char, intended: nat, explicit: Option<nat>, intervenes: bool) returns (r: State)
    requires intended < 2
    ensures r == Placed(s, c, intended, explicit, intervenes)
  {
    var candidate, used, switch := ByCharacter(intended, c), intended, explicit;
    if candidate.None? {
      candidate := ByCharacter(Flip(intended), c);
      if candidate.Some? { used, switch := Flip(intended), Some(Flip(intended)); }
    }
    if candidate.None? {
      return s.(intended := used, first := false, unsupported := s.unsupported + {c});
    }
    var intervention := if intervenes then Some(|s.keys| + 1) else s.intervention;
    return State(used, false, s.keys + [KeyAt(candidate.value).(explicit := switch)], s.unsupported, intervention);
  }

  lemma {:induction false} PlanOneMore(text: Text, row: Row, wrong: bool, begin: State, characters: string,
                                       starts: Option<nat>, place: Option<nat>, k: nat)
    requires row.IsCorpusRow() && begin.intended < 2 && k < |characters|
    ensures PlanAll(text, row, wrong, begin, characters[..k + 1], starts, place)
         == PlanOne(text, row, wrong, PlanAll(text, row, wrong, begin, characters[..k], starts, place), characters[k],
                    Mark(starts == Some(k), place == Some(k)))
  {
    assert characters[..k + 1][..k] == characters[..k];
  }

  method TakeCharacter(text: Text, row: Row, wrong: bool, s: State, c: char, m: Mark) returns (r: State)
    requires row.IsCorpusRow() && s.intended < 2
    ensures r == PlanOne(text, row, wrong, s, c, m)
  {
    var intended, explicit := AskCharacter(text, row, wrong, s, c, m);
    r := PlaceCharacter(s, c, intended, explicit, m.letter && wrong);
  }

  /** The loop's own test for a mark is the mark's place in the whole text. */
  ghost predicate MarksAt(starts: Option<nat>, place: Option<nat>, focus: bool, low: nat, letter: Option<nat>, k: nat) {
    (starts == Some(k) <==> focus && k == low)
    && (place == Some(k) <==> focus && letter.Some? && letter.value + low == k)
  }

  /** One of the three phases: before the focus, the focus, after it. */
  method TakePhase(text: Text, row: Row, wrong: bool, s: State, ghost begin: State, characters: string, low: nat, high: nat, focus: bool,
                   letter: Option<nat>, ghost starts: Option<nat>, ghost place: Option<nat>)
    returns (r: State)
    requires row.IsCorpusRow() && begin.intended < 2 && low <= high <= |characters|
    requires s == PlanAll(text, row, wrong, begin, characters[..low], starts, place)
    requires forall k: nat :: low <= k < high ==> MarksAt(starts, place, focus, low, letter, k)
    ensures r == PlanAll(text, row, wrong, begin, characters[..high], starts, place)
  {
    hide *;
    r := s;
    for k := low to high
      invariant r == PlanAll(text, row, wrong, begin, characters[..k], starts, place)
    {
      r := TakeNext(text, row, wrong, r, begin, characters, low, k, focus, letter, starts, place);
    }
  }

  method TakeNext(text: Text, row: Row, wrong: bool, s: State, ghost begin: State, characters: string, low: nat, k: nat, focus: bool,
                  letter: Option<nat>, ghost starts: Option<nat>, ghost place: Option<nat>)
    returns (r: State)
    requires row.IsCorpusRow() && begin.intended < 2 && k < |characters|
    requires s == PlanAll(text, row, wrong, begin, characters[..k], starts, place)
    requires MarksAt(starts, place, focus, low, letter, k)
    ensures r == PlanAll(text, row, wrong, begin, characters[..k + 1], starts, place)
  {
    var m := Mark(focus && k == low, focus && letter.Some? && letter.value + low == k);
    PlanOneMore(text, row, wrong, begin, characters, starts, place, k);
    r := TakeCharacter(text, row, wrong, s, characters[k], m);
  }

  lemma {:induction false} PhaseMarks(text: Text, row: Row, before: string, focus: bool, low: nat, high: nat)
    requires if focus then low == |before| && high == |before| + |row.original|
             else high <= |before| || low >= |before| + |row.original|
    ensures forall k: nat :: low <= k < high ==>
      MarksAt(StartPlace(row, before), LetterPlace(text, row, before), focus, low, FocusLetter(text, row, 0), k)
  {}

  method TakePhases(text: Text, row: Row, wrong: bool, before: string, after: string, letter: Option<nat>) returns (s: State)
    requires row.IsCorpusRow() && letter == FocusLetter(text, row, 0)
    ensures s == FinalState(text, row, wrong, before, after)
  {
    s := Begin(text, row, before);
    ghost var begin, starts, place := s, StartPlace(row, before), LetterPlace(text, row, before);
    var all := before + row.original + after;
    var focus, rest := |before|, |before| + |row.original|;
    assert all[..0] == "" && all[..|all|] == all;
    PhaseMarks(text, row, before, false, 0, focus);
    s := TakePhase(text, row, wrong, s, begin, all, 0, focus, false, letter, starts, place);
    PhaseMarks(text, row, before, true, focus, rest);
    s := TakePhase(text, row, wrong, s, begin, all, focus, rest, true, letter, starts, place);
    PhaseMarks(text, row, before, false, rest, |all|);
    s := TakePhase(text, row, wrong, s, begin, all, rest, |all|, false, letter, starts, place);
  }

  /** The plan of a row, its windows trimmed; a wrong plan needs a layout and a focus letter in it. */
  method MakePlan(text: Text, row: Row, wrong: bool) returns (r: Result<Plan, PlanError>, before: string, after: string)
    requires row.IsCorpusRow()
    ensures wrong && row.group.None? ==> r == Err(NoWrongLayout)
    ensures wrong && row.group.Some? && FocusLetter(text, row, 0).None? ==> r == Err(NoFocusLetter)
    ensures wrong && FocusLetter(text, row, 0).None? ==> r.Err?
    ensures !wrong || FocusLetter(text, row, 0).Some? ==>
      r == Ok(PlanFor(text, row, wrong, before, after)) && IsTrimmed(text, row, before, after)
  {
    hide PlanAll, IsTrimmed, FocusLetter, FinalState, Begin;
    before, after := "", "";
    if wrong && row.group.None? { return Err(NoWrongLayout), before, after; }
    var letter := FocusLetter(text, row, 0);
    if wrong && letter.None? { return Err(NoFocusLetter), before, after; }
    var left, right;
    before, after, left, right := TrimmedWindow(text, row);
    var s := TakePhases(text, row, wrong, before, after, letter);
    r := Ok(Plan(before + row.original + after, s.keys, s.unsupported, s.intended, s.intervention));
  }

  // ---- replaying it

  datatype ReplayError = UnsupportedSequence | LetterUnchanged

  class EditorBackend {
    var text: string
    var caret: nat
    var group: nat

    ghost predicate Valid()
      reads this
    {
      caret == |text|
    }

    constructor ()
      ensures Valid() && text == "" && group == 0
    {
      text, caret, group := "", 0, 0;
    }

    method SwitchGroup(to: nat)
      modifies this`group
      ensures group == to
    {
      group := to;
    }

    /** Puts a character in at the caret. */
    method Type(c: char)
      requires Valid()
      modifies this`text, this`caret
      ensures Valid() && text == old(text) + [c]
    {
      text := text[..caret] + [c] + text[caret..];
      caret := caret + 1;
    }
  }

  /** The keys in turn, without corrections; the intervention key must print something else than its letter. */
  method Replay(plan: Plan, group: Option<nat>) returns (r: Result<EditorBackend, ReplayError>)
    ensures plan.unsupported != {} ==> r == Err(UnsupportedSequence)
    ensures r.Ok? ==> fresh(r.value) && Editor(r.value.text, r.value.group) == Play(Editor("", 0), plan.keys)
    ensures plan.unsupported == {} ==> (r.Err? <==> LetterStays(plan, group))
  {
    if plan.unsupported != {} { return Err(UnsupportedSequence); }
    var backend := new EditorBackend();
    for serial := 1 to |plan.keys| + 1
      invariant fresh(backend) && backend.Valid()
      invariant Editor(backend.text, backend.group) == Play(Editor("", 0), plan.keys[..serial - 1])
      invariant LetterStays(plan, group) ==> plan.intervention.value >= serial
    {
      var key := plan.keys[serial - 1];
      assert plan.keys[..serial] == plan.keys[..serial - 1] + [key];
      PlayOneMore(Editor("", 0), plan.keys[..serial - 1], key);
      if key.explicit.Some? { backend.SwitchGroup(key.explicit.value); }
      var observed := key.Glyph(backend.group);
      if plan.intervention == Some(serial) && group.Some? && observed == key.Glyph(group.value) {
        return Err(LetterUnchanged);
      }
      backend.Type(observed);
    }
    assert plan.keys[..|plan.keys|] == plan.keys;
    return Ok(backend);
  }

  /** The intervention key prints in the editor's layout what it prints in the row's own. */
  ghost predicate LetterStays(plan: Plan, group: Option<nat>) {
    plan.intervention.Some? && group.Some? && 1 <= plan.intervention.value <= |plan.keys|
    && var i := plan.intervention.value - 1;
      plan.keys[i].Glyph(Play(Editor("", 0), plan.keys[..i + 1]).group) == plan.keys[i].Glyph(group.value)
  }

  /** A wrong plan's letter always changes: the error cannot be raised. */
  lemma {:induction false} WrongLetterChanges(text: Text, row: Row, before: string, after: string, g: nat, p: nat)
    requires LowersKeys(text) && row.group == Some(g) && g < 2 && FocusLetter(text, row, 0) == Some(p)
    requires ByCharacter(g, row.original[p]).Some?
    ensures !LetterStays(PlanFor(text, row, true, before, after), Some(g))
    ensures !LetterStays(PlanFor(text, row, false, before, after), Some(g))
  {
    hide PlanFor, LowersKeys, CountTypable, FocusLetter;
    WrongPlanDiffersOnce(text, row, before, after, g, p);
    var w := PlanFor(text, row, true, before, after);
    var i := w.intervention.value - 1;
    assert w.keys[..i + 1][..i] == w.keys[..i];
  }

  // ---- what the wrong plan types

  /** The first explicit switch after a key. */
  function NextSwitch(keys: seq<PhysicalKey>, k: nat): (r: nat)
    requires k <= |keys|
    ensures k <= r <= |keys|
    ensures forall m :: k <= m < r ==> keys[m].explicit.None?
    ensures r < |keys| ==> keys[r].explicit.Some?
    decreases |keys| - k
  {
    if k == |keys| || keys[k].explicit.Some? then k else NextSwitch(keys, k + 1)
  }

  function GroupAt(start: nat, keys: seq<PhysicalKey>, k: nat): nat
    requires k < |keys|
  {
    Play(Editor("", start), keys[..k + 1]).group
  }

  lemma GroupStep(start: nat, keys: seq<PhysicalKey>, k: nat)
    requires k < |keys|
    ensures GroupAt(start, keys, k)
         == if keys[k].explicit.Some? then keys[k].explicit.value else if k == 0 then start else GroupAt(start, keys, k - 1)
  {
    assert keys[..k + 1][..k] == keys[..k];
    if k == 0 { assert Play(Editor("", start), keys[..0]) == Editor("", start); }
    PlayOneMore(Editor("", start), keys[..k], keys[k]);
    assert keys[..k] + [keys[k]] == keys[..k + 1];
    if k > 0 { assert keys[..k - 1 + 1] == keys[..k]; }
  }

  lemma {:induction false} TextAt(start: nat, keys: seq<PhysicalKey>, k: nat)
    requires k < |keys|
    ensures |Play(Editor("", start), keys).text| == |keys|
    ensures Play(Editor("", start), keys).text[k] == keys[k].Glyph(GroupAt(start, keys, k))
    decreases |keys|
  {
    var last := |keys| - 1;
    TextLength(start, keys);
    TextLength(start, keys[..last]);
    if k < last {
      TextAt(start, keys[..last], k);
      assert keys[..last][..k + 1] == keys[..k + 1];
    } else {
      assert keys[..k + 1] == keys;
    }
  }

  lemma {:induction false} TextLength(start: nat, keys: seq<PhysicalKey>)
    ensures |Play(Editor("", start), keys).text| == |keys|
    decreases |keys|
  {
    if keys != [] { TextLength(start, keys[..|keys| - 1]); }
  }

  lemma {:induction false} GroupsDiffer(start: nat, c: seq<PhysicalKey>, w: seq<PhysicalKey>, i: nat, g: nat, letter: char, k: nat)
    requires |c| == |w| && i < |c| && g < 2 && SwitchedAt(c, w, i, g, letter) && k < |c|
    ensures i <= k < NextSwitch(c, i + 1) ==> GroupAt(start, c, k) == g && GroupAt(start, w, k) == Flip(g)
    ensures !(i <= k < NextSwitch(c, i + 1)) ==> GroupAt(start, w, k) == GroupAt(start, c, k)
  {
    GroupStep(start, c, k);
    GroupStep(start, w, k);
    if k > 0 { GroupsDiffer(start, c, w, i, g, letter, k - 1); }
  }

  /** What playing a plan types at a key: the other glyph from the intervention to the next switch, else the text. */
  ghost predicate TypesWrongly(w: Plan, start: nat, g: nat, k: nat)
    requires k < |w.keys| && g < 2
  {
    var typed := Play(Editor("", start), w.keys).text;
    && |typed| == |w.expected| == |w.keys| && w.intervention.Some? && 1 <= w.intervention.value <= |w.keys|
    && var i := w.intervention.value - 1;
      if i <= k < NextSwitch(w.keys, i + 1) then w.keys[k].Glyph(g) == w.expected[k] && typed[k] == w.keys[k].Glyph(Flip(g))
      else typed[k] == w.expected[k]
  }

  /**
   From the intervention to the next explicit switch the wrong plan types every key's other glyph; before and after it
   types the text itself.
   */
  lemma {:induction false} WrongPlanTypes(text: Text, row: Row, before: string, after: string, g: nat, p: nat, start: nat, k: nat)
    requires LowersKeys(text) && row.group == Some(g) && g < 2 && FocusLetter(text, row, 0) == Some(p)
    requires PlanFor(text, row, false, before, after).unsupported == {} && ByCharacter(g, row.original[p]).Some?
    requires k < |PlanFor(text, row, true, before, after).keys|
    ensures TypesWrongly(PlanFor(text, row, true, before, after), start, g, k)
  {
    WrongPlanDiffersOnce(text, row, before, after, g, p);
    CorrectPlanTypesItsText(text, row, before, after, start);
    TwoPlansType(PlanFor(text, row, false, before, after), PlanFor(text, row, true, before, after), g, row.original[p], start, k);
  }

  lemma TwoPlansType(c: Plan, w: Plan, g: nat, letter: char, start: nat, k: nat)
    requires g < 2 && c.expected == w.expected && |c.keys| == |w.keys| == |c.expected| && k < |w.keys|
    requires w.intervention.Some? && 1 <= w.intervention.value <= |w.keys|
    requires SwitchedAt(c.keys, w.keys, w.intervention.value - 1, g, letter)
    requires Play(Editor("", start), c.keys).text == c.expected
    ensures TypesWrongly(w, start, g, k)
  {
    WrongKeysType(c.keys, w.keys, w.intervention.value - 1, g, letter, start, k);
  }

  lemma {:induction false} SameSwitch(c: seq<PhysicalKey>, w: seq<PhysicalKey>, k: nat)
    requires |c| == |w| && k <= |c| && forall m :: k <= m < |c| ==> c[m] == w[m]
    ensures NextSwitch(c, k) == NextSwitch(w, k)
    decreases |c| - k
  {
    if k < |c| { SameSwitch(c, w, k + 1); }
  }

  lemma {:induction false} WrongKeysType(c: seq<PhysicalKey>, w: seq<PhysicalKey>, i: nat, g: nat, letter: char, start: nat,
                                         k: nat)
    requires |c| == |w| && i < |c| && g < 2 && SwitchedAt(c, w, i, g, letter) && k < |c|
    ensures NextSwitch(w, i + 1) == NextSwitch(c, i + 1)
    ensures var typed, own := Play(Editor("", start), w).text, Play(Editor("", start), c).text;
      |typed| == |own| == |c|
      && if i <= k < NextSwitch(c, i + 1) then own[k] == c[k].Glyph(g) && c[k].Glyph(g) == w[k].Glyph(g) && typed[k] == w[k].Glyph(Flip(g))
         else typed[k] == own[k]
  {
    SameSwitch(c, w, i + 1);
    TextAt(start, c, k);
    TextAt(start, w, k);
    GroupsDiffer(start, c, w, i, g, letter, k);
  }
}
