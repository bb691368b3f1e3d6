/**
 The plan of key presses that reproduces a corpus row, with or without its focus letter first typed in the wrong
 layout, and the editor those presses are played into.
 */
module SequencePlan {
  import opened Wrappers
  import opened StringOrder
  import opened PhysicalKeys

  const BEFORE_WINDOW: nat := 96
  const AFTER_WINDOW: nat := 64

  datatype Row = Row(original: string, before: string, after: string, group: Option<nat>) {
    predicate IsCorpusRow() { group.Some? ==> group.value < 2 }
  }

  /** Lower-casing and letters as the language's strings have them. */
  datatype Text = Text(lower: char -> string, isAlpha: char -> bool)

  /** Inclusive bounds in the order of strings. */
  predicate Within(low: string, s: string, high: string) { !Less(s, low) && !Less(high, s) }

  function ScriptGroup(text: Text, c: char): (r: Option<nat>)
    ensures r.Some? ==> r.value < 2
  {
    if Within("a", text.lower(c), "z") then Some(0)
    else if Within("а", text.lower(c), "я") || text.lower(c) == "ё" then Some(1)
    else None
  }

  /** Every letter of the two alphabets has its script. */
  lemma LatinLetters(text: Text, c: char)
    requires text.lower(c) == [c] && c in "abcdefghijklmnopqrstuvwxyz"
    ensures ScriptGroup(text, c) == Some(0)
  {}

  lemma CyrillicLetters(text: Text, c: char)
    requires text.lower(c) == [c] && c in "абвгдеёжзийклмнопрстуфхцчшщъыьэюя"
    ensures ScriptGroup(text, c) == Some(1)
  {}

  lemma NoLetters(text: Text, c: char)
    requires text.lower(c) == [c] && c in " 0123456789.,!?-()"
    ensures ScriptGroup(text, c) == None
  {}

  // ---- windows

  method LettersAhead(text: Text, s: string) returns (n: nat)
    ensures n <= |s| && forall k :: 0 <= k < n ==> text.isAlpha(s[k])
    ensures n < |s| ==> !text.isAlpha(s[n])
  {
    n := 0;
    while n < |s| && text.isAlpha(s[n])
      invariant n <= |s| && forall k :: 0 <= k < n ==> text.isAlpha(s[k])
    {
      n := n + 1;
    }
  }

  method LettersBehind(text: Text, s: string) returns (n: nat)
    ensures n <= |s| && forall k :: |s| - n <= k < |s| ==> text.isAlpha(s[k])
    ensures n < |s| ==> !text.isAlpha(s[|s| - 1 - n])
  {
    n := 0;
    while n < |s| && text.isAlpha(s[|s| - 1 - n])
      invariant n <= |s| && forall k :: |s| - n <= k < |s| ==> text.isAlpha(s[k])
    {
      n := n + 1;
    }
  }

  /** The windows of a row: a full one loses the letters at its outer edge, and no more; a shorter one is kept whole. */
  ghost predicate IsTrimmed(text: Text, row: Row, before: string, after: string) {
    && |before| <= |row.before| && before == row.before[|row.before| - |before|..]
    && |after| <= |row.after| && after == row.after[..|after|]
    && (if |row.before| == 96 then
          (forall k :: 0 <= k < |row.before| - |before| ==> text.isAlpha(row.before[k])) && (before != "" ==> !text.isAlpha(before[0]))
        else before == row.before)
    && (if |row.after| == 64 then
          (forall k :: |after| <= k < |row.after| ==> text.isAlpha(row.after[k])) && (after != "" ==> !text.isAlpha(after[|after| - 1]))
        else after == row.after)
  }

  /** A window cut mid-word loses the part of the word it has; any other window is kept whole. */
  method TrimmedWindow(text: Text, row: Row) returns (before: string, after: string, left: nat, right: nat)
    ensures IsTrimmed(text, row, before, after)
    ensures left == |row.before| - |before| && right == |row.after| - |after|
  {
    left, right := 0, 0;
    if |row.before| == BEFORE_WINDOW { left := LettersAhead(text, row.before); }
    if |row.after| == AFTER_WINDOW { right := LettersBehind(text, row.after); }
    before, after := row.before[left..], row.after[..|row.after| - right];
  }

  // ---- the plan

  datatype Plan = Plan(
    expected: string,
    keys: seq<PhysicalKey>,
    unsupported: set<char>,
    finalGroup: nat,
    intervention: Option<nat>)

  datatype PlanError = NoWrongLayout | NoFocusLetter

  /** What the loop over the characters carries. */
  datatype State = State(intended: nat, first: bool, keys: seq<PhysicalKey>, unsupported: set<char>, intervention: Option<nat>)

  /** What a character is to the plan: at the start of the focus, its chosen letter, or neither. */
  datatype Mark = Mark(starts: bool, letter: bool)

  /** The layout and the explicit switch a character asks for, before its key is looked up. */
  function Asked(text: Text, row: Row, wrong: bool, s: State, c: char, m: Mark): (r: (nat, Option<nat>))
    requires row.IsCorpusRow() && s.intended < 2
    ensures r.0 < 2
  {
    var group := ScriptGroup(text, c);
    var changes := s.first || (group.Some? && group.value != s.intended);
    var intended := if changes && group.Some? then group.value else s.intended;
    var explicit := if changes then Some(intended) else None;
    if row.group.None? then (intended, explicit)
    else if m.letter then (row.group.value, Some(if wrong then Flip(row.group.value) else row.group.value))
    else if m.starts then (row.group.value, Some(row.group.value))
    else (intended, explicit)
  }

  function Flip(group: nat): nat
    requires group < 2
  {
    1 - group
  }

  /** The key of a character in the layout asked for, or in the other; neither has an unsupported glyph. */
  function Placed(s: State, c: char, intended: nat, explicit: Option<nat>, intervenes: bool): (r: State)
    requires intended < 2
    ensures r.intended < 2 && s.unsupported <= r.unsupported && !r.first
  {
    var own, other := ByCharacter(intended, c), ByCharacter(Flip(intended), c);
    var used := if own.None? && other.Some? then Flip(intended) else intended;
    if own.None? && other.None? then s.(intended := used, first := false, unsupported := s.unsupported + {c})
    else
      State(used, false,
            s.keys + [KeyAt(if own.Some? then own.value else other.value).(explicit := if own.Some? then explicit else Some(used))],
            s.unsupported,
            if intervenes then Some(|s.keys| + 1) else s.intervention)
  }

  /** One character of the plan. */
  function PlanOne(text: Text, row: Row, wrong: bool, s: State, c: char, m: Mark): (r: State)
    requires row.IsCorpusRow() && s.intended < 2
    ensures r.intended < 2 && s.unsupported <= r.unsupported && !r.first
  {
    var (intended, explicit) := Asked(text, row, wrong, s, c, m);
    Placed(s, c, intended, explicit, m.letter && wrong)
  }

  /** The characters in turn; `starts` and `letter` are the places of the focus's first character and chosen letter. */
  function PlanAll(text: Text, row: Row, wrong: bool, s: State, characters: string, starts: Option<nat>, letter: Option<nat>): (r: State)
    requires row.IsCorpusRow() && s.intended < 2
    ensures r.intended < 2
  {
    if characters == "" then s
    else
      var last := |characters| - 1;
      PlanOne(text, row, wrong, PlanAll(text, row, wrong, s, characters[..last], starts, letter), characters[last],
              Mark(starts == Some(last), letter == Some(last)))
  }

  /** The first letter of the focus in the row's own group. */
  function FocusLetter(text: Text, row: Row, k: nat): (r: Option<nat>)
    requires k <= |row.original|
    ensures r.Some? ==> k <= r.value < |row.original| && row.group.Some? && ScriptGroup(text, row.original[r.value]) == row.group
    ensures row.group.Some? ==> forall j :: k <= j < (if r.Some? then r.value else |row.original|) ==> ScriptGroup(text, row.original[j]) != row.group
    decreases |row.original| - k
  {
    if k == |row.original| || row.group.None? then None
    else if ScriptGroup(text, row.original[k]) == row.group then Some(k)
    else FocusLetter(text, row, k + 1)
  }

  function GroupOr(row: Row, default: nat): nat { if row.group.Some? then row.group.value else default }

  /** The first character of either script. */
  ghost predicate FirstInScript(text: Text, characters: string, i: int) {
    0 <= i < |characters| && ScriptGroup(text, characters[i]).Some? && forall j :: 0 <= j < i ==> ScriptGroup(text, characters[j]).None?
  }

  function FirstGroup(text: Text, characters: string, default: nat): (r: nat)
    requires default < 2
    ensures r < 2
    ensures forall i :: FirstInScript(text, characters, i) ==> r == ScriptGroup(text, characters[i]).value
    ensures (forall i :: 0 <= i < |characters| ==> ScriptGroup(text, characters[i]).None?) ==> r == default
  {
    if characters == "" then default
    else if ScriptGroup(text, characters[0]).Some? then ScriptGroup(text, characters[0]).value
    else FirstGroup(text, characters[1..], default)
  }

  function Begin(text: Text, row: Row, before: string): (r: State)
    requires row.IsCorpusRow()
    ensures r.intended < 2 && r.first && r.keys == [] && r.unsupported == {} && r.intervention == None
  {
    State(FirstGroup(text, before + row.original, GroupOr(row, 0)), true, [], {}, None)
  }

  function StartPlace(row: Row, before: string): Option<nat> { if row.original != "" then Some(|before|) else None }

  function LetterPlace(text: Text, row: Row, before: string): Option<nat> {
    var letter := FocusLetter(text, row, 0);
    if letter.Some? then Some(|before| + letter.value) else None
  }

  function FinalState(text: Text, row: Row, wrong: bool, before: string, after: string): State
    requires row.IsCorpusRow()
  {
    PlanAll(text, row, wrong, Begin(text, row, before), before + row.original + after, StartPlace(row, before), LetterPlace(text, row, before))
  }

  function PlanFor(text: Text, row: Row, wrong: bool, before: string, after: string): Plan
    requires row.IsCorpusRow()
  {
    var s := FinalState(text, row, wrong, before, after);
    Plan(before + row.original + after, s.keys, s.unsupported, s.intended, s.intervention)
  }

  // ---- playing a plan

  datatype Editor = Editor(text: string, group: nat)

  /** One key press: its explicit switch first, then the glyph of the editor's layout. */
  function Press(e: Editor, key: PhysicalKey): Editor {
    var group := if key.explicit.Some? then key.explicit.value else e.group;
    Editor(e.text + [key.Glyph(group)], group)
  }

  function Play(e: Editor, keys: seq<PhysicalKey>): Editor {
    if keys == [] then e else Press(Play(e, keys[..|keys| - 1]), keys[|keys| - 1])
  }

  lemma {:induction false} PlayOneMore(e: Editor, keys: seq<PhysicalKey>, key: PhysicalKey)
    ensures Play(e, keys + [key]) == Press(Play(e, keys), key)
  {
    assert (keys + [key])[..|keys|] == keys;
  }

  // ---- the correct plan reproduces the text

  lemma AskedOwn(text: Text, row: Row, s: State, c: char, m: Mark)
    requires row.IsCorpusRow() && s.intended < 2
    ensures var (intended, explicit) := Asked(text, row, false, s, c, m);
      (explicit.Some? ==> explicit.value == intended) && (explicit.None? ==> intended == s.intended && !s.first)
  {}

  /** What has been typed is the text so far, in the intended layout. */
  ghost predicate Typed(t: State, characters: string, start: nat) {
    var e := Play(Editor("", start), t.keys);
    |t.keys| == |characters| && e.text == characters && t.first == (characters == "")
    && e.group == if characters == "" then start else t.intended
  }

  lemma LastOf(s: string)
    requires s != ""
    ensures s[..|s| - 1] + [s[|s| - 1]] == s
  {}

  /** As long as nothing is unsupported. */
  lemma {:induction false} CorrectSoFar(text: Text, row: Row, s: State, characters: string, starts: Option<nat>, letter: Option<nat>, start: nat)
    requires row.IsCorpusRow() && s.intended < 2 && s.first && s.keys == [] && s.unsupported == {}
    requires PlanAll(text, row, false, s, characters, starts, letter).unsupported == {}
    ensures Typed(PlanAll(text, row, false, s, characters, starts, letter), characters, start)
    decreases |characters|
  {
    if characters != "" {
      var last := |characters| - 1;
      CorrectSoFar(text, row, s, characters[..last], starts, letter, start);
      CorrectStep(text, row, PlanAll(text, row, false, s, characters[..last], starts, letter), characters[last],
                  Mark(starts == Some(last), letter == Some(last)), start, characters[..last]);
      LastOf(characters);
    }
  }

  lemma CorrectStep(text: Text, row: Row, before: State, c: char, m: Mark, start: nat, typed: string)
    requires row.IsCorpusRow() && before.intended < 2 && before.unsupported == {}
    requires PlanOne(text, row, false, before, c, m).unsupported == {}
    requires Typed(before, typed, start)
    ensures Typed(PlanOne(text, row, false, before, c, m), typed + [c], start)
  {
    AskedOwn(text, row, before, c, m);
    var t := PlanOne(text, row, false, before, c, m);
    assert c in before.unsupported + {c};
    PlayOneMore(Editor("", start), before.keys, t.keys[|before.keys|]);
    assert t.keys == before.keys + [t.keys[|before.keys|]];
  }

  /**
   The correct plan of a row without unsupported glyphs has one key for each character and types exactly the expected
   text. The editor ends in the expected layout if and only if there is text, or it was in the row's layout already.
   */
  lemma CorrectPlanTypesItsText(text: Text, row: Row, before: string, after: string, start: nat)
    requires row.IsCorpusRow() && PlanFor(text, row, false, before, after).unsupported == {}
    ensures var plan := PlanFor(text, row, false, before, after);
      var e := Play(Editor("", start), plan.keys);
      |plan.keys| == |plan.expected| && e.text == plan.expected
      && (e.group == plan.finalGroup <==> before + row.original + after != "" || start == GroupOr(row, 0))
  {
    CorrectSoFar(text, row, Begin(text, row, before), before + row.original + after, StartPlace(row, before),
                 LetterPlace(text, row, before), start);
  }

  /** An empty row of the second group: the editor stays in the first. */
  lemma EmptyRowKeepsTheFirstLayout(text: Text)
    ensures var plan := PlanFor(text, Row("", "", "", Some(1)), false, "", "");
      plan.unsupported == {} && plan.finalGroup == 1 && Play(Editor("", 0), plan.keys).group == 0
  {}

  // ---- the first switch

  lemma PlacedGrows(s: State, c: char, intended: nat, explicit: Option<nat>, intervenes: bool)
    requires intended < 2
    ensures s.keys <= Placed(s, c, intended, explicit, intervenes).keys
  {}

  lemma {:induction false} KeysGrow(text: Text, row: Row, wrong: bool, s: State, characters: string, starts: Option<nat>, letter: Option<nat>, n: nat)
    requires row.IsCorpusRow() && s.intended < 2 && n <= |characters|
    ensures PlanAll(text, row, wrong, s, characters[..n], starts, letter).keys <= PlanAll(text, row, wrong, s, characters, starts, letter).keys
    decreases |characters|
  {
    hide Placed, Asked;
    if n < |characters| {
      var last := |characters| - 1;
      var before := PlanAll(text, row, wrong, s, characters[..last], starts, letter);
      var m := Mark(starts == Some(last), letter == Some(last));
      KeysGrow(text, row, wrong, s, characters[..last], starts, letter, n);
      assert characters[..last][..n] == characters[..n];
      var (intended, explicit) := Asked(text, row, wrong, before, characters[last], m);
      PlacedGrows(before, characters[last], intended, explicit, m.letter && wrong);
    } else {
      assert characters[..n] == characters;
    }
  }

  /** The layout a plan begins in: that of the first letter up to the focus's end, or the row's own, or the first. */
  ghost predicate BeginsIn(text: Text, row: Row, before: string, g: nat) {
    var ahead := before + row.original;
    && (forall i :: FirstInScript(text, ahead, i) ==> ScriptGroup(text, ahead[i]) == Some(g))
    && ((forall i :: 0 <= i < |ahead| ==> ScriptGroup(text, ahead[i]).None?) ==> g == GroupOr(row, 0))
  }

  /** The first key, unless the focus begins with it, switches to the layout the plan begins in, if it has the character. */
  lemma FirstKeySwitches(text: Text, row: Row, before: string, after: string, g: nat)
    requires row.IsCorpusRow() && before != "" && g < 2 && BeginsIn(text, row, before, g) && ByCharacter(g, before[0]).Some?
    ensures var plan := PlanFor(text, row, false, before, after);
      plan.keys != [] && plan.keys[0].explicit == Some(g) && plan.keys[0].Glyph(g) == before[0]
  {
    var all, s := before + row.original + after, Begin(text, row, before);
    var ahead := before + row.original;
    var starts, letter := StartPlace(row, before), LetterPlace(text, row, before);
    BeginGroup(text, row, before, g);
    assert all[..1] == [before[0]] && all[..1][..0] == "" && ahead[0] == before[0];
    if ScriptGroup(text, ahead[0]).Some? { assert FirstInScript(text, ahead, 0); }
    KeysGrow(text, row, false, s, all, starts, letter, 1);
    assert PlanAll(text, row, false, s, all[..1], starts, letter) == PlanOne(text, row, false, s, before[0], Mark(starts == Some(0), letter == Some(0)));
  }

  lemma BeginGroup(text: Text, row: Row, before: string, g: nat)
    requires row.IsCorpusRow() && g < 2 && BeginsIn(text, row, before, g)
    ensures Begin(text, row, before).intended == g
  {
    var ahead := before + row.original;
    if i :| 0 <= i < |ahead| && ScriptGroup(text, ahead[i]).Some? {
      var first := FirstFrom(text, ahead, 0, i);
    }
  }

  lemma FirstFrom(text: Text, s: string, from: nat, i: nat) returns (first: nat)
    requires from <= i < |s| && ScriptGroup(text, s[i]).Some? && forall j :: 0 <= j < from ==> ScriptGroup(text, s[j]).None?
    ensures FirstInScript(text, s, first)
    decreases i - from
  {
    first := from;
    if ScriptGroup(text, s[from]).None? { first := FirstFrom(text, s, from + 1, i); }
  }

  // ---- the wrong plan

  /** Lower-casing on the keyboard's own characters. */
  function Lowered(c: char): char {
    if 'A' <= c <= 'Z' || 'А' <= c <= 'Я' then (c as int + 32) as char else if c == 'Ё' then 'ё' else c
  }

  ghost predicate LowersKeys(text: Text) {
    forall n: nat, group: nat :: n < KEYS && group < 2 ==> text.lower(KeyAt(n).Glyph(group)) == [Lowered(KeyAt(n).Glyph(group))]
  }

  lemma UsRowsAreAscii(r: nat, c: char)
    requires r < 8 && c in Rows(0)[r]
    ensures c as int < 128
  {
    match r
    case 0 => assert c in US0;
    case 1 => assert c in US1;
    case 2 => assert c in US2;
    case 3 => assert c in US3;
    case 4 => assert c in US4;
    case 5 => assert c in US5;
    case 6 => assert c in US6;
    case _ => assert c in US7;
  }

  /** Not a letter of the other script, in either case. */
  lemma RuRowsAreNotLatin(r: nat, c: char)
    requires r < 8 && c in Rows(1)[r]
    ensures c < 'A' || 'Z' < c < 'a' || 'z' < c
  {
    match r
    case 0 => assert c in RU0;
    case 1 => assert c in RU1;
    case 2 => assert c in RU2;
    case 3 => assert c in RU3;
    case 4 => assert c in RU4;
    case 5 => assert c in RU5;
    case 6 => assert c in RU6;
    case _ => assert c in RU7;
  }

  lemma WithinOne(low: char, c: char, high: char)
    ensures Within([low], [c], [high]) <==> low <= c <= high
  {
    LessOne(c, low);
    LessOne(high, c);
  }

  lemma LessOne(a: char, b: char)
    ensures Less([a], [b]) <==> a < b
  {
    assert [a][1..] == "" && [b][1..] == "";
    assert !Less("", "");
  }

  /** A layout's letters are of its own script. */
  lemma ScriptIsLayout(text: Text, n: nat, group: nat)
    requires LowersKeys(text) && n < KEYS && group < 2
    ensures ScriptGroup(text, KeyAt(n).Glyph(group)).Some? ==> ScriptGroup(text, KeyAt(n).Glyph(group)) == Some(group)
  {
    var c := KeyAt(n).Glyph(group);
    var r, j := Place(n);
    assert c == Rows(group)[r][j];
    if group == 0 { UsRowsAreAscii(r, c); } else { RuRowsAreNotLatin(r, c); }
    WithinOne('a', Lowered(c), 'z');
    WithinOne('а', Lowered(c), 'я');
  }

  /** A letter of a layout's script is on that layout alone, and its key prints something else in the other. */
  lemma LetterKey(text: Text, g: nat, c: char)
    requires LowersKeys(text) && g < 2 && ScriptGroup(text, c) == Some(g)
    ensures ByCharacter(1 - g, c).None?
    ensures ByCharacter(g, c).Some? ==> KeyAt(ByCharacter(g, c).value).Glyph(1 - g) != c
  {
    if ByCharacter(g, c).Some? { ScriptIsLayout(text, ByCharacter(g, c).value, 1 - g); }
    if ByCharacter(1 - g, c).Some? { ScriptIsLayout(text, ByCharacter(1 - g, c).value, 1 - g); }
  }

  /** The same plan but for one key: the focus letter's, switched to the wrong layout first. */
  ghost predicate DiffersOnce(c: State, w: State, g: nat, letter: char)
    requires g < 2
  {
    && c.intended == w.intended && c.first == w.first && c.unsupported == w.unsupported && |c.keys| == |w.keys|
    && w.intervention.Some? && 1 <= w.intervention.value <= |w.keys| && c.intervention.None?
    && SwitchedAt(c.keys, w.keys, w.intervention.value - 1, g, letter)
  }

  ghost predicate SwitchedAt(c: seq<PhysicalKey>, w: seq<PhysicalKey>, i: nat, g: nat, letter: char)
    requires g < 2 && |c| == |w| && i < |c|
  {
    && (forall k :: 0 <= k < |c| && k != i ==> c[k] == w[k])
    && c[i].explicit == Some(g) && w[i] == c[i].(explicit := Some(Flip(g)))
    && c[i].Glyph(g) == letter && c[i].Glyph(Flip(g)) != letter
  }

  lemma LetterPlaced(text: Text, s: State, c: char, g: nat)
    requires LowersKeys(text) && g < 2 && s.intervention.None? && ScriptGroup(text, c) == Some(g) && ByCharacter(g, c).Some?
    ensures DiffersOnce(Placed(s, c, g, Some(g), false), Placed(s, c, g, Some(Flip(g)), true), g, c)
  {
    LetterKey(text, g, c);
  }

  lemma OtherPlaced(a: State, b: State, c: char, intended: nat, explicit: Option<nat>, g: nat, letter: char)
    requires intended < 2 && g < 2 && DiffersOnce(a, b, g, letter)
    ensures DiffersOnce(Placed(a, c, intended, explicit, false), Placed(b, c, intended, explicit, false), g, letter)
  {
    var x, y := Placed(a, c, intended, explicit, false), Placed(b, c, intended, explicit, false);
    assert |x.keys| > |a.keys| ==> x.keys == a.keys + [x.keys[|a.keys|]] && y.keys == b.keys + [x.keys[|a.keys|]];
  }

  lemma LetterStep(text: Text, row: Row, s: State, c: char, m: Mark, g: nat)
    requires LowersKeys(text) && row.group == Some(g) && g < 2 && s.intended < 2 && s.intervention.None? && m.letter
    requires ScriptGroup(text, c) == Some(g) && ByCharacter(g, c).Some?
    ensures DiffersOnce(PlanOne(text, row, false, s, c, m), PlanOne(text, row, true, s, c, m), g, c)
  {
    LetterPlaced(text, s, c, g);
  }

  lemma OtherStep(text: Text, row: Row, a: State, b: State, c: char, m: Mark, g: nat, letter: char)
    requires row.IsCorpusRow() && a.intended < 2 && !m.letter && g < 2 && DiffersOnce(a, b, g, letter)
    ensures DiffersOnce(PlanOne(text, row, false, a, c, m), PlanOne(text, row, true, b, c, m), g, letter)
  {
    var (intended, explicit) := Asked(text, row, false, a, c, m);
    assert Asked(text, row, true, b, c, m) == (intended, explicit);
    OtherPlaced(a, b, c, intended, explicit, g, letter);
  }

  /** How the two plans stand after some characters, of which the p-th is the focus letter. */
  ghost predicate Twins(c: State, w: State, p: nat, characters: string, g: nat)
    requires g < 2
  {
    if |characters| <= p then c == w && c.intervention.None? else DiffersOnce(c, w, g, characters[p])
  }

  lemma TwinStep(text: Text, row: Row, c: State, w: State, characters: string, starts: Option<nat>, p: nat, g: nat)
    requires LowersKeys(text) && row.group == Some(g) && g < 2 && c.intended < 2 && w.intended < 2 && characters != ""
    requires p < |characters| ==> ScriptGroup(text, characters[p]) == Some(g) && ByCharacter(g, characters[p]).Some?
    requires Twins(c, w, p, characters[..|characters| - 1], g)
    ensures var last := |characters| - 1;
      var m := Mark(starts == Some(last), p == last);
      Twins(PlanOne(text, row, false, c, characters[last], m), PlanOne(text, row, true, w, characters[last], m), p, characters, g)
  {
    var last := |characters| - 1;
    var m := Mark(starts == Some(last), p == last);
    if last == p {
      LetterStep(text, row, c, characters[last], m, g);
    } else if last > p {
      OtherStep(text, row, c, w, characters[last], m, g, characters[p]);
    } else {
      assert Asked(text, row, false, c, characters[last], m) == Asked(text, row, true, c, characters[last], m);
    }
  }

  lemma {:induction false} PlansDiffer(text: Text, row: Row, s: State, characters: string, starts: Option<nat>, p: nat, g: nat)
    requires LowersKeys(text) && row.group == Some(g) && g < 2 && s.intended < 2 && s.intervention.None?
    requires p < |characters| ==> ScriptGroup(text, characters[p]) == Some(g) && ByCharacter(g, characters[p]).Some?
    ensures Twins(PlanAll(text, row, false, s, characters, starts, Some(p)), PlanAll(text, row, true, s, characters, starts, Some(p)),
                  p, characters, g)
    decreases |characters|
  {
    if characters != "" {
      var last := |characters| - 1;
      PlansDiffer(text, row, s, characters[..last], starts, p, g);
      TwinStep(text, row, PlanAll(text, row, false, s, characters[..last], starts, Some(p)),
               PlanAll(text, row, true, s, characters[..last], starts, Some(p)), characters, starts, p, g);
    }
  }

  lemma FocusLetterAt(row: Row, before: string, after: string, p: nat)
    requires p < |row.original|
    ensures |before| + p < |before + row.original + after| && (before + row.original + after)[|before| + p] == row.original[p]
  {}

  /**
   The wrong plan has the correct plan's keys, and differs from it in the explicit switch of the intervention key alone;
   that key prints a different glyph than the focus letter.
   */
  lemma {:induction false} WrongPlanDiffersOnce(text: Text, row: Row, before: string, after: string, g: nat, p: nat)
    requires LowersKeys(text) && row.group == Some(g) && g < 2 && FocusLetter(text, row, 0) == Some(p)
    requires ByCharacter(g, row.original[p]).Some?
    ensures var (c, w) := (PlanFor(text, row, false, before, after), PlanFor(text, row, true, before, after));
      && c.expected == w.expected && c.unsupported == w.unsupported && c.finalGroup == w.finalGroup && |c.keys| == |w.keys|
      && c.intervention.None? && w.intervention.Some? && 1 <= w.intervention.value <= |w.keys|
      && SwitchedAt(c.keys, w.keys, w.intervention.value - 1, g, row.original[p])
      && w.intervention.value - 1 == CountTypable(before + row.original[..p])
  {
    hide FinalState, LowersKeys, FocusLetter, SwitchedAt, CountTypable, ByCharacter, PlanAll, DiffersOnce;
    StatesDifferOnce(text, row, before, after, g, p);
    InterventionIsAtLetter(text, row, before, after, g, p);
  }

  lemma {:induction false} InterventionIsAtLetter(text: Text, row: Row, before: string, after: string, g: nat, p: nat)
    requires row.group == Some(g) && g < 2 && FocusLetter(text, row, 0) == Some(p) && ByCharacter(g, row.original[p]).Some?
    ensures FinalState(text, row, true, before, after).intervention == Some(CountTypable(before + row.original[..p]) + 1)
  {
    hide FocusLetter, PlanAll, CountTypable, ByCharacter, StartPlace, Begin;
    FocusLetterAt(row, before, after, p);
    LetterIsAt(text, row, before, p);
    InterventionAt(text, row, Begin(text, row, before), before + row.original + after, StartPlace(row, before), |before| + p, g);
    KeysAreTypable(text, row, true, Begin(text, row, before), (before + row.original + after)[..|before| + p], StartPlace(row, before),
                   Some(|before| + p));
    assert (before + row.original + after)[..|before| + p] == before + row.original[..p];
  }

  /** A character some key prints in either layout. */
  predicate IsTypable(c: char) { ByCharacter(0, c).Some? || ByCharacter(1, c).Some? }

  function CountTypable(characters: string): nat {
    if characters == "" then 0
    else CountTypable(characters[..|characters| - 1]) + if IsTypable(characters[|characters| - 1]) then 1 else 0
  }

  lemma PlacedKeys(s: State, c: char, intended: nat, explicit: Option<nat>, intervenes: bool)
    requires intended < 2
    ensures |Placed(s, c, intended, explicit, intervenes).keys| == |s.keys| + if IsTypable(c) then 1 else 0
    ensures Placed(s, c, intended, explicit, false).intervention == s.intervention
    ensures IsTypable(c) ==> Placed(s, c, intended, explicit, true).intervention == Some(|s.keys| + 1)
  {
    hide ByCharacter, KeyAt;
  }

  /** A plan has a key for every character that can be typed. */
  lemma {:induction false} KeysAreTypable(text: Text, row: Row, wrong: bool, s: State, characters: string, starts: Option<nat>, letter: Option<nat>)
    requires row.IsCorpusRow() && s.intended < 2
    ensures |PlanAll(text, row, wrong, s, characters, starts, letter).keys| == |s.keys| + CountTypable(characters)
  {
    hide Asked, Placed;
    if characters != "" {
      var last := |characters| - 1;
      var before := PlanAll(text, row, wrong, s, characters[..last], starts, letter);
      var m := Mark(starts == Some(last), letter == Some(last));
      KeysAreTypable(text, row, wrong, s, characters[..last], starts, letter);
      var (intended, explicit) := Asked(text, row, wrong, before, characters[last], m);
      PlacedKeys(before, characters[last], intended, explicit, m.letter && wrong);
    }
  }

  /** The wrong plan intervenes at the key of the focus letter's own place, counted from one. */
  lemma {:induction false} InterventionAt(text: Text, row: Row, s: State, characters: string, starts: Option<nat>, place: nat, g: nat)
    requires row.group == Some(g) && g < 2 && s.intended < 2 && place < |characters| && ByCharacter(g, characters[place]).Some?
    ensures PlanAll(text, row, true, s, characters, starts, Some(place)).intervention
         == Some(|PlanAll(text, row, true, s, characters[..place], starts, Some(place)).keys| + 1)
    decreases |characters|
  {
    hide Asked, Placed, ByCharacter;
    var last := |characters| - 1;
    var before := PlanAll(text, row, true, s, characters[..last], starts, Some(place));
    var m := Mark(starts == Some(last), place == last);
    var (intended, explicit) := Asked(text, row, true, before, characters[last], m);
    PlacedKeys(before, characters[last], intended, explicit, m.letter);
    if place < last {
      InterventionAt(text, row, s, characters[..last], starts, place, g);
      assert characters[..last][..place] == characters[..place];
    }
  }

  lemma {:induction false} StatesDifferOnce(text: Text, row: Row, before: string, after: string, g: nat, p: nat)
    requires LowersKeys(text) && row.group == Some(g) && g < 2 && FocusLetter(text, row, 0) == Some(p)
    requires ByCharacter(g, row.original[p]).Some?
    ensures DiffersOnce(FinalState(text, row, false, before, after), FinalState(text, row, true, before, after), g, row.original[p])
  {
    FocusLetterAt(row, before, after, p);
    LetterIsAt(text, row, before, p);
    LettersDifferOnce(text, row, before, after, before + row.original + after, |before| + p, g);
  }

  lemma {:induction false} LetterIsAt(text: Text, row: Row, before: string, p: nat)
    requires FocusLetter(text, row, 0) == Some(p)
    ensures LetterPlace(text, row, before) == Some(|before| + p)
  {}

  lemma LettersDifferOnce(text: Text, row: Row, before: string, after: string, characters: string, place: nat, g: nat)
    requires LowersKeys(text) && row.group == Some(g) && g < 2 && characters == before + row.original + after && place < |characters|
    requires LetterPlace(text, row, before) == Some(place)
    requires ScriptGroup(text, characters[place]) == Some(g) && ByCharacter(g, characters[place]).Some?
    ensures DiffersOnce(FinalState(text, row, false, before, after), FinalState(text, row, true, before, after), g, characters[place])
  {
    CharactersDifferOnce(text, row, before, characters, place, g);
  }

  lemma {:induction false} CharactersDifferOnce(text: Text, row: Row, before: string, characters: string, place: nat, g: nat)
    requires LowersKeys(text) && row.group == Some(g) && g < 2 && place < |characters|
    requires ScriptGroup(text, characters[place]) == Some(g) && ByCharacter(g, characters[place]).Some?
    ensures DiffersOnce(PlanAll(text, row, false, Begin(text, row, before), characters, StartPlace(row, before), Some(place)),
                        PlanAll(text, row, true, Begin(text, row, before), characters, StartPlace(row, before), Some(place)),
                        g, characters[place])
  {
    PlansDiffer(text, row, Begin(text, row, before), characters, StartPlace(row, before), place, g);
  }
}
