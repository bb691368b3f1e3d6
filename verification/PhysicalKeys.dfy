/** The key table of the US and Russian layouts, and reading the same key presses in the other layout. */
module PhysicalKeys {
  import opened Wrappers
  import opened RowLayout
  import opened Gather

  const KEYCODE_BASE: nat := 20
  const KEYS: nat := 96

  const US0: string := "`1234567890-="
  const US1: string := "qwertyuiop[]\\"
  const US2: string := "asdfghjkl;'"
  const US3: string := "zxcvbnm,./ "
  const US4: string := "~!@#$%^&*()_+"
  const US5: string := "QWERTYUIOP{}|"
  const US6: string := "ASDFGHJKL:\""
  const US7: string := "ZXCVBNM<>? "

  const RU0: string := "ё1234567890-="
  const RU1: string := "йцукенгшщзхъ\\"
  const RU2: string := "фывапролджэ"
  const RU3: string := "ячсмитьбю. "
  const RU4: string := "Ё!\"№;%:?*()_+"
  const RU5: string := "ЙЦУКЕНГШЩЗХЪ/"
  const RU6: string := "ФЫВАПРОЛДЖЭ"
  const RU7: string := "ЯЧСМИТЬБЮ, "

  /** The rows of the keyboard, plain and shifted, in each layout; the space bar ends the last row of each. */
  function Rows(group: nat): seq<string> {
    if group == 0 then [US0, US1, US2, US3, US4, US5, US6, US7] else [RU0, RU1, RU2, RU3, RU4, RU5, RU6, RU7]
  }

  /** The characters of a layout, key by key. */
  function Layout(group: nat): string { Flatten(Rows(group)) }

  function RowLengths(): seq<nat> { [13, 13, 11, 11, 13, 13, 11, 11] }

  lemma RowsFit(group: nat)
    ensures Lengths(Rows(group)) == RowLengths()
  {}

  lemma RowsSum()
    ensures Sum(RowLengths()) == KEYS
  {
    var c := RowLengths();
    SumStep(c, 0);
    SumStep(c, 1);
    SumStep(c, 2);
    SumStep(c, 3);
    SumStep(c, 4);
    SumStep(c, 5);
    SumStep(c, 6);
    SumStep(c, 7);
    assert c[..8] == c && c[..0] == [];
  }

  lemma LayoutLength(group: nat)
    ensures |Layout(group)| == KEYS
  {
    RowsFit(group);
    RowsSum();
    FlattenLength(Rows(group));
  }

  datatype PhysicalKey = PhysicalKey(us: char, ru: char, shift: bool, keycode: nat, explicit: Option<nat>) {
    function Glyph(group: nat): char { if group == 0 then us else ru }
  }

  /** The n-th key of the table. */
  function KeyAt(n: nat): PhysicalKey
    requires n < KEYS
  {
    LayoutLength(0);
    LayoutLength(1);
    PhysicalKey(Layout(0)[n], Layout(1)[n], n >= KEYS / 2, n % (KEYS / 2) + KEYCODE_BASE, None)
  }

  // ---- no glyph is on two keys of a layout, but for the space bar, shifted or not

  predicate Repeats(s: string) { exists i, j :: 0 <= i < j < |s| && s[i] == s[j] }

  lemma NoUsRowRepeats()
    ensures !Repeats(US0) && !Repeats(US1) && !Repeats(US2) && !Repeats(US3)
    ensures !Repeats(US4) && !Repeats(US5) && !Repeats(US6) && !Repeats(US7)
  {}

  lemma NoRuRowRepeats()
    ensures !Repeats(RU0) && !Repeats(RU1) && !Repeats(RU2) && !Repeats(RU3)
    ensures !Repeats(RU4) && !Repeats(RU5) && !Repeats(RU6) && !Repeats(RU7)
  {}

  lemma NoRowRepeats(group: nat, r: nat)
    requires r < 8
    ensures !Repeats(Rows(group)[r])
  {
    hide Repeats;
    NoUsRowRepeats();
    NoRuRowRepeats();
  }

  lemma UsRow0Plain(c: char)
    requires c in US0 && c != ' '
    ensures c !in US1 && c !in US2 && c !in US3
  {}

  lemma UsRow0Shifted(c: char)
    requires c in US0 && c != ' '
    ensures c !in US4 && c !in US5 && c !in US6 && c !in US7
  {}

  lemma UsRow1Plain(c: char)
    requires c in US1 && c != ' '
    ensures c !in US2 && c !in US3
  {}

  lemma UsRow1Shifted(c: char)
    requires c in US1 && c != ' '
    ensures c !in US4 && c !in US5 && c !in US6 && c !in US7
  {}

  lemma UsRow2Plain(c: char)
    requires c in US2 && c != ' '
    ensures c !in US3
  {}

  lemma UsRow2Shifted(c: char)
    requires c in US2 && c != ' '
    ensures c !in US4 && c !in US5 && c !in US6 && c !in US7
  {}

  lemma UsRow3Shifted(c: char)
    requires c in US3 && c != ' '
    ensures c !in US4 && c !in US5 && c !in US6 && c !in US7
  {}

  lemma UsRow4Apart(c: char)
    requires c in US4 && c != ' '
    ensures c !in US5 && c !in US6 && c !in US7
  {}

  lemma UsRow5Apart(c: char)
    requires c in US5 && c != ' '
    ensures c !in US6 && c !in US7
  {}

  lemma UsRow6Apart(c: char)
    requires c in US6 && c != ' '
    ensures c !in US7
  {}

  lemma RuRow0Plain(c: char)
    requires c in RU0 && c != ' '
    ensures c !in RU1 && c !in RU2 && c !in RU3
  {}

  lemma RuRow0Shifted(c: char)
    requires c in RU0 && c != ' '
    ensures c !in RU4 && c !in RU5 && c !in RU6 && c !in RU7
  {}

  lemma RuRow1Plain(c: char)
    requires c in RU1 && c != ' '
    ensures c !in RU2 && c !in RU3
  {}

  lemma RuRow1Shifted(c: char)
    requires c in RU1 && c != ' '
    ensures c !in RU4 && c !in RU5 && c !in RU6 && c !in RU7
  {}

  lemma RuRow2Plain(c: char)
    requires c in RU2 && c != ' '
    ensures c !in RU3
  {}

  lemma RuRow2Shifted(c: char)
    requires c in RU2 && c != ' '
    ensures c !in RU4 && c !in RU5 && c !in RU6 && c !in RU7
  {}

  lemma RuRow3Shifted(c: char)
    requires c in RU3 && c != ' '
    ensures c !in RU4 && c !in RU5 && c !in RU6 && c !in RU7
  {}

  lemma RuRow4Apart(c: char)
    requires c in RU4 && c != ' '
    ensures c !in RU5 && c !in RU6 && c !in RU7
  {}

  lemma RuRow5Apart(c: char)
    requires c in RU5 && c != ' '
    ensures c !in RU6 && c !in RU7
  {}

  lemma RuRow6Apart(c: char)
    requires c in RU6 && c != ' '
    ensures c !in RU7
  {}

  lemma RowsApart(group: nat, r: nat, s: nat, c: char)
    requires r < s < 8 && c in Rows(group)[r] && c in Rows(group)[s]
    ensures c == ' '
  {
    if c != ' ' && group == 0 {
      match r
      case 0 => UsRow0Plain(c); UsRow0Shifted(c);
      case 1 => UsRow1Plain(c); UsRow1Shifted(c);
      case 2 => UsRow2Plain(c); UsRow2Shifted(c);
      case 3 => UsRow3Shifted(c);
      case 4 => UsRow4Apart(c);
      case 5 => UsRow5Apart(c);
      case 6 => UsRow6Apart(c);
      case _ =>
    } else if c != ' ' {
      match r
      case 0 => RuRow0Plain(c); RuRow0Shifted(c);
      case 1 => RuRow1Plain(c); RuRow1Shifted(c);
      case 2 => RuRow2Plain(c); RuRow2Shifted(c);
      case 3 => RuRow3Shifted(c);
      case 4 => RuRow4Apart(c);
      case 5 => RuRow5Apart(c);
      case 6 => RuRow6Apart(c);
      case _ =>
    }
  }

  /** The row and column of a key. */
  lemma Place(n: nat) returns (r: nat, j: nat)
    requires n < KEYS
    ensures r < 8 && j < RowLengths()[r] && n == Sum(RowLengths()[..r]) + j
    ensures forall group :: |Layout(group)| == KEYS && |Rows(group)[r]| == RowLengths()[r] && Layout(group)[n] == Rows(group)[r][j]
  {
    RowsSum();
    r := RowOfPosition(RowLengths(), n);
    j := n - Sum(RowLengths()[..r]);
    forall group ensures |Layout(group)| == KEYS && |Rows(group)[r]| == RowLengths()[r] && Layout(group)[n] == Rows(group)[r][j] {
      LayoutLength(group);
      RowsFit(group);
      assert Lengths(Rows(group))[r] == |Rows(group)[r]|;
      FlattenAt(Rows(group), r, j);
    }
  }

  lemma SamePlace(s: string, i: nat, j: nat)
    requires !Repeats(s) && i < |s| && j < |s| && s[i] == s[j]
    ensures i == j
  {
    assert i < j ==> Repeats(s);
    assert j < i ==> Repeats(s);
  }

  lemma GlyphIsOnOneKey(group: nat, m: nat, n: nat)
    requires m < KEYS && n < KEYS && |Layout(group)| == KEYS && Layout(group)[m] == Layout(group)[n] && Layout(group)[m] != ' '
    ensures m == n
  {
    var r, i := Place(m);
    var s, j := Place(n);
    var c := Layout(group)[m];
    assert c in Rows(group)[r] && c in Rows(group)[s];
    if r < s { RowsApart(group, r, s, c); }
    if s < r { RowsApart(group, s, r, c); }
    NoRowRepeats(group, r);
    if r == s { SamePlace(Rows(group)[r], i, j); }
  }

  lemma SpaceIsOnOneColumn(r: nat, j: nat)
    requires r < 8 && j < |Rows(0)[r]| && |Rows(0)[r]| == |Rows(1)[r]|
    ensures Rows(0)[r][j] == ' ' <==> Rows(1)[r][j] == ' '
  {}

  lemma SpaceInBoth(n: nat)
    requires n < KEYS && |Layout(0)| == |Layout(1)| == KEYS
    ensures Layout(0)[n] == ' ' <==> Layout(1)[n] == ' '
  {
    var r, j := Place(n);
    SpaceIsOnOneColumn(r, j);
  }

  /** Two keys with one glyph in a layout have one glyph in the other: the layouts are a bijection of glyphs. */
  lemma LayoutsAreABijection(m: nat, n: nat)
    requires m < KEYS && n < KEYS
    ensures KeyAt(m).us == KeyAt(n).us <==> KeyAt(m).ru == KeyAt(n).ru
  {
    LayoutLength(0);
    LayoutLength(1);
    SpaceInBoth(m);
    SpaceInBoth(n);
    if KeyAt(m).us == KeyAt(n).us && KeyAt(m).us != ' ' { GlyphIsOnOneKey(0, m, n); }
    if KeyAt(m).ru == KeyAt(n).ru && KeyAt(m).ru != ' ' { GlyphIsOnOneKey(1, m, n); }
  }

  // ---- the first key with a glyph

  function FirstFrom(group: nat, c: char, n: nat): (r: Option<nat>)
    requires n <= KEYS
    ensures r.Some? ==> n <= r.value < KEYS && KeyAt(r.value).Glyph(group) == c
    ensures r.None? ==> forall k: nat :: n <= k < KEYS ==> KeyAt(k).Glyph(group) != c
    decreases KEYS - n
  {
    if n == KEYS then None else if KeyAt(n).Glyph(group) == c then Some(n) else FirstFrom(group, c, n + 1)
  }

  /** `_BY_CHARACTER[group].get(c)`: the first key with this glyph. */
  function ByCharacter(group: nat, c: char): (r: Option<nat>)
    ensures r.Some? ==> r.value < KEYS && KeyAt(r.value).Glyph(group) == c
    ensures r.None? ==> forall k: nat :: k < KEYS ==> KeyAt(k).Glyph(group) != c
  {
    FirstFrom(group, c, 0)
  }

  /** A glyph and the glyph of the same key in the other layout determine each other. */
  lemma OtherGlyphReadsBack(group: nat, c: char)
    requires group < 2 && ByCharacter(group, c).Some?
    ensures var d := KeyAt(ByCharacter(group, c).value).Glyph(1 - group);
      ByCharacter(1 - group, d).Some? && KeyAt(ByCharacter(1 - group, d).value).Glyph(group) == c
  {
    var m := ByCharacter(group, c).value;
    var d := KeyAt(m).Glyph(1 - group);
    if ByCharacter(1 - group, d).Some? { LayoutsAreABijection(m, ByCharacter(1 - group, d).value); }
  }

  datatype KeyError = BadGroup | UnsupportedGlyph(glyph: char)

  predicate Supported(text: string, group: nat) { forall c :: c in text ==> ByCharacter(group, c).Some? }

  function Other(group: nat, c: char): char {
    if group < 2 && ByCharacter(group, c).Some? then KeyAt(ByCharacter(group, c).value).Glyph(1 - group) else c
  }

  lemma LayoutAt(group: nat, r: nat, j: nat) returns (n: nat)
    requires r < 8 && j < RowLengths()[r]
    ensures n < KEYS && |Rows(group)[r]| == RowLengths()[r]
    ensures |Layout(group)| == KEYS && Layout(group)[n] == Rows(group)[r][j] && n == Sum(RowLengths()[..r]) + j
  {
    RowsFit(group);
    assert Lengths(Rows(group))[r] == |Rows(group)[r]|;
    FlattenAt(Rows(group), r, j);
    LayoutLength(group);
    n := Sum(RowLengths()[..r]) + j;
  }

  lemma OtherOfKey(group: nat, n: nat)
    requires group < 2 && n < KEYS
    ensures Other(group, KeyAt(n).Glyph(group)) == KeyAt(n).Glyph(1 - group)
  {
    LayoutsAreABijection(n, ByCharacter(group, KeyAt(n).Glyph(group)).value);
  }

  /** Reading a glyph in the other layout gives the glyph at its place in the other table. */
  lemma OtherIsAtItsPlace(group: nat, r: nat, j: nat)
    requires group < 2 && r < 8 && j < RowLengths()[r]
    ensures |Rows(0)[r]| == |Rows(1)[r]| == RowLengths()[r]
    ensures Other(group, Rows(group)[r][j]) == Rows(1 - group)[r][j]
  {
    hide Layout, Rows, RowLengths, Other;
    var m := LayoutAt(0, r, j);
    var n := LayoutAt(1, r, j);
    OtherOfKey(group, n);
  }

  /** The keys that type "ghbdtn" in one layout type "привет" in the other. */
  lemma OneWordInBoth()
    ensures Other(0, 'g') == 'п' && Other(0, 'h') == 'р' && Other(0, 'b') == 'и'
    ensures Other(0, 'd') == 'в' && Other(0, 't') == 'е' && Other(0, 'n') == 'т'
  {
    hide Other;
    OtherIsAtItsPlace(0, 2, 4);
    OtherIsAtItsPlace(0, 2, 5);
    OtherIsAtItsPlace(0, 3, 4);
    OtherIsAtItsPlace(0, 2, 2);
    OtherIsAtItsPlace(0, 1, 4);
    OtherIsAtItsPlace(0, 3, 5);
  }

  function OtherText(group: nat, text: string): (r: string)
    ensures |r| == |text|
  {
    seq(|text|, k requires 0 <= k < |text| => Other(group, text[k]))
  }

  lemma TranslatesOne(group: nat, c: char)
    requires group < 2 && ByCharacter(group, c).Some?
    ensures Other(group, c) == KeyAt(ByCharacter(group, c).value).Glyph(1 - group)
  {}

  lemma TranslatesMore(group: nat, text: string, k: nat)
    requires k < |text|
    ensures OtherText(group, text[..k + 1]) == OtherText(group, text[..k]) + [Other(group, text[k])]
    ensures Supported(text[..k + 1], group) <==> Supported(text[..k], group) && ByCharacter(group, text[k]).Some?
    ensures Supported(text, group) ==> ByCharacter(group, text[k]).Some?
  {
    hide ByCharacter, Other;
    assert text[..k + 1] == text[..k] + [text[k]];
  }

  /** Identical key presses read in the other layout; unknown glyphs are rejected. */
  method Translated(text: string, group: int) returns (r: Result<string, KeyError>)
    ensures group != 0 && group != 1 ==> r == Err(BadGroup)
    ensures 0 <= group <= 1 && Supported(text, group) ==> r == Ok(OtherText(group, text))
    ensures 0 <= group <= 1 && !Supported(text, group) ==> r.Err? && r.error.UnsupportedGlyph? && ByCharacter(group, r.error.glyph).None?
  {
    if group != 0 && group != 1 { return Err(BadGroup); }
    var result := "";
    assert text[..0] == "" && Supported(text[..0], group) && OtherText(group, text[..0]) == "";
    hide ByCharacter, KeyAt, Supported, Other, OtherText;
    for k := 0 to |text|
      invariant Supported(text[..k], group) && result == OtherText(group, text[..k])
    {
      TranslatesMore(group, text, k);
      var key := ByCharacter(group, text[k]);
      if key.None? {
        return Err(UnsupportedGlyph(text[k]));
      }
      TranslatesOne(group, text[k]);
      result := result + [KeyAt(key.value).Glyph(1 - group)];
    }
    assert text[..|text|] == text;
    return Ok(result);
  }

  /** Reading the other layout's text back gives the text: translation is its own inverse across the layouts. */
  lemma TranslationIsItsOwnInverse(text: string, group: nat)
    requires group < 2 && Supported(text, group)
    ensures Supported(OtherText(group, text), 1 - group)
    ensures OtherText(1 - group, OtherText(group, text)) == text
  {
    forall k | 0 <= k < |text|
      ensures ByCharacter(1 - group, OtherText(group, text)[k]).Some?
      ensures OtherText(1 - group, OtherText(group, text))[k] == text[k]
    {
      assert text[k] in text;
      OtherGlyphReadsBack(group, text[k]);
    }
  }
}
