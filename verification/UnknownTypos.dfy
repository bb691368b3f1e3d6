/**
 The corpus of typos unknown in both layouts: every physical signature is used once, with one row for each trigger and
 each outcome, and none that is excluded.
 */
module UnknownTypos {
  import opened Wrappers
  import opened Names
  import opened RowLayout
  import opened StableSort

  const PREFIX: string := "hunspell-unknown:"
  const MIN_TOKEN_CHARACTERS: nat := 5

  datatype Trigger = BoundaryProbe | Pause | Space | Enter | Tab | Punctuation

  const TRIGGERS: seq<Trigger> := [BoundaryProbe, Pause, Space, Enter, Tab, Punctuation]
  const ROWS_PER_TRIGGER: nat := 2

  datatype Variant = Variant(signature: string, kind: string)

  datatype Chosen = Chosen(signature: string, group: nat, correct: string, wrong: string, kind: string)

  /** A row of the corpus; `converts` is the outcome it expects. */
  datatype Example = Example(original: string, alternative: string, sourceGroup: nat, targetGroup: nat, trigger: Trigger,
                             converts: bool, base: string, kind: string)

  /** Dictionaries, typos, hashes and runtime scorers: functions the model does not look into. */
  datatype Rules = Rules(
    words: nat -> seq<string>,
    onboard: nat -> set<string>,
    physical: (string, nat) -> string,
    rank: string -> int,
    typos: string -> seq<Variant>,
    rotation: string -> nat,
    render: (string, nat) -> string,
    normalizedLength: string -> nat,
    isProtected: string -> bool,
    isKnown: (string, nat) -> bool)
  {
    /** An empty key sequence renders as nothing. */
    ghost predicate Sound() { forall g :: normalizedLength(render("", g)) == 0 }

    /** A typo neither layout's runtime knows, long enough to be scored. */
    predicate Serves(signature: string, group: nat)
      requires group < 2
    {
      var correct, wrong := render(signature, group), render(signature, 1 - group);
      && (normalizedLength(correct) >= MIN_TOKEN_CHARACTERS || normalizedLength(wrong) >= MIN_TOKEN_CHARACTERS)
      && !isProtected(correct) && !isProtected(wrong) && !isKnown(correct, group) && !isKnown(wrong, 1 - group)
    }
  }

  // ---- choosing the typos

  function Candidates(rules: Rules, group: nat, words: seq<string>): seq<string> {
    if words == [] then []
    else
      var word := words[|words| - 1];
      Candidates(rules, group, words[..|words| - 1])
      + if word !in rules.onboard(group) && rules.physical(word, group) != "" then [word] else []
  }

  function RankOf(rules: Rules, group: nat): string -> int { (word: string) => rules.rank(rules.physical(word, group)) }

  function Rotated(variants: seq<Variant>, steps: nat): seq<Variant> {
    if variants == [] then [] else variants[steps % |variants|..] + variants[..steps % |variants|]
  }

  function Signatures(chosen: seq<Chosen>): (r: seq<string>)
    ensures |r| == |chosen|
  {
    seq(|chosen|, k requires 0 <= k < |chosen| => chosen[k].signature)
  }

  ghost predicate IsChosen(rules: Rules, excluded: set<string>, c: Chosen) {
    c.signature !in excluded && c.group < 2 && rules.Serves(c.signature, c.group)
    && c.correct == rules.render(c.signature, c.group) && c.wrong == rules.render(c.signature, 1 - c.group)
  }

  /** What each choice satisfies, and what they satisfy together. */
  ghost predicate WellChosen(rules: Rules, chosen: seq<Chosen>, excluded: set<string>, used: set<string>) {
    && Distinct(Signatures(chosen))
    && (forall c :: c in chosen ==> IsChosen(rules, excluded, c))
    && used == set c | c in chosen :: c.signature
  }

  predicate IsFree(rules: Rules, group: nat, v: Variant, excluded: set<string>, used: set<string>)
    requires group < 2
  {
    v.signature !in excluded && v.signature !in used && rules.Serves(v.signature, group)
  }

  function ChosenAs(rules: Rules, group: nat, v: Variant): Chosen
    requires group < 2
  {
    Chosen(v.signature, group, rules.render(v.signature, group), rules.render(v.signature, 1 - group), v.kind)
  }

  /** The variant at `k` is what a word is chosen by: the first that is free. */
  ghost predicate FirstFree(rules: Rules, group: nat, variants: seq<Variant>, excluded: set<string>, used: set<string>, k: nat)
    requires group < 2
  {
    k < |variants| && IsFree(rules, group, variants[k], excluded, used)
    && forall i :: 0 <= i < k ==> !IsFree(rules, group, variants[i], excluded, used)
  }

  ghost predicate NoneFree(rules: Rules, group: nat, variants: seq<Variant>, excluded: set<string>, used: set<string>)
    requires group < 2
  {
    forall i :: 0 <= i < |variants| ==> !IsFree(rules, group, variants[i], excluded, used)
  }

  /** The first variant of a word that is not excluded, not used and served. */
  method ChooseVariant(rules: Rules, group: nat, variants: seq<Variant>, excluded: set<string>, used: set<string>)
    returns (r: Option<Chosen>)
    requires group < 2
    ensures r.Some? ==> exists k: nat :: FirstFree(rules, group, variants, excluded, used, k) && r.value == ChosenAs(rules, group, variants[k])
    ensures r.None? ==> NoneFree(rules, group, variants, excluded, used)
  {
    for k := 0 to |variants|
      invariant forall i :: 0 <= i < k ==> !IsFree(rules, group, variants[i], excluded, used)
    {
      var v := variants[k];
      if v.signature in excluded || v.signature in used || !rules.Serves(v.signature, group) { continue; }
      assert FirstFree(rules, group, variants, excluded, used, k);
      return Some(ChosenAs(rules, group, v));
    }
    return None;
  }

  lemma ChooseMore(rules: Rules, chosen: seq<Chosen>, excluded: set<string>, used: set<string>, c: Chosen)
    requires WellChosen(rules, chosen, excluded, used) && IsChosen(rules, excluded, c) && c.signature !in used
    ensures WellChosen(rules, chosen + [c], excluded, used + {c.signature})
  {
    forall i | 0 <= i < |chosen| ensures chosen[i].signature in used {
      assert chosen[i] in chosen;
    }
    assert Signatures(chosen + [c]) == Signatures(chosen) + [c.signature];
  }

  /** A group's words that may be used, in rank order. */
  function Ordered(rules: Rules, group: nat): seq<string> {
    SortBy(Candidates(rules, group, rules.words(group)), RankOf(rules, group))
  }

  function VariantsOf(rules: Rules, group: nat, word: string): seq<Variant> {
    var signature := rules.physical(word, group);
    Rotated(rules.typos(signature), rules.rotation(signature))
  }

  /** One word's turn: it adds its first free variant, or has none. */
  ghost predicate TakesTurn(rules: Rules, group: nat, word: string, excluded: set<string>, used: set<string>, added: seq<Chosen>)
    requires group < 2
  {
    var variants := VariantsOf(rules, group, word);
    if added == [] then NoneFree(rules, group, variants, excluded, used)
    else
      |added| == 1 && exists k: nat :: FirstFree(rules, group, variants, excluded, used, k) && added[0] == ChosenAs(rules, group, variants[k])
  }

  /** The words have their turns one after another; each sees what the earlier ones used. */
  ghost predicate TakeTurns(rules: Rules, group: nat, words: seq<string>, excluded: set<string>, used: set<string>, turns: seq<seq<Chosen>>)
    requires group < 2
  {
    |turns| == |words| && forall i :: 0 <= i < |words| ==>
      TakesTurn(rules, group, words[i], excluded, UsedBy(used, turns[..i]), turns[i])
  }

  function UsedBy(used: set<string>, turns: seq<seq<Chosen>>): set<string> {
    used + set c | c in Flatten(turns) :: c.signature
  }

  /** The words that had a turn: all of them, or up to the one that made the group full. */
  ghost predicate ChoosesGroup(rules: Rules, group: nat, excluded: set<string>, minimum: nat, used: set<string>, chosen: seq<Chosen>)
    requires group < 2
  {
    var words := Ordered(rules, group);
    exists turns :: |turns| <= |words| && TakeTurns(rules, group, words[..|turns|], excluded, used, turns)
      && chosen == Flatten(turns) && |chosen| <= minimum && (|turns| < |words| ==> |chosen| == minimum)
      && forall i :: 0 <= i < |turns| ==> |Flatten(turns[..i])| < minimum
  }

  lemma {:induction false} TurnsMore(rules: Rules, group: nat, words: seq<string>, excluded: set<string>, used: set<string>,
                                     turns: seq<seq<Chosen>>, word: string, added: seq<Chosen>)
    requires group < 2 && TakeTurns(rules, group, words, excluded, used, turns)
    requires TakesTurn(rules, group, word, excluded, UsedBy(used, turns), added)
    ensures TakeTurns(rules, group, words + [word], excluded, used, turns + [added])
    ensures Flatten(turns + [added]) == Flatten(turns) + added
  {
    assert (turns + [added])[..|turns|] == turns;
    forall i | 0 <= i < |words|
      ensures TakesTurn(rules, group, (words + [word])[i], excluded, UsedBy(used, (turns + [added])[..i]), (turns + [added])[i])
    {
      assert (turns + [added])[..i] == turns[..i];
    }
  }

  ghost predicate FrontsBelow(turns: seq<seq<Chosen>>, minimum: nat) {
    forall i :: 0 <= i < |turns| ==> |Flatten(turns[..i])| < minimum
  }

  /** After `k` words' turns. */
  ghost predicate HadTurns(rules: Rules, group: nat, words: seq<string>, excluded: set<string>, minimum: nat, before: seq<Chosen>,
                           used: set<string>, turns: seq<seq<Chosen>>, chosen: seq<Chosen>, nowUsed: set<string>)
    requires group < 2
  {
    && WellChosen(rules, chosen, excluded, nowUsed)
    && TakeTurns(rules, group, words, excluded, used, turns) && FrontsBelow(turns, minimum)
    && chosen == before + Flatten(turns) && nowUsed == UsedBy(used, turns)
  }

  lemma {:induction false} FrontsMore(turns: seq<seq<Chosen>>, added: seq<Chosen>, minimum: nat)
    requires |Flatten(turns)| < minimum && FrontsBelow(turns, minimum)
    ensures FrontsBelow(turns + [added], minimum)
  {
    forall i | 0 <= i < |turns + [added]| ensures |Flatten((turns + [added])[..i])| < minimum {
      assert (turns + [added])[..i] == if i < |turns| then turns[..i] else turns;
    }
  }

  lemma {:induction false} UsedMore(used: set<string>, turns: seq<seq<Chosen>>, added: seq<Chosen>)
    requires Flatten(turns + [added]) == Flatten(turns) + added
    ensures UsedBy(used, turns + [added]) == UsedBy(used, turns) + set c | c in added :: c.signature
  {
    forall c ensures c in Flatten(turns + [added]) <==> c in Flatten(turns) || c in added {}
  }

  lemma HadOneMore(rules: Rules, group: nat, words: seq<string>, excluded: set<string>, minimum: nat, before: seq<Chosen>,
                   used: set<string>, turns: seq<seq<Chosen>>, chosen: seq<Chosen>, nowUsed: set<string>, word: string,
                   added: seq<Chosen>, next: seq<Chosen>, nextUsed: set<string>)
    requires group < 2 && HadTurns(rules, group, words, excluded, minimum, before, used, turns, chosen, nowUsed)
    requires |chosen| < |before| + minimum && TakesTurn(rules, group, word, excluded, nowUsed, added)
    requires next == chosen + added && nextUsed == nowUsed + (set c | c in added :: c.signature)
    requires WellChosen(rules, next, excluded, nextUsed)
    ensures HadTurns(rules, group, words + [word], excluded, minimum, before, used, turns + [added], next, nextUsed)
  {
    hide TakesTurn, WellChosen, TakeTurns, FrontsBelow, UsedBy;
    TurnsMore(rules, group, words, excluded, used, turns, word, added);
    FrontsMore(turns, added, minimum);
    UsedMore(used, turns, added);
    AppendAssociates(before, Flatten(turns), added);
  }

  /** One word's turn. */
  method TakeWord(rules: Rules, group: nat, word: string, excluded: set<string>, chosen: seq<Chosen>, used: set<string>)
    returns (next: seq<Chosen>, nextUsed: set<string>, ghost added: seq<Chosen>)
    requires group < 2 && WellChosen(rules, chosen, excluded, used)
    ensures TakesTurn(rules, group, word, excluded, used, added) && |added| <= 1
    ensures next == chosen + added && nextUsed == used + set c | c in added :: c.signature
    ensures WellChosen(rules, next, excluded, nextUsed)
  {
    var variant := ChooseVariant(rules, group, VariantsOf(rules, group, word), excluded, used);
    next, nextUsed, added := chosen, used, [];
    if variant.Some? {
      ChooseMore(rules, chosen, excluded, used, variant.value);
      next, nextUsed, added := chosen + [variant.value], used + {variant.value.signature}, [variant.value];
    }
  }

  lemma HadEnough(rules: Rules, group: nat, k: nat, excluded: set<string>, minimum: nat, before: seq<Chosen>,
                  used: set<string>, turns: seq<seq<Chosen>>, chosen: seq<Chosen>, nowUsed: set<string>)
    requires group < 2 && k <= |Ordered(rules, group)|
    requires HadTurns(rules, group, Ordered(rules, group)[..k], excluded, minimum, before, used, turns, chosen, nowUsed)
    requires |chosen| <= |before| + minimum && (k < |Ordered(rules, group)| ==> |chosen| == |before| + minimum)
    ensures before <= chosen && ChoosesGroup(rules, group, excluded, minimum, used, chosen[|before|..])
  {
    assert chosen[|before|..] == Flatten(turns);
  }

  /** Up to `minimum` typos of a group's words, in rank order, after those already chosen. */
  method ChooseGroup(rules: Rules, group: nat, excluded: set<string>, minimum: nat, before: seq<Chosen>, used: set<string>)
    returns (chosen: seq<Chosen>, nowUsed: set<string>)
    requires group < 2 && minimum >= 1 && WellChosen(rules, before, excluded, used)
    ensures WellChosen(rules, chosen, excluded, nowUsed) && before <= chosen
    ensures ChoosesGroup(rules, group, excluded, minimum, used, chosen[|before|..])
  {
    hide WellChosen, TakesTurn, ChoosesGroup;
    var ordered := Ordered(rules, group);
    chosen, nowUsed := before, used;
    ghost var turns: seq<seq<Chosen>> := [];
    for k := 0 to |ordered|
      invariant |chosen| < |before| + minimum
      invariant HadTurns(rules, group, ordered[..k], excluded, minimum, before, used, turns, chosen, nowUsed)
    {
      var next, nextUsed;
      ghost var added;
      next, nextUsed, added := TakeWord(rules, group, ordered[k], excluded, chosen, nowUsed);
      HadOneMore(rules, group, ordered[..k], excluded, minimum, before, used, turns, chosen, nowUsed, ordered[k], added, next, nextUsed);
      assert ordered[..k + 1] == ordered[..k] + [ordered[k]];
      chosen, nowUsed, turns := next, nextUsed, turns + [added];
      if |chosen| == |before| + minimum {
        HadEnough(rules, group, k + 1, excluded, minimum, before, used, turns, chosen, nowUsed);
        return;
      }
    }
    HadEnough(rules, group, |ordered|, excluded, minimum, before, used, turns, chosen, nowUsed);
  }

  // ---- rows

  /** A typo's two rows for a trigger: kept as typed, and typed in the wrong layout. */
  function Pair(c: Chosen, t: Trigger): seq<Example>
    requires c.group < 2
  {
    [Example(c.correct, c.wrong, c.group, 1 - c.group, t, false, PREFIX + c.signature, "hunspell-unknown-" + c.kind),
     Example(c.wrong, c.correct, 1 - c.group, c.group, t, true, PREFIX + c.signature, "hunspell-unknown-" + c.kind)]
  }

  function Pairs(c: Chosen, triggers: seq<Trigger>): (r: seq<Example>)
    requires c.group < 2
    ensures |r| == 2 * |triggers| && forall k :: 0 <= k < |r| ==> r[k].base == PREFIX + c.signature
  {
    if triggers == [] then [] else Pairs(c, triggers[..|triggers| - 1]) + Pair(c, triggers[|triggers| - 1])
  }

  function Rows(chosen: seq<Chosen>): seq<Example>
    requires forall c :: c in chosen ==> c.group < 2
  {
    if chosen == [] then [] else Rows(chosen[..|chosen| - 1]) + Pairs(chosen[|chosen| - 1], TRIGGERS)
  }

  function OfBase(rows: seq<Example>, base: string): seq<Example> {
    if rows == [] then []
    else OfBase(rows[..|rows| - 1], base) + if rows[|rows| - 1].base == base then [rows[|rows| - 1]] else []
  }

  lemma {:induction false} OfBaseSplits(a: seq<Example>, b: seq<Example>, base: string)
    ensures OfBase(a + b, base) == OfBase(a, base) + OfBase(b, base)
    decreases |b|
  {
    if b == [] {
      assert a + b == a;
    } else {
      assert (a + b)[..|a + b| - 1] == a + b[..|b| - 1];
      OfBaseSplits(a, b[..|b| - 1], base);
    }
  }

  lemma {:induction false} OneBase(rows: seq<Example>, own: string, base: string)
    requires forall k :: 0 <= k < |rows| ==> rows[k].base == own
    ensures OfBase(rows, base) == if own == base then rows else []
  {
    if rows != [] {
      OneBase(rows[..|rows| - 1], own, base);
      assert rows == rows[..|rows| - 1] + [rows[|rows| - 1]];
    }
  }

  lemma SamePrefix(a: string, b: string)
    ensures PREFIX + a == PREFIX + b <==> a == b
  {
    assert (PREFIX + a)[|PREFIX|..] == a && (PREFIX + b)[|PREFIX|..] == b;
  }

  /** A signature's rows are one typo's pairs. */
  lemma {:induction false} RowsOfSignature(chosen: seq<Chosen>, i: nat)
    requires (forall c :: c in chosen ==> c.group < 2) && Distinct(Signatures(chosen)) && i < |chosen|
    ensures OfBase(Rows(chosen), PREFIX + chosen[i].signature) == Pairs(chosen[i], TRIGGERS)
  {
    var last := |chosen| - 1;
    var base := PREFIX + chosen[i].signature;
    OfBaseSplits(Rows(chosen[..last]), Pairs(chosen[last], TRIGGERS), base);
    OneBase(Pairs(chosen[last], TRIGGERS), PREFIX + chosen[last].signature, base);
    assert Signatures(chosen)[..last] == Signatures(chosen[..last]);
    if i < last {
      SamePrefix(chosen[i].signature, chosen[last].signature);
      assert Signatures(chosen)[i] != Signatures(chosen)[last];
      RowsOfSignature(chosen[..last], i);
    } else {
      NoOtherRows(chosen[..last], chosen[last].signature);
    }
  }

  lemma {:induction false} NoOtherRows(chosen: seq<Chosen>, signature: string)
    requires (forall c :: c in chosen ==> c.group < 2) && forall k :: 0 <= k < |chosen| ==> Signatures(chosen)[k] != signature
    ensures OfBase(Rows(chosen), PREFIX + signature) == []
  {
    if chosen != [] {
      var last := |chosen| - 1;
      forall k | 0 <= k < last ensures Signatures(chosen[..last])[k] != signature {
        assert Signatures(chosen)[k] != signature;
      }
      NoOtherRows(chosen[..last], signature);
      OfBaseSplits(Rows(chosen[..last]), Pairs(chosen[last], TRIGGERS), PREFIX + signature);
      OneBase(Pairs(chosen[last], TRIGGERS), PREFIX + chosen[last].signature, PREFIX + signature);
      SamePrefix(chosen[last].signature, signature);
      assert Signatures(chosen)[last] != signature;
    }
  }

  lemma {:induction false} RowIsChosen(chosen: seq<Chosen>, row: Example) returns (i: nat)
    requires (forall c :: c in chosen ==> c.group < 2) && row in Rows(chosen)
    ensures i < |chosen| && row.base == PREFIX + chosen[i].signature
  {
    var last := |chosen| - 1;
    if row in Rows(chosen[..last]) {
      i := RowIsChosen(chosen[..last], row);
    } else {
      i := last;
    }
  }

  // ---- the validators

  datatype CorpusError = MinimumNotPositive | ForeignSignature | EmptySignature | NotSymmetric | SealedSignature
                       | BadNamespace | SameNamespace | BadModels | BadSnapshots | WrongLocale

  function Outcomes(rows: seq<Example>): set<(Trigger, bool)> { set r | r in rows :: (r.trigger, r.converts) }

  function ExpectedOutcomes(): set<(Trigger, bool)> { set t, b: bool | t in TRIGGERS :: (t, b) }

  /** Whether a base's rows are one for each trigger and outcome. */
  predicate IsSymmetric(rows: seq<Example>) { |rows| == |TRIGGERS| * ROWS_PER_TRIGGER && Outcomes(rows) == ExpectedOutcomes() }

  lemma {:induction false} PairsOutcomes(c: Chosen, triggers: seq<Trigger>)
    requires c.group < 2
    ensures Outcomes(Pairs(c, triggers)) == set t, b: bool | t in triggers :: (t, b)
  {
    if triggers != [] {
      var last := |triggers| - 1;
      PairsOutcomes(c, triggers[..last]);
      var a, b := Pairs(c, triggers[..last]), Pair(c, triggers[last]);
      assert Outcomes(a + b) == Outcomes(a) + Outcomes(b);
      assert Outcomes(b) == {(triggers[last], false), (triggers[last], true)} by {
        assert b[0] in b && b[1] in b;
      }
      assert triggers == triggers[..last] + [triggers[last]];
    }
  }

  lemma {:induction false} PairsAreSymmetric(c: Chosen)
    requires c.group < 2
    ensures IsSymmetric(Pairs(c, TRIGGERS))
  {
    PairsOutcomes(c, TRIGGERS);
  }

  predicate HasPrefix(base: string) { |base| >= |PREFIX| && base[..|PREFIX|] == PREFIX }

  ghost predicate IsTyposCorpus(examples: seq<Example>) {
    && examples != []
    && (forall e :: e in examples ==> HasPrefix(e.base) && e.base != PREFIX)
    && (forall e :: e in examples ==> |OfBase(examples, e.base)| == |TRIGGERS| * ROWS_PER_TRIGGER)
  }

  /** The physical signatures of a corpus, if it has the shape of one. */
  method PhysicalSignatures(examples: seq<Example>) returns (r: Result<set<string>, CorpusError>)
    ensures r.Ok? <==> IsTyposCorpus(examples)
    ensures r.Ok? ==> r.value == set e | e in examples :: e.base[|PREFIX|..]
  {
    var signatures: set<string> := {};
    for k := 0 to |examples|
      invariant forall e :: e in examples[..k] ==> HasPrefix(e.base) && e.base != PREFIX
      invariant signatures == set e | e in examples[..k] :: e.base[|PREFIX|..]
    {
      assert examples[k] in examples;
      var base := examples[k].base;
      if !HasPrefix(base) { return Err(ForeignSignature); }
      if base[|PREFIX|..] == "" {
        assert base == PREFIX + base[|PREFIX|..];
        return Err(EmptySignature);
      }
      assert examples[..k + 1] == examples[..k] + [examples[k]];
      signatures := signatures + {base[|PREFIX|..]};
    }
    assert examples[..|examples|] == examples;
    if examples == [] || exists e :: e in examples && |OfBase(examples, e.base)| != |TRIGGERS| * ROWS_PER_TRIGGER {
      return Err(NotSymmetric);
    }
    return Ok(signatures);
  }

  /** The other validator: every base has one row for each trigger and outcome. */
  predicate ExpansionMatches(examples: seq<Example>, expected: seq<Trigger>) {
    expected == TRIGGERS && examples != [] && forall e :: e in examples ==> IsSymmetric(OfBase(examples, e.base))
  }

  // ---- the corpus

  datatype Corpus = Corpus(examples: seq<Example>, chosen: seq<Chosen>)

  /** The first `n` typos are the first group's choices, the others the second group's, who see what the first used. */
  ghost predicate ChoosesCorpus(rules: Rules, excluded: set<string>, minimum: nat, chosen: seq<Chosen>, n: nat)
    requires n <= |chosen|
  {
    ChoosesGroup(rules, 0, excluded, minimum, {}, chosen[..n])
    && ChoosesGroup(rules, 1, excluded, minimum, set c | c in chosen[..n] :: c.signature, chosen[n..])
  }

  /** The typos of both groups, English first. */
  method ChooseBoth(rules: Rules, excluded: set<string>, minimum: nat) returns (chosen: seq<Chosen>, used: set<string>)
    requires minimum >= 1
    ensures WellChosen(rules, chosen, excluded, used)
    ensures exists n: nat :: n <= |chosen| && ChoosesCorpus(rules, excluded, minimum, chosen, n)
  {
    hide ChoosesGroup;
    var english, usedEnglish := ChooseGroup(rules, 0, excluded, minimum, [], {});
    chosen, used := ChooseGroup(rules, 1, excluded, minimum, english, usedEnglish);
    assert chosen[..|english|] == english && english[0..] == english;
    assert ChoosesCorpus(rules, excluded, minimum, chosen, |english|);
  }

  /** The rows of the chosen typos, trigger by trigger. */
  method RowsFor(chosen: seq<Chosen>) returns (examples: seq<Example>)
    requires forall c :: c in chosen ==> c.group < 2
    ensures examples == Rows(chosen)
  {
    examples := [];
    for k := 0 to |chosen|
      invariant examples == Rows(chosen[..k])
    {
      assert chosen[k] in chosen;
      assert chosen[..k + 1][..k] == chosen[..k] && chosen[..k + 1] == chosen[..k] + [chosen[k]];
      for t := 0 to |TRIGGERS|
        invariant examples == Rows(chosen[..k]) + Pairs(chosen[k], TRIGGERS[..t])
      {
        assert TRIGGERS[..t + 1][..t] == TRIGGERS[..t];
        examples := examples + Pair(chosen[k], TRIGGERS[t]);
      }
      assert TRIGGERS[..|TRIGGERS|] == TRIGGERS;
    }
    assert chosen[..|chosen|] == chosen;
  }

  const NAMESPACE_MAX_CHARACTERS: nat := 128
  const LOCALES: seq<string> := ["en_US", "ru_RU"]

  /** What names the hashes, and the groups that have a language model or a dictionary of some locale. */
  datatype Setup = Setup(rankNamespace: string, choiceNamespace: string, models: set<nat>, locales: map<nat, string>)

  predicate IsNamespace(s: string) {
    0 < |s| <= NAMESPACE_MAX_CHARACTERS && forall k :: 0 <= k < |s| ==> 0 < s[k] as int < 128
  }

  ghost predicate IsSetup(setup: Setup, excluded: set<string>) {
    && IsNamespace(setup.rankNamespace) && IsNamespace(setup.choiceNamespace) && setup.rankNamespace != setup.choiceNamespace
    && "" !in excluded && setup.models == {0, 1} && setup.locales == map[0 := LOCALES[0], 1 := LOCALES[1]]
  }

  /** What is refused before a corpus is built. */
  method CheckSetup(setup: Setup, excluded: set<string>) returns (r: Option<CorpusError>)
    ensures r.None? <==> IsSetup(setup, excluded)
    ensures r.Some? ==> r.value != SealedSignature
  {
    if !IsNamespace(setup.rankNamespace) || !IsNamespace(setup.choiceNamespace) { return Some(BadNamespace); }
    if setup.rankNamespace == setup.choiceNamespace { return Some(SameNamespace); }
    if "" in excluded { return Some(EmptySignature); }
    if setup.models != {0, 1} { return Some(BadModels); }
    if setup.locales.Keys != {0, 1} { return Some(BadSnapshots); }
    if setup.locales[0] != LOCALES[0] || setup.locales[1] != LOCALES[1] { return Some(WrongLocale); }
    return None;
  }

  /** A corpus of the choices' rows; that a sealed signature slipped in is an error never raised. */
  method BuildCorpus(rules: Rules, setup: Setup, excluded: set<string>, minimum: int) returns (r: Result<Corpus, CorpusError>)
    ensures r.Err? <==> minimum < 1 || !IsSetup(setup, excluded)
    ensures minimum < 1 ==> r == Err(MinimumNotPositive)
    ensures r.Err? ==> r.error != SealedSignature
    ensures r.Ok? ==>
      && WellChosen(rules, r.value.chosen, excluded, set c | c in r.value.chosen :: c.signature)
      && r.value.examples == Rows(r.value.chosen)
      && exists n: nat :: n <= |r.value.chosen| && ChoosesCorpus(rules, excluded, minimum, r.value.chosen, n)
  {
    if minimum < 1 { return Err(MinimumNotPositive); }
    var refused := CheckSetup(setup, excluded);
    if refused.Some? { return Err(refused.value); }
    var chosen, used := ChooseBoth(rules, excluded, minimum);
    if used * excluded != {} {
      return Err(SealedSignature);
    }
    var examples := RowsFor(chosen);
    return Ok(Corpus(examples, chosen));
  }

  /** Both validators accept a built corpus exactly when it has a row, and the signatures found are those chosen. */
  lemma {:induction false} BuiltCorpusIsValid(rules: Rules, excluded: set<string>, used: set<string>, chosen: seq<Chosen>)
    requires rules.Sound() && WellChosen(rules, chosen, excluded, used)
    ensures IsTyposCorpus(Rows(chosen)) <==> chosen != []
    ensures ExpansionMatches(Rows(chosen), TRIGGERS) <==> chosen != []
    ensures (set e | e in Rows(chosen) :: e.base[if HasPrefix(e.base) then |PREFIX| else 0..]) == used
  {
    var examples := Rows(chosen);
    assert chosen == [] ==> examples == [];
    hide OfBase, Rows;
    forall e | e in examples
      ensures HasPrefix(e.base) && e.base != PREFIX && e.base[|PREFIX|..] in used && IsSymmetric(OfBase(examples, e.base))
    {
      var i := RowIsChosen(chosen, e);
      ChosenIsValid(rules, excluded, used, chosen, i);
    }
    forall s | s in used ensures exists e :: e in examples && e.base == PREFIX + s {
      var c :| c in chosen && c.signature == s;
      var i :| 0 <= i < |chosen| && chosen[i] == c;
      RowsOfSignature(chosen, i);
      FromBase(examples, PREFIX + s, Pairs(c, TRIGGERS)[0]);
    }
    if chosen != [] {
      assert chosen[0] in chosen;
      assert chosen[0].signature in used;
    }
    forall s | s in used ensures s in set e | e in examples :: e.base[if HasPrefix(e.base) then |PREFIX| else 0..] {
      var e :| e in examples && e.base == PREFIX + s;
      assert e.base[|PREFIX|..] == s;
    }
  }

  lemma {:induction false} FromBase(rows: seq<Example>, base: string, row: Example)
    requires row in OfBase(rows, base)
    ensures row in rows && row.base == base
  {
    if row in OfBase(rows[..|rows| - 1], base) { FromBase(rows[..|rows| - 1], base, row); }
  }

  lemma {:induction false} ChosenIsValid(rules: Rules, excluded: set<string>, used: set<string>, chosen: seq<Chosen>, i: nat)
    requires rules.Sound() && WellChosen(rules, chosen, excluded, used) && i < |chosen|
    ensures var base := PREFIX + chosen[i].signature;
      HasPrefix(base) && base != PREFIX && base[|PREFIX|..] in used && IsSymmetric(OfBase(Rows(chosen), base))
  {
    var base := PREFIX + chosen[i].signature;
    assert chosen[i] in chosen;
    assert base[..|PREFIX|] == PREFIX && base[|PREFIX|..] == chosen[i].signature;
    RowsOfSignature(chosen, i);
    PairsAreSymmetric(chosen[i]);
    NothingIsNotServed(rules, chosen[i].group);
  }

  lemma NothingIsNotServed(rules: Rules, group: nat)
    requires rules.Sound() && group < 2
    ensures !rules.Serves("", group)
  {}

  /** A holdout built with the sealed and the development signatures excluded shares none with either. */
  lemma HoldoutIsDisjoint(rules: Rules, other: Rules, sealed: set<string>, development: seq<Chosen>, holdout: seq<Chosen>,
                          developmentUsed: set<string>, holdoutUsed: set<string>)
    requires WellChosen(rules, development, sealed, developmentUsed)
    requires WellChosen(other, holdout, sealed + developmentUsed, holdoutUsed)
    ensures holdoutUsed !! developmentUsed && holdoutUsed !! sealed && developmentUsed !! sealed
  {
    forall s | s in holdoutUsed ensures s !in sealed + developmentUsed {
      var c :| c in holdout && c.signature == s;
    }
    forall s | s in developmentUsed ensures s !in sealed {
      var c :| c in development && c.signature == s;
    }
  }
}
