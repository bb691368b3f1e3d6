/** What the rows of a corpus of unknown typos are, and which words and variants have their turns, in the source's own terms. */
module TypoChoices {
  import opened StableSort
  import opened UnknownTypos

  // ---- rows

  /** Both texts of a row are long enough together, unprotected, and unknown to the runtime of the layout they are read in. */
  ghost predicate IsUnknownPair(rules: Rules, e: Example) {
    && e.sourceGroup < 2 && e.targetGroup == 1 - e.sourceGroup
    && (rules.normalizedLength(e.original) >= 5 || rules.normalizedLength(e.alternative) >= 5)
    && !rules.isProtected(e.original) && !rules.isProtected(e.alternative)
    && !rules.isKnown(e.original, e.sourceGroup) && !rules.isKnown(e.alternative, e.targetGroup)
  }

  /** A row shows one sealed key sequence in both layouts; it converts exactly if it was typed in the other layout than its own. */
  ghost predicate IsRowOf(rules: Rules, e: Example, c: Chosen) {
    && e.base == "hunspell-unknown:" + c.signature && e.kind == "hunspell-unknown-" + c.kind
    && e.converts == (e.sourceGroup != c.group)
    && e.original == rules.render(c.signature, e.sourceGroup) && e.alternative == rules.render(c.signature, e.targetGroup)
  }

  lemma PairRows(rules: Rules, excluded: set<string>, c: Chosen, t: Trigger, e: Example)
    requires IsChosen(rules, excluded, c) && e in Pair(c, t)
    ensures IsUnknownPair(rules, e) && IsRowOf(rules, e, c)
  {
    assert e == Pair(c, t)[0] || e == Pair(c, t)[1];
  }

  lemma {:induction false} PairsRows(rules: Rules, excluded: set<string>, c: Chosen, triggers: seq<Trigger>, e: Example)
    requires IsChosen(rules, excluded, c) && e in Pairs(c, triggers)
    ensures IsUnknownPair(rules, e) && IsRowOf(rules, e, c)
  {
    var last := |triggers| - 1;
    if e in Pair(c, triggers[last]) {
      PairRows(rules, excluded, c, triggers[last], e);
    } else {
      PairsRows(rules, excluded, c, triggers[..last], e);
    }
  }

  /** Every row of a corpus is unknown in both layouts, and its typo is not excluded. */
  lemma {:induction false} RowsAreUnknown(rules: Rules, excluded: set<string>, chosen: seq<Chosen>, e: Example) returns (c: Chosen)
    requires (forall x :: x in chosen ==> x.group < 2 && IsChosen(rules, excluded, x)) && e in Rows(chosen)
    ensures c in chosen && c.signature !in excluded && IsUnknownPair(rules, e) && IsRowOf(rules, e, c)
  {
    var last := |chosen| - 1;
    assert chosen[last] in chosen;
    if e in Pairs(chosen[last], TRIGGERS) {
      c := chosen[last];
      PairsRows(rules, excluded, c, TRIGGERS, e);
    } else {
      assert forall x :: x in chosen[..last] ==> x in chosen;
      c := RowsAreUnknown(rules, excluded, chosen[..last], e);
    }
  }

  // ---- words and variants

  lemma {:induction false} CandidatesExactly(rules: Rules, group: nat, words: seq<string>, w: string)
    ensures w in Candidates(rules, group, words) <==> w in words && w !in rules.onboard(group) && rules.physical(w, group) != ""
  {
    if words != [] {
      CandidatesExactly(rules, group, words[..|words| - 1], w);
      assert words == words[..|words| - 1] + [words[|words| - 1]];
    }
  }

  /** The words that have turns are the dictionary's that can be typed and the training lexicon lacks, by the rank of their key sequence. */
  lemma TurnsAreRanked(rules: Rules, group: nat)
    ensures var words := UnknownTypos.Ordered(rules, group);
      && (forall w :: w in words <==> w in rules.words(group) && w !in rules.onboard(group) && rules.physical(w, group) != "")
      && forall i, j :: 0 <= i < j < |words| ==> rules.rank(rules.physical(words[i], group)) <= rules.rank(rules.physical(words[j], group))
  {
    var words := Candidates(rules, group, rules.words(group));
    SortOrders(words, RankOf(rules, group));
    forall w ensures w in UnknownTypos.Ordered(rules, group) <==> w in words {
      assert w in multiset(UnknownTypos.Ordered(rules, group)) <==> w in multiset(words);
    }
    forall w ensures w in words <==> w in rules.words(group) && w !in rules.onboard(group) && rules.physical(w, group) != "" {
      CandidatesExactly(rules, group, rules.words(group), w);
    }
  }

  /** A place so many steps on from another, going round. */
  function Round(count: nat, start: nat, steps: nat): nat { if start + steps < count then start + steps else start + steps - count }

  lemma RotatedAt(variants: seq<Variant>, start: nat, i: nat)
    requires start < |variants| && i < |variants|
    ensures (variants[start..] + variants[..start])[i] == variants[Round(|variants|, start, i)]
  {}

  /** A typo's variant so many places on from where its hash points. */
  function TurnAt(rules: Rules, signature: string, i: nat): Variant
    requires i < |rules.typos(signature)|
  {
    var variants := rules.typos(signature);
    variants[Round(|variants|, rules.rotation(signature) % |variants|, i)]
  }

  /** A word is chosen by the first free variant from where its hash points, going round. */
  lemma FirstFreeGoesRound(rules: Rules, group: nat, word: string, excluded: set<string>, used: set<string>, k: nat)
    requires group < 2 && FirstFree(rules, group, VariantsOf(rules, group, word), excluded, used, k)
    ensures var signature := rules.physical(word, group);
      && k < |rules.typos(signature)|
      && IsFree(rules, group, TurnAt(rules, signature, k), excluded, used)
      && forall i: nat :: i < k ==> !IsFree(rules, group, TurnAt(rules, signature, i), excluded, used)
  {
    hide IsFree;
    var signature := rules.physical(word, group);
    var variants := rules.typos(signature);
    assert variants != [];
    forall i: nat | i <= k ensures i < |variants| && VariantsOf(rules, group, word)[i] == TurnAt(rules, signature, i) {
      RotatedAt(variants, rules.rotation(signature) % |variants|, i);
    }
  }
}
