/** Which seeds and anchors a lookahead curriculum chooses, in the source's own terms. */
module LookaheadChoices {
  import opened Wrappers
  import opened StableSort
  import opened PhysicalKeys
  import opened Lookahead

  // ---- the anchor of a seed

  /** An anchor a seed may borrow: one whole word on the other layout, and a convert seed's own continuation if it has one. */
  ghost predicate IsChoice(rules: Rules, s: Seed, a: Anchor) {
    && 3 <= |a.text| <= 64 && rules.isAlpha(a.text)
    && a.group < 2 && a.group + s.evidence.sourceGroup == 1 && Supported(a.text, a.group)
    && var own := rules.firstWord(if s.evidence.after != "" then s.evidence.after else s.nextWords);
       (if s.planned.Some? then s.planned.value else s.action) == Convert && own.Some? ==> a.text == own.value
  }

  lemma {:induction false} AvailableExactly(rules: Rules, anchors: seq<Anchor>, group: nat, a: Anchor)
    ensures a in Available(rules, anchors, group) <==> a in anchors && IsWord(rules, a) && a.group == group
  {
    if anchors != [] {
      AvailableExactly(rules, anchors[..|anchors| - 1], group, a);
      assert anchors == anchors[..|anchors| - 1] + [anchors[|anchors| - 1]];
    }
  }

  lemma {:induction false} WithTextExactly(anchors: seq<Anchor>, text: string, a: Anchor)
    ensures a in WithText(anchors, text) <==> a in anchors && a.text == text
  {
    if anchors != [] {
      WithTextExactly(anchors[..|anchors| - 1], text, a);
      assert anchors == anchors[..|anchors| - 1] + [anchors[|anchors| - 1]];
    }
  }

  function ChoicesOf(rules: Rules, anchors: seq<Anchor>, s: Seed): seq<Anchor>
    requires s.evidence.sourceGroup < 2
  {
    Choices(rules, Available(rules, SortBy(anchors, rules.anchorIdentifierOrder), 1 - s.evidence.sourceGroup), s)
  }

  lemma {:induction false} SameAnchors(anchors: seq<Anchor>, order: Anchor -> int, a: Anchor)
    ensures a in SortBy(anchors, order) <==> a in anchors
  {
    SortOrders(anchors, order);
    assert a in multiset(SortBy(anchors, order)) <==> a in multiset(anchors);
  }

  lemma ChoicesExactly(rules: Rules, anchors: seq<Anchor>, s: Seed, a: Anchor)
    requires s.evidence.sourceGroup < 2
    ensures a in ChoicesOf(rules, anchors, s) <==> a in anchors && IsChoice(rules, s, a)
  {
    hide SortBy, Supported, Available, WithText;
    var sorted := SortBy(anchors, rules.anchorIdentifierOrder);
    SameAnchors(anchors, rules.anchorIdentifierOrder, a);
    AvailableExactly(rules, sorted, 1 - s.evidence.sourceGroup, a);
    if Continuation(rules, s).Some? {
      WithTextExactly(Available(rules, sorted, 1 - s.evidence.sourceGroup), Continuation(rules, s).value, a);
    }
  }

  lemma {:induction false} FirstLeastIs(rules: Rules, s: Seed, choices: seq<Anchor>)
    requires choices != []
    ensures FirstLeast(rules, s, choices) in choices
    ensures forall c :: c in choices ==> rules.anchorOrder(s.identifier, FirstLeast(rules, s, choices)) <= rules.anchorOrder(s.identifier, c)
  {
    if |choices| > 1 {
      FirstLeastIs(rules, s, choices[..|choices| - 1]);
      assert choices == choices[..|choices| - 1] + [choices[|choices| - 1]];
    }
  }

  /** The anchor is chosen before the detector is asked: one of the choices, and none ranks before it. */
  ghost predicate IsAnchorOf(rules: Rules, anchors: seq<Anchor>, s: Seed, a: Anchor) {
    a in anchors && IsChoice(rules, s, a)
    && forall b :: b in anchors && IsChoice(rules, s, b) ==> rules.anchorOrder(s.identifier, a) <= rules.anchorOrder(s.identifier, b)
  }

  /** The proposal of an anchor: the seed's evidence with the anchor's word after it, if the detector converts the next word. */
  ghost predicate IsProposalOf(rules: Rules, s: Seed, a: Anchor, proposal: Option<Proposal>)
    requires s.evidence.sourceGroup < 2
  {
    var next := OtherText(1 - s.evidence.sourceGroup, a.text);
    match rules.verdict(s.evidence, next, a.text)
    case None => proposal == None
    case Some(v) =>
      proposal.Some? && proposal.value.anchor == a && proposal.value.nextOriginal == next
      && var e := proposal.value.evidence;
         e.after == a.text && e.afterOrigin == "planned_next_conversion" && e.verdict == v
         && e.original == s.evidence.original && e.alternative == s.evidence.alternative
         && e.sourceGroup == s.evidence.sourceGroup && e.before == s.evidence.before
  }

  /** A seed's proposal is that of the choice that ranks first; without a choice there is none, and none is tried again. */
  lemma ProposalExactly(rules: Rules, anchors: seq<Anchor>, s: Seed)
    requires s.evidence.sourceGroup < 2
    ensures if exists a :: a in anchors && IsChoice(rules, s, a)
            then exists a :: IsAnchorOf(rules, anchors, s, a) && IsProposalOf(rules, s, a, ProposalOf(rules, anchors, s))
            else ProposalOf(rules, anchors, s) == None
  {
    var choices := ChoicesOf(rules, anchors, s);
    forall a ensures a in choices <==> a in anchors && IsChoice(rules, s, a) { ChoicesExactly(rules, anchors, s, a); }
    hide IsChoice, Available, SortBy, Choices;
    if choices != [] {
      assert choices[0] in choices;
      var a := FirstLeast(rules, s, choices);
      FirstLeastIs(rules, s, choices);
      assert IsAnchorOf(rules, anchors, s, a);
      assert IsProposalOf(rules, s, a, ProposalOf(rules, anchors, s));
    }
  }

  // ---- the seeds selected

  /** A candidate typed on the keys of its alternative. */
  ghost predicate IsSwitched(rules: Rules, s: Seed) {
    rules.isCandidate(s) && (s.evidence.sourceGroup == 0 || s.evidence.sourceGroup == 1)
    && Supported(s.evidence.original, s.evidence.sourceGroup)
    && |s.evidence.alternative| == |s.evidence.original|
    && forall k :: 0 <= k < |s.evidence.original| ==>
         s.evidence.alternative[k] == Other(s.evidence.sourceGroup, s.evidence.original[k])
  }

  lemma EligibleIsSwitched(rules: Rules, s: Seed)
    ensures Eligible(rules, s) <==> IsSwitched(rules, s)
  {
    hide Supported, Other;
    if s.evidence.sourceGroup < 2 {
      var other := OtherText(s.evidence.sourceGroup, s.evidence.original);
      assert |other| == |s.evidence.original| && forall k :: 0 <= k < |other| ==> other[k] == Other(s.evidence.sourceGroup, s.evidence.original[k]);
    }
  }

  lemma {:induction false} EligibleOfHas(rules: Rules, seeds: seq<Seed>, s: Seed)
    requires s in seeds && Eligible(rules, s)
    ensures s in EligibleOf(rules, seeds, s.family)
  {
    hide Eligible;
    if s != seeds[|seeds| - 1] {
      assert s in seeds[..|seeds| - 1];
      EligibleOfHas(rules, seeds[..|seeds| - 1], s);
    }
  }

  lemma {:induction false} EligibleOfSize(rules: Rules, seeds: seq<Seed>, family: string)
    ensures |EligibleOf(rules, seeds, family)| <= |seeds|
  {
    hide Eligible;
    if seeds != [] { EligibleOfSize(rules, seeds[..|seeds| - 1], family); }
  }

  lemma {:induction false} FamiliesSize(rules: Rules, seeds: seq<Seed>)
    ensures |FamiliesOf(rules, seeds)| <= |seeds|
  {
    hide Eligible;
    if seeds != [] { FamiliesSize(rules, seeds[..|seeds| - 1]); }
  }

  lemma IndexedHas(seeds: seq<Seed>, s: Seed) returns (r: Ranked)
    requires s in seeds
    ensures r in Indexed(seeds) && r.seed == s
  {
    var k :| 0 <= k < |seeds| && seeds[k] == s;
    r := Indexed(seeds)[k];
    assert r in Indexed(seeds);
  }

  lemma InterleavedHas(rules: Rules, seeds: seq<Seed>, budget: nat, s: Seed)
    requires s in seeds && |seeds| <= budget
    ensures s in Interleaved(rules, seeds, budget)
  {
    var first := SortBy(seeds, rules.seedOrder);
    SortOrders(seeds, rules.seedOrder);
    assert s in multiset(first) && |multiset(first)| == |multiset(seeds)|;
    var r := IndexedHas(first, s);
    var sorted := SortBy(Indexed(first), IndexOf());
    SortOrders(Indexed(first), IndexOf());
    assert r in multiset(sorted) && |multiset(sorted)| == |multiset(Indexed(first))|;
    var k :| 0 <= k < |sorted| && sorted[k] == r;
    hide SortBy, Indexed;
    assert Map(SeedOf(), sorted)[k] == s;
    if budget == |sorted| { assert Map(SeedOf(), sorted)[..budget] == Map(SeedOf(), sorted); }
  }

  lemma {:induction false} SelectedFromHas(rules: Rules, seeds: seq<Seed>, families: seq<string>, perFamily: nat, s: Seed)
    requires s.family in families && s in Interleaved(rules, EligibleOf(rules, seeds, s.family), perFamily)
    ensures s in SelectedFrom(rules, seeds, families, perFamily)
  {
    hide Interleaved, EligibleOf;
    var last := |families| - 1;
    if s.family != families[last] {
      assert s.family in families[..last];
      SelectedFromHas(rules, seeds, families[..last], perFamily, s);
    }
  }

  /** Only switched candidates are selected, and within budgets as large as the seeds every one of them is. */
  lemma SelectedExactly(rules: Rules, seeds: seq<Seed>, maximumFamilies: nat, perFamily: nat, s: Seed)
    ensures s in Selected(rules, seeds, maximumFamilies, perFamily) ==> s in seeds && IsSwitched(rules, s)
    ensures s in seeds && IsSwitched(rules, s) && |seeds| <= maximumFamilies && |seeds| <= perFamily
        ==> s in Selected(rules, seeds, maximumFamilies, perFamily)
  {
    SelectionIsBudgeted(rules, seeds, maximumFamilies, perFamily, "");
    EligibleIsSwitched(rules, s);
    hide Eligible, IsSwitched;
    if s in seeds && Eligible(rules, s) && |seeds| <= maximumFamilies && |seeds| <= perFamily {
      FamilySelected(rules, seeds, maximumFamilies, s);
      EligibleOfHas(rules, seeds, s);
      EligibleOfSize(rules, seeds, s.family);
      InterleavedHas(rules, EligibleOf(rules, seeds, s.family), perFamily, s);
      hide Interleaved, EligibleOf, SelectedFamilies;
      SelectedFromHas(rules, seeds, SelectedFamilies(rules, seeds, maximumFamilies), perFamily, s);
    }
  }

  lemma FamilySelected(rules: Rules, seeds: seq<Seed>, maximumFamilies: nat, s: Seed)
    requires s in seeds && Eligible(rules, s) && |seeds| <= maximumFamilies
    ensures s.family in SelectedFamilies(rules, seeds, maximumFamilies)
  {
    hide Eligible;
    var families := FamiliesOf(rules, seeds);
    var i :| 0 <= i < |seeds| && seeds[i] == s;
    FamiliesSize(rules, seeds);
    SortOrders(families, rules.familyOrder);
    var sorted := SortBy(families, rules.familyOrder);
    assert s.family in families;
    assert s.family in multiset(sorted) && |multiset(sorted)| == |multiset(families)|;
    if maximumFamilies == |sorted| { assert sorted[..maximumFamilies] == sorted; }
  }

  // ---- the reported mass

  /** What a frame's mass is reported under: where its text comes from, and its action. */
  ghost predicate IsUnder(f: Frame, k: string) {
    match f.action
    case Keep => k == f.evidence.afterOrigin + ":keep"
    case Convert => k == f.evidence.afterOrigin + ":convert"
    case Wait => k == f.evidence.afterOrigin + ":wait"
    case Suggest => k == f.evidence.afterOrigin + ":suggest"
  }

  ghost function WeightUnder(frames: seq<Frame>, k: string): real {
    if frames == [] then 0.0
    else WeightUnder(frames[..|frames| - 1], k) + if IsUnder(frames[|frames| - 1], k) then frames[|frames| - 1].weight else 0.0
  }

  /** Under each origin and action stands the weight of its frames. */
  lemma {:induction false} MassIsByAction(frames: seq<Frame>, k: string)
    ensures MassAt(MassOf(frames), k) == WeightUnder(frames, k)
  {
    if frames != [] {
      MassIsByAction(frames[..|frames| - 1], k);
      UnderIsKey(frames[|frames| - 1], k);
    }
  }

  lemma UnderIsKey(f: Frame, k: string)
    ensures IsUnder(f, k) <==> k == MassKey(f)
  {}
}
