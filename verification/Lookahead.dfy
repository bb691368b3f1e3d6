/**
 Seeds with their planned-context variants: families and seeds are budgeted, each seed's mass is divided between its
 original and its planned frame, and a planned frame is dropped if its features carry two labels.
 */
module Lookahead {
  import opened Wrappers
  import opened SetSums
  import opened StableSort
  import opened PhysicalKeys

  const MAXIMUM_FAMILIES_LIMIT: int := 4096
  const MAXIMUM_SEEDS_PER_FAMILY: int := 128
  const ANCHOR_MIN_CHARACTERS: nat := 3
  const ANCHOR_MAX_CHARACTERS: nat := 64
  const PLANNED_ORIGIN: string := "planned_next_conversion"

  datatype Action = Keep | Convert | Wait | Suggest

  datatype Evidence = Evidence(original: string, alternative: string, sourceGroup: nat, before: string, after: string,
                               afterOrigin: string, verdict: real)

  datatype Seed = Seed(identifier: string, family: string, evidence: Evidence, action: Action, planned: Option<Action>,
                       nextWords: string, weight: real, split: string, isUnsafe: bool)
  {
    function Label(): Action { if planned.Some? then planned.value else action }
  }

  datatype Anchor = Anchor(identifier: string, family: string, text: string, group: nat, split: string)

  datatype Frame = Frame(source: string, evidence: Evidence, action: Action, weight: real, planned: bool, anchor: string)

  datatype Proposal = Proposal(evidence: Evidence, anchor: Anchor, nextOriginal: string)

  datatype Curriculum = Curriculum(frames: seq<Frame>, mass: map<string, real>)

  datatype CurriculumError = BadBudget | WrongSplit | MissingIdentity | RepeatedIdentity | BadSeed

  /** Hashes that rank, the words of a text, features, and the detector's verdicts: functions the model does not look into. */
  datatype Rules = Rules(
    isCandidate: Seed -> bool,
    isAlpha: string -> bool,
    firstWord: string -> Option<string>,
    fingerprint: Evidence -> string,
    familyOrder: string -> int,
    seedOrder: Seed -> int,
    identifierOrder: Seed -> int,
    anchorIdentifierOrder: Anchor -> int,
    anchorOrder: (string, Anchor) -> int,
    verdict: (Evidence, string, string) -> Option<real>)

  // ---- anchors

  predicate IsWord(rules: Rules, a: Anchor) {
    ANCHOR_MIN_CHARACTERS <= |a.text| <= ANCHOR_MAX_CHARACTERS && rules.isAlpha(a.text) && a.group < 2 && Supported(a.text, a.group)
  }

  function Available(rules: Rules, anchors: seq<Anchor>, group: nat): seq<Anchor> {
    if anchors == [] then []
    else
      var last := anchors[|anchors| - 1];
      Available(rules, anchors[..|anchors| - 1], group) + if IsWord(rules, last) && last.group == group then [last] else []
  }

  function WithText(anchors: seq<Anchor>, text: string): seq<Anchor> {
    if anchors == [] then []
    else WithText(anchors[..|anchors| - 1], text) + if anchors[|anchors| - 1].text == text then [anchors[|anchors| - 1]] else []
  }

  /** The continuation a convert seed is annotated with. */
  function Continuation(rules: Rules, s: Seed): Option<string> {
    rules.firstWord(if s.evidence.after != "" then s.evidence.after else s.nextWords)
  }

  function Choices(rules: Rules, available: seq<Anchor>, s: Seed): seq<Anchor> {
    if s.Label() == Convert && Continuation(rules, s).Some? then WithText(available, Continuation(rules, s).value) else available
  }

  function FirstLeast(rules: Rules, s: Seed, choices: seq<Anchor>): (r: Anchor)
    requires choices != []
  {
    if |choices| == 1 then choices[0]
    else
      var least := FirstLeast(rules, s, choices[..|choices| - 1]);
      if rules.anchorOrder(s.identifier, choices[|choices| - 1]) < rules.anchorOrder(s.identifier, least)
      then choices[|choices| - 1] else least
  }

  /** A selected seed's planned variant, if there is an anchor and the detector proposes its conversion. */
  function ProposalOf(rules: Rules, anchors: seq<Anchor>, s: Seed): Option<Proposal>
    requires s.evidence.sourceGroup < 2
  {
    var group := 1 - s.evidence.sourceGroup;
    var choices := Choices(rules, Available(rules, SortBy(anchors, rules.anchorIdentifierOrder), group), s);
    if choices == [] then None
    else
      var anchor := FirstLeast(rules, s, choices);
      var next := OtherText(group, anchor.text);
      match rules.verdict(s.evidence, next, anchor.text)
      case None => None
      case Some(v) => Some(Proposal(s.evidence.(after := anchor.text, afterOrigin := PLANNED_ORIGIN, verdict := v), anchor, next))
  }

  // ---- the selected seeds

  /** A candidate whose original and alternative are the same key presses in the two layouts. */
  predicate Eligible(rules: Rules, s: Seed) {
    && rules.isCandidate(s) && s.evidence.sourceGroup < 2 && Supported(s.evidence.original, s.evidence.sourceGroup)
    && OtherText(s.evidence.sourceGroup, s.evidence.original) == s.evidence.alternative
  }

  function FamiliesOf(rules: Rules, seeds: seq<Seed>): (r: seq<string>)
    ensures forall f :: f in r <==> exists i :: 0 <= i < |seeds| && Eligible(rules, seeds[i]) && seeds[i].family == f
    ensures forall i, j :: 0 <= i < j < |r| ==> r[i] != r[j]
  {
    if seeds == [] then []
    else
      var before := FamiliesOf(rules, seeds[..|seeds| - 1]);
      var last := seeds[|seeds| - 1];
      if Eligible(rules, last) && last.family !in before then before + [last.family] else before
  }

  function EligibleOf(rules: Rules, seeds: seq<Seed>, family: string): seq<Seed> {
    if seeds == [] then []
    else
      var last := seeds[|seeds| - 1];
      EligibleOf(rules, seeds[..|seeds| - 1], family) + if Eligible(rules, last) && last.family == family then [last] else []
  }

  function CountAction(seeds: seq<Seed>, action: Action): nat {
    if seeds == [] then 0 else CountAction(seeds[..|seeds| - 1], action) + if seeds[|seeds| - 1].action == action then 1 else 0
  }

  datatype Ranked = Ranked(index: nat, seed: Seed)

  /** How many seeds of its action come before each. */
  function Indexed(seeds: seq<Seed>): (r: seq<Ranked>)
    ensures |r| == |seeds|
  {
    seq(|seeds|, k requires 0 <= k < |seeds| => Ranked(CountAction(seeds[..k], seeds[k].action), seeds[k]))
  }

  function IndexOf(): Ranked -> int { (r: Ranked) => r.index }

  function SeedOf(): Ranked -> Seed { (r: Ranked) => r.seed }

  /** A family's seeds, the actions interleaved, cut to the budget. */
  function Interleaved(rules: Rules, seeds: seq<Seed>, budget: nat): seq<Seed> {
    var ranked := Map(SeedOf(), SortBy(Indexed(SortBy(seeds, rules.seedOrder)), IndexOf()));
    if budget <= |ranked| then ranked[..budget] else ranked
  }

  function SelectedFamilies(rules: Rules, seeds: seq<Seed>, budget: nat): seq<string> {
    var families := SortBy(FamiliesOf(rules, seeds), rules.familyOrder);
    if budget <= |families| then families[..budget] else families
  }

  function SelectedFrom(rules: Rules, seeds: seq<Seed>, families: seq<string>, perFamily: nat): seq<Seed> {
    if families == [] then []
    else
      SelectedFrom(rules, seeds, families[..|families| - 1], perFamily)
      + Interleaved(rules, EligibleOf(rules, seeds, families[|families| - 1]), perFamily)
  }

  function Selected(rules: Rules, seeds: seq<Seed>, maximumFamilies: nat, perFamily: nat): seq<Seed> {
    SelectedFrom(rules, seeds, SelectedFamilies(rules, seeds, maximumFamilies), perFamily)
  }

  // ---- labels

  type Labels = map<string, set<Action>>

  function LabelsAt(labels: Labels, f: string): set<Action> { if f in labels then labels[f] else {} }

  function Added(labels: Labels, f: string, a: Action): Labels { labels[f := LabelsAt(labels, f) + {a}] }

  function SeedLabels(rules: Rules, seeds: seq<Seed>): Labels {
    if seeds == [] then map[]
    else Added(SeedLabels(rules, seeds[..|seeds| - 1]), rules.fingerprint(seeds[|seeds| - 1].evidence), seeds[|seeds| - 1].action)
  }

  datatype Planning = Planning(labels: Labels, proposals: map<string, Proposal>)

  predicate GroupsAreTwo(seeds: seq<Seed>) { forall s :: s in seeds ==> s.evidence.sourceGroup < 2 }

  /** The proposals of the selected seeds in turn, and the labels with theirs added. */
  function Planned(rules: Rules, anchors: seq<Anchor>, labels: Labels, selected: seq<Seed>): Planning
    requires GroupsAreTwo(selected)
  {
    if selected == [] then Planning(labels, map[])
    else
      var before := Planned(rules, anchors, labels, selected[..|selected| - 1]);
      var s := selected[|selected| - 1];
      match ProposalOf(rules, anchors, s)
      case None => before
      case Some(p) =>
        Planning(Added(before.labels, rules.fingerprint(p.evidence), s.Label()), before.proposals[s.identifier := p])
  }

  /** The planned variant a seed gets: its proposal, unless its features carry another label too. */
  function Emitted(rules: Rules, planning: Planning, s: Seed): Option<Proposal> {
    if s.identifier in planning.proposals
       && |LabelsAt(planning.labels, rules.fingerprint(planning.proposals[s.identifier].evidence))| == 1
    then Some(planning.proposals[s.identifier]) else None
  }

  // ---- frames and mass

  function FramesOf(rules: Rules, planning: Planning, s: Seed): seq<Frame> {
    match Emitted(rules, planning, s)
    case None => [Frame(s.identifier, s.evidence, s.action, s.weight, false, "")]
    case Some(p) =>
      [Frame(s.identifier, s.evidence, s.action, s.weight / 2.0, false, ""),
       Frame(s.identifier, p.evidence, s.Label(), s.weight / 2.0, true, p.anchor.identifier)]
  }

  function AllFrames(rules: Rules, planning: Planning, seeds: seq<Seed>): seq<Frame> {
    if seeds == [] then [] else AllFrames(rules, planning, seeds[..|seeds| - 1]) + FramesOf(rules, planning, seeds[|seeds| - 1])
  }

  function ActionName(a: Action): string {
    match a
    case Keep => "keep"
    case Convert => "convert"
    case Wait => "wait"
    case Suggest => "suggest"
  }

  function MassKey(f: Frame): string { f.evidence.afterOrigin + ":" + ActionName(f.action) }

  function MassAt(mass: map<string, real>, k: string): real { if k in mass then mass[k] else 0.0 }

  function WithMass(mass: map<string, real>, f: Frame): map<string, real> { mass[MassKey(f) := MassAt(mass, MassKey(f)) + f.weight] }

  function MassOf(frames: seq<Frame>): map<string, real> {
    if frames == [] then map[] else WithMass(MassOf(frames[..|frames| - 1]), frames[|frames| - 1])
  }

  function Weights(seeds: seq<Seed>): real {
    if seeds == [] then 0.0 else Weights(seeds[..|seeds| - 1]) + seeds[|seeds| - 1].weight
  }

  function FrameWeights(frames: seq<Frame>): real {
    if frames == [] then 0.0 else FrameWeights(frames[..|frames| - 1]) + frames[|frames| - 1].weight
  }

  ghost function TotalMass(mass: map<string, real>): real { SumOver(mass.Keys, k => MassAt(mass, k)) }

  // ---- what is conserved

  lemma {:induction false} FrameWeightsSplit(a: seq<Frame>, b: seq<Frame>)
    ensures FrameWeights(a + b) == FrameWeights(a) + FrameWeights(b)
    decreases |b|
  {
    if b == [] {
      assert a + b == a;
    } else {
      assert (a + b)[..|a + b| - 1] == a + b[..|b| - 1];
      FrameWeightsSplit(a, b[..|b| - 1]);
    }
  }

  /** Each seed keeps its original frame and its mass, and gets at most one planned frame. */
  lemma SeedMassIsKept(rules: Rules, planning: Planning, s: Seed)
    ensures var frames := FramesOf(rules, planning, s);
      && 1 <= |frames| <= 2 && FrameWeights(frames) == s.weight
      && (forall f :: f in frames ==> f.weight == s.weight / |frames| as real && f.source == s.identifier)
      && frames[0].evidence == s.evidence && frames[0].action == s.action && !frames[0].planned
      && (|frames| == 2 <==> Emitted(rules, planning, s).Some?) && (|frames| == 2 ==> frames[1].planned && frames[1].source == s.identifier)
  {
    var frames := FramesOf(rules, planning, s);
    if |frames| == 2 {
      assert frames[..1][..0] == [] && frames[..1] == [frames[0]];
      assert FrameWeights(frames[..1]) == frames[0].weight;
    } else {
      assert frames[..0] == [];
    }
  }

  lemma {:induction false} FramesKeepMass(rules: Rules, planning: Planning, seeds: seq<Seed>)
    ensures FrameWeights(AllFrames(rules, planning, seeds)) == Weights(seeds)
  {
    if seeds != [] {
      var last := |seeds| - 1;
      FramesKeepMass(rules, planning, seeds[..last]);
      SeedMassIsKept(rules, planning, seeds[last]);
      FrameWeightsSplit(AllFrames(rules, planning, seeds[..last]), FramesOf(rules, planning, seeds[last]));
    }
  }

  lemma MassAdds(mass: map<string, real>, f: Frame)
    ensures TotalMass(WithMass(mass, f)) == TotalMass(mass) + f.weight
  {
    var k, more := MassKey(f), WithMass(mass, f);
    var before, after := (x => MassAt(mass, x)), (x => MassAt(more, x));
    SumSplit(more.Keys, after, k);
    SumCongruent(more.Keys - {k}, after, before);
    if k in mass {
      SumSplit(mass.Keys, before, k);
      assert more.Keys == mass.Keys;
    } else {
      assert more.Keys - {k} == mass.Keys;
    }
  }

  lemma {:induction false} MassIsFrames(frames: seq<Frame>)
    ensures TotalMass(MassOf(frames)) == FrameWeights(frames)
  {
    if frames != [] {
      MassIsFrames(frames[..|frames| - 1]);
      MassAdds(MassOf(frames[..|frames| - 1]), frames[|frames| - 1]);
    }
  }

  lemma {:induction false} WeightsPermute(a: seq<Seed>, b: seq<Seed>)
    requires multiset(a) == multiset(b)
    ensures Weights(a) == Weights(b)
    decreases |a|
  {
    assert |multiset(a)| == |a| && |multiset(b)| == |b|;
    if a != [] {
      var last := |a| - 1;
      assert a[last] in multiset(b);
      var p := PlaceOf(b, a[last]);
      WithoutRemoves(b, p);
      assert a == a[..last] + [a[last]];
      WeightsPermute(a[..last], Without(b, p));
      WeightsWithout(b, p);
    }
  }

  lemma {:induction false} WeightsSplit(a: seq<Seed>, b: seq<Seed>)
    ensures Weights(a + b) == Weights(a) + Weights(b)
    decreases |b|
  {
    if b == [] {
      assert a + b == a;
    } else {
      assert (a + b)[..|a + b| - 1] == a + b[..|b| - 1];
      WeightsSplit(a, b[..|b| - 1]);
    }
  }

  lemma {:induction false} WeightsInside(a: seq<Seed>, s: Seed, b: seq<Seed>)
    ensures Weights(a + ([s] + b)) == Weights(a + b) + s.weight
  {
    WeightsSplit(a, [s] + b);
    WeightsSplit([s], b);
    WeightsSplit(a, b);
    assert [s][..0] == [];
  }

  lemma {:induction false} WeightsWithout(b: seq<Seed>, p: nat)
    requires p < |b|
    ensures Weights(b) == Weights(Without(b, p)) + b[p].weight
  {
    TakeApart(b, p);
    WeightsInside(b[..p], b[p], b[p + 1..]);
  }

  lemma TakeApart(b: seq<Seed>, p: nat)
    requires p < |b|
    ensures b[..p] + ([b[p]] + b[p + 1..]) == b
  {}

  // ---- what a planned frame never shares

  lemma {:induction false} SeedIsLabelled(rules: Rules, seeds: seq<Seed>, i: nat)
    requires i < |seeds|
    ensures seeds[i].action in LabelsAt(SeedLabels(rules, seeds), rules.fingerprint(seeds[i].evidence))
  {
    if i < |seeds| - 1 { SeedIsLabelled(rules, seeds[..|seeds| - 1], i); }
  }

  lemma {:induction false} LabelsGrow(rules: Rules, anchors: seq<Anchor>, labels: Labels, selected: seq<Seed>, f: string)
    requires GroupsAreTwo(selected)
    ensures LabelsAt(labels, f) <= LabelsAt(Planned(rules, anchors, labels, selected).labels, f)
  {
    if selected != [] { LabelsGrow(rules, anchors, labels, selected[..|selected| - 1], f); }
  }

  lemma {:induction false} ProposalIsLabelled(rules: Rules, anchors: seq<Anchor>, labels: Labels, selected: seq<Seed>, k: nat)
    requires GroupsAreTwo(selected) && k < |selected| && ProposalOf(rules, anchors, selected[k]).Some?
    ensures var p := ProposalOf(rules, anchors, selected[k]).value;
      selected[k].Label() in LabelsAt(Planned(rules, anchors, labels, selected).labels, rules.fingerprint(p.evidence))
  {
    if k < |selected| - 1 { ProposalIsLabelled(rules, anchors, labels, selected[..|selected| - 1], k); }
  }

  lemma {:induction false} ProposalIsSelected(rules: Rules, anchors: seq<Anchor>, labels: Labels, selected: seq<Seed>, id: string) returns (k: nat)
    requires GroupsAreTwo(selected) && id in Planned(rules, anchors, labels, selected).proposals
    ensures k < |selected| && selected[k].identifier == id
    ensures ProposalOf(rules, anchors, selected[k]) == Some(Planned(rules, anchors, labels, selected).proposals[id])
  {
    var last := |selected| - 1;
    if ProposalOf(rules, anchors, selected[last]).Some? && selected[last].identifier == id {
      k := last;
    } else {
      k := ProposalIsSelected(rules, anchors, labels, selected[..last], id);
    }
  }

  lemma OnlyMember(s: set<Action>, a: Action, b: Action)
    requires |s| == 1 && a in s && b in s
    ensures a == b
  {
    assert s == {a} + (s - {a});
  }

  /** Every proposal with these features has this label. */
  ghost predicate ProposalsAgree(rules: Rules, anchors: seq<Anchor>, selected: seq<Seed>, f: string, label_: Action)
    requires GroupsAreTwo(selected)
  {
    forall k :: 0 <= k < |selected| && ProposalOf(rules, anchors, selected[k]).Some?
      && rules.fingerprint(ProposalOf(rules, anchors, selected[k]).value.evidence) == f
      ==> selected[k].Label() == label_
  }

  ghost predicate SeedsAgree(rules: Rules, seeds: seq<Seed>, f: string, label_: Action) {
    forall i :: 0 <= i < |seeds| && rules.fingerprint(seeds[i].evidence) == f ==> seeds[i].action == label_
  }

  ghost predicate UniqueIdentifiers(seeds: seq<Seed>) {
    forall i, j :: 0 <= i < |seeds| && 0 <= j < |seeds| && seeds[i].identifier == seeds[j].identifier ==> seeds[i] == seeds[j]
  }

  /** An emitted variant's features belong to no seed, and to no proposal, of another label. */
  lemma {:induction false} EmittedIsUnambiguous(rules: Rules, anchors: seq<Anchor>, seeds: seq<Seed>, selected: seq<Seed>,
                                                s: Seed)
    requires GroupsAreTwo(selected) && UniqueIdentifiers(seeds) && s in seeds && forall x :: x in selected ==> x in seeds
    requires Emitted(rules, Planned(rules, anchors, SeedLabels(rules, seeds), selected), s).Some?
    ensures var p := Emitted(rules, Planned(rules, anchors, SeedLabels(rules, seeds), selected), s).value;
      SeedsAgree(rules, seeds, rules.fingerprint(p.evidence), s.Label())
      && ProposalsAgree(rules, anchors, selected, rules.fingerprint(p.evidence), s.Label())
      && s in selected && ProposalOf(rules, anchors, s) == Some(p)
  {
    var labels := SeedLabels(rules, seeds);
    var planning := Planned(rules, anchors, labels, selected);
    var p := planning.proposals[s.identifier];
    var f := rules.fingerprint(p.evidence);
    var own := ProposalIsSelected(rules, anchors, labels, selected, s.identifier);
    assert selected[own] in seeds;
    ProposalIsLabelled(rules, anchors, labels, selected, own);
    hide ProposalOf, Planned, SeedLabels;
    forall i | 0 <= i < |seeds| && rules.fingerprint(seeds[i].evidence) == f ensures seeds[i].action == s.Label() {
      SeedIsLabelled(rules, seeds, i);
      LabelsGrow(rules, anchors, labels, selected, f);
      OnlyMember(LabelsAt(planning.labels, f), seeds[i].action, s.Label());
    }
    forall k | 0 <= k < |selected| && ProposalOf(rules, anchors, selected[k]).Some?
      && rules.fingerprint(ProposalOf(rules, anchors, selected[k]).value.evidence) == f
      ensures selected[k].Label() == s.Label()
    {
      ProposalIsLabelled(rules, anchors, labels, selected, k);
      OnlyMember(LabelsAt(planning.labels, f), selected[k].Label(), s.Label());
    }
  }

  lemma {:induction false} FrameIsOf(rules: Rules, planning: Planning, seeds: seq<Seed>, f: Frame) returns (s: Seed)
    requires f in AllFrames(rules, planning, seeds)
    ensures s in seeds && f in FramesOf(rules, planning, s)
  {
    var last := |seeds| - 1;
    if f in FramesOf(rules, planning, seeds[last]) {
      s := seeds[last];
    } else {
      s := FrameIsOf(rules, planning, seeds[..last], f);
    }
  }

  /** A frame of another seed with an emitted variant's features has its label. */
  lemma {:induction false} FrameAgrees(rules: Rules, anchors: seq<Anchor>, seeds: seq<Seed>, selected: seq<Seed>, t: Seed,
                                       g: Frame, f: string, label_: Action)
    requires GroupsAreTwo(selected) && UniqueIdentifiers(seeds) && t in seeds && forall x :: x in selected ==> x in seeds
    requires g in FramesOf(rules, Planned(rules, anchors, SeedLabels(rules, seeds), selected), t)
    requires rules.fingerprint(g.evidence) == f && SeedsAgree(rules, seeds, f, label_) && ProposalsAgree(rules, anchors, selected, f, label_)
    ensures g.action == label_
  {
    var planning := Planned(rules, anchors, SeedLabels(rules, seeds), selected);
    hide ProposalOf, Planned, SeedLabels;
    if g.planned {
      EmittedIsUnambiguous(rules, anchors, seeds, selected, t);
    }
  }

  /** The frames of the curriculum the seeds and anchors determine. */
  ghost function CurriculumFrames(rules: Rules, seeds: seq<Seed>, anchors: seq<Anchor>, maximumFamilies: nat, perFamily: nat): seq<Frame> {
    var selected := Selected(rules, seeds, maximumFamilies, perFamily);
    SelectedGroupsAreTwo(rules, seeds, maximumFamilies, perFamily);
    AllFrames(rules, Planned(rules, anchors, SeedLabels(rules, seeds), selected), SortBy(seeds, rules.identifierOrder))
  }

  /** Nothing with a planned frame's features, a seed or a frame of the curriculum, has another action. */
  ghost predicate IsUnambiguous(rules: Rules, seeds: seq<Seed>, frames: seq<Frame>) {
    forall f :: f in frames && f.planned ==>
      SeedsAgree(rules, seeds, rules.fingerprint(f.evidence), f.action)
      && forall g :: g in frames && rules.fingerprint(g.evidence) == rules.fingerprint(f.evidence) ==> g.action == f.action
  }

  lemma PlannedFramesAreUnambiguous(rules: Rules, seeds: seq<Seed>, anchors: seq<Anchor>, maximumFamilies: nat, perFamily: nat)
    requires UniqueIdentifiers(seeds)
    ensures IsUnambiguous(rules, seeds, CurriculumFrames(rules, seeds, anchors, maximumFamilies, perFamily))
  {
    var selected := Selected(rules, seeds, maximumFamilies, perFamily);
    SelectionIsBudgeted(rules, seeds, maximumFamilies, perFamily, "");
    SelectedGroupsAreTwo(rules, seeds, maximumFamilies, perFamily);
    var planning, sorted := Planned(rules, anchors, SeedLabels(rules, seeds), selected), SortBy(seeds, rules.identifierOrder);
    var frames := AllFrames(rules, planning, sorted);
    SortKeepsMembers(seeds, rules.identifierOrder);
    hide SelectedFamilies, Selected, SortBy, AllFrames, Planned, ProposalOf, SeedLabels, GroupsAreTwo, UniqueIdentifiers;
    forall f | f in frames && f.planned
      ensures SeedsAgree(rules, seeds, rules.fingerprint(f.evidence), f.action)
      ensures forall g :: g in frames && rules.fingerprint(g.evidence) == rules.fingerprint(f.evidence) ==> g.action == f.action
    {
      var s := FrameIsOf(rules, planning, sorted, f);
      EmittedIsUnambiguous(rules, anchors, seeds, selected, s);
      hide ProposalsAgree, SeedsAgree, FramesOf;
      forall g | g in frames && rules.fingerprint(g.evidence) == rules.fingerprint(f.evidence) ensures g.action == f.action {
        var t := FrameIsOf(rules, planning, sorted, g);
        FrameAgrees(rules, anchors, seeds, selected, t, g, rules.fingerprint(f.evidence), f.action);
      }
    }
  }

  lemma {:induction false} SortKeepsMembers(seeds: seq<Seed>, key: Seed -> int)
    ensures forall s :: s in SortBy(seeds, key) ==> s in seeds
  {
    SortOrders(seeds, key);
    forall s | s in SortBy(seeds, key) ensures s in seeds { assert s in multiset(SortBy(seeds, key)); }
  }

  // ---- budgets

  lemma {:induction false} EligibleIsFrom(rules: Rules, seeds: seq<Seed>, family: string, s: Seed)
    requires s in EligibleOf(rules, seeds, family)
    ensures s in seeds && Eligible(rules, s) && s.family == family
  {
    if s in EligibleOf(rules, seeds[..|seeds| - 1], family) { EligibleIsFrom(rules, seeds[..|seeds| - 1], family, s); }
  }

  lemma InterleavedIsFrom(rules: Rules, seeds: seq<Seed>, budget: nat)
    ensures |Interleaved(rules, seeds, budget)| <= budget
    ensures forall s :: s in Interleaved(rules, seeds, budget) ==> s in seeds
  {
    var ranked := SortBy(Indexed(SortBy(seeds, rules.seedOrder)), IndexOf());
    forall s | s in Interleaved(rules, seeds, budget) ensures s in seeds {
      var k :| 0 <= k < |ranked| && ranked[k].seed == s;
      RankedIsFrom(rules, seeds, ranked[k]);
    }
  }

  lemma {:induction false} RankedIsFrom(rules: Rules, seeds: seq<Seed>, r: Ranked)
    requires r in SortBy(Indexed(SortBy(seeds, rules.seedOrder)), IndexOf())
    ensures r.seed in seeds
  {
    var sorted := SortBy(seeds, rules.seedOrder);
    SortOrders(Indexed(sorted), IndexOf());
    assert r in multiset(SortBy(Indexed(sorted), IndexOf()));
    var i :| 0 <= i < |Indexed(sorted)| && Indexed(sorted)[i] == r;
    SortOrders(seeds, rules.seedOrder);
    assert sorted[i] in multiset(sorted);
  }

  function CountFamily(seeds: seq<Seed>, family: string): nat {
    if seeds == [] then 0 else CountFamily(seeds[..|seeds| - 1], family) + if seeds[|seeds| - 1].family == family then 1 else 0
  }

  lemma {:induction false} CountFamilySplits(a: seq<Seed>, b: seq<Seed>, family: string)
    ensures CountFamily(a + b, family) == CountFamily(a, family) + CountFamily(b, family)
    decreases |b|
  {
    if b == [] {
      assert a + b == a;
    } else {
      assert (a + b)[..|a + b| - 1] == a + b[..|b| - 1];
      CountFamilySplits(a, b[..|b| - 1], family);
    }
  }

  lemma {:induction false} CountAtMost(seeds: seq<Seed>, own: string, family: string)
    requires forall s :: s in seeds ==> s.family == own
    ensures CountFamily(seeds, family) == if own == family then |seeds| else 0
  {
    if seeds != [] {
      assert seeds[|seeds| - 1] in seeds;
      CountAtMost(seeds[..|seeds| - 1], own, family);
    }
  }

  lemma {:induction false} LastFamilyIsBudgeted(rules: Rules, seeds: seq<Seed>, own: string, perFamily: nat, family: string)
    ensures var some := Interleaved(rules, EligibleOf(rules, seeds, own), perFamily);
      && CountFamily(some, family) <= (if own == family then perFamily else 0)
      && forall s :: s in some ==> s in seeds && Eligible(rules, s) && s.family == own
  {
    hide Interleaved;
    var some := EligibleOf(rules, seeds, own);
    InterleavedIsFrom(rules, some, perFamily);
    forall s | s in Interleaved(rules, some, perFamily) ensures s in seeds && Eligible(rules, s) && s.family == own {
      EligibleIsFrom(rules, seeds, own, s);
    }
    CountAtMost(Interleaved(rules, some, perFamily), own, family);
  }

  lemma {:induction false} SelectedFromIsBudgeted(rules: Rules, seeds: seq<Seed>, families: seq<string>, perFamily: nat, family: string)
    requires forall i, j :: 0 <= i < j < |families| ==> families[i] != families[j]
    ensures CountFamily(SelectedFrom(rules, seeds, families, perFamily), family) <= if family in families then perFamily else 0
    ensures forall s :: s in SelectedFrom(rules, seeds, families, perFamily) ==> s in seeds && Eligible(rules, s) && s.family in families
  {
    hide Interleaved, EligibleOf;
    if families != [] {
      var last := |families| - 1;
      SelectedFromIsBudgeted(rules, seeds, families[..last], perFamily, family);
      LastFamilyIsBudgeted(rules, seeds, families[last], perFamily, family);
      CountFamilySplits(SelectedFrom(rules, seeds, families[..last], perFamily),
                        Interleaved(rules, EligibleOf(rules, seeds, families[last]), perFamily), family);
      assert families == families[..last] + [families[last]];
    }
  }

  lemma SelectedFamiliesAreBudgeted(rules: Rules, seeds: seq<Seed>, maximumFamilies: nat)
    ensures |SelectedFamilies(rules, seeds, maximumFamilies)| <= maximumFamilies
    ensures forall i, j :: 0 <= i < j < |SelectedFamilies(rules, seeds, maximumFamilies)| ==>
      SelectedFamilies(rules, seeds, maximumFamilies)[i] != SelectedFamilies(rules, seeds, maximumFamilies)[j]
  {
    var families := FamiliesOf(rules, seeds);
    var sorted := SortBy(families, rules.familyOrder);
    SortOrders(families, rules.familyOrder);
    forall i, j | 0 <= i < j < |sorted| ensures sorted[i] != sorted[j] {
      var p, q := PairElsewhere(sorted, families, i, j);
    }
  }

  /** No more families than their budget, no more seeds of any than theirs, and only eligible seeds of selected families. */
  lemma SelectionIsBudgeted(rules: Rules, seeds: seq<Seed>, maximumFamilies: nat, perFamily: nat, family: string)
    ensures |SelectedFamilies(rules, seeds, maximumFamilies)| <= maximumFamilies
    ensures CountFamily(Selected(rules, seeds, maximumFamilies, perFamily), family) <= perFamily
    ensures forall s :: s in Selected(rules, seeds, maximumFamilies, perFamily) ==>
      s in seeds && Eligible(rules, s) && s.family in SelectedFamilies(rules, seeds, maximumFamilies)
  {
    SelectedFamiliesAreBudgeted(rules, seeds, maximumFamilies);
    SelectedFromIsBudgeted(rules, seeds, SelectedFamilies(rules, seeds, maximumFamilies), perFamily, family);
  }

  lemma SelectedGroupsAreTwo(rules: Rules, seeds: seq<Seed>, maximumFamilies: nat, perFamily: nat)
    ensures GroupsAreTwo(Selected(rules, seeds, maximumFamilies, perFamily))
  {
    hide Selected, SelectedFamilies;
    SelectionIsBudgeted(rules, seeds, maximumFamilies, perFamily, "");
  }

  // ---- building the curriculum

  ghost predicate IsInput(seeds: seq<Seed>, anchors: seq<Anchor>, split: string) {
    && (forall i :: 0 <= i < |seeds| ==>
          seeds[i].split == split && seeds[i].identifier != "" && seeds[i].family != "" && seeds[i].weight > 0.0 && !seeds[i].isUnsafe)
    && (forall i :: 0 <= i < |anchors| ==> anchors[i].split == split && anchors[i].identifier != "" && anchors[i].family != "")
    && (forall i, j :: 0 <= i < j < |seeds| ==> seeds[i].identifier != seeds[j].identifier)
    && forall i, j :: 0 <= i < j < |anchors| ==> anchors[i].identifier != anchors[j].identifier
  }

  ghost predicate InBudget(maximumFamilies: int, perFamily: int) {
    1 <= maximumFamilies <= MAXIMUM_FAMILIES_LIMIT && 1 <= perFamily <= MAXIMUM_SEEDS_PER_FAMILY
  }

  method Check(seeds: seq<Seed>, anchors: seq<Anchor>, maximumFamilies: int, perFamily: int, split: string) returns (r: Option<CurriculumError>)
    ensures r.None? <==> InBudget(maximumFamilies, perFamily) && IsInput(seeds, anchors, split)
  {
    if !(1 <= maximumFamilies <= MAXIMUM_FAMILIES_LIMIT && 1 <= perFamily <= MAXIMUM_SEEDS_PER_FAMILY) { return Some(BadBudget); }
    if (exists i :: 0 <= i < |seeds| && seeds[i].split != split) || exists i :: 0 <= i < |anchors| && anchors[i].split != split {
      return Some(WrongSplit);
    }
    if (exists i :: 0 <= i < |seeds| && (seeds[i].identifier == "" || seeds[i].family == ""))
       || exists i :: 0 <= i < |anchors| && (anchors[i].identifier == "" || anchors[i].family == "") {
      return Some(MissingIdentity);
    }
    if (exists i, j :: 0 <= i < j < |seeds| && seeds[i].identifier == seeds[j].identifier)
       || exists i, j :: 0 <= i < j < |anchors| && anchors[i].identifier == anchors[j].identifier {
      return Some(RepeatedIdentity);
    }
    if exists i :: 0 <= i < |seeds| && (seeds[i].weight <= 0.0 || seeds[i].isUnsafe) { return Some(BadSeed); }
    return None;
  }

  /** Every seed's features with its action. */
  method LabelSeeds(rules: Rules, seeds: seq<Seed>) returns (labels: Labels)
    ensures labels == SeedLabels(rules, seeds)
  {
    labels := map[];
    for k := 0 to |seeds|
      invariant labels == SeedLabels(rules, seeds[..k])
    {
      assert seeds[..k + 1][..k] == seeds[..k];
      labels := Added(labels, rules.fingerprint(seeds[k].evidence), seeds[k].action);
    }
    assert seeds[..|seeds|] == seeds;
  }

  method Propose(rules: Rules, anchors: seq<Anchor>, before: Labels, selected: seq<Seed>) returns (planning: Planning)
    requires GroupsAreTwo(selected)
    ensures planning == Planned(rules, anchors, before, selected)
  {
    var labels, proposals: map<string, Proposal> := before, map[];
    for k := 0 to |selected|
      invariant GroupsAreTwo(selected[..k]) && Planning(labels, proposals) == Planned(rules, anchors, before, selected[..k])
    {
      assert selected[k] in selected && selected[..k + 1][..k] == selected[..k];
      assert GroupsAreTwo(selected[..k + 1]);
      var proposal := ProposalOf(rules, anchors, selected[k]);
      if proposal.Some? {
        labels := Added(labels, rules.fingerprint(proposal.value.evidence), selected[k].Label());
        proposals := proposals[selected[k].identifier := proposal.value];
      }
    }
    assert selected[..|selected|] == selected;
    planning := Planning(labels, proposals);
  }

  lemma MassOneMore(frames: seq<Frame>, f: Frame)
    ensures MassOf(frames + [f]) == WithMass(MassOf(frames), f)
  {
    assert (frames + [f])[..|frames|] == frames;
  }

  lemma MassTwoMore(frames: seq<Frame>, f: Frame, g: Frame)
    ensures MassOf(frames + [f, g]) == WithMass(WithMass(MassOf(frames), f), g)
  {
    MassOneMore(frames, f);
    MassOneMore(frames + [f], g);
    assert frames + [f] + [g] == frames + [f, g];
  }

  /** One seed's frames; their mass is added. */
  method EmitSeed(rules: Rules, planning: Planning, s: Seed, mass: map<string, real>, ghost frames: seq<Frame>)
    returns (added: seq<Frame>, more: map<string, real>)
    requires mass == MassOf(frames)
    ensures added == FramesOf(rules, planning, s) && more == MassOf(frames + added)
  {
    var proposal := Emitted(rules, planning, s);
    var weight := if proposal.None? then s.weight else s.weight / 2.0;
    var original := Frame(s.identifier, s.evidence, s.action, weight, false, "");
    more := WithMass(mass, original);
    if proposal.Some? {
      var planned := Frame(s.identifier, proposal.value.evidence, s.Label(), weight, true, proposal.value.anchor.identifier);
      MassTwoMore(frames, original, planned);
      more := WithMass(more, planned);
      added := [original, planned];
    } else {
      MassOneMore(frames, original);
      added := [original];
    }
  }

  /** Each seed's frames, and their mass by origin and action. */
  method EmitFrames(rules: Rules, planning: Planning, seeds: seq<Seed>) returns (r: Curriculum)
    ensures r.frames == AllFrames(rules, planning, seeds) && r.mass == MassOf(r.frames)
  {
    var frames: seq<Frame>, mass: map<string, real> := [], map[];
    for k := 0 to |seeds|
      invariant frames == AllFrames(rules, planning, seeds[..k]) && mass == MassOf(frames)
    {
      assert seeds[..k + 1][..k] == seeds[..k];
      var added;
      added, mass := EmitSeed(rules, planning, seeds[k], mass, frames);
      frames := frames + added;
    }
    assert seeds[..|seeds|] == seeds;
    r := Curriculum(frames, mass);
  }

  /** The curriculum, unless the budget or an input is refused: its frames, and their mass, which is the seeds' mass. */
  method BuildCurriculum(rules: Rules, seeds: seq<Seed>, anchors: seq<Anchor>, maximumFamilies: int, perFamily: int, split: string)
    returns (r: Result<Curriculum, CurriculumError>)
    ensures r.Ok? <==> InBudget(maximumFamilies, perFamily) && IsInput(seeds, anchors, split)
    ensures r.Ok? ==> r.value.frames == CurriculumFrames(rules, seeds, anchors, maximumFamilies, perFamily)
    ensures r.Ok? ==> r.value.mass == MassOf(r.value.frames) && TotalMass(r.value.mass) == Weights(seeds)
    ensures r.Ok? ==> IsUnambiguous(rules, seeds, r.value.frames)
  {
    var error := Check(seeds, anchors, maximumFamilies, perFamily, split);
    if error.Some? { return Err(error.value); }
    IdentifiersAreUnique(seeds, anchors, split);
    hide IsInput, UniqueIdentifiers, IsUnambiguous, Weights, AllFrames, MassOf, Planned, SeedLabels, Selected, SortBy;
    var labels := LabelSeeds(rules, seeds);
    var selected := Selected(rules, seeds, maximumFamilies, perFamily);
    SelectedGroupsAreTwo(rules, seeds, maximumFamilies, perFamily);
    var planning := Propose(rules, anchors, labels, selected);
    var curriculum := EmitFrames(rules, planning, SortBy(seeds, rules.identifierOrder));
    MassIsConserved(rules, planning, seeds);
    PlannedFramesAreUnambiguous(rules, seeds, anchors, maximumFamilies, perFamily);
    return Ok(curriculum);
  }

  lemma IdentifiersAreUnique(seeds: seq<Seed>, anchors: seq<Anchor>, split: string)
    requires IsInput(seeds, anchors, split)
    ensures UniqueIdentifiers(seeds)
  {}

  /** The curriculum's mass is its seeds' mass. */
  lemma {:induction false} MassIsConserved(rules: Rules, planning: Planning, seeds: seq<Seed>)
    ensures TotalMass(MassOf(AllFrames(rules, planning, SortBy(seeds, rules.identifierOrder)))) == Weights(seeds)
  {
    var sorted := SortBy(seeds, rules.identifierOrder);
    MassIsFrames(AllFrames(rules, planning, sorted));
    FramesKeepMass(rules, planning, sorted);
    SortOrders(seeds, rules.identifierOrder);
    WeightsPermute(sorted, seeds);
  }
}
