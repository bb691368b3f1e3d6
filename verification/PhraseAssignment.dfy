/** The splits of grouped phrases: a group's phrases are capped, and all of them are in the group's split. */
module PhraseAssignment {
  import opened Wrappers
  import opened Components
  import opened PhraseGroups
  import opened PhraseSignatures
  import opened RowLayout
  import opened StableSort

  function SplitOf(bucket: nat): string {
    if bucket < TRAIN_CEILING then "train"
    else if bucket < DEVELOPMENT_CEILING then "development"
    else if bucket < CALIBRATION_CEILING then "calibration"
    else if bucket < TEST_CEILING then "test"
    else "reserve"
  }

  /** The phrases of a group in the order of their identifiers. */
  function Members(eligible: seq<Phrase>, groups: seq<nat>, g: nat): seq<Phrase>
    requires |groups| == |eligible|
  {
    if eligible == [] then []
    else
      var last := |eligible| - 1;
      Members(eligible[..last], groups[..last], g) + if groups[last] == g then [eligible[last]] else []
  }

  function Capped(rules: Rules, members: seq<Phrase>, cap: nat): seq<Phrase> {
    var sampled := SortBy(members, rules.sampleOrder);
    if cap <= |sampled| then sampled[..cap] else sampled
  }

  function AssignedTo(rules: Rules, group: int): Phrase -> AssignedPhrase {
    (p: Phrase) => AssignedPhrase(p, group, SplitOf(rules.bucket(group)))
  }

  function GroupRows(rules: Rules, eligible: seq<Phrase>, groups: seq<nat>, g: nat, cap: nat): seq<AssignedPhrase>
    requires |groups| == |eligible| && g < |eligible|
  {
    Map(AssignedTo(rules, eligible[g].identifier), Capped(rules, Members(eligible, groups, g), cap))
  }

  /** The rows of each group in turn; an index that names no group has none. */
  function Parts(rules: Rules, eligible: seq<Phrase>, groups: seq<nat>, cap: nat): (r: seq<seq<AssignedPhrase>>)
    requires |groups| == |eligible|
    ensures |r| == |eligible|
  {
    seq(|eligible|, g requires 0 <= g < |eligible| => GroupRows(rules, eligible, groups, g, cap))
  }

  function ByIdentifier(): AssignedPhrase -> int { (a: AssignedPhrase) => a.phrase.identifier }

  ghost function GroupsOf(rules: Rules, eligible: seq<Phrase>): (r: seq<nat>)
    ensures |r| == |eligible|
  {
    seq(|eligible|, i requires 0 <= i < |eligible| => Group(rules, eligible, i))
  }

  /** What `assign` returns, as a function of the phrases. */
  ghost function Assignment(rules: Rules, phrases: seq<Phrase>, cap: nat): seq<AssignedPhrase> {
    var eligible := SortBy(Eligible(rules, phrases), Identifier());
    SortBy(Flatten(Parts(rules, eligible, GroupsOf(rules, eligible), cap)), ByIdentifier())
  }

  datatype AssignError = CapNotPositive

  ghost predicate Collects(eligible: seq<Phrase>, groups: seq<nat>, grouped: map<nat, seq<Phrase>>)
    requires |groups| == |eligible|
  {
    forall g :: (if g in grouped then grouped[g] else []) == Members(eligible, groups, g)
  }

  lemma CollectsMore(eligible: seq<Phrase>, groups: seq<nat>, grouped: map<nat, seq<Phrase>>, p: Phrase, root: nat)
    requires |groups| == |eligible| && Collects(eligible, groups, grouped)
    ensures Collects(eligible + [p], groups + [root], grouped[root := (if root in grouped then grouped[root] else []) + [p]])
  {
    assert (eligible + [p])[..|eligible|] == eligible && (groups + [root])[..|groups|] == groups;
  }

  lemma GroupsMore(rules: Rules, eligible: seq<Phrase>, index: nat)
    requires index < |eligible|
    ensures GroupsOf(rules, eligible)[..index + 1] == GroupsOf(rules, eligible)[..index] + [Group(rules, eligible, index)]
  {}

  /** Every phrase under its root. */
  method CollectGroups(rules: Rules, eligible: seq<Phrase>) returns (roots: seq<nat>, grouped: map<nat, seq<Phrase>>)
    requires Faithful(rules)
    ensures roots == GroupsOf(rules, eligible) && Collects(eligible, roots, grouped)
  {
    var united := Unite(rules, eligible);
    roots, grouped := [], map[];
    for index := 0 to |eligible|
      invariant fresh(united) && fresh(united.parents) && united.Valid() && united.parents.Length == |eligible|
      invariant forall i: nat :: i < |eligible| ==> united.rep[i] == Group(rules, eligible, i)
      invariant |roots| == index && roots == GroupsOf(rules, eligible)[..index]
      invariant Collects(eligible[..index], roots, grouped)
    {
      hide Collects, Group, GroupsOf;
      var root := united.Root(index);
      GroupsMore(rules, eligible, index);
      CollectsMore(eligible[..index], roots, grouped, eligible[index], root);
      assert eligible[..index] + [eligible[index]] == eligible[..index + 1];
      grouped := grouped[root := (if root in grouped then grouped[root] else []) + [eligible[index]]];
      roots := roots + [root];
    }
    assert eligible[..|eligible|] == eligible && roots == GroupsOf(rules, eligible);
  }

  /** One group's rows, if the index names a group. */
  method RowsOfGroup(rules: Rules, eligible: seq<Phrase>, groups: seq<nat>, grouped: map<nat, seq<Phrase>>, g: nat, cap: nat)
    returns (rows: seq<AssignedPhrase>)
    requires |groups| == |eligible| && g < |eligible| && Collects(eligible, groups, grouped)
    ensures rows == GroupRows(rules, eligible, groups, g, cap)
  {
    if g in grouped {
      rows := Map(AssignedTo(rules, eligible[g].identifier), Capped(rules, grouped[g], cap));
    } else {
      rows := [];
      NoRows(rules, eligible, groups, g, cap);
    }
  }

  method AssignRows(rules: Rules, eligible: seq<Phrase>, groups: seq<nat>, grouped: map<nat, seq<Phrase>>, cap: nat)
    returns (output: seq<AssignedPhrase>)
    requires |groups| == |eligible| && Collects(eligible, groups, grouped)
    ensures output == Flatten(Parts(rules, eligible, groups, cap))
  {
    output := [];
    ghost var parts := Parts(rules, eligible, groups, cap);
    for g := 0 to |eligible|
      invariant parts == Parts(rules, eligible, groups, cap)
      invariant output == Flatten(parts[..g])
    {
      var rows := RowsOfGroup(rules, eligible, groups, grouped, g, cap);
      PartAdds(parts, g, rows);
      output := output + rows;
    }
    assert parts[..|eligible|] == parts;
  }

  lemma PartAdds(parts: seq<seq<AssignedPhrase>>, g: nat, rows: seq<AssignedPhrase>)
    requires g < |parts| && rows == parts[g]
    ensures Flatten(parts[..g + 1]) == Flatten(parts[..g]) + rows
  {
    assert parts[..g + 1] == parts[..g] + [rows];
    FlattenSplits(parts[..g], [rows]);
    FlattenOne(rows);
  }

  method Assign(rules: Rules, phrases: seq<Phrase>, perGroup: int) returns (r: Result<seq<AssignedPhrase>, AssignError>)
    requires Faithful(rules)
    ensures r == if perGroup < 1 then Err(CapNotPositive) else Ok(Assignment(rules, phrases, perGroup))
  {
    if perGroup < 1 { return Err(CapNotPositive); }
    var eligible := SortBy(Eligible(rules, phrases), Identifier());
    var roots, grouped := CollectGroups(rules, eligible);
    var output := AssignRows(rules, eligible, roots, grouped, perGroup);
    return Ok(SortBy(output, ByIdentifier()));
  }

  lemma {:induction false} NoRows(rules: Rules, eligible: seq<Phrase>, groups: seq<nat>, g: nat, cap: nat)
    requires |groups| == |eligible| && g < |eligible| && Members(eligible, groups, g) == []
    ensures GroupRows(rules, eligible, groups, g, cap) == []
  {}

  // ---- where each row comes from

  lemma {:induction false} MemberIsFrom(eligible: seq<Phrase>, groups: seq<nat>, g: nat, p: Phrase) returns (i: nat)
    requires |groups| == |eligible| && p in Members(eligible, groups, g)
    ensures i < |eligible| && eligible[i] == p && groups[i] == g
  {
    var last := |eligible| - 1;
    if p in Members(eligible[..last], groups[..last], g) {
      i := MemberIsFrom(eligible[..last], groups[..last], g, p);
    } else {
      i := last;
    }
  }

  lemma CappedAreMembers(rules: Rules, members: seq<Phrase>, cap: nat, p: Phrase)
    requires p in Capped(rules, members, cap)
    ensures p in members
  {
    SortOrders(members, rules.sampleOrder);
    assert p in multiset(SortBy(members, rules.sampleOrder));
  }

  ghost predicate ComesFrom(rules: Rules, eligible: seq<Phrase>, a: AssignedPhrase, i: nat) {
    i < |eligible| && a.phrase == eligible[i] && Group(rules, eligible, i) < |eligible|
    && a.group == eligible[Group(rules, eligible, i)].identifier && a.split == SplitOf(rules.bucket(a.group))
  }

  lemma {:induction false} InSomePart(parts: seq<seq<AssignedPhrase>>, a: AssignedPhrase) returns (g: nat)
    requires a in Flatten(parts)
    ensures g < |parts| && a in parts[g]
  {
    var last := |parts| - 1;
    if a in parts[last] {
      g := last;
    } else {
      g := InSomePart(parts[..last], a);
    }
  }

  lemma RowComesFrom(rules: Rules, eligible: seq<Phrase>, cap: nat, g: nat, a: AssignedPhrase) returns (i: nat)
    requires g < |eligible| && a in GroupRows(rules, eligible, GroupsOf(rules, eligible), g, cap)
    ensures ComesFrom(rules, eligible, a, i)
  {
    var groups := GroupsOf(rules, eligible);
    var members := Members(eligible, groups, g);
    var k :| 0 <= k < |GroupRows(rules, eligible, groups, g, cap)| && GroupRows(rules, eligible, groups, g, cap)[k] == a;
    assert Capped(rules, members, cap)[k] == a.phrase;
    CappedAreMembers(rules, members, cap, a.phrase);
    i := MemberIsFrom(eligible, groups, g, a.phrase);
  }

  lemma ResultComesFrom(rules: Rules, phrases: seq<Phrase>, cap: nat, a: AssignedPhrase) returns (i: nat)
    requires a in Assignment(rules, phrases, cap)
    ensures ComesFrom(rules, SortBy(Eligible(rules, phrases), Identifier()), a, i)
  {
    var eligible := SortBy(Eligible(rules, phrases), Identifier());
    var parts := Parts(rules, eligible, GroupsOf(rules, eligible), cap);
    SortOrders(Flatten(parts), ByIdentifier());
    assert a in multiset(SortBy(Flatten(parts), ByIdentifier()));
    var g := InSomePart(parts, a);
    i := RowComesFrom(rules, eligible, cap, g, a);
  }

  // ---- groups are components

  /** Groups are exactly the transitive closure of sharing a signature. */
  lemma GroupsAreComponents(rules: Rules, eligible: seq<Phrase>, i: nat, j: nat)
    requires i < |eligible| && j < |eligible|
    ensures Group(rules, eligible, i) == Group(rules, eligible, j) <==> Connected(Sharing(rules, eligible), i, j)
  {
    var edges := Sharing(rules, eligible);
    var g, h := Group(rules, eligible, i), Group(rules, eligible, j);
    ConnectedToItself(edges, i);
    ConnectedToItself(edges, j);
    if g == h {
      ConnectedIsSymmetric(edges, j, h);
      ConnectedIsTransitive(edges, i, g, j);
    }
    if Connected(edges, i, j) {
      ConnectedIsSymmetric(edges, i, j);
      ConnectedIsTransitive(edges, j, i, g);
      ConnectedIsTransitive(edges, i, j, h);
      assert !(g < h) && !(h < g);
    }
  }

  /** Connected phrases have one group and one split. */
  lemma {:induction false} ConnectedStayTogether(rules: Rules, phrases: seq<Phrase>, cap: nat, a: AssignedPhrase,
                                                 b: AssignedPhrase, i: nat, j: nat)
    requires var eligible := SortBy(Eligible(rules, phrases), Identifier());
      ComesFrom(rules, eligible, a, i) && ComesFrom(rules, eligible, b, j) && Connected(Sharing(rules, eligible), i, j)
    ensures a.group == b.group && a.split == b.split
  {
    GroupsAreComponents(rules, SortBy(Eligible(rules, phrases), Identifier()), i, j);
  }

  /** Two phrases that share a signature, however the phrases between them are split up, are in one split. */
  lemma NearDuplicatesStayTogether(rules: Rules, phrases: seq<Phrase>, cap: nat, a: AssignedPhrase, b: AssignedPhrase)
    requires a in Assignment(rules, phrases, cap) && b in Assignment(rules, phrases, cap)
    requires exists v :: v in Variants(rules.tokens(a.phrase.text)) && v in Variants(rules.tokens(b.phrase.text))
    ensures a.group == b.group && a.split == b.split
  {
    var eligible := SortBy(Eligible(rules, phrases), Identifier());
    var i := ResultComesFrom(rules, phrases, cap, a);
    var j := ResultComesFrom(rules, phrases, cap, b);
    var v :| v in Variants(rules.tokens(a.phrase.text)) && v in Variants(rules.tokens(b.phrase.text));
    SameVariantConnects(rules, eligible, i, j, v);
    ConnectedStayTogether(rules, phrases, cap, a, b, i, j);
  }

  // ---- the cap

  function CountIn(rows: seq<AssignedPhrase>, group: int): nat {
    if rows == [] then 0 else CountIn(rows[..|rows| - 1], group) + if rows[|rows| - 1].group == group then 1 else 0
  }

  lemma {:induction false} CountSplits(a: seq<AssignedPhrase>, b: seq<AssignedPhrase>, group: int)
    ensures CountIn(a + b, group) == CountIn(a, group) + CountIn(b, group)
    decreases |b|
  {
    if b == [] {
      assert a + b == a;
    } else {
      assert (a + b)[..|a + b| - 1] == a + b[..|b| - 1];
      CountSplits(a, b[..|b| - 1], group);
    }
  }

  lemma {:induction false} CountWithout(b: seq<AssignedPhrase>, p: nat, group: int)
    requires p < |b|
    ensures CountIn(b, group) == CountIn(Without(b, p), group) + if b[p].group == group then 1 else 0
  {
    assert b == b[..p] + ([b[p]] + b[p + 1..]);
    CountSplits(b[..p], [b[p]] + b[p + 1..], group);
    CountSplits([b[p]], b[p + 1..], group);
    CountSplits(b[..p], b[p + 1..], group);
    assert [b[p]][..0] == [];
  }

  lemma {:induction false} CountPermutes(a: seq<AssignedPhrase>, b: seq<AssignedPhrase>, group: int)
    requires multiset(a) == multiset(b)
    ensures CountIn(a, group) == CountIn(b, group)
    decreases |a|
  {
    assert |multiset(a)| == |a| && |multiset(b)| == |b|;
    if a != [] {
      var last := |a| - 1;
      assert a[last] in multiset(b);
      var p := PlaceOf(b, a[last]);
      WithoutRemoves(b, p);
      assert a == a[..last] + [a[last]];
      CountPermutes(a[..last], Without(b, p), group);
      CountWithout(b, p, group);
    }
  }

  lemma {:induction false} AllOfOneGroup(rows: seq<AssignedPhrase>, named: int, group: int)
    requires forall a :: a in rows ==> a.group == named
    ensures CountIn(rows, group) == if named == group then |rows| else 0
  {
    if rows != [] {
      assert rows[|rows| - 1] in rows;
      AllOfOneGroup(rows[..|rows| - 1], named, group);
    }
  }

  ghost predicate DistinctIdentifiers(phrases: seq<Phrase>) {
    forall i, j :: 0 <= i < j < |phrases| ==> phrases[i].identifier != phrases[j].identifier
  }

  function Least(a: nat, b: nat): nat { if a <= b then a else b }

  lemma {:induction false} GroupRowsAreCapped(rules: Rules, eligible: seq<Phrase>, groups: seq<nat>, g: nat, cap: nat, group: int)
    requires |groups| == |eligible| && g < |eligible|
    ensures CountIn(GroupRows(rules, eligible, groups, g, cap), group)
         == if eligible[g].identifier != group then 0
            else Least(cap, |Members(eligible, groups, g)|)
  {
    SortOrders(Members(eligible, groups, g), rules.sampleOrder);
    AllOfOneGroup(GroupRows(rules, eligible, groups, g, cap), eligible[g].identifier, group);
  }

  lemma {:induction false} CountInParts(parts: seq<seq<AssignedPhrase>>, group: int, g: nat)
    requires forall k: nat :: k < |parts| && k != g ==> CountIn(parts[k], group) == 0
    ensures CountIn(Flatten(parts), group) == if g < |parts| then CountIn(parts[g], group) else 0
  {
    if parts != [] {
      var last := |parts| - 1;
      CountInParts(parts[..last], group, g);
      CountSplits(Flatten(parts[..last]), parts[last], group);
    }
  }

  lemma {:induction false} RowsAreCapped(rules: Rules, eligible: seq<Phrase>, groups: seq<nat>, cap: nat,
                                         parts: seq<seq<AssignedPhrase>>, g: nat)
    requires |groups| == |eligible| && g < |eligible| && DistinctIdentifiers(eligible)
    requires parts == Parts(rules, eligible, groups, cap)
    ensures CountIn(Flatten(parts), eligible[g].identifier) == Least(cap, |Members(eligible, groups, g)|)
  {
    forall k: nat | k < |parts|
      ensures CountIn(parts[k], eligible[g].identifier) == if k == g then Least(cap, |Members(eligible, groups, g)|) else 0
    {
      GroupRowsAreCapped(rules, eligible, groups, k, cap, eligible[g].identifier);
    }
    CountInParts(parts, eligible[g].identifier, g);
  }

  /** Of every group exactly its cap of phrases is kept, or all of them if it has no more. */
  lemma {:induction false} EachGroupIsCapped(rules: Rules, phrases: seq<Phrase>, cap: nat, g: nat)
    requires var eligible := SortBy(Eligible(rules, phrases), Identifier()); g < |eligible| && DistinctIdentifiers(eligible)
    ensures var eligible := SortBy(Eligible(rules, phrases), Identifier());
      CountIn(Assignment(rules, phrases, cap), eligible[g].identifier)
      == Least(cap, |Members(eligible, GroupsOf(rules, eligible), g)|)
  {
    var eligible := SortBy(Eligible(rules, phrases), Identifier());
    var parts := Parts(rules, eligible, GroupsOf(rules, eligible), cap);
    RowsAreCapped(rules, eligible, GroupsOf(rules, eligible), cap, parts, g);
    SortOrders(Flatten(parts), ByIdentifier());
    CountPermutes(SortBy(Flatten(parts), ByIdentifier()), Flatten(parts), eligible[g].identifier);
  }

  // ---- input order

  lemma {:induction false} EligibleCounts(rules: Rules, phrases: seq<Phrase>, p: Phrase)
    ensures multiset(Eligible(rules, phrases))[p] == if IsEligible(rules, p) then multiset(phrases)[p] else 0
  {
    if phrases != [] {
      var last := |phrases| - 1;
      EligibleCounts(rules, phrases[..last], p);
      assert phrases == phrases[..last] + [phrases[last]];
    }
  }

  lemma {:induction false} EligibleAreFrom(rules: Rules, phrases: seq<Phrase>)
    requires DistinctIdentifiers(phrases)
    ensures DistinctIdentifiers(Eligible(rules, phrases))
    ensures forall p :: p in Eligible(rules, phrases) ==> p in phrases
  {
    if phrases != [] {
      var last := |phrases| - 1;
      EligibleAreFrom(rules, phrases[..last]);
      forall p | p in Eligible(rules, phrases[..last]) ensures p.identifier != phrases[last].identifier {
        assert p in phrases[..last];
      }
    }
  }

  lemma {:induction false} SortedStrictly(eligible: seq<Phrase>)
    requires DistinctIdentifiers(eligible)
    ensures StrictlyOrdered(SortBy(eligible, Identifier()), Identifier())
  {
    var sorted := SortBy(eligible, Identifier());
    SortOrders(eligible, Identifier());
    forall i, j | 0 <= i < j < |sorted| ensures sorted[i].identifier < sorted[j].identifier {
      var p, q := PairElsewhere(sorted, eligible, i, j);
    }
  }

  /** The order the phrases are given in changes nothing. */
  lemma InputOrderIsForgotten(rules: Rules, phrases: seq<Phrase>, others: seq<Phrase>, cap: nat)
    requires multiset(phrases) == multiset(others) && DistinctIdentifiers(phrases)
    ensures Assignment(rules, phrases, cap) == Assignment(rules, others, cap)
  {
    forall p ensures multiset(Eligible(rules, phrases))[p] == multiset(Eligible(rules, others))[p] {
      EligibleCounts(rules, phrases, p);
      EligibleCounts(rules, others, p);
    }
    EligibleAreFrom(rules, phrases);
    SortedStrictly(Eligible(rules, phrases));
    SortOrders(Eligible(rules, phrases), Identifier());
    SortIsUnique(Eligible(rules, others), SortBy(Eligible(rules, phrases), Identifier()), Identifier());
  }
}
