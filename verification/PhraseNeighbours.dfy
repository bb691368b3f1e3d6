/**
 Near duplicates in terms of their words: which phrases share a signature, and that a word changed, added or left out
 never moves a phrase to another group or split.
 */
module PhraseNeighbours {
  import opened Components
  import opened PhraseSignatures
  import opened PhraseGroups
  import opened PhraseAssignment
  import opened StableSort
  import opened RowLayout
  import opened SplitShares

  /** One word of the longer list, between two runs of words, is left out of the shorter. */
  ghost predicate LeavesOut(longer: seq<string>, shorter: seq<string>, x: seq<string>, p: string, y: seq<string>) {
    longer == x + [p] + y && shorter == x + y
  }

  ghost predicate IsOneLess(shorter: seq<string>, longer: seq<string>) { exists x, p, y :: LeavesOut(longer, shorter, x, p, y) }

  /** Phrases of four to forty words have the signatures of their words less one. */
  predicate IsModerate(words: seq<string>) { 4 <= |words| <= 40 }

  /** What makes two phrases near duplicates: the same words, or the same once one word of either or of both is left out. */
  ghost predicate Near(a: seq<string>, b: seq<string>) {
    || a == b
    || (IsModerate(a) && IsOneLess(b, a))
    || (IsModerate(b) && IsOneLess(a, b))
    || (IsModerate(a) && IsModerate(b) && exists v :: IsOneLess(v, a) && IsOneLess(v, b))
  }

  // ---- signatures are words less one

  lemma LessOneLeavesOut(words: seq<string>, offset: nat)
    requires offset < |words|
    ensures LeavesOut(words, LessOne(words, offset), words[..offset], words[offset], words[offset + 1..])
  {}

  lemma LeftOutIsLessOne(longer: seq<string>, shorter: seq<string>, x: seq<string>, p: string, y: seq<string>)
    requires LeavesOut(longer, shorter, x, p, y)
    ensures |x| < |longer| && LessOne(longer, |x|) == shorter
  {
    assert longer[..|x|] == x && longer[|x| + 1..] == y;
  }

  lemma OneLessExactly(shorter: seq<string>, longer: seq<string>)
    ensures IsOneLess(shorter, longer) <==> exists k: nat :: k < |longer| && LessOne(longer, k) == shorter
  {
    if IsOneLess(shorter, longer) {
      var x, p, y :| LeavesOut(longer, shorter, x, p, y);
      LeftOutIsLessOne(longer, shorter, x, p, y);
    }
    if k: nat :| k < |longer| && LessOne(longer, k) == shorter {
      LessOneLeavesOut(longer, k);
    }
  }

  lemma VariantsExactly(words: seq<string>, v: seq<string>)
    ensures v in Variants(words) <==> v == words || (IsModerate(words) && IsOneLess(v, words))
  {
    OneLessExactly(v, words);
    hide IsOneLess;
    if IsModerate(words) && exists k: nat :: k < |words| && LessOne(words, k) == v {
      var k: nat :| k < |words| && LessOne(words, k) == v;
      assert Variants(words)[k + 1] == v;
    }
    if v in Variants(words) && v != words {
      var i :| 0 <= i < |Variants(words)| && Variants(words)[i] == v;
      assert i > 0 && LessOne(words, i - 1) == v;
    }
  }

  /** Two phrases share a signature directly exactly if they are near duplicates. */
  lemma SharedSignatureIsNear(a: seq<string>, b: seq<string>)
    ensures (exists v :: v in Variants(a) && v in Variants(b)) <==> Near(a, b)
  {
    forall v ensures v in Variants(a) <==> v == a || (IsModerate(a) && IsOneLess(v, a)) { VariantsExactly(a, v); }
    forall v ensures v in Variants(b) <==> v == b || (IsModerate(b) && IsOneLess(v, b)) { VariantsExactly(b, v); }
    hide IsOneLess, Variants, IsModerate;
    if v :| v in Variants(a) && v in Variants(b) {
      assert Near(a, b);
    }
    if Near(a, b) {
      if a == b || (IsModerate(b) && IsOneLess(a, b)) {
        assert a in Variants(a) && a in Variants(b);
      } else if IsModerate(a) && IsOneLess(b, a) {
        assert b in Variants(a) && b in Variants(b);
      } else {
        var v :| IsOneLess(v, a) && IsOneLess(v, b);
        assert v in Variants(a) && v in Variants(b);
      }
    }
  }

  // ---- groups are the closure of being near duplicates

  ghost function NearLinks(rules: Rules, eligible: seq<Phrase>): set<(nat, nat)> {
    set i: nat, j: nat | i < |eligible| && j < |eligible| && Near(rules.tokens(eligible[i].text), rules.tokens(eligible[j].text)) :: (i, j)
  }

  lemma SharingIsNear(rules: Rules, eligible: seq<Phrase>)
    ensures Sharing(rules, eligible) == NearLinks(rules, eligible)
  {
    forall i: nat, j: nat | i < |eligible| && j < |eligible|
      ensures Shares(rules, eligible, i, j) <==> Near(rules.tokens(eligible[i].text), rules.tokens(eligible[j].text))
    {
      SharesIsNear(rules, eligible, i, j);
    }
    hide Shares, Near;
  }

  lemma SharesIsNear(rules: Rules, eligible: seq<Phrase>, i: nat, j: nat)
    requires i < |eligible| && j < |eligible|
    ensures Shares(rules, eligible, i, j) <==> Near(rules.tokens(eligible[i].text), rules.tokens(eligible[j].text))
  {
    var a, b := rules.tokens(eligible[i].text), rules.tokens(eligible[j].text);
    SharedSignatureIsNear(a, b);
    hide Near, Variants;
    assert VariantsAt(rules, eligible, i) == Variants(a) && VariantsAt(rules, eligible, j) == Variants(b);
    if v :| v in Variants(a) && v in Variants(b) { assert v in VariantsAt(rules, eligible, i) && v in VariantsAt(rules, eligible, j); }
  }

  /** Two phrases are of one group exactly when a chain of near duplicates leads from one to the other. */
  lemma GroupsAreNearChains(rules: Rules, eligible: seq<Phrase>, i: nat, j: nat)
    requires i < |eligible| && j < |eligible|
    ensures Group(rules, eligible, i) == Group(rules, eligible, j) <==> Connected(NearLinks(rules, eligible), i, j)
  {
    SharingIsNear(rules, eligible);
    GroupsAreComponents(rules, eligible, i, j);
  }

  // ---- assigned phrases

  lemma NearStayTogether(rules: Rules, phrases: seq<Phrase>, cap: nat, a: AssignedPhrase, b: AssignedPhrase)
    requires a in Assignment(rules, phrases, cap) && b in Assignment(rules, phrases, cap)
    requires Near(rules.tokens(a.phrase.text), rules.tokens(b.phrase.text))
    ensures a.group == b.group && a.split == b.split
  {
    SharedSignatureIsNear(rules.tokens(a.phrase.text), rules.tokens(b.phrase.text));
    hide Near;
    NearDuplicatesStayTogether(rules, phrases, cap, a, b);
  }

  /** A phrase of four to forty words and the same with one word changed. */
  lemma ChangedWordStays(rules: Rules, phrases: seq<Phrase>, cap: nat, a: AssignedPhrase, b: AssignedPhrase,
                         x: seq<string>, p: string, q: string, y: seq<string>)
    requires a in Assignment(rules, phrases, cap) && b in Assignment(rules, phrases, cap)
    requires rules.tokens(a.phrase.text) == x + [p] + y && rules.tokens(b.phrase.text) == x + [q] + y && 4 <= |x| + 1 + |y| <= 40
    ensures a.group == b.group && a.split == b.split
  {
    assert LeavesOut(rules.tokens(a.phrase.text), x + y, x, p, y) && LeavesOut(rules.tokens(b.phrase.text), x + y, x, q, y);
    assert IsOneLess(x + y, rules.tokens(a.phrase.text)) && IsOneLess(x + y, rules.tokens(b.phrase.text));
    NearStayTogether(rules, phrases, cap, a, b);
  }

  /** A phrase of four to forty words and the same with one word left out. */
  lemma LeftOutWordStays(rules: Rules, phrases: seq<Phrase>, cap: nat, a: AssignedPhrase, b: AssignedPhrase,
                         x: seq<string>, p: string, y: seq<string>)
    requires a in Assignment(rules, phrases, cap) && b in Assignment(rules, phrases, cap)
    requires rules.tokens(a.phrase.text) == x + [p] + y && rules.tokens(b.phrase.text) == x + y && 4 <= |x| + 1 + |y| <= 40
    ensures a.group == b.group && a.split == b.split
  {
    assert LeavesOut(rules.tokens(a.phrase.text), x + y, x, p, y);
    assert IsOneLess(rules.tokens(b.phrase.text), rules.tokens(a.phrase.text));
    NearStayTogether(rules, phrases, cap, a, b);
  }

  /** A group is named by the least identifier of its phrases, kept or not. */
  lemma GroupIsNamedByLeast(rules: Rules, phrases: seq<Phrase>, cap: nat, a: AssignedPhrase, q: Phrase)
    requires a in Assignment(rules, phrases, cap) && q in phrases && IsEligible(rules, q)
    requires Near(rules.tokens(a.phrase.text), rules.tokens(q.text))
    ensures a.group <= q.identifier && a.group <= a.phrase.identifier
  {
    var eligible := SortBy(Eligible(rules, phrases), Identifier());
    SortOrders(Eligible(rules, phrases), Identifier());
    var i := ResultComesFrom(rules, phrases, cap, a);
    EligibleHas(rules, phrases, q);
    assert q in multiset(eligible);
    var j: nat :| j < |eligible| && eligible[j] == q;
    SharingIsNear(rules, eligible);
    SharedSignatureIsNear(rules.tokens(a.phrase.text), rules.tokens(q.text));
    assert (i, j) in NearLinks(rules, eligible);
    EdgeConnects(Sharing(rules, eligible), i, j);
    GroupsAreComponents(rules, eligible, i, j);
    var g := Group(rules, eligible, i);
    assert g <= i && g == Group(rules, eligible, j) <= j;
    hide Sharing, NearLinks, Near, Group, Assignment;
    InOrder(eligible, g, i);
    InOrder(eligible, g, j);
  }

  lemma InOrder(eligible: seq<Phrase>, g: nat, i: nat)
    requires Ordered(eligible, Identifier()) && g <= i < |eligible|
    ensures eligible[g].identifier <= eligible[i].identifier
  {}

  lemma {:induction false} EligibleHas(rules: Rules, phrases: seq<Phrase>, q: Phrase)
    requires q in phrases && IsEligible(rules, q)
    ensures q in Eligible(rules, phrases)
  {
    if q != phrases[|phrases| - 1] {
      assert q in phrases[..|phrases| - 1];
      EligibleHas(rules, phrases[..|phrases| - 1], q);
    }
  }

  /** Of a group's phrases those with the least sample hashes are kept. */
  lemma KeptAreLeast(rules: Rules, members: seq<Phrase>, cap: nat, p: Phrase, q: Phrase)
    requires p in Capped(rules, members, cap) && q in members && q !in Capped(rules, members, cap)
    ensures rules.sampleOrder(p) <= rules.sampleOrder(q)
  {
    var sorted := SortBy(members, rules.sampleOrder);
    SortOrders(members, rules.sampleOrder);
    assert q in multiset(members) && multiset(sorted) == multiset(members);
    var j :| 0 <= j < |sorted| && sorted[j] == q;
    var i :| 0 <= i < |Capped(rules, members, cap)| && Capped(rules, members, cap)[i] == p;
    assert j >= cap && i < cap && sorted[i] == p;
  }

  // ---- which phrases are assigned, and how many groups a split gets

  /** A phrase of 4 to 512 characters and two words at least, without NUL. */
  ghost predicate IsUsable(rules: Rules, p: Phrase) { 4 <= |p.text| <= 512 && |rules.tokens(p.text)| >= 2 && '\0' !in p.text }

  /** Only usable phrases are assigned, and under a cap that no group exceeds every one of them is. */
  lemma UsableAreAssigned(rules: Rules, phrases: seq<Phrase>, cap: nat, p: Phrase)
    ensures (exists a :: a in Assignment(rules, phrases, cap) && a.phrase == p) ==> p in phrases && IsUsable(rules, p)
    ensures p in phrases && IsUsable(rules, p) && cap >= |phrases| ==> exists a :: a in Assignment(rules, phrases, cap) && a.phrase == p
  {
    var eligible := SortBy(Eligible(rules, phrases), Identifier());
    SortOrders(Eligible(rules, phrases), Identifier());
    EligibleExactly(rules, phrases, p);
    if a :| a in Assignment(rules, phrases, cap) && a.phrase == p {
      var i := ResultComesFrom(rules, phrases, cap, a);
      assert eligible[i] in multiset(Eligible(rules, phrases));
    }
    if p in phrases && IsUsable(rules, p) && cap >= |phrases| {
      assert p in multiset(eligible);
      var i: nat :| i < |eligible| && eligible[i] == p;
      EligibleSize(rules, phrases);
      var a := AllAreKept(rules, eligible, cap, i);
      var parts := Parts(rules, eligible, GroupsOf(rules, eligible), cap);
      SortOrders(Flatten(parts), ByIdentifier());
      assert a in multiset(Flatten(parts));
    }
  }

  lemma {:induction false} EligibleExactly(rules: Rules, phrases: seq<Phrase>, p: Phrase)
    ensures p in Eligible(rules, phrases) <==> p in phrases && IsUsable(rules, p)
  {
    if phrases != [] {
      EligibleExactly(rules, phrases[..|phrases| - 1], p);
      assert phrases == phrases[..|phrases| - 1] + [phrases[|phrases| - 1]];
    }
  }

  lemma {:induction false} EligibleSize(rules: Rules, phrases: seq<Phrase>)
    ensures |Eligible(rules, phrases)| <= |phrases|
  {
    if phrases != [] { EligibleSize(rules, phrases[..|phrases| - 1]); }
  }

  lemma {:induction false} MembersHave(eligible: seq<Phrase>, groups: seq<nat>, i: nat)
    requires |groups| == |eligible| && i < |eligible|
    ensures eligible[i] in Members(eligible, groups, groups[i])
  {
    var last := |eligible| - 1;
    if i < last { MembersHave(eligible[..last], groups[..last], i); }
  }

  lemma {:induction false} MembersSize(eligible: seq<Phrase>, groups: seq<nat>, g: nat)
    requires |groups| == |eligible|
    ensures |Members(eligible, groups, g)| <= |eligible|
  {
    if eligible != [] { MembersSize(eligible[..|eligible| - 1], groups[..|eligible| - 1], g); }
  }

  lemma {:induction false} PartIsIn(parts: seq<seq<AssignedPhrase>>, g: nat, a: AssignedPhrase)
    requires g < |parts| && a in parts[g]
    ensures a in Flatten(parts)
  {
    var last := |parts| - 1;
    if g < last { PartIsIn(parts[..last], g, a); }
  }

  lemma AllAreKept(rules: Rules, eligible: seq<Phrase>, cap: nat, i: nat) returns (a: AssignedPhrase)
    requires i < |eligible| <= cap
    ensures a.phrase == eligible[i] && a in Flatten(Parts(rules, eligible, GroupsOf(rules, eligible), cap))
  {
    var groups := GroupsOf(rules, eligible);
    var g := groups[i];
    assert g == Group(rules, eligible, i) < |eligible|;
    hide Group, GroupsOf, Capped, GroupRows;
    a := IsInRows(rules, eligible, groups, cap, i);
    PartIsIn(Parts(rules, eligible, groups, cap), g, a);
  }

  lemma IsInRows(rules: Rules, eligible: seq<Phrase>, groups: seq<nat>, cap: nat, i: nat) returns (a: AssignedPhrase)
    requires |groups| == |eligible| && i < |eligible| <= cap && groups[i] < |eligible|
    ensures a.phrase == eligible[i] && a in GroupRows(rules, eligible, groups, groups[i], cap)
  {
    var members := Members(eligible, groups, groups[i]);
    MembersHave(eligible, groups, i);
    MembersSize(eligible, groups, groups[i]);
    AllCapped(rules, members, cap, eligible[i]);
    hide Members, Capped, SplitOf;
    var group := eligible[groups[i]].identifier;
    a := AssignedTo(rules, group)(eligible[i]);
    MapHas(AssignedTo(rules, group), Capped(rules, members, cap), eligible[i]);
  }

  lemma MapHas(f: Phrase -> AssignedPhrase, s: seq<Phrase>, x: Phrase)
    requires x in s
    ensures f(x) in Map(f, s)
  {
    var k :| 0 <= k < |s| && s[k] == x;
    assert Map(f, s)[k] == f(x);
  }

  lemma AllCapped(rules: Rules, members: seq<Phrase>, cap: nat, p: Phrase)
    requires p in members && |members| <= cap
    ensures p in Capped(rules, members, cap)
  {
    var sorted := SortBy(members, rules.sampleOrder);
    SortOrders(members, rules.sampleOrder);
    assert p in multiset(sorted) && |multiset(sorted)| == |multiset(members)|;
    assert |sorted| == cap ==> sorted[..cap] == sorted;
  }

  /** Of a hundred buckets sixty go to train, and ten each to development, calibration, test and reserve. */
  lemma SplitsAreShares()
    ensures |set b: nat | b < 100 && SplitOf(b) == "train"| == 60
    ensures |set b: nat | b < 100 && SplitOf(b) == "development"| == 10
    ensures |set b: nat | b < 100 && SplitOf(b) == "calibration"| == 10
    ensures |set b: nat | b < 100 && SplitOf(b) == "test"| == 10
    ensures |set b: nat | b < 100 && SplitOf(b) == "reserve"| == 10
  {
    BetweenSize(0, 60);
    BetweenSize(60, 70);
    BetweenSize(70, 80);
    BetweenSize(80, 90);
    BetweenSize(90, 100);
    assert (set b: nat | b < 100 && SplitOf(b) == "train") == Between(0, 60);
    assert (set b: nat | b < 100 && SplitOf(b) == "development") == Between(60, 70);
    assert (set b: nat | b < 100 && SplitOf(b) == "calibration") == Between(70, 80);
    assert (set b: nat | b < 100 && SplitOf(b) == "test") == Between(80, 90);
    assert (set b: nat | b < 100 && SplitOf(b) == "reserve") == Between(90, 100);
  }

  /** The phrases come in the order of their identifiers. */
  lemma AssignedInOrder(rules: Rules, phrases: seq<Phrase>, cap: nat, i: nat, j: nat)
    requires i < j < |Assignment(rules, phrases, cap)|
    ensures Assignment(rules, phrases, cap)[i].phrase.identifier <= Assignment(rules, phrases, cap)[j].phrase.identifier
  {
    var eligible := SortBy(Eligible(rules, phrases), Identifier());
    SortOrders(Flatten(Parts(rules, eligible, GroupsOf(rules, eligible), cap)), ByIdentifier());
  }
}
