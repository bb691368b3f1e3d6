/**
 Phrases grouped by shared near-duplicate signatures before they are split: each group is a component of that
 sharing, named by its smallest member, so phrases that are connected never land in different splits.
 */
module PhraseGroups {
  import opened Components
  import opened UnionFind
  import opened PhraseSignatures

  const MIN_CHARACTERS := 4
  const MAX_CHARACTERS := 512
  const MIN_WORDS := 2

  /** Ceilings of the split buckets, out of a hundred. */
  const TRAIN_CEILING := 60
  const DEVELOPMENT_CEILING := 70
  const CALIBRATION_CEILING := 80
  const TEST_CEILING := 90

  datatype Phrase = Phrase(identifier: int, locale: string, text: string)

  datatype AssignedPhrase = AssignedPhrase(phrase: Phrase, group: int, split: string)

  /** Tokens, digests and the hashes that choose: functions the model does not look into. */
  datatype Rules = Rules(
    tokens: string -> seq<string>,
    digest: string -> string,
    sampleOrder: Phrase -> int,
    bucket: int -> nat)

  /** Tokens are words, and a digest tells its text. */
  ghost predicate Faithful(rules: Rules) {
    && (forall text :: Words(rules.tokens(text)))
    && (forall a, b :: rules.digest(a) == rules.digest(b) ==> a == b)
  }

  function Identifier(): Phrase -> int { (p: Phrase) => p.identifier }

  predicate IsEligible(rules: Rules, p: Phrase) {
    MIN_CHARACTERS <= |p.text| <= MAX_CHARACTERS && |rules.tokens(p.text)| >= MIN_WORDS && '\0' !in p.text
  }

  function Eligible(rules: Rules, phrases: seq<Phrase>): seq<Phrase> {
    if phrases == [] then []
    else Eligible(rules, phrases[..|phrases| - 1])
         + if IsEligible(rules, phrases[|phrases| - 1]) then [phrases[|phrases| - 1]] else []
  }

  function VariantsAt(rules: Rules, eligible: seq<Phrase>, i: nat): seq<seq<string>>
    requires i < |eligible|
  {
    Variants(rules.tokens(eligible[i].text))
  }

  ghost predicate Shares(rules: Rules, eligible: seq<Phrase>, i: nat, j: nat)
    requires i < |eligible| && j < |eligible|
  {
    exists v :: v in VariantsAt(rules, eligible, i) && v in VariantsAt(rules, eligible, j)
  }

  /** Two phrases that share a signature. */
  ghost function Sharing(rules: Rules, eligible: seq<Phrase>): set<(nat, nat)> {
    set i: nat, j: nat | i < |eligible| && j < |eligible| && Shares(rules, eligible, i, j) :: (i, j)
  }

  ghost function LeastFrom(edges: set<(nat, nat)>, i: nat, j: nat): (r: nat)
    requires j <= i
    ensures j <= r <= i
    ensures r == i || Connected(edges, i, r)
    ensures forall k: nat :: j <= k < r ==> !Connected(edges, i, k)
    decreases i - j
  {
    if j == i || Connected(edges, i, j) then j else LeastFrom(edges, i, j + 1)
  }

  /** The smallest phrase connected to this one. */
  ghost function Group(rules: Rules, eligible: seq<Phrase>, i: nat): nat { LeastFrom(Sharing(rules, eligible), i, 0) }

  lemma GroupIsLeast(rules: Rules, eligible: seq<Phrase>, i: nat, g: nat)
    requires Connected(Sharing(rules, eligible), i, g) && g <= i
    requires forall j: nat :: j < g ==> !Connected(Sharing(rules, eligible), i, j)
    ensures Group(rules, eligible, i) == g
  {
    ConnectedToItself(Sharing(rules, eligible), i);
  }

  // ---- grouping

  function RepAt(rep: seq<nat>): nat -> nat { (i: nat) => if i < |rep| then rep[i] else i }

  function SignatureOf(rules: Rules, v: seq<string>): string { rules.digest(Join(v)) }

  lemma SignatureIsInjective(rules: Rules, v: seq<string>, w: seq<string>)
    requires Faithful(rules) && Words(v) && Words(w) && SignatureOf(rules, v) == SignatureOf(rules, w)
    ensures v == w
  {
    JoinIsInjective(v, w);
  }

  /** Who first had a variant is what the dictionary of signatures holds for it. */
  ghost predicate OwnedBy(rules: Rules, eligible: seq<Phrase>, signatures: map<string, nat>, owner: map<seq<string>, nat>, v: seq<string>) {
    v in owner ==>
      Words(v) && SignatureOf(rules, v) in signatures && signatures[SignatureOf(rules, v)] == owner[v]
      && owner[v] < |eligible| && v in VariantsAt(rules, eligible, owner[v])
  }

  ghost predicate Held(rules: Rules, owner: map<seq<string>, nat>, signature: string) {
    exists v :: v in owner && SignatureOf(rules, v) == signature
  }

  ghost predicate Owned(rules: Rules, eligible: seq<Phrase>, signatures: map<string, nat>, owner: map<seq<string>, nat>) {
    (forall v :: OwnedBy(rules, eligible, signatures, owner, v)) && (forall s :: s in signatures ==> Held(rules, owner, s))
  }

  ghost predicate Reaches(edges: set<(nat, nat)>, rep: seq<nat>) {
    forall i: nat :: i < |rep| ==> Connected(edges, i, rep[i])
  }

  ghost predicate Agrees(rep: seq<nat>, owner: map<seq<string>, nat>, i: nat, v: seq<string>) {
    v in owner && i < |rep| && owner[v] < |rep| && rep[i] == rep[owner[v]]
  }

  lemma JoinReaches(edges: set<(nat, nat)>, rep: seq<nat>, left: nat, right: nat)
    requires Reaches(edges, rep) && left < |rep| && right < |rep| && Connected(edges, left, right)
    ensures Reaches(edges, Joined(rep, left, right))
  {
    var then_ := Joined(rep, left, right);
    ConnectedIsTransitive(edges, left, right, rep[right]);
    ConnectedIsSymmetric(edges, left, right);
    ConnectedIsTransitive(edges, right, left, rep[left]);
    forall i: nat | i < |rep| ensures Connected(edges, i, then_[i]) {
      if rep[i] == rep[left] {
        ConnectedIsSymmetric(edges, left, rep[left]);
        ConnectedIsTransitive(edges, i, rep[left], left);
        ConnectedIsTransitive(edges, i, left, then_[i]);
      } else if rep[i] == rep[right] {
        ConnectedIsSymmetric(edges, right, rep[right]);
        ConnectedIsTransitive(edges, i, rep[right], right);
        ConnectedIsTransitive(edges, i, right, then_[i]);
      }
    }
  }

  lemma SameVariantConnects(rules: Rules, eligible: seq<Phrase>, i: nat, j: nat, v: seq<string>)
    requires i < |eligible| && j < |eligible| && v in VariantsAt(rules, eligible, i) && v in VariantsAt(rules, eligible, j)
    ensures Connected(Sharing(rules, eligible), i, j)
  {
    assert Shares(rules, eligible, i, j);
    assert (i, j) in Sharing(rules, eligible);
    EdgeConnects(Sharing(rules, eligible), i, j);
  }

  /** One signature of one phrase: merge with its first owner, or become it. */
  method TakeSignature(rules: Rules, eligible: seq<Phrase>, groups: Groups, signatures: map<string, nat>, index: nat, v: seq<string>,
                       ghost owner: map<seq<string>, nat>)
    returns (next: map<string, nat>, ghost owners: map<seq<string>, nat>)
    requires Faithful(rules) && groups.Valid() && groups.parents.Length == |eligible| && index < |eligible|
    requires v in VariantsAt(rules, eligible, index) && Words(v)
    requires Owned(rules, eligible, signatures, owner) && Reaches(Sharing(rules, eligible), groups.rep)
    modifies groups`rep, groups.parents
    ensures groups.Valid() && groups.parents.Length == |eligible|
    ensures Owned(rules, eligible, next, owners) && Reaches(Sharing(rules, eligible), groups.rep)
    ensures Agrees(groups.rep, owners, index, v)
    ensures forall i, w :: Agrees(old(groups.rep), owner, i, w) ==> Agrees(groups.rep, owners, i, w)
  {
    var signature := SignatureOf(rules, v);
    if signature in signatures {
      OwnerConnects(rules, eligible, signatures, owner, index, v);
      JoinReaches(Sharing(rules, eligible), groups.rep, index, signatures[signature]);
      groups.Merge(index, signatures[signature]);
      next, owners := signatures, owner;
    } else {
      next, owners := signatures[signature := index], owner[v := index];
      Owns(rules, eligible, signatures, owner, index, v);
    }
  }

  lemma OwnerConnects(rules: Rules, eligible: seq<Phrase>, signatures: map<string, nat>, owner: map<seq<string>, nat>, index: nat, v: seq<string>)
    requires Faithful(rules) && Owned(rules, eligible, signatures, owner) && index < |eligible| && Words(v)
    requires v in VariantsAt(rules, eligible, index) && SignatureOf(rules, v) in signatures
    ensures v in owner && owner[v] == signatures[SignatureOf(rules, v)] && owner[v] < |eligible|
    ensures Connected(Sharing(rules, eligible), index, owner[v])
  {
    assert Held(rules, owner, SignatureOf(rules, v));
    var w :| w in owner && SignatureOf(rules, w) == SignatureOf(rules, v);
    assert OwnedBy(rules, eligible, signatures, owner, w);
    SignatureIsInjective(rules, v, w);
    SameVariantConnects(rules, eligible, index, owner[v], v);
  }

  lemma Owns(rules: Rules, eligible: seq<Phrase>, signatures: map<string, nat>, owner: map<seq<string>, nat>, index: nat, v: seq<string>)
    requires Owned(rules, eligible, signatures, owner) && index < |eligible| && Words(v)
    requires v in VariantsAt(rules, eligible, index) && SignatureOf(rules, v) !in signatures
    ensures v !in owner
    ensures Owned(rules, eligible, signatures[SignatureOf(rules, v) := index], owner[v := index])
  {
    var signature := SignatureOf(rules, v);
    var more, owners := signatures[signature := index], owner[v := index];
    assert OwnedBy(rules, eligible, signatures, owner, v);
    forall w ensures OwnedBy(rules, eligible, more, owners, w) {
      assert OwnedBy(rules, eligible, signatures, owner, w);
    }
    forall s | s in more ensures Held(rules, owners, s) {
      HeldStill(rules, owner, index, v, s);
    }
  }

  lemma HeldStill(rules: Rules, owner: map<seq<string>, nat>, index: nat, v: seq<string>, s: string)
    requires s == SignatureOf(rules, v) || Held(rules, owner, s)
    ensures Held(rules, owner[v := index], s)
  {
    if s == SignatureOf(rules, v) {
      assert v in owner[v := index];
    } else {
      var w :| w in owner && SignatureOf(rules, w) == s;
      assert w in owner[v := index];
    }
  }

  ghost predicate AllAgree(rules: Rules, eligible: seq<Phrase>, rep: seq<nat>, owner: map<seq<string>, nat>, count: nat)
    requires count <= |eligible|
  {
    forall i: nat, v :: i < count && v in VariantsAt(rules, eligible, i) ==> Agrees(rep, owner, i, v)
  }

  /** The union of every phrase with the first owner of each of its signatures. */
  method Unite(rules: Rules, eligible: seq<Phrase>) returns (groups: Groups)
    requires Faithful(rules)
    ensures fresh(groups) && fresh(groups.parents) && groups.Valid() && groups.parents.Length == |eligible|
    ensures forall i: nat :: i < |eligible| ==> groups.rep[i] == Group(rules, eligible, i)
  {
    groups := new Groups(|eligible|);
    var signatures: map<string, nat> := map[];
    ghost var owner: map<seq<string>, nat> := map[];
    forall i: nat | i < |eligible| ensures Connected(Sharing(rules, eligible), i, groups.rep[i]) {
      ConnectedToItself(Sharing(rules, eligible), i);
    }
    for index := 0 to |eligible|
      invariant fresh(groups) && fresh(groups.parents) && groups.Valid() && groups.parents.Length == |eligible|
      invariant Owned(rules, eligible, signatures, owner) && Reaches(Sharing(rules, eligible), groups.rep)
      invariant AllAgree(rules, eligible, groups.rep, owner, index)
    {
      signatures, owner := TakePhrase(rules, eligible, groups, signatures, index, owner);
    }
    RepIsGroup(rules, eligible, groups.parents[..], groups.rep, owner);
  }

  /** Every signature of one phrase. */
  method TakePhrase(rules: Rules, eligible: seq<Phrase>, groups: Groups, signatures: map<string, nat>, index: nat,
                    ghost owner: map<seq<string>, nat>)
    returns (next: map<string, nat>, ghost owners: map<seq<string>, nat>)
    requires Faithful(rules) && groups.Valid() && groups.parents.Length == |eligible| && index < |eligible|
    requires Owned(rules, eligible, signatures, owner) && Reaches(Sharing(rules, eligible), groups.rep)
    requires AllAgree(rules, eligible, groups.rep, owner, index)
    modifies groups`rep, groups.parents
    ensures groups.Valid() && groups.parents.Length == |eligible|
    ensures Owned(rules, eligible, next, owners) && Reaches(Sharing(rules, eligible), groups.rep)
    ensures AllAgree(rules, eligible, groups.rep, owners, index + 1)
  {
    var variants := VariantsAt(rules, eligible, index);
    next, owners := signatures, owner;
    for k := 0 to |variants|
      invariant groups.Valid() && groups.parents.Length == |eligible|
      invariant Owned(rules, eligible, next, owners) && Reaches(Sharing(rules, eligible), groups.rep)
      invariant AllAgree(rules, eligible, groups.rep, owners, index)
      invariant forall m :: 0 <= m < k ==> Agrees(groups.rep, owners, index, variants[m])
    {
      next, owners := TakeSignature(rules, eligible, groups, next, index, variants[k], owners);
    }
  }

  lemma RepIsGroup(rules: Rules, eligible: seq<Phrase>, parents: seq<nat>, rep: seq<nat>, owner: map<seq<string>, nat>)
    requires Leads(parents, rep) && |rep| == |eligible| && Reaches(Sharing(rules, eligible), rep)
    requires AllAgree(rules, eligible, rep, owner, |eligible|)
    ensures forall i: nat :: i < |eligible| ==> rep[i] == Group(rules, eligible, i)
  {
    var edges := Sharing(rules, eligible);
    forall x: nat, y: nat | (x, y) in edges ensures RepAt(rep)(x) == RepAt(rep)(y) {
      var v :| v in VariantsAt(rules, eligible, x) && v in VariantsAt(rules, eligible, y);
      assert Agrees(rep, owner, x, v) && Agrees(rep, owner, y, v);
    }
    forall i: nat | i < |eligible| ensures rep[i] == Group(rules, eligible, i) {
      assert LeadsAt(parents, rep, i);
      forall j: nat | j < rep[i] ensures !Connected(edges, i, j) {
        assert LeadsAt(parents, rep, j);
        RepresentativesAreExact(edges, RepAt(rep), i, j);
      }
      GroupIsLeast(rules, eligible, i, rep[i]);
    }
  }
}
