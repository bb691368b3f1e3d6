/** The rows of partitioned commands, and why neither leakage error can be raised. */
module TechnicalRows {
  import opened Wrappers
  import opened StringOrder
  import opened Components
  import opened StableSort
  import opened TechnicalPartition

  datatype PartitionError = InvalidCommands | Leakage | FamilySpansSplits

  datatype Partitioned = Partitioned(rows: seq<Row>, records: seq<Command>)

  function NamesOf(records: seq<Command>): (r: seq<string>)
    ensures |r| == |records|
  {
    seq(|records|, k requires 0 <= k < |records| => records[k].name)
  }

  ghost predicate DistinctNames(records: seq<Command>) {
    forall i, j :: 0 <= i < j < |records| ==> records[i].name != records[j].name
  }

  ghost predicate IsValid(commands: seq<Command>) {
    DistinctNames(commands) && forall i :: 0 <= i < |commands| ==> commands[i].owners != []
  }

  // ---- sorting by name

  method InsertByName(records: seq<Command>, c: Command) returns (r: seq<Command>)
    requires Ascending(NamesOf(records)) && forall i :: 0 <= i < |records| ==> records[i].name != c.name
    ensures Ascending(NamesOf(r)) && multiset(r) == multiset(records) + multiset{c}
  {
    var k := 0;
    while k < |records| && Less(records[k].name, c.name)
      invariant k <= |records|
      invariant forall i :: 0 <= i < k ==> Less(records[i].name, c.name)
    {
      k := k + 1;
    }
    r := records[..k] + [c] + records[k..];
    assert records == records[..k] + records[k..];
    forall i, j | 0 <= i < j < |r| ensures Less(NamesOf(r)[i], NamesOf(r)[j]) {
      InsertedPair(records, c, k, i, j);
    }
  }

  lemma InsertedPair(records: seq<Command>, c: Command, k: nat, i: nat, j: nat)
    requires Ascending(NamesOf(records)) && k <= |records| && i < j <= |records|
    requires forall m :: 0 <= m < k ==> Less(records[m].name, c.name)
    requires k < |records| ==> !Less(records[k].name, c.name) && records[k].name != c.name
    ensures var r := records[..k] + [c] + records[k..]; Less(r[i].name, r[j].name)
  {
    var names := NamesOf(records);
    if k < |records| { LessIsTotal(records[k].name, c.name); }
    if i == k && j > k + 1 {
      assert Less(names[k], names[j - 1]);
      LessIsTransitive(c.name, names[k], names[j - 1]);
    } else if i < k && j > k {
      assert Less(names[i], names[j - 1]);
    } else if i < k && j < k {
      assert Less(names[i], names[j]);
    } else if i > k {
      assert Less(names[i - 1], names[j - 1]);
    }
  }

  /** `sorted(commands, key=name)`, once their names are known to differ. */
  method SortCommands(commands: seq<Command>) returns (records: seq<Command>)
    requires DistinctNames(commands)
    ensures Ascending(NamesOf(records)) && multiset(records) == multiset(commands) && |records| == |commands|
  {
    records := [];
    for k := 0 to |commands|
      invariant Ascending(NamesOf(records)) && multiset(records) == multiset(commands[..k]) && |records| == k
    {
      forall i | 0 <= i < |records| ensures records[i].name != commands[k].name {
        assert records[i] in multiset(commands[..k]);
      }
      assert commands[..k + 1] == commands[..k] + [commands[k]];
      records := InsertByName(records, commands[k]);
      assert |multiset(records)| == |records|;
    }
    assert commands[..|commands|] == commands;
  }

  // ---- rows

  function MembersOf(records: seq<Command>, families: seq<string>, f: string): seq<string>
    requires |families| == |records|
  {
    if records == [] then []
    else
      var last := |records| - 1;
      MembersOf(records[..last], families[..last], f) + if families[last] == f then [records[last].name] else []
  }

  function KeptOf(rules: Rules, members: seq<string>): seq<string> {
    var sampled := SortBy(members, rules.sampleOrder);
    if COMMANDS_PER_FAMILY <= |sampled| then sampled[..COMMANDS_PER_FAMILY] else sampled
  }

  predicate Touches(rules: Rules, name: string, reserved: set<string>) {
    exists a :: a in rules.aliases(name) && a in reserved
  }

  predicate Blocked(rules: Rules, records: seq<Command>, families: seq<string>, reserved: set<string>, f: string)
    requires |families| == |records|
  {
    exists i :: 0 <= i < |records| && families[i] == f && Touches(rules, records[i].name, reserved)
  }

  function RowFor(rules: Rules, name: string, family: string, document: string, blocked: bool, kept: bool): Row {
    var reasons := (if blocked then [RESERVED_ALIAS] else []) + if kept then [] else [FAMILY_CAP];
    Row(name, family, document, if reasons != [] then QUARANTINE else AssignedSplit(rules.bucket(document)), reasons)
  }

  /** The row of each record. */
  function RowAt(rules: Rules, records: seq<Command>, families: seq<string>, documents: seq<string>, reserved: set<string>, i: nat): Row
    requires |records| == |families| == |documents| && i < |records|
  {
    RowFor(rules, records[i].name, families[i], documents[i],
           Blocked(rules, records, families, reserved, families[i]),
           records[i].name in KeptOf(rules, MembersOf(records, families, families[i])))
  }

  ghost predicate Collects(records: seq<Command>, families: seq<string>, members: map<string, seq<string>>)
    requires |families| == |records|
  {
    forall f :: (if f in members then members[f] else []) == MembersOf(records, families, f)
  }

  lemma CollectsMore(records: seq<Command>, families: seq<string>, members: map<string, seq<string>>, c: Command, f: string)
    requires |families| == |records| && Collects(records, families, members)
    ensures Collects(records + [c], families + [f], members[f := (if f in members then members[f] else []) + [c.name]])
  {
    assert (records + [c])[..|records|] == records && (families + [f])[..|families|] == families;
  }

  method CollectMembers(records: seq<Command>, families: seq<string>) returns (members: map<string, seq<string>>)
    requires |families| == |records|
    ensures Collects(records, families, members)
  {
    members := map[];
    assert Collects(records[..0], families[..0], members);
    hide Collects;
    for k := 0 to |records|
      invariant Collects(records[..k], families[..k], members)
    {
      CollectsMore(records[..k], families[..k], members, records[k], families[k]);
      assert records[..k + 1] == records[..k] + [records[k]] && families[..k + 1] == families[..k] + [families[k]];
      var f := families[k];
      members := members[f := (if f in members then members[f] else []) + [records[k].name]];
    }
    assert records[..|records|] == records && families[..|families|] == families;
  }

  lemma {:induction false} MemberIsOfFamily(records: seq<Command>, families: seq<string>, f: string, name: string) returns (i: nat)
    requires |families| == |records| && name in MembersOf(records, families, f)
    ensures i < |records| && records[i].name == name && families[i] == f
  {
    var last := |records| - 1;
    if name in MembersOf(records[..last], families[..last], f) {
      i := MemberIsOfFamily(records[..last], families[..last], f, name);
    } else {
      i := last;
    }
  }

  lemma KeptAreMembers(rules: Rules, members: seq<string>, name: string)
    requires name in KeptOf(rules, members)
    ensures name in members
  {
    SortOrders(members, rules.sampleOrder);
    assert name in multiset(SortBy(members, rules.sampleOrder));
  }

  /** Kept by some family is kept by its own. */
  lemma RetainedIsOwn(rules: Rules, records: seq<Command>, families: seq<string>, members: map<string, seq<string>>, i: nat, f: string)
    requires |families| == |records| && Collects(records, families, members) && DistinctNames(records) && i < |records|
    requires f in members && records[i].name in KeptOf(rules, members[f])
    ensures f == families[i]
  {
    KeptAreMembers(rules, members[f], records[i].name);
    var j := MemberIsOfFamily(records, families, f, records[i].name);
    assert i == j;
  }

  method BuildRows(rules: Rules, records: seq<Command>, families: seq<string>, documents: seq<string>, reserved: set<string>)
    returns (rows: seq<Row>)
    requires |records| == |families| == |documents| && DistinctNames(records)
    ensures |rows| == |records| && forall i :: 0 <= i < |rows| ==> rows[i] == RowAt(rules, records, families, documents, reserved, i)
  {
    var blocked := set i | 0 <= i < |records| && Touches(rules, records[i].name, reserved) :: families[i];
    var members := CollectMembers(records, families);
    var retained := set f, name | f in members && name in KeptOf(rules, members[f]) :: name;
    forall i: nat | i < |records|
      ensures RowFor(rules, records[i].name, families[i], documents[i], families[i] in blocked, records[i].name in retained)
           == RowAt(rules, records, families, documents, reserved, i)
    {
      RowIs(rules, records, families, documents, reserved, members, blocked, retained, i);
    }
    rows := MakeRows(rules, records, families, documents, blocked, retained);
  }

  method MakeRows(rules: Rules, records: seq<Command>, families: seq<string>, documents: seq<string>, blocked: set<string>,
                  retained: set<string>)
    returns (rows: seq<Row>)
    requires |records| == |families| == |documents|
    ensures |rows| == |records|
    ensures forall i :: 0 <= i < |rows| ==>
      rows[i] == RowFor(rules, records[i].name, families[i], documents[i], families[i] in blocked, records[i].name in retained)
  {
    rows := [];
    for i := 0 to |records|
      invariant |rows| == i
      invariant forall k :: 0 <= k < i ==>
        rows[k] == RowFor(rules, records[k].name, families[k], documents[k], families[k] in blocked, records[k].name in retained)
    {
      rows := rows + [RowFor(rules, records[i].name, families[i], documents[i], families[i] in blocked, records[i].name in retained)];
    }
  }

  lemma RowIs(rules: Rules, records: seq<Command>, families: seq<string>, documents: seq<string>, reserved: set<string>,
              members: map<string, seq<string>>, blocked: set<string>, retained: set<string>, i: nat)
    requires |records| == |families| == |documents| && DistinctNames(records) && i < |records| && Collects(records, families, members)
    requires blocked == set i | 0 <= i < |records| && Touches(rules, records[i].name, reserved) :: families[i]
    requires retained == set f, name | f in members && name in KeptOf(rules, members[f]) :: name
    ensures RowFor(rules, records[i].name, families[i], documents[i], families[i] in blocked, records[i].name in retained)
         == RowAt(rules, records, families, documents, reserved, i)
  {
    assert families[i] in blocked <==> Blocked(rules, records, families, reserved, families[i]);
    RetainedAt(rules, records, families, members, retained, i);
  }

  lemma {:induction false} RetainedAt(rules: Rules, records: seq<Command>, families: seq<string>,
                                      members: map<string, seq<string>>, retained: set<string>, i: nat)
    requires |families| == |records| && Collects(records, families, members) && DistinctNames(records) && i < |records|
    requires retained == set f, name | f in members && name in KeptOf(rules, members[f]) :: name
    ensures records[i].name in retained <==> records[i].name in KeptOf(rules, MembersOf(records, families, families[i]))
  {
    var own := MembersOf(records, families, families[i]);
    if records[i].name in retained {
      var f :| f in members && records[i].name in KeptOf(rules, members[f]);
      RetainedIsOwn(rules, records, families, members, i, f);
    }
    if records[i].name in KeptOf(rules, own) {
      KeptAreMembers(rules, own, records[i].name);
      assert families[i] in members;
    }
  }

  // ---- why nothing leaks

  /** What partitioning promises of rows: one for each record, under components' names. */
  ghost predicate IsPartition(rules: Rules, records: seq<Command>, families: seq<string>, documents: seq<string>,
                              reserved: set<string>, rows: seq<Row>) {
    && |records| == |families| == |documents| == |rows| && DistinctNames(records)
    && (forall i :: 0 <= i < |rows| ==> rows[i] == RowAt(rules, records, families, documents, reserved, i))
    && NamesComponents(AliasEdges(rules, records), CommandNodes(records), families)
    && NamesComponents(PackageEdges(records, families), FamilyNodes(families), documents)
  }

  ghost predicate ShareAlias(rules: Rules, a: string, b: string) { exists x :: x in rules.aliases(a) && x in rules.aliases(b) }

  ghost predicate SharePackage(a: Command, b: Command) {
    exists x, y, name :: x in a.owners && y in b.owners && IsPackage(x, name) && IsPackage(y, name)
  }

  lemma SharePackageExactly(a: Command, b: Command)
    ensures SharePackage(a, b) <==> exists x, y :: x in a.owners && y in b.owners && Package(x) == Package(y)
  {
    forall x, name ensures IsPackage(x, name) <==> Package(x) == name { PackageExactly(x, name); }
    hide IsPackage, Package;
    if x, y :| x in a.owners && y in b.owners && Package(x) == Package(y) {
      assert IsPackage(x, Package(x)) && IsPackage(y, Package(x));
    }
  }

  /** Commands with a common alias are of one family. */
  lemma {:induction false} SharedAliasIsFamily(rules: Rules, records: seq<Command>, families: seq<string>, i: nat, j: nat)
    requires |families| == |records| && NamesComponents(AliasEdges(rules, records), CommandNodes(records), families)
    requires i < |records| && j < |records| && ShareAlias(rules, records[i].name, records[j].name)
    ensures families[i] == families[j]
  {
    var edges := AliasEdges(rules, records);
    var x :| x in rules.aliases(records[i].name) && x in rules.aliases(records[j].name);
    AliasEdgeOf(rules, records, i, x);
    AliasEdgeOf(rules, records, j, x);
    EdgeConnects(edges, CommandNodes(records)[i], AliasNode(x));
    EdgeConnects(edges, AliasNode(x), CommandNodes(records)[j]);
    ConnectedIsTransitive(edges, CommandNodes(records)[i], AliasNode(x), CommandNodes(records)[j]);
  }

  lemma {:induction false} SharedPackageIsDocument(records: seq<Command>, families: seq<string>, documents: seq<string>,
                                                   i: nat, j: nat)
    requires |families| == |records| == |documents| && NamesComponents(PackageEdges(records, families), FamilyNodes(families), documents)
    requires i < |records| && j < |records| && SharePackage(records[i], records[j])
    ensures documents[i] == documents[j]
  {
    var edges := PackageEdges(records, families);
    SharePackageExactly(records[i], records[j]);
    var x, y :| x in records[i].owners && y in records[j].owners && Package(x) == Package(y);
    PackageEdgeOf(records, families, i, x);
    PackageEdgeOf(records, families, j, y);
    EdgeConnects(edges, FamilyNodes(families)[i], PackageNode(x));
    EdgeConnects(edges, PackageNode(x), FamilyNodes(families)[j]);
    ConnectedIsTransitive(edges, FamilyNodes(families)[i], PackageNode(x), FamilyNodes(families)[j]);
  }

  lemma {:induction false} FamilyIsInOneDocument(records: seq<Command>, families: seq<string>, documents: seq<string>,
                                                 i: nat, j: nat)
    requires |families| == |records| == |documents| && NamesComponents(PackageEdges(records, families), FamilyNodes(families), documents)
    requires i < |records| && j < |records| && families[i] == families[j]
    ensures documents[i] == documents[j]
  {
    ConnectedToItself(PackageEdges(records, families), FamilyNodes(families)[i]);
    assert FamilyNodes(families)[i] == FamilyNodes(families)[j];
  }

  /** Two active rows in different splits share no alias, no package, no family and no document. */
  lemma SplitsShareNothing(rules: Rules, records: seq<Command>, families: seq<string>, documents: seq<string>,
                           reserved: set<string>, rows: seq<Row>, i: nat, j: nat)
    requires IsPartition(rules, records, families, documents, reserved, rows) && i < |rows| && j < |rows|
    requires IsActive(rows[i]) && IsActive(rows[j]) && rows[i].split != rows[j].split
    ensures rows[i].document != rows[j].document && rows[i].family != rows[j].family
    ensures !ShareAlias(rules, records[i].name, records[j].name) && !SharePackage(records[i], records[j])
  {
    assert documents[i] != documents[j];
    if families[i] == families[j] { FamilyIsInOneDocument(records, families, documents, i, j); }
    if ShareAlias(rules, records[i].name, records[j].name) { SharedAliasIsFamily(rules, records, families, i, j); }
    if SharePackage(records[i], records[j]) { SharedPackageIsDocument(records, families, documents, i, j); }
  }

  /** No active row has a reserved alias. */
  lemma ReservedIsQuarantined(rules: Rules, records: seq<Command>, families: seq<string>, documents: seq<string>,
                              reserved: set<string>, rows: seq<Row>, i: nat)
    requires IsPartition(rules, records, families, documents, reserved, rows) && i < |rows|
    ensures IsActive(rows[i]) ==> !Touches(rules, records[i].name, reserved)
    ensures RESERVED_ALIAS in rows[i].reasons <==>
            exists j :: 0 <= j < |rows| && rows[j].family == rows[i].family && Touches(rules, records[j].name, reserved)
  {
    assert RESERVED_ALIAS != FAMILY_CAP by { assert RESERVED_ALIAS[0] != FAMILY_CAP[0]; }
    var blocked := Blocked(rules, records, families, reserved, families[i]);
    if blocked {
      var j :| 0 <= j < |records| && families[j] == families[i] && Touches(rules, records[j].name, reserved);
      assert rows[j].family == rows[i].family;
    }
  }

  // ---- the cap

  ghost function ActiveIn(rows: seq<Row>, f: string): set<string> {
    set i | 0 <= i < |rows| && rows[i].family == f && IsActive(rows[i]) :: rows[i].name
  }

  lemma {:induction false} SetOfSeq(s: seq<string>, names: set<string>)
    requires forall n :: n in names ==> n in s
    ensures |names| <= |s|
  {
    if s != [] {
      var last := |s| - 1;
      SetOfSeq(s[..last], names - {s[last]});
      assert names <= names - {s[last]} + {s[last]};
      if s[last] in names { assert names == names - {s[last]} + {s[last]}; } else { assert names == names - {s[last]}; }
    }
  }

  /** No family has more active rows than the cap. */
  lemma FamiliesAreCapped(rules: Rules, records: seq<Command>, families: seq<string>, documents: seq<string>,
                          reserved: set<string>, rows: seq<Row>, f: string)
    requires IsPartition(rules, records, families, documents, reserved, rows)
    ensures |ActiveIn(rows, f)| <= COMMANDS_PER_FAMILY
  {
    var kept := KeptOf(rules, MembersOf(records, families, f));
    forall n | n in ActiveIn(rows, f) ensures n in kept {
      var i :| 0 <= i < |rows| && rows[i].family == f && IsActive(rows[i]) && rows[i].name == n;
      assert families[i] == f;
    }
    SetOfSeq(kept, ActiveIn(rows, f));
  }

  // ---- the errors

  /** Something two active splits share, or an active row with a reserved alias. */
  ghost predicate Leaks(rules: Rules, records: seq<Command>, reserved: set<string>, rows: seq<Row>)
    requires |records| == |rows|
  {
    || (exists i, j :: 0 <= i < |rows| && 0 <= j < |rows| && IsActive(rows[i]) && IsActive(rows[j]) && rows[i].split != rows[j].split
          && (ShareAlias(rules, records[i].name, records[j].name) || SharePackage(records[i], records[j])))
    || exists i :: 0 <= i < |rows| && IsActive(rows[i]) && Touches(rules, records[i].name, reserved)
  }

  lemma NothingLeaks(rules: Rules, records: seq<Command>, families: seq<string>, documents: seq<string>,
                     reserved: set<string>, rows: seq<Row>)
    requires IsPartition(rules, records, families, documents, reserved, rows)
    ensures !Leaks(rules, records, reserved, rows)
  {
    forall i, j | 0 <= i < |rows| && 0 <= j < |rows| && IsActive(rows[i]) && IsActive(rows[j]) && rows[i].split != rows[j].split
      ensures !ShareAlias(rules, records[i].name, records[j].name) && !SharePackage(records[i], records[j])
    {
      SplitsShareNothing(rules, records, families, documents, reserved, rows, i, j);
    }
    forall i | 0 <= i < |rows| && IsActive(rows[i]) ensures !Touches(rules, records[i].name, reserved) {
      ReservedIsQuarantined(rules, records, families, documents, reserved, rows, i);
    }
  }

  function Entries(held: map<string, set<string>>, split: string): set<string> { if split in held then held[split] else {} }

  function PackagesOf(owners: seq<string>): set<string> { set o | o in owners :: Package(o) }

  function AliasesOf(rules: Rules, name: string): set<string> { set a | a in rules.aliases(name) }

  /** The aliases, or the packages, of a split's first rows. */
  function Held(sets: seq<set<string>>, rows: seq<Row>, k: nat, split: string): set<string>
    requires k <= |rows| == |sets|
  {
    if k == 0 then {}
    else Held(sets, rows, k - 1, split) + if IsActive(rows[k - 1]) && rows[k - 1].split == split then sets[k - 1] else {}
  }

  lemma {:induction false} HeldBySome(sets: seq<set<string>>, rows: seq<Row>, k: nat, split: string, x: string)
    requires k <= |rows| == |sets|
    ensures x in Held(sets, rows, k, split) <==>
            exists i :: 0 <= i < k && IsActive(rows[i]) && rows[i].split == split && x in sets[i]
  {
    if k > 0 { HeldBySome(sets, rows, k - 1, split, x); }
  }

  method CollectBySplit(sets: seq<set<string>>, rows: seq<Row>) returns (held: map<string, set<string>>)
    requires |sets| == |rows|
    ensures forall s :: Entries(held, s) == Held(sets, rows, |rows|, s)
  {
    held := map[];
    for k := 0 to |rows|
      invariant forall s :: Entries(held, s) == Held(sets, rows, k, s)
    {
      if IsActive(rows[k]) {
        held := held[rows[k].split := Entries(held, rows[k].split) + sets[k]];
      }
    }
  }

  ghost predicate Overlap(sets: seq<set<string>>, rows: seq<Row>)
    requires |sets| == |rows|
  {
    exists i, j :: 0 <= i < |rows| && 0 <= j < |rows| && IsActive(rows[i]) && IsActive(rows[j]) && rows[i].split != rows[j].split
      && sets[i] * sets[j] != {}
  }

  /** Whether two splits hold something in common. */
  method Overlaps(sets: seq<set<string>>, rows: seq<Row>, held: map<string, set<string>>) returns (overlaps: bool)
    requires |sets| == |rows| && forall s :: Entries(held, s) == Held(sets, rows, |rows|, s)
    ensures overlaps == Overlap(sets, rows)
  {
    if s, t :| s in held && t in held && s != t && held[s] * held[t] != {} {
      var x :| x in held[s] && x in held[t];
      assert x in Entries(held, s) && x in Entries(held, t);
      HeldBySome(sets, rows, |rows|, s, x);
      HeldBySome(sets, rows, |rows|, t, x);
      var i :| 0 <= i < |rows| && IsActive(rows[i]) && rows[i].split == s && x in sets[i];
      var j :| 0 <= j < |rows| && IsActive(rows[j]) && rows[j].split == t && x in sets[j];
      assert x in sets[i] * sets[j];
      return true;
    }
    forall i, j | 0 <= i < |rows| && 0 <= j < |rows| && IsActive(rows[i]) && IsActive(rows[j]) && rows[i].split != rows[j].split
      ensures sets[i] * sets[j] == {}
    {
      forall x | x in sets[i] ensures x !in sets[j] {
        HeldApart(sets, rows, held, i, j, x);
      }
    }
    return false;
  }

  lemma {:induction false} HeldApart(sets: seq<set<string>>, rows: seq<Row>, held: map<string, set<string>>, i: nat, j: nat,
                                     x: string)
    requires |sets| == |rows| && forall s :: Entries(held, s) == Held(sets, rows, |rows|, s)
    requires forall s, t :: s in held && t in held && s != t ==> held[s] * held[t] == {}
    requires i < |rows| && j < |rows| && IsActive(rows[i]) && IsActive(rows[j]) && rows[i].split != rows[j].split && x in sets[i]
    ensures x !in sets[j]
  {
    HeldBySome(sets, rows, |rows|, rows[i].split, x);
    HeldBySome(sets, rows, |rows|, rows[j].split, x);
    assert x in Entries(held, rows[i].split);
    assert x !in Entries(held, rows[j].split) by {
      if rows[j].split in held { assert held[rows[i].split] * held[rows[j].split] == {}; }
    }
  }

  function AliasSets(rules: Rules, records: seq<Command>): (r: seq<set<string>>)
    ensures |r| == |records|
  {
    seq(|records|, k requires 0 <= k < |records| => AliasesOf(rules, records[k].name))
  }

  function PackageSets(records: seq<Command>): (r: seq<set<string>>)
    ensures |r| == |records|
  {
    seq(|records|, k requires 0 <= k < |records| => PackagesOf(records[k].owners))
  }

  lemma SharedAliases(rules: Rules, a: string, b: string)
    ensures AliasesOf(rules, a) * AliasesOf(rules, b) != {} <==> ShareAlias(rules, a, b)
  {
    if ShareAlias(rules, a, b) {
      var x :| x in rules.aliases(a) && x in rules.aliases(b);
      assert x in AliasesOf(rules, a) * AliasesOf(rules, b);
    }
  }

  lemma SharedPackages(a: Command, b: Command)
    ensures PackagesOf(a.owners) * PackagesOf(b.owners) != {} <==> SharePackage(a, b)
  {
    SharePackageExactly(a, b);
    hide SharePackage;
    if SharePackage(a, b) {
      var x, y :| x in a.owners && y in b.owners && Package(x) == Package(y);
      assert Package(x) in PackagesOf(a.owners) * PackagesOf(b.owners);
    }
  }

  ghost predicate AnyReserved(rules: Rules, records: seq<Command>, reserved: set<string>, rows: seq<Row>)
    requires |records| == |rows|
  {
    exists i :: 0 <= i < |rows| && IsActive(rows[i]) && Touches(rules, records[i].name, reserved)
  }

  /** A leak is an overlap of two splits' aliases or packages, or a reserved alias. */
  lemma LeaksAreOverlaps(rules: Rules, records: seq<Command>, reserved: set<string>, rows: seq<Row>)
    requires |records| == |rows|
    ensures Leaks(rules, records, reserved, rows)
       <==> Overlap(AliasSets(rules, records), rows) || Overlap(PackageSets(records), rows) || AnyReserved(rules, records, reserved, rows)
  {
    hide AliasesOf, PackagesOf, ShareAlias, SharePackage, Touches;
    forall i, j | 0 <= i < |rows| && 0 <= j < |rows|
      ensures AliasSets(rules, records)[i] * AliasSets(rules, records)[j] != {} <==> ShareAlias(rules, records[i].name, records[j].name)
      ensures PackageSets(records)[i] * PackageSets(records)[j] != {} <==> SharePackage(records[i], records[j])
    {
      SharedAliases(rules, records[i].name, records[j].name);
      SharedPackages(records[i], records[j]);
    }
  }

  lemma NotInBoth(a: set<string>, b: set<string>, x: string)
    requires a * b == {} && x in a
    ensures x !in b
  {
    assert x !in a * b;
  }

  /** Whether an active row's aliases are among the reserved. */
  method HoldsReserved(rules: Rules, records: seq<Command>, reserved: set<string>, rows: seq<Row>, held: map<string, set<string>>)
    returns (any: bool)
    requires |records| == |rows|
    requires forall s :: Entries(held, s) == Held(AliasSets(rules, records), rows, |rows|, s)
    ensures any <==> AnyReserved(rules, records, reserved, rows)
  {
    if s :| s in held && held[s] * reserved != {} {
      var x :| x in held[s] && x in reserved;
      assert x in Entries(held, s);
      HeldBySome(AliasSets(rules, records), rows, |rows|, s, x);
      return true;
    }
    forall i | 0 <= i < |rows| && IsActive(rows[i]) ensures !Touches(rules, records[i].name, reserved) {
      forall x | x in rules.aliases(records[i].name) ensures x !in reserved {
        assert x in AliasSets(rules, records)[i];
        HeldBySome(AliasSets(rules, records), rows, |rows|, rows[i].split, x);
        assert x in Entries(held, rows[i].split);
        NotInBoth(held[rows[i].split], reserved, x);
      }
    }
    return false;
  }

  /** The check at the end of partitioning. */
  method CheckLeakage(rules: Rules, records: seq<Command>, reserved: set<string>, rows: seq<Row>) returns (leaks: bool)
    requires |records| == |rows|
    ensures leaks <==> Leaks(rules, records, reserved, rows)
  {
    var aliases := CollectBySplit(AliasSets(rules, records), rows);
    var packages := CollectBySplit(PackageSets(records), rows);
    var aliasOverlap := Overlaps(AliasSets(rules, records), rows, aliases);
    var packageOverlap := Overlaps(PackageSets(records), rows, packages);
    var reservedOverlap := HoldsReserved(rules, records, reserved, rows, aliases);
    LeaksAreOverlaps(rules, records, reserved, rows);
    leaks := aliasOverlap || packageOverlap || reservedOverlap;
  }

  /**
   Only commands with a repeated name or without owners are refused. Otherwise there is one row for each command, in
   the order of their names, and the leakage error is never raised.
   */
  method PartitionCommands(rules: Rules, commands: seq<Command>, reserved: set<string>) returns (r: Result<Partitioned, PartitionError>)
    requires Faithful(rules)
    ensures r.Err? <==> !IsValid(commands)
    ensures r.Err? ==> r.error == InvalidCommands
    ensures r.Ok? ==> var p := r.value;
      Ascending(NamesOf(p.records)) && multiset(p.records) == multiset(commands)
      && exists families, documents :: IsPartition(rules, p.records, families, documents, reserved, p.rows)
  {
    var invalid := (exists i, j :: 0 <= i < j < |commands| && commands[i].name == commands[j].name)
                   || exists i :: 0 <= i < |commands| && commands[i].owners == [];
    if invalid { return Err(InvalidCommands); }
    var records := SortCommands(commands);
    SortedAreValid(commands, records);
    var families := Families(rules, records);
    var documents := Documents(rules, records, families);
    var rows := BuildRows(rules, records, families, documents, reserved);
    assert IsPartition(rules, records, families, documents, reserved, rows);
    NothingLeaks(rules, records, families, documents, reserved, rows);
    var leaks := CheckLeakage(rules, records, reserved, rows);
    if leaks { return Err(Leakage); }
    return Ok(Partitioned(rows, records));
  }

  lemma SortedAreValid(commands: seq<Command>, records: seq<Command>)
    requires IsValid(commands) && multiset(records) == multiset(commands) && Ascending(NamesOf(records))
    ensures IsValid(records)
  {
    forall i | 0 <= i < |records| ensures records[i].owners != [] {
      assert records[i] in multiset(commands);
    }
    forall i, j | 0 <= i < j < |records| ensures records[i].name != records[j].name {
      assert Less(NamesOf(records)[i], NamesOf(records)[j]);
      LessIsTotal(records[i].name, records[i].name);
    }
  }

  // ---- family records

  ghost predicate SpansSplits(rows: seq<Row>) {
    exists i, j :: 0 <= i < |rows| && 0 <= j < |rows| && IsActive(rows[i]) && IsActive(rows[j])
      && rows[i].family == rows[j].family && rows[i].split != rows[j].split
  }

  ghost predicate Records(rows: seq<Row>, k: nat, splits: map<string, string>) {
    k <= |rows|
    && (forall i :: 0 <= i < k && IsActive(rows[i]) ==> rows[i].family in splits && splits[rows[i].family] == rows[i].split)
    && (forall f :: f in splits ==> exists i :: 0 <= i < k && IsActive(rows[i]) && rows[i].family == f && rows[i].split == splits[f])
  }

  /** Each active family's split; an error if its active rows are in two. */
  method FamilyRecords(rows: seq<Row>) returns (r: Result<map<string, string>, PartitionError>)
    ensures r.Err? <==> SpansSplits(rows)
    ensures r.Ok? ==> Records(rows, |rows|, r.value)
  {
    var splits: map<string, string> := map[];
    for k := 0 to |rows|
      invariant Records(rows, k, splits)
    {
      if IsActive(rows[k]) {
        if rows[k].family in splits && splits[rows[k].family] != rows[k].split {
          return Err(FamilySpansSplits);
        }
        splits := splits[rows[k].family := rows[k].split];
      }
    }
    return Ok(splits);
  }

  /** The rows of a partition never raise the error of a family in two splits. */
  lemma FamiliesNeverSpan(rules: Rules, records: seq<Command>, families: seq<string>, documents: seq<string>,
                          reserved: set<string>, rows: seq<Row>)
    requires IsPartition(rules, records, families, documents, reserved, rows)
    ensures !SpansSplits(rows)
  {
    forall i, j | 0 <= i < |rows| && 0 <= j < |rows| && IsActive(rows[i]) && IsActive(rows[j]) && rows[i].family == rows[j].family
      ensures rows[i].split == rows[j].split
    {
      if rows[i].split != rows[j].split { SplitsShareNothing(rules, records, families, documents, reserved, rows, i, j); }
    }
  }

  /** Partitioned commands with their family records: only invalid commands are refused, and neither later error is raised. */
  method PartitionFamilies(rules: Rules, commands: seq<Command>, reserved: set<string>)
    returns (r: Result<(Partitioned, map<string, string>), PartitionError>)
    requires Faithful(rules)
    ensures r.Err? <==> !IsValid(commands)
    ensures r.Err? ==> r.error == InvalidCommands
    ensures r.Ok? ==> Records(r.value.0.rows, |r.value.0.rows|, r.value.1)
  {
    var partition := PartitionCommands(rules, commands, reserved);
    if partition.Err? { return Err(partition.error); }
    var p := partition.value;
    ghost var families, documents :| IsPartition(rules, p.records, families, documents, reserved, p.rows);
    FamiliesNeverSpan(rules, p.records, families, documents, reserved, p.rows);
    var splits := FamilyRecords(p.rows);
    return Ok((p, splits.value));
  }
}
