/**
 The two unions together: families are the components of commands under shared aliases, documents those under shared
 aliases and packages at once, so what is reserved and what is split follows whole chains of commands.
 */
module TechnicalComponents {
  import opened Components
  import opened TechnicalPartition
  import opened TechnicalRows
  import opened StableSort
  import opened SplitShares

  // ---- links between commands

  ghost function AliasLinks(rules: Rules, records: seq<Command>): set<(nat, nat)> {
    set i: nat, j: nat | i < |records| && j < |records| && ShareAlias(rules, records[i].name, records[j].name) :: (i, j)
  }

  ghost function PackageLinks(records: seq<Command>): set<(nat, nat)> {
    set i: nat, j: nat | i < |records| && j < |records| && SharePackage(records[i], records[j]) :: (i, j)
  }

  ghost function JointLinks(rules: Rules, records: seq<Command>): set<(nat, nat)> { AliasLinks(rules, records) + PackageLinks(records) }

  // ---- families

  ghost function AliasMarks(rules: Rules, c: Command): set<string> {
    {CommandNode(c.name)} + set a | a in rules.aliases(c.name) :: AliasNode(a)
  }

  ghost function AllAliasMarks(rules: Rules, records: seq<Command>): (r: seq<set<string>>)
    ensures |r| == |records|
  {
    seq(|records|, k requires 0 <= k < |records| => AliasMarks(rules, records[k]))
  }

  lemma AliasNodeIsMark(rules: Rules, c: Command, y: string)
    requires y in AliasNodes(rules.aliases(c.name))
    ensures y in AliasMarks(rules, c)
  {
    var k :| 0 <= k < |rules.aliases(c.name)| && y == AliasNodes(rules.aliases(c.name))[k];
    assert rules.aliases(c.name)[k] in rules.aliases(c.name);
  }

  lemma {:induction false} AliasEdgeIsMarked(rules: Rules, records: seq<Command>, x: string, y: string) returns (m: nat)
    requires (x, y) in AliasEdges(rules, records)
    ensures m < |records| && x in AliasMarks(rules, records[m]) && y in AliasMarks(rules, records[m])
  {
    var last := |records| - 1;
    if (x, y) in AliasEdges(rules, records[..last]) {
      m := AliasEdgeIsMarked(rules, records[..last], x, y);
    } else {
      m := last;
      StarHas(CommandNode(records[m].name), AliasNodes(rules.aliases(records[m].name)), x, y);
      AliasNodeIsMark(rules, records[m], y);
    }
  }

  lemma CommandIsNoAlias(name: string, a: string)
    ensures CommandNode(name) != AliasNode(a)
  {
    assert CommandNode(name)[0] == 'c' && AliasNode(a)[0] == 'a';
  }

  lemma AliasNodeTells(a: string, b: string)
    requires AliasNode(a) == AliasNode(b)
    ensures a == b
  {
    SamePrefix("alias:", a, b);
  }

  lemma CommandNodeTells(a: string, b: string)
    requires CommandNode(a) == CommandNode(b)
    ensures a == b
  {
    SamePrefix("command:", a, b);
  }

  /** Commands with a common mark share an alias, or are one command. */
  lemma CommonAliasMark(rules: Rules, a: Command, b: Command, x: string)
    requires x in AliasMarks(rules, a) && x in AliasMarks(rules, b)
    ensures a.name == b.name || ShareAlias(rules, a.name, b.name)
  {
    hide CommandNode, AliasNode;
    if x == CommandNode(a.name) && x == CommandNode(b.name) {
      CommandNodeTells(a.name, b.name);
    } else if x == CommandNode(a.name) {
      var y :| y in rules.aliases(b.name) && x == AliasNode(y);
      CommandIsNoAlias(a.name, y);
    } else if x == CommandNode(b.name) {
      var y :| y in rules.aliases(a.name) && x == AliasNode(y);
      CommandIsNoAlias(b.name, y);
    } else {
      var y :| y in rules.aliases(a.name) && x == AliasNode(y);
      var z :| z in rules.aliases(b.name) && x == AliasNode(z);
      AliasNodeTells(y, z);
    }
  }

  lemma AliasMarksAreLinked(rules: Rules, records: seq<Command>)
    requires DistinctNames(records)
    ensures MarksAreLinked(AllAliasMarks(rules, records), AliasLinks(rules, records))
  {
    var marks, links := AllAliasMarks(rules, records), AliasLinks(rules, records);
    forall k: nat, m: nat, x | k < |marks| && m < |marks| && x in marks[k] && x in marks[m] ensures Connected(links, k, m) {
      CommonAliasMark(rules, records[k], records[m], x);
      if k == m { ConnectedToItself(links, k); } else { EdgeConnects(links, k, m); }
    }
  }

  lemma {:induction false} AliasEdgesAreMarked(rules: Rules, records: seq<Command>)
    ensures EdgesAreMarked(AliasEdges(rules, records), AllAliasMarks(rules, records))
  {
    forall x, y | (x, y) in AliasEdges(rules, records)
      ensures exists m :: 0 <= m < |records| && x in AllAliasMarks(rules, records)[m] && y in AllAliasMarks(rules, records)[m]
    {
      var m := AliasEdgeIsMarked(rules, records, x, y);
      assert x in AllAliasMarks(rules, records)[m] && y in AllAliasMarks(rules, records)[m];
    }
  }

  function NameAt(names: seq<string>, k: nat): string { if k < |names| then names[k] else "" }

  /** What linked commands have in common, chained commands do. */
  lemma ChainAgrees(links: set<(nat, nat)>, names: seq<string>, i: nat, j: nat)
    requires Connected(links, i, j) && forall k: nat, m: nat :: (k, m) in links ==> NameAt(names, k) == NameAt(names, m)
    ensures NameAt(names, i) == NameAt(names, j)
  {
    var path :| WalkFrom(links, i, j, path);
    WalkAgrees(links, (k: nat) => NameAt(names, k), path);
  }

  /** Two commands are of one family exactly when a chain of commands leads from one to the other, each sharing an alias with the next. */
  lemma {:induction false} FamiliesAreAliasComponents(rules: Rules, records: seq<Command>, families: seq<string>, i: nat, j: nat)
    requires |families| == |records| && DistinctNames(records) && i < |records| && j < |records|
    requires NamesComponents(AliasEdges(rules, records), CommandNodes(records), families)
    ensures families[i] == families[j] <==> Connected(AliasLinks(rules, records), i, j)
  {
    var links := AliasLinks(rules, records);
    if families[i] == families[j] {
      var path :| WalkFrom(AliasEdges(rules, records), CommandNodes(records)[i], CommandNodes(records)[j], path);
      AliasEdgesAreMarked(rules, records);
      AliasMarksAreLinked(rules, records);
      WalkIsChain(AliasEdges(rules, records), AllAliasMarks(rules, records), links, path, i, j);
    }
    if Connected(links, i, j) {
      forall k: nat, m: nat | (k, m) in links ensures NameAt(families, k) == NameAt(families, m) {
        SharedAliasIsFamily(rules, records, families, k, m);
      }
      ChainAgrees(links, families, i, j);
    }
  }

  // ---- documents

  ghost function PackageMarks(c: Command, family: string): set<string> {
    {FamilyNode(family)} + set o | o in c.owners :: PackageNode(o)
  }

  ghost function AllPackageMarks(records: seq<Command>, families: seq<string>): (r: seq<set<string>>)
    requires |families| == |records|
    ensures |r| == |records|
  {
    seq(|records|, k requires 0 <= k < |records| => PackageMarks(records[k], families[k]))
  }

  lemma PackageNodeIsMark(c: Command, family: string, y: string)
    requires y in PackageNodes(c.owners)
    ensures y in PackageMarks(c, family)
  {
    var k :| 0 <= k < |c.owners| && y == PackageNodes(c.owners)[k];
    assert c.owners[k] in c.owners;
  }

  lemma {:induction false} PackageEdgeIsMarked(records: seq<Command>, families: seq<string>, x: string, y: string) returns (m: nat)
    requires |families| == |records| && (x, y) in PackageEdges(records, families)
    ensures m < |records| && x in PackageMarks(records[m], families[m]) && y in PackageMarks(records[m], families[m])
  {
    var last := |records| - 1;
    if (x, y) in PackageEdges(records[..last], families[..last]) {
      m := PackageEdgeIsMarked(records[..last], families[..last], x, y);
    } else {
      m := last;
      StarHas(FamilyNode(families[m]), PackageNodes(records[m].owners), x, y);
      PackageNodeIsMark(records[m], families[m], y);
    }
  }

  lemma FamilyIsNoPackage(family: string, o: string)
    ensures FamilyNode(family) != PackageNode(o)
  {
    assert FamilyNode(family)[0] == 'f' && PackageNode(o)[0] == 'p';
  }

  lemma FamilyNodeTells(a: string, b: string)
    requires FamilyNode(a) == FamilyNode(b)
    ensures a == b
  {
    SamePrefix("family:", a, b);
  }

  lemma {:induction false} PackageNodeTells(a: string, b: string)
    requires PackageNode(a) == PackageNode(b)
    ensures Package(a) == Package(b)
  {
    SamePrefix("package:", Package(a), Package(b));
  }

  lemma CommonPackageMark(a: Command, b: Command, f: string, g: string, x: string)
    requires x in PackageMarks(a, f) && x in PackageMarks(b, g)
    ensures f == g || SharePackage(a, b)
  {
    hide FamilyNode, PackageNode;
    if x == FamilyNode(f) && x == FamilyNode(g) {
      FamilyNodeTells(f, g);
    } else if x == FamilyNode(f) {
      var y :| y in b.owners && x == PackageNode(y);
      FamilyIsNoPackage(f, y);
    } else if x == FamilyNode(g) {
      var y :| y in a.owners && x == PackageNode(y);
      FamilyIsNoPackage(g, y);
    } else {
      var y :| y in a.owners && x == PackageNode(y);
      var z :| z in b.owners && x == PackageNode(z);
      PackageNodeTells(y, z);
      SharePackageExactly(a, b);
    }
  }

  lemma {:induction false} PackageMarksAreLinked(rules: Rules, records: seq<Command>, families: seq<string>)
    requires |families| == |records| && DistinctNames(records)
    requires NamesComponents(AliasEdges(rules, records), CommandNodes(records), families)
    ensures MarksAreLinked(AllPackageMarks(records, families), JointLinks(rules, records))
  {
    var marks, links := AllPackageMarks(records, families), JointLinks(rules, records);
    forall k: nat, m: nat, x | k < |marks| && m < |marks| && x in marks[k] && x in marks[m] ensures Connected(links, k, m) {
      CommonPackageMark(records[k], records[m], families[k], families[m], x);
      if families[k] == families[m] {
        FamiliesAreAliasComponents(rules, records, families, k, m);
        MoreEdgesConnect(AliasLinks(rules, records), links, k, m);
      } else {
        EdgeConnects(links, k, m);
      }
    }
  }

  lemma {:induction false} PackageEdgesAreMarked(records: seq<Command>, families: seq<string>)
    requires |families| == |records|
    ensures EdgesAreMarked(PackageEdges(records, families), AllPackageMarks(records, families))
  {
    var marks := AllPackageMarks(records, families);
    forall x, y | (x, y) in PackageEdges(records, families) ensures exists m :: 0 <= m < |marks| && x in marks[m] && y in marks[m] {
      var m := PackageEdgeIsMarked(records, families, x, y);
      assert x in marks[m] && y in marks[m];
    }
  }

  /** One link of either kind keeps the document. */
  lemma {:induction false} LinkKeepsDocument(rules: Rules, records: seq<Command>, families: seq<string>,
                                             documents: seq<string>, k: nat, m: nat)
    requires |families| == |records| == |documents| && (k, m) in JointLinks(rules, records)
    requires NamesComponents(AliasEdges(rules, records), CommandNodes(records), families)
    requires NamesComponents(PackageEdges(records, families), FamilyNodes(families), documents)
    ensures NameAt(documents, k) == NameAt(documents, m)
  {
    if ShareAlias(rules, records[k].name, records[m].name) {
      SharedAliasIsFamily(rules, records, families, k, m);
      FamilyIsInOneDocument(records, families, documents, k, m);
    } else {
      SharedPackageIsDocument(records, families, documents, k, m);
    }
  }

  /**
   Two commands are of one document exactly when a chain of commands leads from one to the other, each sharing an alias
   or a package with the next: joining families first and packages then is joining both at once.
   */
  lemma {:induction false} DocumentsAreJointComponents(rules: Rules, records: seq<Command>, families: seq<string>,
                                                       documents: seq<string>, i: nat, j: nat)
    requires |families| == |records| == |documents| && DistinctNames(records) && i < |records| && j < |records|
    requires NamesComponents(AliasEdges(rules, records), CommandNodes(records), families)
    requires NamesComponents(PackageEdges(records, families), FamilyNodes(families), documents)
    ensures documents[i] == documents[j] <==> Connected(JointLinks(rules, records), i, j)
  {
    var links := JointLinks(rules, records);
    if documents[i] == documents[j] {
      var path :| WalkFrom(PackageEdges(records, families), FamilyNodes(families)[i], FamilyNodes(families)[j], path);
      PackageEdgesAreMarked(records, families);
      PackageMarksAreLinked(rules, records, families);
      WalkIsChain(PackageEdges(records, families), AllPackageMarks(records, families), links, path, i, j);
    }
    if Connected(links, i, j) {
      forall k: nat, m: nat | (k, m) in links ensures NameAt(documents, k) == NameAt(documents, m) {
        LinkKeepsDocument(rules, records, families, documents, k, m);
      }
      ChainAgrees(links, documents, i, j);
    }
  }

  // ---- rows

  /** Active commands joined by a chain of shared aliases and packages are in one split. */
  lemma ChainsStayInASplit(rules: Rules, records: seq<Command>, families: seq<string>, documents: seq<string>,
                           reserved: set<string>, rows: seq<Row>, i: nat, j: nat)
    requires IsPartition(rules, records, families, documents, reserved, rows) && i < |rows| && j < |rows|
    requires IsActive(rows[i]) && IsActive(rows[j]) && Connected(JointLinks(rules, records), i, j)
    ensures rows[i].split == rows[j].split
  {
    DocumentsAreJointComponents(rules, records, families, documents, i, j);
  }

  /** A command is marked as reserved exactly when a chain of shared aliases leads from it to one with a reserved alias. */
  lemma ReservedByChain(rules: Rules, records: seq<Command>, families: seq<string>, documents: seq<string>,
                        reserved: set<string>, rows: seq<Row>, i: nat)
    requires IsPartition(rules, records, families, documents, reserved, rows) && i < |rows|
    ensures RESERVED_ALIAS in rows[i].reasons <==>
            exists j: nat :: j < |rows| && Connected(AliasLinks(rules, records), i, j) && Touches(rules, records[j].name, reserved)
  {
    ReservedIsQuarantined(rules, records, families, documents, reserved, rows, i);
    forall j: nat | j < |rows| ensures rows[j].family == rows[i].family <==> Connected(AliasLinks(rules, records), i, j) {
      FamiliesAreAliasComponents(rules, records, families, i, j);
    }
  }

  // ---- which rows are active, and in which split

  /** Kept of a family: fewer than two of its commands have a lesser sample hash, or it is among the first two as sorted. */
  lemma KeptAreLeast(rules: Rules, members: seq<string>, kept: string, other: string)
    requires kept in KeptOf(rules, members) && other in members && other !in KeptOf(rules, members)
    ensures rules.sampleOrder(kept) <= rules.sampleOrder(other)
  {
    var sorted := SortBy(members, rules.sampleOrder);
    SortOrders(members, rules.sampleOrder);
    assert other in multiset(members) && multiset(sorted) == multiset(members);
    var j :| 0 <= j < |sorted| && sorted[j] == other;
    var i :| 0 <= i < |KeptOf(rules, members)| && KeptOf(rules, members)[i] == kept;
    assert sorted[i] == kept && i < 2 <= j;
  }

  lemma KeptCount(rules: Rules, members: seq<string>)
    ensures |KeptOf(rules, members)| == if |members| < 2 then |members| else 2
  {
    SortOrders(members, rules.sampleOrder);
  }

  /** The split of a document by its bucket out of a hundred. */
  ghost predicate IsSplitOf(bucket: nat, split: string) {
    split == if bucket < 70 then "train" else if bucket < 80 then "development" else if bucket < 90 then "calibration" else "test"
  }

  lemma SplitTells(bucket: nat)
    ensures IsSplitOf(bucket, AssignedSplit(bucket))
  {}

  /** Of a hundred buckets seventy go to train, and ten each to development, calibration and test. */
  lemma SplitsAreShares()
    ensures |set b: nat | b < 100 && AssignedSplit(b) == "train"| == 70
    ensures |set b: nat | b < 100 && AssignedSplit(b) == "development"| == 10
    ensures |set b: nat | b < 100 && AssignedSplit(b) == "calibration"| == 10
    ensures |set b: nat | b < 100 && AssignedSplit(b) == "test"| == 10
  {
    BetweenSize(0, 70);
    BetweenSize(70, 80);
    BetweenSize(80, 90);
    BetweenSize(90, 100);
    assert (set b: nat | b < 100 && AssignedSplit(b) == "train") == Between(0, 70);
    assert (set b: nat | b < 100 && AssignedSplit(b) == "development") == Between(70, 80);
    assert (set b: nat | b < 100 && AssignedSplit(b) == "calibration") == Between(80, 90);
    assert (set b: nat | b < 100 && AssignedSplit(b) == "test") == Between(90, 100);
  }

  /**
   A command is active exactly if no chain of aliases leads from it to a reserved one and it is among those kept of its
   family; then its split is its document's.
   */
  lemma {:induction false} ActiveExactly(rules: Rules, records: seq<Command>, families: seq<string>, documents: seq<string>,
                                         reserved: set<string>, rows: seq<Row>, i: nat)
    requires IsPartition(rules, records, families, documents, reserved, rows) && i < |rows|
    ensures IsActive(rows[i]) <==>
      !(exists j: nat :: j < |rows| && Connected(AliasLinks(rules, records), i, j) && Touches(rules, records[j].name, reserved))
      && records[i].name in KeptOf(rules, MembersOf(records, families, families[i]))
    ensures IsActive(rows[i]) ==> IsSplitOf(rules.bucket(documents[i]), rows[i].split)
  {
    ReservedByChain(rules, records, families, documents, reserved, rows, i);
    SplitTells(rules.bucket(documents[i]));
    hide Connected, AliasLinks, Touches, KeptOf;
    ReasonsTell(rules, records, families, documents, reserved, rows, i);
  }

  lemma {:induction false} ReasonsTell(rules: Rules, records: seq<Command>, families: seq<string>, documents: seq<string>,
                                       reserved: set<string>, rows: seq<Row>, i: nat)
    requires IsPartition(rules, records, families, documents, reserved, rows) && i < |rows|
    ensures IsActive(rows[i]) <==> !(RESERVED_ALIAS in rows[i].reasons) && records[i].name in KeptOf(rules, MembersOf(records, families, families[i]))
    ensures IsActive(rows[i]) ==> rows[i].split == AssignedSplit(rules.bucket(documents[i]))
  {
    assert RESERVED_ALIAS != FAMILY_CAP by { assert RESERVED_ALIAS[0] != FAMILY_CAP[0]; }
    hide KeptOf, Blocked, MembersOf;
    var bucket := rules.bucket(documents[i]);
    assert AssignedSplit(bucket) != QUARANTINE by { assert QUARANTINE[0] == 'q' && AssignedSplit(bucket)[0] != 'q'; }
  }
}
