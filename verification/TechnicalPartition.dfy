/**
 Command families by shared aliases, and families joined by shared packages before they are split, so that no alias
 and no package is in two splits.
 */
module TechnicalPartition {
  import opened Components
  import opened NamedUnion

  const COMMANDS_PER_FAMILY: nat := 2

  const RESERVED_ALIAS: string := "reserved-physical-alias"
  const FAMILY_CAP: string := "fixed-hash-family-cap"
  const QUARANTINE: string := "quarantine"

  /** Bucket ceilings of the active splits, out of a hundred. */
  const TRAIN_CEILING: nat := 70
  const DEVELOPMENT_CEILING: nat := 80
  const CALIBRATION_CEILING: nat := 90

  datatype Command = Command(name: string, owners: seq<string>)

  datatype Row = Row(name: string, family: string, document: string, split: string, reasons: seq<string>)

  /** Aliases, digests and the hashes that choose: functions the model does not look into. */
  datatype Rules = Rules(
    aliases: string -> seq<string>,
    digest: string -> string,
    sampleOrder: string -> int,
    bucket: string -> nat)

  ghost predicate Faithful(rules: Rules) { forall a, b :: rules.digest(a) == rules.digest(b) ==> a == b }

  function AssignedSplit(bucket: nat): string {
    if bucket < TRAIN_CEILING then "train"
    else if bucket < DEVELOPMENT_CEILING then "development"
    else if bucket < CALIBRATION_CEILING then "calibration"
    else "test"
  }

  predicate IsActive(row: Row) { row.split != QUARANTINE }

  /** An owner is a package's name, or a section, a slash and the name, which has none. */
  ghost predicate IsPackage(owner: string, name: string) {
    '/' !in name && (owner == name || exists section :: InSection(owner, section, name))
  }

  ghost predicate InSection(owner: string, section: string, name: string) { owner == section + "/" + name }

  /** `owner.rsplit("/", 1)[-1]`: a package without its section. */
  function Package(owner: string): (r: string)
    ensures '/' !in r
  {
    if owner == "" then ""
    else if owner[|owner| - 1] == '/' then ""
    else Package(owner[..|owner| - 1]) + [owner[|owner| - 1]]
  }

  /** A name without a slash is its own package. */
  lemma {:induction false} PackageOfName(name: string)
    requires '/' !in name
    ensures Package(name) == name
  {
    if name != "" {
      assert name[|name| - 1] in name && name == name[..|name| - 1] + [name[|name| - 1]];
      PackageOfName(name[..|name| - 1]);
    }
  }

  /** A section in front of a name, which may hold slashes itself, is left out. */
  lemma {:induction false} PackageOfPath(section: string, name: string)
    requires '/' !in name
    ensures Package(section + "/" + name) == name
  {
    var owner := section + "/" + name;
    if name == "" {
      assert owner[|owner| - 1] == '/';
    } else {
      var last := |name| - 1;
      assert name[last] in name && owner[|owner| - 1] == name[last] && owner[..|owner| - 1] == section + "/" + name[..last];
      PackageOfPath(section, name[..last]);
      assert name == name[..last] + [name[last]];
    }
  }

  lemma {:induction false} PackageIsOwn(owner: string)
    ensures IsPackage(owner, Package(owner))
  {
    if owner != "" {
      var last := |owner| - 1;
      if owner[last] == '/' {
        assert InSection(owner, owner[..last], "");
      } else {
        PackageIsOwn(owner[..last]);
        assert owner == owner[..last] + [owner[last]];
        var name := Package(owner[..last]);
        if owner[..last] != name {
          var section :| InSection(owner[..last], section, name);
          assert InSection(owner, section, name + [owner[last]]);
        }
      }
    }
  }

  /** The name found is the one package of an owner. */
  lemma {:induction false} PackageExactly(owner: string, name: string)
    ensures IsPackage(owner, name) <==> Package(owner) == name
  {
    PackageIsOwn(owner);
    if IsPackage(owner, name) {
      if owner == name {
        PackageOfName(name);
      } else {
        var section :| InSection(owner, section, name);
        PackageOfPath(section, name);
      }
    }
  }

  function CommandNode(name: string): string { "command:" + name }

  function AliasNode(a: string): string { "alias:" + a }

  function FamilyNode(family: string): string { "family:" + family }

  function PackageNode(owner: string): string { "package:" + Package(owner) }

  // ---- the edges

  function Star(center: string, others: seq<string>): set<(string, string)> {
    if others == [] then {} else Star(center, others[..|others| - 1]) + {(center, others[|others| - 1])}
  }

  lemma {:induction false} StarHas(center: string, others: seq<string>, x: string, y: string)
    ensures (x, y) in Star(center, others) <==> x == center && y in others
  {
    if others != [] {
      StarHas(center, others[..|others| - 1], x, y);
      assert others == others[..|others| - 1] + [others[|others| - 1]];
    }
  }

  function AliasNodes(aliases: seq<string>): (r: seq<string>)
    ensures |r| == |aliases|
  {
    seq(|aliases|, k requires 0 <= k < |aliases| => AliasNode(aliases[k]))
  }

  function PackageNodes(owners: seq<string>): (r: seq<string>)
    ensures |r| == |owners|
  {
    seq(|owners|, k requires 0 <= k < |owners| => PackageNode(owners[k]))
  }

  /** Each command with each of its aliases. */
  function AliasEdges(rules: Rules, records: seq<Command>): set<(string, string)> {
    if records == [] then {}
    else
      var last := records[|records| - 1];
      AliasEdges(rules, records[..|records| - 1]) + Star(CommandNode(last.name), AliasNodes(rules.aliases(last.name)))
  }

  /** Each command's family with each of its packages. */
  function PackageEdges(records: seq<Command>, families: seq<string>): set<(string, string)>
    requires |families| == |records|
  {
    if records == [] then {}
    else
      var last := |records| - 1;
      PackageEdges(records[..last], families[..last]) + Star(FamilyNode(families[last]), PackageNodes(records[last].owners))
  }

  lemma {:induction false} AliasEdgeOf(rules: Rules, records: seq<Command>, i: nat, a: string)
    requires i < |records| && a in rules.aliases(records[i].name)
    ensures (CommandNode(records[i].name), AliasNode(a)) in AliasEdges(rules, records)
  {
    var last := |records| - 1;
    if i < last {
      AliasEdgeOf(rules, records[..last], i, a);
    } else {
      var k :| 0 <= k < |rules.aliases(records[i].name)| && rules.aliases(records[i].name)[k] == a;
      assert AliasNodes(rules.aliases(records[i].name))[k] == AliasNode(a);
      StarHas(CommandNode(records[i].name), AliasNodes(rules.aliases(records[i].name)), CommandNode(records[i].name), AliasNode(a));
    }
  }

  lemma {:induction false} PackageEdgeOf(records: seq<Command>, families: seq<string>, i: nat, owner: string)
    requires |families| == |records| && i < |records| && owner in records[i].owners
    ensures (FamilyNode(families[i]), PackageNode(owner)) in PackageEdges(records, families)
  {
    var last := |records| - 1;
    if i < last {
      PackageEdgeOf(records[..last], families[..last], i, owner);
    } else {
      var k :| 0 <= k < |records[i].owners| && records[i].owners[k] == owner;
      assert PackageNodes(records[i].owners)[k] == PackageNode(owner);
      StarHas(FamilyNode(families[i]), PackageNodes(records[i].owners), FamilyNode(families[i]), PackageNode(owner));
    }
  }

  // ---- families and documents

  /** Joins a node with each of some others. */
  method JoinStar(union: Union, center: string, others: seq<string>)
    requires union.Valid()
    modifies union
    ensures union.Valid() && union.edges == old(union.edges) + Star(center, others)
    ensures old(union.parents).Keys <= union.parents.Keys
    ensures others != [] ==> center in union.parents
  {
    for k := 0 to |others|
      invariant union.Valid() && union.edges == old(union.edges) + Star(center, others[..k])
      invariant old(union.parents).Keys <= union.parents.Keys
      invariant k > 0 ==> center in union.parents
    {
      assert others[..k + 1][..k] == others[..k];
      union.Join(center, others[k]);
    }
    assert others[..|others|] == others;
  }

  /** Names for components: equal exactly for connected nodes. */
  ghost predicate NamesComponents(edges: set<(string, string)>, nodes: seq<string>, names: seq<string>)
    requires |names| == |nodes|
  {
    forall i, j :: 0 <= i < |nodes| && 0 <= j < |nodes| ==> (names[i] == names[j] <==> Connected(edges, nodes[i], nodes[j]))
  }

  /** The digest of each node's root. */
  method RootNames(rules: Rules, union: Union, nodes: seq<string>, prefix: string) returns (names: seq<string>)
    requires Faithful(rules) && union.Valid() && forall n :: n in nodes ==> n in union.parents
    modifies union
    ensures |names| == |nodes| && union.edges == old(union.edges) && NamesComponents(union.edges, nodes, names)
  {
    names := [];
    for k := 0 to |nodes|
      invariant union.Valid() && union.edges == old(union.edges) && union.rep == old(union.rep)
      invariant forall n :: n in nodes ==> n in union.parents
      invariant |names| == k && forall i :: 0 <= i < k ==> IsRootName(rules, union.rep, prefix, nodes[i], names[i])
    {
      assert nodes[k] in nodes;
      var root := union.Find(nodes[k]);
      names := names + [prefix + rules.digest(root)];
    }
    NamesAreExact(rules, union, nodes, names, prefix);
  }

  /** The node's root, under its digest. */
  ghost predicate IsRootName(rules: Rules, rep: map<string, string>, prefix: string, node: string, name: string) {
    node in rep && name == prefix + rules.digest(rep[node])
  }

  lemma NamesAreExact(rules: Rules, union: Union, nodes: seq<string>, names: seq<string>, prefix: string)
    requires Faithful(rules) && union.Valid() && |names| == |nodes|
    requires forall i :: 0 <= i < |nodes| ==> IsRootName(rules, union.rep, prefix, nodes[i], names[i])
    ensures NamesComponents(union.edges, nodes, names)
  {
    forall i, j | 0 <= i < |nodes| && 0 <= j < |nodes|
      ensures names[i] == names[j] <==> Connected(union.edges, nodes[i], nodes[j])
    {
      assert IsRootName(rules, union.rep, prefix, nodes[i], names[i]) && IsRootName(rules, union.rep, prefix, nodes[j], names[j]);
      SameRootIffConnected(union.parents, union.rep, union.edges, nodes[i], nodes[j]);
      SamePrefix(prefix, rules.digest(union.rep[nodes[i]]), rules.digest(union.rep[nodes[j]]));
    }
  }

  lemma SamePrefix(prefix: string, a: string, b: string)
    ensures prefix + a == prefix + b <==> a == b
  {
    assert (prefix + a)[|prefix|..] == a && (prefix + b)[|prefix|..] == b;
  }

  function CommandNodes(records: seq<Command>): (r: seq<string>)
    ensures |r| == |records|
  {
    seq(|records|, k requires 0 <= k < |records| => CommandNode(records[k].name))
  }

  function FamilyNodes(families: seq<string>): (r: seq<string>)
    ensures |r| == |families|
  {
    seq(|families|, k requires 0 <= k < |families| => FamilyNode(families[k]))
  }

  /** One command's node, joined with its aliases. */
  method JoinCommand(rules: Rules, union: Union, record: Command)
    requires union.Valid()
    modifies union
    ensures union.Valid() && old(union.parents).Keys <= union.parents.Keys && CommandNode(record.name) in union.parents
    ensures union.edges == old(union.edges) + Star(CommandNode(record.name), AliasNodes(rules.aliases(record.name)))
  {
    var anchor := CommandNode(record.name);
    var root := union.Find(anchor);
    JoinStar(union, anchor, AliasNodes(rules.aliases(record.name)));
  }

  lemma {:induction false} MoreAliasEdges(rules: Rules, records: seq<Command>, k: nat)
    requires k < |records|
    ensures AliasEdges(rules, records[..k + 1])
         == AliasEdges(rules, records[..k]) + Star(CommandNode(records[k].name), AliasNodes(rules.aliases(records[k].name)))
  {
    assert records[..k + 1][..k] == records[..k];
  }

  lemma MorePackageEdges(records: seq<Command>, families: seq<string>, k: nat)
    requires |families| == |records| && k < |records|
    ensures PackageEdges(records[..k + 1], families[..k + 1])
         == PackageEdges(records[..k], families[..k]) + Star(FamilyNode(families[k]), PackageNodes(records[k].owners))
  {
    assert records[..k + 1][..k] == records[..k] && families[..k + 1][..k] == families[..k];
  }

  ghost predicate AllIn(nodes: seq<string>, count: nat, parents: map<string, string>) {
    count <= |nodes| && forall i :: 0 <= i < count ==> nodes[i] in parents
  }

  method JoinCommands(rules: Rules, union: Union, records: seq<Command>, ghost nodes: seq<string>)
    requires union.Valid() && union.edges == {} && nodes == CommandNodes(records)
    modifies union
    ensures union.Valid() && union.edges == AliasEdges(rules, records) && AllIn(nodes, |records|, union.parents)
  {
    for k := 0 to |records|
      invariant union.Valid() && union.edges == AliasEdges(rules, records[..k]) && AllIn(nodes, k, union.parents)
    {
      MoreAliasEdges(rules, records, k);
      JoinCommand(rules, union, records[k]);
    }
    assert records[..|records|] == records;
  }

  method Families(rules: Rules, records: seq<Command>) returns (families: seq<string>)
    requires Faithful(rules)
    ensures |families| == |records| && NamesComponents(AliasEdges(rules, records), CommandNodes(records), families)
  {
    var union := new Union();
    JoinCommands(rules, union, records, CommandNodes(records));
    families := RootNames(rules, union, CommandNodes(records), "");
  }

  lemma NoPackageEdges(records: seq<Command>, families: seq<string>)
    requires |families| == |records|
    ensures PackageEdges(records[..0], families[..0]) == {}
  {}

  method JoinFamilies(union: Union, records: seq<Command>, families: seq<string>, ghost nodes: seq<string>)
    requires union.Valid() && union.edges == {} && |families| == |records| && nodes == FamilyNodes(families)
    requires forall i :: 0 <= i < |records| ==> records[i].owners != []
    modifies union
    ensures union.Valid() && union.edges == PackageEdges(records, families) && AllIn(nodes, |records|, union.parents)
  {
    hide PackageEdges, Star;
    NoPackageEdges(records, families);
    for k := 0 to |records|
      invariant union.Valid() && union.edges == PackageEdges(records[..k], families[..k]) && AllIn(nodes, k, union.parents)
    {
      MorePackageEdges(records, families, k);
      JoinStar(union, FamilyNode(families[k]), PackageNodes(records[k].owners));
    }
    assert records[..|records|] == records && families[..|families|] == families;
  }

  method Documents(rules: Rules, records: seq<Command>, families: seq<string>) returns (documents: seq<string>)
    requires Faithful(rules) && |families| == |records| && forall i :: 0 <= i < |records| ==> records[i].owners != []
    ensures |documents| == |records| && NamesComponents(PackageEdges(records, families), FamilyNodes(families), documents)
  {
    var union := new Union();
    JoinFamilies(union, records, families, FamilyNodes(families));
    documents := RootNames(rules, union, FamilyNodes(families), "debian-package-component:");
  }
}
