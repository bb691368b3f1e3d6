/** Union-find over names: finding compresses the whole path, joining keeps the smaller root in string order. */
module NamedUnion {
  import opened StringOrder
  import opened Components

  ghost predicate SmallerOrSame(a: string, b: string) { a == b || Less(a, b) }

  ghost predicate LeadsAt(parents: map<string, string>, rep: map<string, string>, x: string)
    requires rep.Keys == parents.Keys
  {
    x in parents ==>
      && parents[x] in parents && SmallerOrSame(parents[x], x) && rep[parents[x]] == rep[x]
      && rep[x] in parents && SmallerOrSame(rep[x], x) && parents[rep[x]] == rep[x] && rep[rep[x]] == rep[x]
      && (parents[x] == x ==> rep[x] == x)
  }

  ghost predicate Leads(parents: map<string, string>, rep: map<string, string>) {
    rep.Keys == parents.Keys && forall x :: LeadsAt(parents, rep, x)
  }

  function Below(parents: map<string, string>, x: string): set<string> { set k | k in parents && Less(k, x) }

  /** Roots reached by the edges joined so far, and agreeing along them. */
  ghost predicate Follows(rep: map<string, string>, edges: set<(string, string)>) {
    && (forall x, y :: (x, y) in edges ==> x in rep && y in rep && rep[x] == rep[y])
    && (forall x :: x in rep ==> Connected(edges, x, rep[x]))
  }

  function Joined(rep: map<string, string>, a: string, b: string): map<string, string> {
    var low := if Less(a, b) then a else b;
    map x | x in rep :: if rep[x] == a || rep[x] == b then low else rep[x]
  }

  class Union {
    var parents: map<string, string>
    ghost var rep: map<string, string>
    ghost var edges: set<(string, string)>

    ghost predicate Valid()
      reads this
    {
      Leads(parents, rep) && Follows(rep, edges)
    }

    constructor ()
      ensures Valid() && parents == map[] && edges == {}
    {
      parents, rep, edges := map[], map[], {};
    }

    method Climb(value: string) returns (root: string, path: seq<string>)
      requires Valid() && value in parents
      ensures root == rep[value] && root in parents
      ensures forall p :: p in path ==> p in parents && rep[p] == root
    {
      root, path := value, [];
      while parents[root] != root
        invariant root in parents && rep[root] == rep[value]
        invariant forall p :: p in path ==> p in parents && rep[p] == rep[value]
        decreases Below(parents, root)
      {
        assert LeadsAt(parents, rep, root);
        LessBelow(parents, parents[root], root);
        path := path + [root];
        root := parents[root];
      }
      assert LeadsAt(parents, rep, root);
    }

    method Find(value: string) returns (root: string)
      requires Valid()
      modifies this`parents, this`rep
      ensures Valid() && parents.Keys == old(parents).Keys + {value}
      ensures rep == (if value in old(parents) then old(rep) else old(rep)[value := value])
      ensures root == rep[value] && root in parents
    {
      if value !in parents {
        Added(parents, rep, edges, value);
        parents, rep := parents[value := value], rep[value := value];
      }
      var path;
      root, path := Climb(value);
      for k := 0 to |path|
        invariant Valid() && parents.Keys == old(parents).Keys + {value}
        invariant rep == (if value in old(parents) then old(rep) else old(rep)[value := value])
        invariant root in parents && forall p :: p in path ==> p in parents && rep[p] == root
      {
        assert path[k] in path;
        Compressed(parents, rep, path[k], root);
        parents := parents[path[k] := root];
      }
    }

    /** Puts the larger root under the smaller. */
    method Link(a: string, b: string)
      requires Leads(parents, rep) && a in parents && b in parents && rep[a] == a && rep[b] == b && a != b
      modifies this`parents, this`rep
      ensures Leads(parents, rep) && parents.Keys == old(parents).Keys && rep == Joined(old(rep), a, b)
    {
      var high, low := if Less(b, a) then a else b, if Less(a, b) then a else b;
      LessIsTotal(a, b);
      Merged(parents, rep, a, b, high, low);
      parents := parents[high := low];
      rep := Joined(rep, a, b);
    }

    method Join(left: string, right: string)
      requires Valid()
      modifies this
      ensures Valid() && parents.Keys == old(parents).Keys + {left, right}
      ensures edges == old(edges) + {(left, right)}
    {
      var a := Find(left);
      var b := Find(right);
      Rooted(parents, rep, left);
      Rooted(parents, rep, right);
      FollowsJoin(rep, edges, left, right);
      SameRep(rep, a);
      if a != b { Link(a, b); }
      edges := edges + {(left, right)};
    }
  }

  lemma Rooted(parents: map<string, string>, rep: map<string, string>, x: string)
    requires Leads(parents, rep) && x in parents
    ensures rep[x] in parents && rep[rep[x]] == rep[x]
  {
    assert LeadsAt(parents, rep, x);
  }

  lemma LessBelow(parents: map<string, string>, x: string, y: string)
    requires x in parents && SmallerOrSame(x, y) && x != y
    ensures Below(parents, x) < Below(parents, y)
  {
    LessIsTotal(x, x);
    forall k | k in Below(parents, x) ensures k in Below(parents, y) {
      LessIsTransitive(k, x, y);
    }
    assert x in Below(parents, y) && x !in Below(parents, x);
  }

  lemma Added(parents: map<string, string>, rep: map<string, string>, edges: set<(string, string)>, value: string)
    requires Leads(parents, rep) && Follows(rep, edges) && value !in parents
    ensures Leads(parents[value := value], rep[value := value]) && Follows(rep[value := value], edges)
  {
    var p, r := parents[value := value], rep[value := value];
    forall x ensures LeadsAt(p, r, x) {
      assert LeadsAt(parents, rep, x);
    }
    forall x | x in r ensures Connected(edges, x, r[x]) {
      if x == value { ConnectedToItself(edges, value); }
    }
  }

  lemma Compressed(parents: map<string, string>, rep: map<string, string>, p: string, root: string)
    requires Leads(parents, rep) && p in parents && rep[p] == root
    ensures Leads(parents[p := root], rep)
  {
    var after := parents[p := root];
    assert LeadsAt(parents, rep, p);
    forall x ensures LeadsAt(after, rep, x) {
      assert LeadsAt(parents, rep, x);
    }
  }

  lemma SameRep(rep: map<string, string>, a: string)
    ensures Joined(rep, a, a) == rep
  {}

  lemma {:induction false} Merged(parents: map<string, string>, rep: map<string, string>, a: string, b: string, high: string,
                                  low: string)
    requires Leads(parents, rep) && a in parents && b in parents && rep[a] == a && rep[b] == b && a != b
    requires Less(low, high) && ((high == a && low == b && Less(b, a)) || (high == b && low == a && Less(a, b)))
    ensures Leads(parents[high := low], Joined(rep, a, b))
  {
    LessIsTotal(a, b);
    var p, r := parents[high := low], Joined(rep, a, b);
    forall x ensures LeadsAt(p, r, x) {
      MergedAt(parents, rep, a, b, high, low, x);
    }
  }

  lemma {:induction false} MergedAt(parents: map<string, string>, rep: map<string, string>, a: string, b: string,
                                    high: string, low: string, x: string)
    requires Leads(parents, rep) && a in parents && b in parents && rep[a] == a && rep[b] == b && a != b
    requires Less(low, high) && ((high == a && low == b && Less(b, a) && !Less(a, b)) || (high == b && low == a && Less(a, b)))
    ensures Joined(rep, a, b).Keys == parents.Keys
    ensures LeadsAt(parents[high := low], Joined(rep, a, b), x)
  {
    if x in parents {
      assert LeadsAt(parents, rep, x) && LeadsAt(parents, rep, parents[x]) && LeadsAt(parents, rep, low) && LeadsAt(parents, rep, high);
      if rep[x] == high && x != high { LessIsTransitive(low, high, x); }
    }
  }

  lemma FollowsJoin(rep: map<string, string>, edges: set<(string, string)>, left: string, right: string)
    requires Follows(rep, edges) && left in rep && right in rep
    ensures Follows(Joined(rep, rep[left], rep[right]), edges + {(left, right)})
  {
    var more, r := edges + {(left, right)}, Joined(rep, rep[left], rep[right]);
    EdgeConnects(more, left, right);
    EdgeConnects(more, right, left);
    forall x | x in r ensures Connected(more, x, r[x]) {
      ReachesJoined(rep, edges, more, left, right, x);
      ReachesJoined(rep, edges, more, right, left, x);
    }
  }

  /** Whoever reaches `left`'s root reaches both roots. */
  lemma ReachesJoined(rep: map<string, string>, edges: set<(string, string)>, more: set<(string, string)>, left: string, right: string, x: string)
    requires Follows(rep, edges) && left in rep && right in rep && x in rep && edges <= more && Connected(more, left, right)
    ensures Connected(more, x, rep[x])
    ensures rep[x] == rep[left] ==> Connected(more, x, rep[right])
  {
    MoreEdgesConnect(edges, more, x, rep[x]);
    if rep[x] == rep[left] {
      MoreEdgesConnect(edges, more, left, rep[left]);
      MoreEdgesConnect(edges, more, right, rep[right]);
      ConnectedIsSymmetric(more, left, rep[left]);
      ConnectedIsTransitive(more, x, rep[left], left);
      ConnectedIsTransitive(more, x, left, right);
      ConnectedIsTransitive(more, x, right, rep[right]);
    }
  }

  function RepOf(rep: map<string, string>): string -> string { x => if x in rep then rep[x] else x }

  /** Two names have one root exactly if joined edges connect them. */
  lemma SameRootIffConnected(parents: map<string, string>, rep: map<string, string>, edges: set<(string, string)>, x: string, y: string)
    requires Leads(parents, rep) && Follows(rep, edges) && x in rep && y in rep
    ensures rep[x] == rep[y] <==> Connected(edges, x, y)
  {
    RepresentativesAreExact(edges, RepOf(rep), x, y);
  }
}
