/**
 The parents list of `assign`: parents only ever point to smaller indices, `root` halves paths as it climbs and
 `merge` keeps the smaller root.
 */
module UnionFind {

  /** `rep` names every index's root, whatever path leads there. */
  ghost predicate Leads(parents: seq<nat>, rep: seq<nat>) {
    |rep| == |parents|
    && forall x :: 0 <= x < |parents| ==> LeadsAt(parents, rep, x)
  }

  ghost predicate LeadsAt(parents: seq<nat>, rep: seq<nat>, x: int)
    requires |rep| == |parents| && 0 <= x < |parents|
  {
    parents[x] <= x && rep[parents[x]] == rep[x] && rep[x] <= x && parents[rep[x]] == rep[x]
    && (parents[x] == x ==> rep[x] == x)
  }

  /** Every index of `b`'s root now has `a`'s smaller one, or the other way round. */
  function Joined(rep: seq<nat>, left: nat, right: nat): (r: seq<nat>)
    requires left < |rep| && right < |rep|
    ensures |r| == |rep|
  {
    var low := if rep[left] < rep[right] then rep[left] else rep[right];
    seq(|rep|, k requires 0 <= k < |rep| => if rep[k] == rep[left] || rep[k] == rep[right] then low else At(rep, k))
  }

  function Identity(count: nat): (r: seq<nat>)
    ensures |r| == count && forall k :: 0 <= k < count ==> r[k] == k
  {
    seq<nat>(count, k => k)
  }

  function At(rep: seq<nat>, k: nat): nat
    requires k < |rep|
  {
    rep[k]
  }

  class Groups {
    var parents: array<nat>
    ghost var rep: seq<nat>

    ghost predicate Valid()
      reads this, parents
    {
      Leads(parents[..], rep)
    }

    constructor (count: nat)
      ensures Valid() && fresh(parents) && rep == Identity(count) && parents.Length == count
    {
      parents := new nat[count](k => k);
      rep := Identity(count);
    }

    /** Climbs to the root; each node on the way is moved up to its grandparent. */
    method Root(start: nat) returns (index: nat)
      requires Valid() && start < parents.Length
      modifies parents
      ensures Valid() && index == rep[start]
    {
      index := start;
      while index != parents[index]
        invariant index < parents.Length && Valid() && rep[index] == rep[start]
        decreases index
      {
        assert LeadsAt(parents[..], rep, index) && LeadsAt(parents[..], rep, parents[index]);
        ghost var before := parents[..];
        parents[index] := parents[parents[index]];
        Halved(before, rep, index);
        assert parents[..] == before[index := before[before[index]]];
        index := parents[index];
      }
      assert LeadsAt(parents[..], rep, index);
    }

    method Merge(left: nat, right: nat)
      requires Valid() && left < parents.Length && right < parents.Length
      modifies this`rep, parents
      ensures Valid() && rep == Joined(old(rep), left, right)
    {
      var a := Root(left);
      var b := Root(right);
      if a != b {
        ghost var before := parents[..];
        var high, low := if a > b then a else b, if a < b then a else b;
        assert LeadsAt(before, rep, left) && LeadsAt(before, rep, right);
        parents[high] := low;
        Linked(before, rep, left, right, high, low);
        assert parents[..] == before[high := low];
      }
      rep := Joined(rep, left, right);
      if a == b { assert rep == old(rep); }
    }
  }

  lemma Halved(parents: seq<nat>, rep: seq<nat>, index: nat)
    requires Leads(parents, rep) && index < |parents| && parents[index] != index
    ensures parents[index] < |parents| && Leads(parents[index := parents[parents[index]]], rep)
  {
    assert LeadsAt(parents, rep, index) && LeadsAt(parents, rep, parents[index]);
    var after := parents[index := parents[parents[index]]];
    forall x | 0 <= x < |after| ensures LeadsAt(after, rep, x) {
      assert LeadsAt(parents, rep, x);
    }
  }

  lemma Linked(parents: seq<nat>, rep: seq<nat>, left: nat, right: nat, high: nat, low: nat)
    requires Leads(parents, rep) && left < |parents| && right < |parents| && rep[left] != rep[right]
    requires high < |parents| && low < high && ((high == rep[left] && low == rep[right]) || (high == rep[right] && low == rep[left]))
    ensures Leads(parents[high := low], Joined(rep, left, right))
  {
    assert LeadsAt(parents, rep, left) && LeadsAt(parents, rep, right);
    var after, then_ := parents[high := low], Joined(rep, left, right);
    forall x | 0 <= x < |after| ensures LeadsAt(after, then_, x) {
      assert LeadsAt(parents, rep, x) && LeadsAt(parents, rep, parents[x]) && LeadsAt(parents, rep, low);
    }
  }
}
