/** Connected components of a finite graph. */
module Components {

  /** Some edge joins the two, in either direction. */
  ghost predicate Linked<T>(edges: set<(T, T)>, x: T, y: T) { (x, y) in edges || (y, x) in edges }

  ghost predicate Walk<T>(edges: set<(T, T)>, path: seq<T>) {
    path != [] && forall i :: 0 <= i < |path| - 1 ==> Linked(edges, path[i], path[i + 1])
  }

  ghost predicate WalkFrom<T>(edges: set<(T, T)>, x: T, y: T, path: seq<T>) {
    Walk(edges, path) && path[0] == x && path[|path| - 1] == y
  }

  /** The transitive closure of being joined by an edge. */
  ghost predicate Connected<T(!new)>(edges: set<(T, T)>, x: T, y: T) { exists path :: WalkFrom(edges, x, y, path) }

  lemma ConnectedToItself<T(!new)>(edges: set<(T, T)>, x: T)
    ensures Connected(edges, x, x)
  {
    assert WalkFrom(edges, x, x, [x]);
  }

  lemma EdgeConnects<T(!new)>(edges: set<(T, T)>, x: T, y: T)
    requires Linked(edges, x, y)
    ensures Connected(edges, x, y)
  {
    assert WalkFrom(edges, x, y, [x, y]);
  }

  lemma ConnectedIsSymmetric<T(!new)>(edges: set<(T, T)>, x: T, y: T)
    requires Connected(edges, x, y)
    ensures Connected(edges, y, x)
  {
    var path :| WalkFrom(edges, x, y, path);
    var back := seq(|path|, i requires 0 <= i < |path| => path[|path| - 1 - i]);
    forall i | 0 <= i < |back| - 1
      ensures Linked(edges, back[i], back[i + 1])
    {
      assert Linked(edges, path[|path| - 2 - i], path[|path| - 2 - i + 1]);
    }
    assert WalkFrom(edges, y, x, back);
  }

  lemma ConnectedIsTransitive<T(!new)>(edges: set<(T, T)>, x: T, y: T, z: T)
    requires Connected(edges, x, y) && Connected(edges, y, z)
    ensures Connected(edges, x, z)
  {
    var first :| WalkFrom(edges, x, y, first);
    var second :| WalkFrom(edges, y, z, second);
    var path := first + second[1..];
    forall i | 0 <= i < |path| - 1
      ensures Linked(edges, path[i], path[i + 1])
    {
      if i < |first| - 1 {
        assert Linked(edges, first[i], first[i + 1]);
      } else {
        var k := i - (|first| - 1);
        assert path[i] == second[k] && path[i + 1] == second[k + 1];
        assert Linked(edges, second[k], second[k + 1]);
      }
    }
    assert WalkFrom(edges, x, z, path);
  }

  lemma MoreEdgesConnect<T(!new)>(edges: set<(T, T)>, more: set<(T, T)>, x: T, y: T)
    requires edges <= more && Connected(edges, x, y)
    ensures Connected(more, x, y)
  {
    var path :| WalkFrom(edges, x, y, path);
    forall i | 0 <= i < |path| - 1
      ensures Linked(more, path[i], path[i + 1])
    {
      assert Linked(edges, path[i], path[i + 1]);
    }
    assert WalkFrom(more, x, y, path);
  }

  /** What agrees along every edge agrees along every walk. */
  lemma {:induction false} WalkAgrees<T, U>(edges: set<(T, T)>, rep: T -> U, path: seq<T>)
    requires Walk(edges, path) && forall x, y :: (x, y) in edges ==> rep(x) == rep(y)
    ensures rep(path[0]) == rep(path[|path| - 1])
    decreases |path|
  {
    if |path| > 1 {
      assert Linked(edges, path[0], path[1]);
      var rest := path[1..];
      forall i | 0 <= i < |rest| - 1 ensures Linked(edges, rest[i], rest[i + 1]) {
        assert Linked(edges, path[i + 1], path[i + 2]);
      }
      WalkAgrees(edges, rep, rest);
    }
  }

  /** Representatives that agree along edges and are reached by walks tell the components exactly. */
  lemma RepresentativesAreExact<T(!new)>(edges: set<(T, T)>, rep: T -> T, x: T, y: T)
    requires forall x, y :: (x, y) in edges ==> rep(x) == rep(y)
    requires Connected(edges, x, rep(x)) && Connected(edges, y, rep(y))
    ensures rep(x) == rep(y) <==> Connected(edges, x, y)
  {
    if rep(x) == rep(y) {
      ConnectedIsSymmetric(edges, y, rep(y));
      ConnectedIsTransitive(edges, x, rep(x), y);
    }
    if Connected(edges, x, y) {
      var path :| WalkFrom(edges, x, y, path);
      WalkAgrees(edges, rep, path);
    }
  }

  // ---- a graph of things told by their marks

  ghost predicate EdgesAreMarked<T(!new)>(edges: set<(T, T)>, marks: seq<set<T>>) {
    forall x, y :: (x, y) in edges ==> exists m :: 0 <= m < |marks| && x in marks[m] && y in marks[m]
  }

  ghost predicate MarksAreLinked<T(!new)>(marks: seq<set<T>>, links: set<(nat, nat)>) {
    forall k: nat, m: nat, x :: k < |marks| && m < |marks| && x in marks[k] && x in marks[m] ==> Connected(links, k, m)
  }

  /**
   If every edge joins two marks of one thing, and things with a common mark are linked, then a walk between marks is a
   chain of links between things.
   */
  lemma {:induction false} WalkIsChain<T(!new)>(edges: set<(T, T)>, marks: seq<set<T>>, links: set<(nat, nat)>, path: seq<T>, i: nat, j: nat)
    requires EdgesAreMarked(edges, marks) && MarksAreLinked(marks, links) && Walk(edges, path) && i < |marks| && j < |marks|
    requires path[0] in marks[i] && path[|path| - 1] in marks[j]
    ensures Connected(links, i, j)
    decreases |path|
  {
    if |path| > 1 {
      assert Linked(edges, path[0], path[1]);
      var m: nat :| m < |marks| && path[0] in marks[m] && path[1] in marks[m];
      var rest := path[1..];
      forall k | 0 <= k < |rest| - 1 ensures Linked(edges, rest[k], rest[k + 1]) {
        assert Linked(edges, path[k + 1], path[k + 2]);
      }
      WalkIsChain(edges, marks, links, rest, m, j);
      ConnectedIsTransitive(links, i, m, j);
    }
  }
}
