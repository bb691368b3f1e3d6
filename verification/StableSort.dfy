/** Stable sorting by an integer key: `np.argsort(keys, kind="stable")` and `sorted(..., key=...)`. */
module StableSort {

  /** Puts `x` before every element whose key is not smaller: it came first. */
  function Insert<T>(x: T, s: seq<T>, key: T -> int): seq<T> {
    if s == [] || key(x) <= key(s[0]) then [x] + s else [s[0]] + Insert(x, s[1..], key)
  }

  function SortBy<T>(s: seq<T>, key: T -> int): seq<T> {
    if s == [] then [] else Insert(s[0], SortBy(s[1..], key), key)
  }

  predicate Ordered<T>(s: seq<T>, key: T -> int) {
    forall i, j :: 0 <= i < j < |s| ==> key(s[i]) <= key(s[j])
  }

  predicate StrictlyOrdered<T>(s: seq<T>, key: T -> int) {
    forall i, j :: 0 <= i < j < |s| ==> key(s[i]) < key(s[j])
  }

  lemma {:induction false} InsertKeeps<T>(x: T, s: seq<T>, key: T -> int)
    ensures multiset(Insert(x, s, key)) == multiset{x} + multiset(s)
    decreases |s|
  {
    if s != [] && key(x) > key(s[0]) {
      InsertKeeps(x, s[1..], key);
      assert s == [s[0]] + s[1..];
    }
  }

  lemma {:induction false} InsertOrders<T>(x: T, s: seq<T>, key: T -> int)
    requires Ordered(s, key)
    ensures Ordered(Insert(x, s, key), key)
    decreases |s|
  {
    if s != [] && key(x) > key(s[0]) {
      var rest := Insert(x, s[1..], key);
      InsertOrders(x, s[1..], key);
      InsertKeeps(x, s[1..], key);
      forall i | 0 <= i < |rest|
        ensures key(s[0]) <= key(rest[i])
      {
        assert rest[i] in multiset(rest);
        assert rest[i] == x || rest[i] in s[1..];
      }
    }
  }

  /** Sorting gives the same elements in key order. */
  lemma {:induction false} SortOrders<T>(s: seq<T>, key: T -> int)
    ensures Ordered(SortBy(s, key), key)
    ensures multiset(SortBy(s, key)) == multiset(s)
    ensures |SortBy(s, key)| == |s|
    decreases |s|
  {
    if s != [] {
      SortOrders(s[1..], key);
      InsertOrders(s[0], SortBy(s[1..], key), key);
      InsertKeeps(s[0], SortBy(s[1..], key), key);
      assert s == [s[0]] + s[1..];
      assert |multiset(SortBy(s, key))| == |multiset(s)|;
    }
  }

  /** What is in order stays as it is. */
  lemma {:induction false} SortKeepsOrdered<T>(s: seq<T>, key: T -> int)
    requires Ordered(s, key)
    ensures SortBy(s, key) == s
    decreases |s|
  {
    if s != [] {
      SortKeepsOrdered(s[1..], key);
    }
  }

  lemma FirstIsLeast<T>(a: seq<T>, x: T, key: T -> int)
    requires Ordered(a, key) && x in a
    ensures key(a[0]) <= key(x)
  {
    var i :| 0 <= i < |a| && a[i] == x;
  }

  lemma FirstIsStrictlyLeast<T>(b: seq<T>, x: T, key: T -> int)
    requires StrictlyOrdered(b, key) && x in b
    ensures x == b[0] || key(b[0]) < key(x)
  {
    var j :| 0 <= j < |b| && b[j] == x;
  }

  lemma SameFirst<T>(a: seq<T>, b: seq<T>, key: T -> int)
    requires Ordered(a, key) && StrictlyOrdered(b, key) && multiset(a) == multiset(b)
    requires a != [] && b != []
    ensures a[0] == b[0]
  {
    assert b[0] in multiset(a) && a[0] in multiset(b);
    FirstIsLeast(a, b[0], key);
    FirstIsStrictlyLeast(b, a[0], key);
  }

  lemma SameRest<T>(a: seq<T>, b: seq<T>)
    requires a != [] && b != [] && a[0] == b[0] && multiset(a) == multiset(b)
    ensures multiset(a[1..]) == multiset(b[1..])
  {
    assert a == [a[0]] + a[1..] && b == [b[0]] + b[1..];
    assert multiset(a[1..]) == multiset(a) - multiset{a[0]};
    assert multiset(b[1..]) == multiset(b) - multiset{b[0]};
  }

  /** With distinct keys there is one ordered arrangement, whatever order the elements come in. */
  lemma {:induction false} StrictIsUnique<T>(a: seq<T>, b: seq<T>, key: T -> int)
    requires Ordered(a, key) && StrictlyOrdered(b, key) && multiset(a) == multiset(b)
    ensures a == b
    decreases |a|
  {
    assert |multiset(a)| == |a| && |multiset(b)| == |b|;
    if a != [] {
      SameFirst(a, b, key);
      SameRest(a, b);
      StrictIsUnique(a[1..], b[1..], key);
      assert a == [a[0]] + a[1..] && b == [b[0]] + b[1..];
    }
  }

  lemma {:induction false} SortIsUnique<T>(a: seq<T>, b: seq<T>, key: T -> int)
    requires StrictlyOrdered(b, key) && multiset(a) == multiset(b)
    ensures SortBy(a, key) == b
  {
    SortOrders(a, key);
    StrictIsUnique(SortBy(a, key), b, key);
  }

  lemma {:induction false} InsertAppends<T>(x: T, a: seq<T>, b: seq<T>, key: T -> int)
    requires forall y :: y in b ==> key(x) <= key(y)
    ensures Insert(x, a + b, key) == Insert(x, a, key) + b
    decreases |a|
  {
    if a == [] {
      assert a + b == b;
      if b != [] { assert b[0] in b; }
    } else if key(x) > key(a[0]) {
      assert (a + b)[1..] == a[1..] + b;
      InsertAppends(x, a[1..], b, key);
    }
  }

  /** Blocks whose keys do not overlap are sorted one by one. */
  lemma {:induction false} SortSplits<T>(a: seq<T>, b: seq<T>, key: T -> int)
    requires forall x, y :: x in a && y in b ==> key(x) <= key(y)
    ensures SortBy(a + b, key) == SortBy(a, key) + SortBy(b, key)
    decreases |a|
  {
    if a == [] {
      assert a + b == b;
    } else {
      assert (a + b)[1..] == a[1..] + b;
      SortSplits(a[1..], b, key);
      SortOrders(b, key);
      forall y | y in SortBy(b, key)
        ensures key(a[0]) <= key(y)
      {
        assert y in multiset(SortBy(b, key));
      }
      InsertAppends(a[0], SortBy(a[1..], key), SortBy(b, key), key);
    }
  }

  function Map<S, T>(f: S -> T, s: seq<S>): (r: seq<T>)
    ensures |r| == |s| && forall k :: 0 <= k < |s| ==> r[k] == f(s[k])
  {
    seq(|s|, k requires 0 <= k < |s| => f(s[k]))
  }

  lemma {:induction false} InsertMaps<S, T>(x: S, s: seq<S>, f: S -> T, key: S -> int, other: T -> int)
    requires forall y :: y == x || y in s ==> key(y) == other(f(y))
    ensures Map(f, Insert(x, s, key)) == Insert(f(x), Map(f, s), other)
    decreases |s|
  {
    if s != [] {
      assert s[0] in s;
      if key(x) > key(s[0]) {
        InsertMaps(x, s[1..], f, key, other);
        assert Map(f, s)[1..] == Map(f, s[1..]);
      }
    }
  }

  /** Sorting the pictures by a key is sorting the elements by the key of their picture. */
  lemma {:induction false} SortMaps<S, T>(s: seq<S>, f: S -> T, key: S -> int, other: T -> int)
    requires forall y :: y in s ==> key(y) == other(f(y))
    ensures Map(f, SortBy(s, key)) == SortBy(Map(f, s), other)
    decreases |s|
  {
    if s != [] {
      SortMaps(s[1..], f, key, other);
      SortOrders(s[1..], key);
      forall y | y == s[0] || y in SortBy(s[1..], key)
        ensures key(y) == other(f(y))
      {
        if y != s[0] { assert y in multiset(SortBy(s[1..], key)); }
      }
      InsertMaps(s[0], SortBy(s[1..], key), f, key, other);
      assert Map(f, s)[1..] == Map(f, s[1..]);
    }
  }

  // ---- rearrangements

  function Without<T>(s: seq<T>, i: nat): (r: seq<T>)
    requires i < |s|
    ensures |r| == |s| - 1
  {
    s[..i] + s[i + 1..]
  }

  lemma WithoutRemoves<T>(s: seq<T>, i: nat)
    requires i < |s|
    ensures multiset(Without(s, i)) == multiset(s) - multiset{s[i]}
  {
    assert s == s[..i] + [s[i]] + s[i + 1..];
  }

  lemma PlaceOf<T>(s: seq<T>, x: T) returns (i: nat)
    requires x in multiset(s)
    ensures i < |s| && s[i] == x
  {
    i :| i < |s| && s[i] == x;
  }

  /** Two places of a sequence have two places in any rearrangement of it. */
  lemma PairElsewhere<T>(a: seq<T>, b: seq<T>, i: nat, j: nat) returns (p: nat, q: nat)
    requires multiset(a) == multiset(b) && i < j < |a|
    ensures p < |b| && q < |b| && p != q && b[p] == a[i] && b[q] == a[j]
  {
    assert a[i] in multiset(a);
    p := PlaceOf(b, a[i]);
    WithoutRemoves(a, i);
    WithoutRemoves(b, p);
    assert Without(a, i)[j - 1] == a[j];
    assert a[j] in multiset(Without(a, i));
    var k := PlaceOf(Without(b, p), a[j]);
    q := if k < p then k else k + 1;
  }

  // ---- argsort

  function Indices(n: nat): (r: seq<int>)
    ensures |r| == n && forall k :: 0 <= k < n ==> r[k] == k
  {
    seq<int>(n, k => k)
  }

  function KeyAt(keys: seq<int>): int -> int {
    k => if 0 <= k < |keys| then keys[k] else 0
  }

  /** The positions of `keys` in the stable order of their values. */
  function ArgSort(keys: seq<int>): seq<int> { SortBy(Indices(|keys|), KeyAt(keys)) }

  lemma ArgSortPermutes(keys: seq<int>)
    ensures |ArgSort(keys)| == |keys|
    ensures multiset(ArgSort(keys)) == multiset(Indices(|keys|))
    ensures forall k :: k in ArgSort(keys) ==> 0 <= k < |keys|
  {
    SortOrders<int>(Indices(|keys|), KeyAt(keys));
    forall k | k in ArgSort(keys)
      ensures 0 <= k < |keys|
    {
      assert k in multiset(ArgSort(keys));
      assert k in Indices(|keys|);
    }
  }
}
