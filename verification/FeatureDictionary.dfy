/**
 The feature names seen so far (`Dictionary`), by id, with the first of each name's two hashes kept sorted so that a
 hash finds its name; the second hash checks that it is the right one.
 */
module FeatureDictionary {
  import opened Wrappers
  import opened Names
  import opened StableSort

  datatype DictionaryError = NameTwice | SharedHash

  /** A name's two hashes. */
  datatype Hashes = Hashes(first: int, second: int)

  ghost predicate Rising(s: seq<int>) { forall i, j :: 0 <= i < j < |s| ==> s[i] < s[j] }

  ghost predicate AllDiffer(s: seq<int>) { forall i, j :: 0 <= i < j < |s| ==> s[i] != s[j] }

  predicate NoneRepeatsNext(s: seq<int>) { forall k :: 0 <= k < |s| - 1 ==> s[k] != s[k + 1] }

  /** Reads a list at some places: `values[order]`. */
  function Pick(values: seq<int>, order: seq<int>): (r: seq<int>)
    requires forall k :: 0 <= k < |order| ==> 0 <= order[k] < |values|
    ensures |r| == |order| && forall k :: 0 <= k < |r| ==> r[k] == values[order[k]]
  {
    seq(|order|, k requires 0 <= k < |order| => values[order[k]])
  }

  /** `np.arange(start, start + count)`. */
  function Arange(start: nat, count: nat): (r: seq<int>)
    ensures |r| == count && forall k :: 0 <= k < count ==> r[k] == start + k
  {
    seq(count, k => start + k)
  }

  function FirstOf(hashes: seq<Hashes>): (r: seq<int>)
    ensures |r| == |hashes| && forall k :: 0 <= k < |r| ==> r[k] == hashes[k].first
  {
    seq(|hashes|, k requires 0 <= k < |hashes| => hashes[k].first)
  }

  function Paired(first: seq<int>, second: seq<int>): (r: seq<Hashes>)
    requires |first| == |second|
    ensures |r| == |first| && forall k :: 0 <= k < |r| ==> r[k] == Hashes(first[k], second[k])
  {
    seq(|first|, k requires 0 <= k < |first| => Hashes(first[k], second[k]))
  }

  // ---- the three lists

  /** Each place holds the hashes of the name whose id it holds. */
  ghost predicate Tells(hashes: seq<Hashes>, first: seq<int>, second: seq<int>, ids: seq<int>) {
    |first| == |second| == |ids| == |hashes|
    && forall p :: 0 <= p < |ids| ==> 0 <= ids[p] < |hashes| && hashes[ids[p]] == Hashes(first[p], second[p])
  }

  /** Every id has a place. */
  ghost predicate HasAll(ids: seq<int>, count: nat) { forall i :: 0 <= i < count ==> i in ids }

  lemma PlaceOfId(ids: seq<int>, count: nat, i: nat) returns (p: nat)
    requires HasAll(ids, count) && i < count
    ensures p < |ids| && ids[p] == i
  {
    assert i in ids;
    p :| p < |ids| && ids[p] == i;
  }

  lemma TellsMore(hashes: seq<Hashes>, first: seq<int>, second: seq<int>, ids: seq<int>, moreFirst: seq<int>, moreSecond: seq<int>)
    requires Tells(hashes, first, second, ids) && HasAll(ids, |hashes|) && |moreFirst| == |moreSecond|
    ensures var more := hashes + Paired(moreFirst, moreSecond);
      Tells(more, first + moreFirst, second + moreSecond, ids + Arange(|hashes|, |moreFirst|))
      && HasAll(ids + Arange(|hashes|, |moreFirst|), |more|)
  {
    var all := ids + Arange(|hashes|, |moreFirst|);
    forall i | 0 <= i < |hashes| + |moreFirst| ensures i in all {
      if i >= |hashes| { assert all[i] == i; }
    }
  }

  lemma OrderHasAll(keys: seq<int>, k: nat) returns (p: nat)
    requires k < |keys|
    ensures p < |ArgSort(keys)| && ArgSort(keys)[p] == k
  {
    ArgSortPermutes(keys);
    assert Indices(|keys|)[k] == k && k in Indices(|keys|);
    assert k in multiset(ArgSort(keys));
    p := PlaceOf<int>(ArgSort(keys), k);
  }

  lemma OrderIsInside(keys: seq<int>)
    ensures |ArgSort(keys)| == |keys| && forall k :: 0 <= k < |keys| ==> 0 <= ArgSort(keys)[k] < |keys|
  {
    ArgSortPermutes(keys);
    forall k | 0 <= k < |keys| ensures 0 <= ArgSort(keys)[k] < |keys| {
      assert ArgSort(keys)[k] in ArgSort(keys);
    }
  }

  lemma TellsSorted(hashes: seq<Hashes>, first: seq<int>, second: seq<int>, ids: seq<int>)
    requires Tells(hashes, first, second, ids) && HasAll(ids, |hashes|)
    ensures |ArgSort(first)| == |first| && forall k :: 0 <= k < |first| ==> 0 <= ArgSort(first)[k] < |first|
    ensures var order := ArgSort(first);
      Tells(hashes, Pick(first, order), Pick(second, order), Pick(ids, order)) && HasAll(Pick(ids, order), |hashes|)
  {
    OrderIsInside(first);
    var order := ArgSort(first);
    forall i | 0 <= i < |hashes| ensures i in Pick(ids, order) {
      var k := PlaceOfId(ids, |hashes|, i);
      var p := OrderHasAll(first, k);
      assert Pick(ids, order)[p] == i;
    }
  }

  // ---- shared hashes

  lemma SortedKeysRise(keys: seq<int>)
    ensures |ArgSort(keys)| == |keys| && forall k :: 0 <= k < |keys| ==> 0 <= ArgSort(keys)[k] < |keys|
    ensures forall i, j :: 0 <= i < j < |keys| ==> Pick(keys, ArgSort(keys))[i] <= Pick(keys, ArgSort(keys))[j]
  {
    OrderIsInside(keys);
    SortOrders<int>(Indices(|keys|), KeyAt(keys));
    forall i, j | 0 <= i < j < |keys| ensures Pick(keys, ArgSort(keys))[i] <= Pick(keys, ArgSort(keys))[j] {
      assert KeyAt(keys)(ArgSort(keys)[i]) <= KeyAt(keys)(ArgSort(keys)[j]);
    }
  }

  lemma {:induction false} NextSuffices(s: seq<int>, i: nat, j: nat)
    requires i < j < |s| && NoneRepeatsNext(s) && forall i, j :: 0 <= i < j < |s| ==> s[i] <= s[j]
    ensures s[i] < s[j]
    decreases j
  {
    if i < j - 1 {
      NextSuffices(s, i, j - 1);
    } else {
      assert s[i] != s[i + 1];
    }
  }

  /** Comparing neighbours of the sorted hashes tells whether any two are shared. */
  lemma NeighboursTell(keys: seq<int>)
    ensures |ArgSort(keys)| == |keys| && forall k :: 0 <= k < |keys| ==> 0 <= ArgSort(keys)[k] < |keys|
    ensures NoneRepeatsNext(Pick(keys, ArgSort(keys))) <==> AllDiffer(keys)
    ensures AllDiffer(keys) ==> Rising(Pick(keys, ArgSort(keys)))
  {
    SortedKeysRise(keys);
    var order, sorted := ArgSort(keys), Pick(keys, ArgSort(keys));
    if AllDiffer(keys) {
      forall k | 0 <= k < |sorted| - 1 ensures sorted[k] != sorted[k + 1] {
        DifferentPlaces(keys, k, k + 1);
      }
    }
    if NoneRepeatsNext(sorted) {
      forall i, j | 0 <= i < j < |sorted| ensures sorted[i] < sorted[j] {
        NextSuffices(sorted, i, j);
      }
      forall i, j | 0 <= i < j < |keys| ensures keys[i] != keys[j] {
        var p := OrderHasAll(keys, i);
        var q := OrderHasAll(keys, j);
        assert sorted[p] == keys[i] && sorted[q] == keys[j] && p != q;
      }
    }
  }

  lemma DifferentPlaces(keys: seq<int>, i: nat, j: nat)
    requires i < j < |keys|
    ensures |ArgSort(keys)| == |keys| && ArgSort(keys)[i] != ArgSort(keys)[j]
  {
    ArgSortPermutes(keys);
    var p, q := PairElsewhere(ArgSort(keys), Indices(|keys|), i, j);
  }

  // ---- the dictionary

  class Dictionary {
    var names: seq<string>
    var index: map<string, nat>
    var first: seq<int>
    var second: seq<int>
    var ids: seq<int>
    ghost var hashes: seq<Hashes>

    ghost predicate Valid()
      reads this
    {
      && |names| == |hashes| && Distinct(names) && IsIndex(index, names)
      && Tells(hashes, first, second, ids) && HasAll(ids, |hashes|) && Rising(first)
    }

    constructor ()
      ensures Valid() && names == [] && hashes == []
    {
      names, index, first, second, ids, hashes := [], map[], [], [], [], [];
    }

    /** New names get the next numbers, unless one is there twice. */
    method IndexNames(moreNames: seq<string>) returns (twice: bool)
      requires Distinct(names) && IsIndex(index, names)
      modifies `index
      ensures twice == !Distinct(names + moreNames)
      ensures !twice ==> IsIndex(index, names + moreNames)
    {
      var start := |names|;
      for offset := 0 to |moreNames|
        invariant IsIndex(index, names + moreNames[..offset]) && Distinct(names + moreNames[..offset])
      {
        var name := moreNames[offset];
        if name in index {
          IsTwice(names, moreNames, offset, index);
          return true;
        }
        OneNameMore(names, moreNames, offset, index);
        index := index[name := start + offset];
      }
      assert moreNames[..|moreNames|] == moreNames;
      return false;
    }

    /** New names with their hashes; refused if a name or a first hash is there twice. */
    method Add(moreFirst: seq<int>, moreSecond: seq<int>, moreNames: seq<string>) returns (error: Option<DictionaryError>)
      requires Valid() && |moreFirst| == |moreSecond| == |moreNames|
      modifies this
      ensures error == Some(NameTwice) <==> !Distinct(old(names) + moreNames)
      ensures error == Some(SharedHash) <==> Distinct(old(names) + moreNames) && !AllDiffer(FirstOf(old(hashes) + Paired(moreFirst, moreSecond)))
      ensures error.None? ==> Valid() && names == old(names) + moreNames && hashes == old(hashes) + Paired(moreFirst, moreSecond)
    {
      var start := |names|;
      var twice := IndexNames(moreNames);
      if twice { return Some(NameTwice); }
      hide IsIndex, Distinct;
      TellsMore(hashes, first, second, ids, moreFirst, moreSecond);
      AllFirsts(hashes, first, second, ids, moreFirst, moreSecond);
      var keys, checks, all := first + moreFirst, second + moreSecond, ids + Arange(start, |moreNames|);
      hashes := hashes + Paired(moreFirst, moreSecond);
      names := names + moreNames;
      TellsSorted(hashes, keys, checks, all);
      NeighboursTell(keys);
      var order := ArgSort(keys);
      first, second, ids := Pick(keys, order), Pick(checks, order), Pick(all, order);
      if |first| > 1 && !NoneRepeatsNext(first) { return Some(SharedHash); }
      assert NoneRepeatsNext(first);
      return None;
    }

    /** Whether a name has this first hash, and the place that holds it. */
    method Lookup(hash: int) returns (known: bool, position: nat)
      requires Valid()
      ensures known <==> exists i :: 0 <= i < |hashes| && hashes[i].first == hash
      ensures known ==> position < |ids| && 0 <= ids[position] < |names|
                        && hashes[ids[position]] == Hashes(hash, second[position])
    {
      if |first| == 0 { return false, 0; }
      var at := SearchSorted(first, hash);
      position := if at <= |first| - 1 then at else |first| - 1;
      known := first[position] == hash;
      if i :| 0 <= i < |hashes| && hashes[i].first == hash {
        var p := PlaceOfId(ids, |hashes|, i);
        assert first[p] == hash;
      }
    }
  }

  /** Every name's place in the list. */
  ghost predicate IsIndex(index: map<string, nat>, names: seq<string>) {
    (forall n :: n in index <==> n in names) && forall n :: n in index ==> index[n] < |names| && names[index[n]] == n
  }

  lemma IsTwice(names: seq<string>, more: seq<string>, offset: nat, index: map<string, nat>)
    requires offset < |more| && IsIndex(index, names + more[..offset]) && more[offset] in index
    ensures !Distinct(names + more)
  {
    var i, all := index[more[offset]], names + more;
    assert all[i] == (names + more[..offset])[i] && all[|names| + offset] == more[offset];
  }

  lemma OneNameMore(names: seq<string>, more: seq<string>, offset: nat, index: map<string, nat>)
    requires offset < |more| && IsIndex(index, names + more[..offset]) && Distinct(names + more[..offset]) && more[offset] !in index
    ensures IsIndex(index[more[offset] := |names| + offset], names + more[..offset + 1]) && Distinct(names + more[..offset + 1])
  {
    assert names + more[..offset + 1] == names + more[..offset] + [more[offset]];
  }

  lemma OldFirsts(hashes: seq<Hashes>, first: seq<int>, second: seq<int>, ids: seq<int>)
    requires Tells(hashes, first, second, ids) && HasAll(ids, |hashes|) && Rising(first)
    ensures AllDiffer(FirstOf(hashes)) && forall x :: x in first <==> x in FirstOf(hashes)
  {
    forall i, j | 0 <= i < j < |hashes| ensures hashes[i].first != hashes[j].first {
      var p := PlaceOfId(ids, |hashes|, i);
      var q := PlaceOfId(ids, |hashes|, j);
      assert first[p] != first[q];
    }
    forall x ensures x in first <==> x in FirstOf(hashes) {
      if x in first {
        var p :| 0 <= p < |first| && first[p] == x;
        assert FirstOf(hashes)[ids[p]] == x;
      }
      if x in FirstOf(hashes) {
        var i :| 0 <= i < |hashes| && FirstOf(hashes)[i] == x;
        var p := PlaceOfId(ids, |hashes|, i);
        assert first[p] == x;
      }
    }
  }

  lemma DifferSplits(a: seq<int>, m: seq<int>)
    requires AllDiffer(a)
    ensures AllDiffer(a + m) <==> AllDiffer(m) && forall x :: x in m ==> x !in a
  {
    if AllDiffer(a + m) {
      forall i, j | 0 <= i < j < |m| ensures m[i] != m[j] {
        assert (a + m)[|a| + i] == m[i] && (a + m)[|a| + j] == m[j];
      }
      forall x | x in m ensures x !in a {
        var j :| 0 <= j < |m| && m[j] == x;
        assert (a + m)[|a| + j] == x;
        forall i | 0 <= i < |a| ensures a[i] != x {
          assert (a + m)[i] == a[i];
        }
      }
    } else {
      var i, j :| 0 <= i < j < |a + m| && (a + m)[i] == (a + m)[j];
      if i < |a| {
        assert m[j - |a|] in m && a[i] in a;
      } else {
        assert m[i - |a|] == m[j - |a|];
      }
    }
  }

  lemma AllFirsts(hashes: seq<Hashes>, first: seq<int>, second: seq<int>, ids: seq<int>, moreFirst: seq<int>, moreSecond: seq<int>)
    requires Tells(hashes, first, second, ids) && HasAll(ids, |hashes|) && Rising(first) && |moreFirst| == |moreSecond|
    ensures AllDiffer(first + moreFirst) <==> AllDiffer(FirstOf(hashes + Paired(moreFirst, moreSecond)))
  {
    OldFirsts(hashes, first, second, ids);
    assert FirstOf(hashes + Paired(moreFirst, moreSecond)) == FirstOf(hashes) + moreFirst;
    DifferSplits(first, moreFirst);
    DifferSplits(FirstOf(hashes), moreFirst);
  }

  /** `np.searchsorted`: how many of the rising values are below `x`. */
  method SearchSorted(values: seq<int>, x: int) returns (r: nat)
    requires Rising(values)
    ensures r <= |values|
    ensures forall i :: 0 <= i < r ==> values[i] < x
    ensures forall i :: r <= i < |values| ==> x <= values[i]
  {
    var low, high := 0, |values|;
    while low < high
      invariant low <= high <= |values|
      invariant forall i :: 0 <= i < low ==> values[i] < x
      invariant forall i :: high <= i < |values| ==> x <= values[i]
    {
      var middle := (low + high) / 2;
      if values[middle] < x {
        low := middle + 1;
      } else {
        high := middle;
      }
    }
    r := low;
  }
}
