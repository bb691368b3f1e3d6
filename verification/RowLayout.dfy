/**
 Rows of different lengths kept one after another in a flat list, with the length or the end of each: the
 layout of the packed matrices, the feature columns and the featurised chunks.
 */
module RowLayout {

  function Sum(counts: seq<nat>): nat {
    if counts == [] then 0 else Sum(counts[..|counts| - 1]) + counts[|counts| - 1]
  }

  function Lengths<T>(rows: seq<seq<T>>): (r: seq<nat>)
    ensures |r| == |rows| && forall k :: 0 <= k < |r| ==> r[k] == |rows[k]|
  {
    seq(|rows|, k requires 0 <= k < |rows| => |rows[k]|)
  }

  function Flatten<T>(rows: seq<seq<T>>): seq<T> {
    if rows == [] then [] else Flatten(rows[..|rows| - 1]) + rows[|rows| - 1]
  }

  lemma {:induction false} FlattenLength<T>(rows: seq<seq<T>>)
    ensures |Flatten(rows)| == Sum(Lengths(rows))
    decreases |rows|
  {
    if rows != [] {
      FlattenLength(rows[..|rows| - 1]);
      assert Lengths(rows)[..|rows| - 1] == Lengths(rows[..|rows| - 1]);
    }
  }

  /** Where each row starts: the running total of the lengths before it. */
  function Starts(counts: seq<nat>): (r: seq<nat>)
    ensures |r| == |counts|
  {
    seq(|counts|, k requires 0 <= k < |counts| => Sum(counts[..k]))
  }

  /** The running totals: where each row ends. */
  function Ends(counts: seq<nat>): (r: seq<nat>)
    ensures |r| == |counts|
  {
    seq(|counts|, k requires 0 <= k < |counts| => Sum(counts[..k + 1]))
  }

  lemma {:induction false} SumSplits(a: seq<nat>, b: seq<nat>)
    ensures Sum(a + b) == Sum(a) + Sum(b)
    decreases |b|
  {
    if b == [] {
      assert a + b == a;
    } else {
      assert (a + b)[..|a + b| - 1] == a + b[..|b| - 1];
      SumSplits(a, b[..|b| - 1]);
    }
  }

  lemma {:induction false} SumPrefix(counts: seq<nat>, i: nat, j: nat)
    requires i <= j <= |counts|
    ensures Sum(counts[..i]) <= Sum(counts[..j]) <= Sum(counts)
    ensures Sum(counts[..j]) == Sum(counts[..i]) + Sum(counts[i..j])
  {
    assert counts[..j] == counts[..i] + counts[i..j];
    SumSplits(counts[..i], counts[i..j]);
    assert counts == counts[..j] + counts[j..];
    SumSplits(counts[..j], counts[j..]);
  }

  lemma {:induction false} SumStep(counts: seq<nat>, k: nat)
    requires k < |counts|
    ensures Sum(counts[..k + 1]) == Sum(counts[..k]) + counts[k] <= Sum(counts)
  {
    assert counts[..k + 1][..k] == counts[..k];
    SumPrefix(counts, k + 1, |counts|);
  }

  lemma {:induction false} FlattenSplits<T>(a: seq<seq<T>>, b: seq<seq<T>>)
    ensures Flatten(a + b) == Flatten(a) + Flatten(b)
    decreases |b|
  {
    if b == [] {
      assert a + b == a;
    } else {
      var front, last := b[..|b| - 1], b[|b| - 1];
      FlattenSplits(a, front);
      assert (a + b)[..|a + b| - 1] == a + front && (a + b)[|a + b| - 1] == last;
      AppendAssociates(Flatten(a), Flatten(front), last);
    }
  }

  lemma AppendAssociates<T>(a: seq<T>, b: seq<T>, c: seq<T>)
    ensures a + (b + c) == a + b + c
  {}

  lemma FlattenOne<T>(row: seq<T>)
    ensures Flatten([row]) == row
  {
    assert [row][..0] == [];
  }

  /** Each row lies between its start and its end. */
  lemma {:induction false} RowAt<T>(rows: seq<seq<T>>, k: nat)
    requires k < |rows|
    ensures Sum(Lengths(rows)[..k]) + |rows[k]| <= |Flatten(rows)|
    ensures Flatten(rows)[Sum(Lengths(rows)[..k])..Sum(Lengths(rows)[..k]) + |rows[k]|] == rows[k]
  {
    var before, after := rows[..k], rows[k + 1..];
    assert rows == before + [rows[k]] + after;
    FlattenSplits(before + [rows[k]], after);
    FlattenSplits(before, [rows[k]]);
    FlattenOne(rows[k]);
    assert Lengths(rows)[..k] == Lengths(before);
    FlattenLength(before);
  }

  /** The rows a flat list and its lengths describe. */
  function Slices<T>(flat: seq<T>, counts: seq<nat>): (r: seq<seq<T>>)
    requires Sum(counts) == |flat|
    ensures |r| == |counts|
  {
    seq(|counts|, k requires 0 <= k < |counts| => Slice(flat, counts, k))
  }

  function Slice<T>(flat: seq<T>, counts: seq<nat>, k: nat): (r: seq<T>)
    requires Sum(counts) == |flat| && k < |counts|
    ensures |r| == counts[k]
    ensures Sum(counts[..k]) + |r| <= |flat|
    ensures forall j :: 0 <= j < |r| ==> r[j] == flat[Sum(counts[..k]) + j]
  {
    SumStep(counts, k);
    flat[Sum(counts[..k])..Sum(counts[..k]) + counts[k]]
  }

  lemma {:induction false} SlicesOfFlatten<T>(rows: seq<seq<T>>)
    ensures Sum(Lengths(rows)) == |Flatten(rows)|
    ensures Slices(Flatten(rows), Lengths(rows)) == rows
  {
    FlattenLength(rows);
    forall k | 0 <= k < |rows|
      ensures Slices(Flatten(rows), Lengths(rows))[k] == rows[k]
    {
      RowAt(rows, k);
    }
  }

  lemma {:induction false} FlattenOfSlices<T>(flat: seq<T>, counts: seq<nat>)
    requires Sum(counts) == |flat|
    ensures Lengths(Slices(flat, counts)) == counts
    ensures Flatten(Slices(flat, counts)) == flat
    decreases |counts|
  {
    if counts != [] {
      var last := |counts| - 1;
      var front := Sum(counts[..last]);
      FlattenOfSlices(flat[..front], counts[..last]);
      SlicesFront(flat, counts);
      assert Slices(flat, counts)[last] == flat[front..];
      assert flat == flat[..front] + flat[front..];
    }
  }

  lemma {:induction false} SlicesFront<T>(flat: seq<T>, counts: seq<nat>)
    requires Sum(counts) == |flat| && counts != []
    ensures Sum(counts[..|counts| - 1]) <= |flat|
    ensures Slices(flat, counts)[..|counts| - 1]
         == Slices(flat[..Sum(counts[..|counts| - 1])], counts[..|counts| - 1])
  {
    var last := |counts| - 1;
    forall k | 0 <= k < last
      ensures Slices(flat, counts)[k] == Slices(flat[..Sum(counts[..last])], counts[..last])[k]
    {
      SliceFront(flat, counts, k);
    }
  }

  lemma {:induction false} SliceFront<T>(flat: seq<T>, counts: seq<nat>, k: nat)
    requires Sum(counts) == |flat| && k < |counts| - 1
    ensures Sum(counts[..|counts| - 1]) <= |flat|
    ensures Slice(flat, counts, k) == Slice(flat[..Sum(counts[..|counts| - 1])], counts[..|counts| - 1], k)
  {
    var last := |counts| - 1;
    var front := Sum(counts[..last]);
    assert counts[..last][..k] == counts[..k];
    SumStep(counts[..last], k);
    var low, high := Sum(counts[..k]), Sum(counts[..k]) + counts[k];
    assert flat[low..high] == flat[..front][low..high];
  }

  lemma {:induction false} SlicesSplit<T>(a: seq<T>, b: seq<T>, m: seq<nat>, n: seq<nat>)
    requires Sum(m) == |a| && Sum(n) == |b|
    ensures Sum(m + n) == |a + b|
    ensures Slices(a + b, m + n) == Slices(a, m) + Slices(b, n)
  {
    SumSplits(m, n);
    FlattenOfSlices(a, m);
    FlattenOfSlices(b, n);
    FlattenSplits(Slices(a, m), Slices(b, n));
    SlicesOfFlatten(Slices(a, m) + Slices(b, n));
    assert Lengths(Slices(a, m) + Slices(b, n)) == m + n;
  }

  lemma RunPrefix(counts: seq<nat>, first: nat, last: nat, k: nat)
    requires first <= last <= |counts| && k <= last - first
    ensures counts[first..last][..k] == counts[first..first + k]
  {}

  lemma RunSums(counts: seq<nat>, first: nat, last: nat, k: nat)
    requires first <= last <= |counts| && k <= last - first
    ensures Sum(counts[first..last][..k]) == Sum(counts[..first + k]) - Sum(counts[..first])
  {
    RunPrefix(counts, first, last, k);
    SumPrefix(counts, first, first + k);
  }

  lemma SubSlice<T>(flat: seq<T>, low: nat, high: nat, at: nat, n: nat)
    requires low <= high <= |flat| && at + n <= high - low
    ensures flat[low..high][at..at + n] == flat[low + at..low + at + n]
  {
    var a, b := flat[low..high][at..at + n], flat[low + at..low + at + n];
    forall i | 0 <= i < n
      ensures a[i] == b[i]
    {
    }
  }

  lemma {:induction false} SliceIs<T>(flat: seq<T>, counts: seq<nat>, k: nat, start: nat, n: nat)
    requires Sum(counts) == |flat| && k < |counts| && start == Sum(counts[..k]) && n == counts[k]
    ensures start + n <= |flat| && Slice(flat, counts, k) == flat[start..start + n]
  {
    SumStep(counts, k);
  }

  /** The slices of a run of rows. */
  lemma {:induction false} SliceInside<T>(flat: seq<T>, counts: seq<nat>, first: nat, last: nat, k: nat, low: nat, high: nat)
    requires Sum(counts) == |flat| && first <= last <= |counts| && k < last - first
    requires low == Sum(counts[..first]) && high == Sum(counts[..last])
    ensures low <= high <= |flat|
    ensures Sum(counts[first..last]) == high - low
    ensures Slice(flat[low..high], counts[first..last], k) == Slice(flat, counts, first + k)
  {
    SumPrefix(counts, first, last);
    var start, n := Sum(counts[..first + k]), counts[first + k];
    SliceIs(flat, counts, first + k, start, n);
    RunSums(counts, first, last, k);
    SliceIs(flat[low..high], counts[first..last], k, start - low, n);
    SubSlice(flat, low, high, start - low, n);
  }
}
