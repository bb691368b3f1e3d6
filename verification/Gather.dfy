/**
 Reading rows out of a flat list: `gather_index` of context_action_pipeline.py, its counterpart on the device
 and the frames put in order by `Chunks.ordered` of context_action_cuda.py.
 */
module Gather {
  import opened RowLayout

  /** The positions `start`, `start + 1`, ... of one row. */
  function Range(start: int, count: nat): (r: seq<int>)
    ensures |r| == count && forall k :: 0 <= k < count ==> r[k] == start + k
  {
    seq(count, k => start + k)
  }

  function RangeRows(starts: seq<int>, counts: seq<nat>): (r: seq<seq<int>>)
    requires |starts| == |counts|
    ensures |r| == |counts|
    ensures Lengths(r) == counts
  {
    seq(|counts|, k requires 0 <= k < |counts| => Range(starts[k], counts[k]))
  }

  /** The rows' positions, row after row: what a gather has to list. */
  function Ranges(starts: seq<int>, counts: seq<nat>): seq<int>
    requires |starts| == |counts|
  {
    Flatten(RangeRows(starts, counts))
  }

  /** Position `j` of row `k` of a flat list. */
  lemma {:induction false} FlattenAt<T>(rows: seq<seq<T>>, k: nat, j: nat)
    requires k < |rows| && j < |rows[k]|
    ensures Sum(Lengths(rows)[..k]) + j < |Flatten(rows)|
    ensures Flatten(rows)[Sum(Lengths(rows)[..k]) + j] == rows[k][j]
  {
    RowAt(rows, k);
    var start := Sum(Lengths(rows)[..k]);
    assert Flatten(rows)[start..start + |rows[k]|][j] == Flatten(rows)[start + j];
  }

  // ---- the host

  function RepeatRow(value: int, count: nat): (r: seq<int>)
    ensures |r| == count && forall k :: 0 <= k < count ==> r[k] == value
  {
    seq(count, _ => value)
  }

  function RepeatedRows(values: seq<int>, counts: seq<nat>): (r: seq<seq<int>>)
    requires |values| == |counts|
    ensures |r| == |counts| && Lengths(r) == counts
  {
    seq(|counts|, k requires 0 <= k < |counts| => RepeatRow(values[k], counts[k]))
  }

  /** `np.repeat(values, counts)`. */
  function Repeat(values: seq<int>, counts: seq<nat>): (r: seq<int>)
    requires |values| == |counts|
    ensures |r| == Sum(counts)
  {
    FlattenLength(RepeatedRows(values, counts));
    Flatten(RepeatedRows(values, counts))
  }

  function Differences(a: seq<int>, b: seq<nat>): (r: seq<int>)
    requires |a| == |b|
    ensures |r| == |a|
  {
    seq(|a|, k requires 0 <= k < |a| => a[k] - b[k])
  }

  /** `gather_index`: each row's distance to its place, repeated, plus the running position. */
  function GatherIndex(starts: seq<int>, counts: seq<nat>): (r: seq<int>)
    requires |starts| == |counts|
    ensures |r| == Sum(counts)
  {
    seq(Sum(counts), p requires 0 <= p < Sum(counts) => Repeat(Differences(starts, Starts(counts)), counts)[p] + p)
  }

  /** Every position belongs to one row. */
  lemma {:induction false} RowOfPosition(counts: seq<nat>, p: nat) returns (k: nat)
    requires p < Sum(counts)
    ensures k < |counts| && Sum(counts[..k]) <= p < Sum(counts[..k]) + counts[k]
    decreases |counts|
  {
    var last := |counts| - 1;
    if p < Sum(counts[..last]) {
      k := RowOfPosition(counts[..last], p);
      assert counts[..last][..k] == counts[..k];
    } else {
      k := last;
    }
  }

  lemma {:induction false} RepeatAt(values: seq<int>, counts: seq<nat>, k: nat, j: nat)
    requires |values| == |counts| && k < |counts| && j < counts[k]
    ensures Sum(counts[..k]) + j < Sum(counts)
    ensures Repeat(values, counts)[Sum(counts[..k]) + j] == values[k]
  {
    SumStep(counts, k);
    FlattenAt(RepeatedRows(values, counts), k, j);
  }

  lemma {:induction false} HostAt(starts: seq<int>, counts: seq<nat>, k: nat, j: nat)
    requires |starts| == |counts| && k < |counts| && j < counts[k]
    ensures Sum(counts[..k]) + j < Sum(counts)
    ensures GatherIndex(starts, counts)[Sum(counts[..k]) + j] == starts[k] + j
  {
    RepeatAt(Differences(starts, Starts(counts)), counts, k, j);
  }

  lemma {:induction false} RangesAt(starts: seq<int>, counts: seq<nat>, k: nat, j: nat)
    requires |starts| == |counts| && k < |counts| && j < counts[k]
    ensures |Ranges(starts, counts)| == Sum(counts) > Sum(counts[..k]) + j
    ensures Ranges(starts, counts)[Sum(counts[..k]) + j] == starts[k] + j
  {
    SumStep(counts, k);
    FlattenLength(RangeRows(starts, counts));
    FlattenAt(RangeRows(starts, counts), k, j);
  }

  /** The host gather lists the rows back to back, empty ones included. */
  lemma HostGathersRanges(starts: seq<int>, counts: seq<nat>)
    requires |starts| == |counts|
    ensures GatherIndex(starts, counts) == Ranges(starts, counts)
  {
    FlattenLength(RangeRows(starts, counts));
    forall p | 0 <= p < Sum(counts)
      ensures GatherIndex(starts, counts)[p] == Ranges(starts, counts)[p]
    {
      var k := RowOfPosition(counts, p);
      HostAt(starts, counts, k, p - Sum(counts[..k]));
      RangesAt(starts, counts, k, p - Sum(counts[..k]));
    }
  }

  // ---- the device

  ghost predicate Rising(s: seq<nat>) { forall i, j :: 0 <= i <= j < |s| ==> s[i] <= s[j] }

  /** The binary search for how many of the rising values are at most `x`. */
  method SearchSortedRight(values: seq<nat>, x: nat) returns (r: nat)
    requires Rising(values)
    ensures r <= |values|
    ensures forall i :: 0 <= i < r ==> values[i] <= x
    ensures forall i :: r <= i < |values| ==> x < values[i]
  {
    var low, high := 0, |values|;
    while low < high
      invariant low <= high <= |values|
      invariant forall i :: 0 <= i < low ==> values[i] <= x
      invariant forall i :: high <= i < |values| ==> x < values[i]
    {
      var middle := (low + high) / 2;
      if values[middle] <= x {
        low := middle + 1;
      } else {
        high := middle;
      }
    }
    r := low;
  }

  lemma EndsRise(counts: seq<nat>)
    ensures Rising(Ends(counts))
  {
    forall i, j | 0 <= i <= j < |counts|
      ensures Ends(counts)[i] <= Ends(counts)[j]
    {
      SumPrefix(counts, i + 1, j + 1);
    }
  }

  /** `gather_index_on_device`: each position finds its row among the cumulative ends. */
  method GatherOnDevice(starts: seq<int>, counts: seq<nat>) returns (index: seq<int>)
    requires |starts| == |counts|
    ensures index == Ranges(starts, counts)
    ensures index == GatherIndex(starts, counts)
  {
    var total := Sum(counts);
    var outStart, ends := Starts(counts), Ends(counts);
    EndsRise(counts);
    HostGathersRanges(starts, counts);
    index := [];
    for p := 0 to total
      invariant |index| == p
      invariant forall q :: 0 <= q < p ==> index[q] == GatherIndex(starts, counts)[q]
    {
      var row := SearchSortedRight(ends, p);
      FirstEndAfter(counts, p, row);
      HostAt(starts, counts, row, p - outStart[row]);
      index := index + [starts[row] + (p - outStart[row])];
    }
  }

  /** The row whose end is the first after a position holds it. */
  lemma {:induction false} FirstEndAfter(counts: seq<nat>, p: nat, row: nat)
    requires p < Sum(counts) && row <= |counts|
    requires forall i :: 0 <= i < row ==> Ends(counts)[i] <= p
    requires forall i :: row <= i < |counts| ==> p < Ends(counts)[i]
    ensures row < |counts| && Sum(counts[..row]) <= p < Sum(counts[..row]) + counts[row]
  {
    var k := RowOfPosition(counts, p);
    SumStep(counts, k);
    EndsBefore(counts, k);
    var end := if row < |counts| then Ends(counts)[row] else 0;
    assert Ends(counts)[k] == Sum(counts[..k + 1]) > p;
    assert !(k < row);
    assert !(row < k);
  }

  lemma EndsBefore(counts: seq<nat>, k: nat)
    requires k <= |counts|
    ensures forall i :: 0 <= i < k ==> Ends(counts)[i] <= Sum(counts[..k])
  {
    forall i | 0 <= i < k
      ensures Ends(counts)[i] <= Sum(counts[..k])
    {
      SumPrefix(counts, i + 1, k);
    }
  }

  // ---- rows picked out of a flat list

  function Pick<T>(flat: seq<T>, index: seq<int>): (r: seq<T>)
    requires forall p :: 0 <= p < |index| ==> 0 <= index[p] < |flat|
    ensures |r| == |index|
  {
    seq(|index|, p requires 0 <= p < |index| => flat[index[p]])
  }

  function PickRows<T>(flat: seq<T>, counts: seq<nat>, rows: seq<int>): (r: seq<seq<T>>)
    requires Sum(counts) == |flat| && forall j :: 0 <= j < |rows| ==> 0 <= rows[j] < |counts|
    ensures |r| == |rows|
  {
    seq(|rows|, j requires 0 <= j < |rows| => Slice(flat, counts, rows[j]))
  }

  /** The index a gather of these rows uses: their starts and their lengths. */
  function RowsIndex(counts: seq<nat>, rows: seq<int>): seq<int>
    requires forall j :: 0 <= j < |rows| ==> 0 <= rows[j] < |counts|
  {
    GatherIndex(Pick(Starts(counts), rows), Pick(counts, rows))
  }

  lemma {:induction false} PickedRange<T>(flat: seq<T>, counts: seq<nat>, rows: seq<int>, k: nat, j: nat)
    requires Sum(counts) == |flat| && (forall i :: 0 <= i < |rows| ==> 0 <= rows[i] < |counts|)
    requires k < |rows| && j < counts[rows[k]]
    ensures var p := Sum(Pick(counts, rows)[..k]) + j;
      && p < |RowsIndex(counts, rows)| && 0 <= RowsIndex(counts, rows)[p] < |flat|
      && flat[RowsIndex(counts, rows)[p]] == Slice(flat, counts, rows[k])[j]
  {
    HostAt(Pick(Starts(counts), rows), Pick(counts, rows), k, j);
    SliceIs(flat, counts, rows[k], Sum(counts[..rows[k]]), counts[rows[k]]);
  }

  /** Gathering by index reads exactly those rows, in the order asked. */
  lemma {:induction false} GatherReadsRows<T>(flat: seq<T>, counts: seq<nat>, rows: seq<int>)
    requires Sum(counts) == |flat| && (forall j :: 0 <= j < |rows| ==> 0 <= rows[j] < |counts|)
    ensures forall p :: 0 <= p < |RowsIndex(counts, rows)| ==> 0 <= RowsIndex(counts, rows)[p] < |flat|
    ensures Pick(flat, RowsIndex(counts, rows)) == Flatten(PickRows(flat, counts, rows))
    ensures Lengths(PickRows(flat, counts, rows)) == Pick(counts, rows)
  {
    hide Flatten, Sum;
    var index, picked := RowsIndex(counts, rows), PickRows(flat, counts, rows);
    assert Lengths(picked) == Pick(counts, rows);
    FlattenLength(picked);
    forall p | 0 <= p < |index|
      ensures 0 <= index[p] < |flat| && flat[index[p]] == Flatten(picked)[p]
    {
      var k := RowOfPosition(Pick(counts, rows), p);
      var j := p - Sum(Pick(counts, rows)[..k]);
      PickedRange(flat, counts, rows, k, j);
      FlattenAt(picked, k, j);
    }
  }
}
