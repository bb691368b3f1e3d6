/**
 `Chunks` of context_action_cuda.py: featurised frames collected in any order and put in frame order at the end.
 */
module FrameChunks {
  import opened RowLayout
  import opened StableSort
  import opened Gather
  import opened Wrappers

  datatype ChunksError = FrameTwiceOrMissing

  /** A frame's number and its entries. */
  datatype Record = Record(frame: int, ids: seq<int>, values: seq<real>)

  function FrameOf(): Record -> int { (r: Record) => r.frame }

  function IdsOf(records: seq<Record>): (r: seq<seq<int>>)
    ensures |r| == |records| && forall k :: 0 <= k < |r| ==> r[k] == records[k].ids
  {
    seq(|records|, k requires 0 <= k < |records| => records[k].ids)
  }

  function ValuesOf(records: seq<Record>): (r: seq<seq<real>>)
    ensures |r| == |records| && forall k :: 0 <= k < |r| ==> r[k] == records[k].values
  {
    seq(|records|, k requires 0 <= k < |records| => records[k].values)
  }

  /** The records of flat lists with a frame number and an entry count each. */
  function RecordAt(frames: seq<int>, counts: seq<nat>, ids: seq<int>, values: seq<real>, k: nat): Record
    requires |frames| == |counts| && Sum(counts) == |ids| == |values| && k < |frames|
  {
    Record(frames[k], Slice(ids, counts, k), Slice(values, counts, k))
  }

  function Records(frames: seq<int>, counts: seq<nat>, ids: seq<int>, values: seq<real>): (r: seq<Record>)
    requires |frames| == |counts| && Sum(counts) == |ids| == |values|
    ensures |r| == |frames|
  {
    seq(|frames|, k requires 0 <= k < |frames| => RecordAt(frames, counts, ids, values, k))
  }

  lemma {:induction false} RecordsAppend(f: seq<int>, m: seq<nat>, i: seq<int>, v: seq<real>, g: seq<int>, n: seq<nat>,
                                         j: seq<int>, w: seq<real>)
    requires |f| == |m| && Sum(m) == |i| == |v| && |g| == |n| && Sum(n) == |j| == |w|
    ensures Sum(m + n) == |i + j| == |v + w|
    ensures Records(f + g, m + n, i + j, v + w) == Records(f, m, i, v) + Records(g, n, j, w)
  {
    SlicesSplit(i, j, m, n);
    SlicesSplit(v, w, m, n);
    forall k | 0 <= k < |f + g|
      ensures RecordAt(f + g, m + n, i + j, v + w, k)
           == if k < |f| then RecordAt(f, m, i, v, k) else RecordAt(g, n, j, w, k - |f|)
    {
      assert Slices(i + j, m + n)[k] == (Slices(i, m) + Slices(j, n))[k];
      assert Slices(v + w, m + n)[k] == (Slices(v, m) + Slices(w, n))[k];
    }
  }

  predicate AllDistinct(frames: seq<int>) {
    forall i, j :: 0 <= i < j < |frames| ==> frames[i] != frames[j]
  }

  /** The frames in order, each one's entries as it brought them. */
  datatype Ordered = Ordered(ids: seq<int>, values: seq<real>, counts: seq<nat>)

  function OrderedRecords(records: seq<Record>): Ordered {
    var sorted := SortBy(records, FrameOf());
    Ordered(Flatten(IdsOf(sorted)), Flatten(ValuesOf(sorted)), Lengths(IdsOf(sorted)))
  }

  class Chunks {
    const count: nat
    var frames: seq<int>
    var counts: seq<nat>
    var ids: seq<int>
    var values: seq<real>

    ghost predicate Valid()
      reads this
    {
      |frames| == |counts| && Sum(counts) == |ids| == |values|
    }

    /** What has been added, in the order it came. */
    ghost function Contents(): seq<Record>
      reads this
      requires Valid()
    {
      Records(frames, counts, ids, values)
    }

    constructor (count: nat)
      ensures Valid() && Contents() == [] && this.count == count
    {
      this.count := count;
      frames, counts, ids, values := [], [], [], [];
    }

    method Add(moreFrames: seq<int>, moreCounts: seq<nat>, moreIds: seq<int>, moreValues: seq<real>)
      requires Valid()
      requires |moreFrames| == |moreCounts| && Sum(moreCounts) == |moreIds| == |moreValues|
      modifies this
      ensures Valid()
      ensures Contents() == old(Contents()) + Records(moreFrames, moreCounts, moreIds, moreValues)
    {
      RecordsAppend(frames, counts, ids, values, moreFrames, moreCounts, moreIds, moreValues);
      frames := frames + moreFrames;
      counts := counts + moreCounts;
      ids := ids + moreIds;
      values := values + moreValues;
    }

    /** `ordered`: refused unless every one of `count` frames came exactly once. */
    method InOrder() returns (r: Result<Ordered, ChunksError>)
      requires Valid()
      ensures r.Ok? <==> |Contents()| == count && StrictlyOrdered(SortBy(Contents(), FrameOf()), FrameOf())
      ensures r.Ok? ==> r.value == OrderedRecords(Contents())
    {
      DistinctSortStrictly(Contents(), frames);
      if |frames| != count || !AllDistinct(frames) {
        return Err(FrameTwiceOrMissing);
      }
      var order := ArgSort(frames);
      ArgSortPermutes(frames);
      ArgSortIsSort(frames, counts, ids, values);
      GatherReadsRows(ids, counts, order);
      GatherReadsRows(values, counts, order);
      var index := GatherIndex(Pick(Starts(counts), order), Pick(counts, order));
      r := Ok(Ordered(Pick(ids, index), Pick(values, index), Pick(counts, order)));
    }
  }

  function RecordAtIndex(frames: seq<int>, counts: seq<nat>, ids: seq<int>, values: seq<real>): int -> Record
    requires |frames| == |counts| && Sum(counts) == |ids| == |values|
  {
    k => if 0 <= k < |frames| then RecordAt(frames, counts, ids, values, k) else Record(0, [], [])
  }

  /** The records in order are the records at the argsort's positions. */
  lemma {:induction false} ArgSortReads(frames: seq<int>, counts: seq<nat>, ids: seq<int>, values: seq<real>)
    requires |frames| == |counts| && Sum(counts) == |ids| == |values|
    ensures Map(RecordAtIndex(frames, counts, ids, values), ArgSort(frames))
         == SortBy(Records(frames, counts, ids, values), FrameOf())
  {
    var at := RecordAtIndex(frames, counts, ids, values);
    SortMaps(Indices(|frames|), at, KeyAt(frames), FrameOf());
    assert Map(at, Indices(|frames|)) == Records(frames, counts, ids, values);
  }

  /** Reading the rows in argsort order is sorting the records. */
  lemma {:induction false} ArgSortIsSort(frames: seq<int>, counts: seq<nat>, ids: seq<int>, values: seq<real>)
    requires |frames| == |counts| && Sum(counts) == |ids| == |values|
    ensures forall j :: 0 <= j < |ArgSort(frames)| ==> 0 <= ArgSort(frames)[j] < |counts|
    ensures IdsOf(SortBy(Records(frames, counts, ids, values), FrameOf())) == PickRows(ids, counts, ArgSort(frames))
    ensures ValuesOf(SortBy(Records(frames, counts, ids, values), FrameOf())) == PickRows(values, counts, ArgSort(frames))
  {
    ArgSortInside(frames);
    ArgSortReads(frames, counts, ids, values);
    ReadsPick(frames, counts, ids, values, ArgSort(frames));
  }

  lemma ArgSortInside(frames: seq<int>)
    ensures forall j :: 0 <= j < |ArgSort(frames)| ==> 0 <= ArgSort(frames)[j] < |frames|
  {
    ArgSortPermutes(frames);
    forall j | 0 <= j < |ArgSort(frames)| ensures 0 <= ArgSort(frames)[j] < |frames| {
      assert ArgSort(frames)[j] in ArgSort(frames);
    }
  }

  lemma {:induction false} ReadsPick(frames: seq<int>, counts: seq<nat>, ids: seq<int>, values: seq<real>, order: seq<int>)
    requires |frames| == |counts| && Sum(counts) == |ids| == |values|
    requires forall j :: 0 <= j < |order| ==> 0 <= order[j] < |counts|
    ensures IdsOf(Map(RecordAtIndex(frames, counts, ids, values), order)) == PickRows(ids, counts, order)
    ensures ValuesOf(Map(RecordAtIndex(frames, counts, ids, values), order)) == PickRows(values, counts, order)
  {}

  ghost predicate SameFrames(records: seq<Record>, frames: seq<int>) {
    |records| == |frames| && forall k :: 0 <= k < |frames| ==> records[k].frame == frames[k]
  }

  lemma {:induction false} DistinctSortStrictly(records: seq<Record>, frames: seq<int>)
    requires SameFrames(records, frames)
    ensures AllDistinct(frames) <==> StrictlyOrdered(SortBy(records, FrameOf()), FrameOf())
  {
    var sorted := SortBy(records, FrameOf());
    SortOrders(records, FrameOf());
    if AllDistinct(frames) {
      forall i, j | 0 <= i < j < |sorted|
        ensures FrameOf()(sorted[i]) < FrameOf()(sorted[j])
      {
        var p, q := PairElsewhere(sorted, records, i, j);
        assert frames[p] != frames[q];
      }
    } else {
      var i, j :| 0 <= i < j < |frames| && frames[i] == frames[j];
      var p, q := PairElsewhere(records, sorted, i, j);
      assert FrameOf()(sorted[p]) == FrameOf()(sorted[q]);
    }
  }

  /** Whatever order the chunks came in, the frames come out the same. */
  lemma ArrivalOrderIsForgotten(first: seq<Record>, second: seq<Record>)
    requires multiset(first) == multiset(second)
    requires StrictlyOrdered(SortBy(first, FrameOf()), FrameOf())
    ensures OrderedRecords(first) == OrderedRecords(second)
    ensures StrictlyOrdered(SortBy(second, FrameOf()), FrameOf())
  {
    SortOrders(first, FrameOf());
    SortIsUnique(second, SortBy(first, FrameOf()), FrameOf());
  }
}
