/**
 `packed` of context_action_pipeline.py: the feature columns of a fit packed in bounded chunks, with a filter
 and, where entries are out of order, one sort over a whole chunk.

 The sort key of an entry is its row times a stride plus its column. The stride is one more than the number
 of feature ids, which is enough exactly when no two selected columns lie further apart than the stride.
 */
module Packing {
  import opened RowLayout
  import opened PackedRows
  import opened StableSort

  /** The featurised frames of one profile and split: entries, then each frame's count, label and importance. */
  datatype Columns = Columns(ids: seq<nat>, values: seq<real>, counts: seq<nat>, labels: seq<nat>, importance: seq<real>)

  ghost predicate ValidColumns(part: Columns, width: nat) {
    && |part.ids| == |part.values| == Sum(part.counts)
    && |part.labels| == |part.importance| == |part.counts|
    && forall k :: 0 <= k < |part.ids| ==> part.ids[k] < width
  }

  // ---- what the chunks hold

  datatype Keyed = Keyed(row: int, entry: Entry)

  function ColumnKey(): Entry -> int { (e: Entry) => e.column }

  function ChunkKey(stride: nat): Keyed -> int { (x: Keyed) => x.row * stride + x.entry.column }

  function EntryOf(): Keyed -> Entry { (x: Keyed) => x.entry }

  function TagWith(row: int): Entry -> Keyed { (e: Entry) => Keyed(row, e) }

  /** The selected entries of one row, in the row's own order: `column[id]`, dropped when it is -1. */
  function SelectEntries(ids: seq<nat>, values: seq<real>, column: seq<int>): seq<Entry>
    requires |ids| == |values| && forall k :: 0 <= k < |ids| ==> ids[k] < |column|
  {
    if ids == [] then []
    else
      var last := |ids| - 1;
      SelectEntries(ids[..last], values[..last], column)
      + if column[ids[last]] >= 0 then [Entry(column[ids[last]], values[last])] else []
  }

  lemma {:induction false} SelectSplits(a: seq<nat>, b: seq<nat>, v: seq<real>, w: seq<real>, column: seq<int>)
    requires |a| == |v| && |b| == |w|
    requires forall k :: 0 <= k < |a| ==> a[k] < |column|
    requires forall k :: 0 <= k < |b| ==> b[k] < |column|
    ensures SelectEntries(a + b, v + w, column) == SelectEntries(a, v, column) + SelectEntries(b, w, column)
    decreases |b|
  {
    if b == [] {
      assert a + b == a && v + w == v;
    } else {
      var last := |b| - 1;
      assert (a + b)[..|a| + last] == a + b[..last] && (v + w)[..|a| + last] == v + w[..last];
      SelectSplits(a, b[..last], v, w[..last], column);
    }
  }

  /** A part's rows of selected entries. */
  function SelectedEntries(part: Columns, column: seq<int>): (r: seq<seq<Entry>>)
    requires ValidColumns(part, |column|)
    ensures |r| == |part.counts|
  {
    seq(|part.counts|, k requires 0 <= k < |part.counts| => RowEntries(part, column, k))
  }

  function RowEntries(part: Columns, column: seq<int>, k: nat): seq<Entry>
    requires ValidColumns(part, |column|) && k < |part.counts|
  {
    EntriesAt(part.ids, part.values, part.counts, column, k)
  }

  ghost predicate Fits(ids: seq<nat>, values: seq<real>, counts: seq<nat>, column: seq<int>) {
    |ids| == |values| == Sum(counts) && forall k :: 0 <= k < |ids| ==> ids[k] < |column|
  }

  function EntriesAt(ids: seq<nat>, values: seq<real>, counts: seq<nat>, column: seq<int>, k: nat): seq<Entry>
    requires Fits(ids, values, counts, column) && k < |counts|
  {
    SelectEntries(Slice(ids, counts, k), Slice(values, counts, k), column)
  }

  /** A run of rows selects what the rows select. */
  lemma EntriesInside(ids: seq<nat>, values: seq<real>, counts: seq<nat>, column: seq<int>, first: nat, last: nat, k: nat,
                      low: nat, high: nat)
    requires Fits(ids, values, counts, column) && first <= last <= |counts| && k < last - first
    requires low == Sum(counts[..first]) && high == Sum(counts[..last])
    ensures low <= high <= |ids| && Fits(ids[low..high], values[low..high], counts[first..last], column)
    ensures EntriesAt(ids[low..high], values[low..high], counts[first..last], column, k)
         == EntriesAt(ids, values, counts, column, first + k)
  {
    SliceInside(ids, counts, first, last, k, low, high);
    SliceInside(values, counts, first, last, k, low, high);
  }

  /** Rows of entries with their row numbers, one after another. */
  function TagRows(rows: seq<seq<Entry>>): seq<Keyed> {
    if rows == [] then []
    else
      var last := |rows| - 1;
      TagRows(rows[..last]) + Map(TagWith(last), rows[last])
  }

  /** The condition under which a chunk needs no sort: columns rise, or the row changes. */
  predicate InOrder(keyed: seq<Keyed>) {
    forall i :: 0 < i < |keyed| ==> keyed[i - 1].entry.column < keyed[i].entry.column || keyed[i - 1].row != keyed[i].row
  }

  /** The entries of a chunk as they are written. */
  function Arranged(rows: seq<seq<Entry>>, stride: nat): seq<Entry> {
    Map(EntryOf(), if InOrder(TagRows(rows)) then TagRows(rows) else SortBy(TagRows(rows), ChunkKey(stride)))
  }

  // ---- chunks

  /** `np.searchsorted(starts, bound, side="right")`: how many sorted values are at most `bound`. */
  function SearchRight(values: seq<nat>, bound: nat): (r: nat)
    ensures r <= |values|
  {
    if values == [] then 0
    else if values[|values| - 1] <= bound then |values|
    else SearchRight(values[..|values| - 1], bound)
  }

  function Max(a: nat, b: nat): nat { if a < b then b else a }

  function ChunkEnd(counts: seq<nat>, first: nat, chunk: nat): (last: nat)
    requires first < |counts|
    ensures first < last <= |counts|
  {
    Max(first + 1, SearchRight(Starts(counts), Starts(counts)[first] + chunk))
  }

  /** The entries of a part from row `first` on, chunk by chunk. */
  function ArrangedFrom(rows: seq<seq<Entry>>, counts: seq<nat>, first: nat, chunk: nat, stride: nat): seq<Entry>
    requires |rows| == |counts| && first <= |counts|
    decreases |counts| - first
  {
    if first == |counts| then []
    else
      var last := ChunkEnd(counts, first, chunk);
      Arranged(rows[first..last], stride) + ArrangedFrom(rows, counts, last, chunk, stride)
  }

  function MakeRows(entries: seq<seq<Entry>>, labels: seq<nat>, importance: seq<real>): (r: seq<Row>)
    requires |entries| == |labels| == |importance|
    ensures |r| == |entries|
  {
    seq(|entries|, k requires 0 <= k < |entries| => Row(entries[k], labels[k], importance[k]))
  }

  /** The rows of all parts with their selected entries in the order they arrived. */
  function AllRows(parts: seq<Columns>, column: seq<int>): seq<Row>
    requires forall k :: 0 <= k < |parts| ==> ValidColumns(parts[k], |column|)
  {
    if parts == [] then []
    else
      var last := |parts| - 1;
      AllRows(parts[..last], column)
      + MakeRows(SelectedEntries(parts[last], column), parts[last].labels, parts[last].importance)
  }

  function AllArranged(parts: seq<Columns>, column: seq<int>, chunk: nat): seq<Entry>
    requires forall k :: 0 <= k < |parts| ==> ValidColumns(parts[k], |column|)
  {
    if parts == [] then []
    else
      var last := |parts| - 1;
      AllArranged(parts[..last], column, chunk)
      + ArrangedFrom(SelectedEntries(parts[last], column), parts[last].counts, 0, chunk, |column| + 1)
  }

  /** What `packed` writes. */
  function PackedOf(parts: seq<Columns>, column: seq<int>, chunk: nat): Packed
    requires forall k :: 0 <= k < |parts| ==> ValidColumns(parts[k], |column|)
  {
    var plain := Pack(AllRows(parts, column));
    var entries := AllArranged(parts, column, chunk);
    Packed(plain.offsets, ColumnsOf(entries), ValuesOf(entries), plain.labels, plain.importance)
  }

  // ---- the loops

  /** `np.repeat(np.arange(len(counts)), counts)`. */
  function RepeatRows(counts: seq<nat>): (r: seq<nat>)
    ensures |r| == Sum(counts)
  {
    if counts == [] then []
    else RepeatRows(counts[..|counts| - 1]) + seq(counts[|counts| - 1], _ => |counts| - 1)
  }

  /** The entries whose column is selected, with their rows. */
  function Kept(rows: seq<nat>, selected: seq<int>, values: seq<real>): seq<Keyed>
    requires |rows| == |selected| == |values|
  {
    if rows == [] then []
    else
      var last := |rows| - 1;
      Kept(rows[..last], selected[..last], values[..last])
      + if selected[last] >= 0 then [Keyed(rows[last], Entry(selected[last], values[last]))] else []
  }

  lemma {:induction false} KeptSplits(a: seq<nat>, b: seq<nat>, s: seq<int>, t: seq<int>, v: seq<real>, w: seq<real>)
    requires |a| == |s| == |v| && |b| == |t| == |w|
    ensures Kept(a + b, s + t, v + w) == Kept(a, s, v) + Kept(b, t, w)
    decreases |b|
  {
    if b == [] {
      assert a + b == a && s + t == s && v + w == v;
    } else {
      var last := |b| - 1;
      assert (a + b)[..|a| + last] == a + b[..last];
      assert (s + t)[..|a| + last] == s + t[..last] && (v + w)[..|a| + last] == v + w[..last];
      KeptSplits(a, b[..last], s, t[..last], v, w[..last]);
    }
  }

  function Picked(ids: seq<nat>, column: seq<int>): (r: seq<int>)
    requires forall k :: 0 <= k < |ids| ==> ids[k] < |column|
    ensures |r| == |ids| && forall k :: 0 <= k < |ids| ==> r[k] == column[ids[k]]
  {
    seq(|ids|, k requires 0 <= k < |ids| => column[ids[k]])
  }

  lemma {:induction false} KeptRow(row: nat, ids: seq<nat>, values: seq<real>, column: seq<int>)
    requires |ids| == |values| && forall k :: 0 <= k < |ids| ==> ids[k] < |column|
    ensures Kept(seq(|ids|, _ => row), Picked(ids, column), values)
         == Map(TagWith(row), SelectEntries(ids, values, column))
    decreases |ids|
  {
    if ids != [] {
      var last := |ids| - 1;
      KeptRow(row, ids[..last], values[..last], column);
      assert seq(|ids|, _ => row)[..last] == seq(last, _ => row);
      assert Picked(ids, column)[..last] == Picked(ids[..last], column);
    }
  }

  lemma {:induction false} MaskLastRow(ids: seq<nat>, values: seq<real>, counts: seq<nat>, column: seq<int>)
    requires Fits(ids, values, counts, column) && counts != []
    ensures var last := |counts| - 1;
      var front := Sum(counts[..last]);
      && front <= |ids| && Fits(ids[..front], values[..front], counts[..last], column)
      && Kept(RepeatRows(counts), Picked(ids, column), values)
         == Kept(RepeatRows(counts[..last]), Picked(ids[..front], column), values[..front])
            + Map(TagWith(last), EntriesAt(ids, values, counts, column, last))
  {
    var last := |counts| - 1;
    var front := Sum(counts[..last]);
    SumStep(counts, last);
    assert counts[..last + 1] == counts;
    assert ids == ids[..front] + ids[front..] && values == values[..front] + values[front..];
    assert Picked(ids, column) == Picked(ids[..front], column) + Picked(ids[front..], column);
    assert Slice(ids, counts, last) == ids[front..] && Slice(values, counts, last) == values[front..];
    KeptSplits(RepeatRows(counts[..last]), seq(counts[last], _ => last), Picked(ids[..front], column),
               Picked(ids[front..], column), values[..front], values[front..]);
    KeptRow(last, ids[front..], values[front..], column);
  }

  /** The numpy mask of a chunk keeps exactly the selected entries of its rows, tagged with their rows. */
  lemma {:induction false} MaskIsSelection(ids: seq<nat>, values: seq<real>, counts: seq<nat>, column: seq<int>, rows: seq<seq<Entry>>)
    requires Fits(ids, values, counts, column) && |rows| == |counts|
    requires forall k :: 0 <= k < |counts| ==> rows[k] == EntriesAt(ids, values, counts, column, k)
    ensures Kept(RepeatRows(counts), Picked(ids, column), values) == TagRows(rows)
    decreases |counts|
  {
    if counts != [] {
      var last := |counts| - 1;
      var front := Sum(counts[..last]);
      MaskLastRow(ids, values, counts, column);
      forall k | 0 <= k < last
        ensures rows[..last][k] == EntriesAt(ids[..front], values[..front], counts[..last], column, k)
      {
        SliceFront(ids, counts, k);
        SliceFront(values, counts, k);
      }
      MaskIsSelection(ids[..front], values[..front], counts[..last], column, rows[..last]);
    }
  }

  function CountRow(keyed: seq<Keyed>, row: int): nat {
    if keyed == [] then 0
    else CountRow(keyed[..|keyed| - 1], row) + if keyed[|keyed| - 1].row == row then 1 else 0
  }

  /** `np.bincount(rows, minlength=n)`. */
  function BinCount(keyed: seq<Keyed>, n: nat): (r: seq<nat>)
    ensures |r| == n && forall k :: 0 <= k < n ==> r[k] == CountRow(keyed, k)
  {
    seq(n, k requires 0 <= k < n => CountRow(keyed, k))
  }

  lemma {:induction false} CountSplits(a: seq<Keyed>, b: seq<Keyed>, row: int)
    ensures CountRow(a + b, row) == CountRow(a, row) + CountRow(b, row)
    decreases |b|
  {
    if b == [] {
      assert a + b == a;
    } else {
      assert (a + b)[..|a + b| - 1] == a + b[..|b| - 1];
      CountSplits(a, b[..|b| - 1], row);
    }
  }

  lemma {:induction false} CountTagged(entries: seq<Entry>, tag: int, row: int)
    ensures CountRow(Map(TagWith(tag), entries), row) == if row == tag then |entries| else 0
    decreases |entries|
  {
    if entries != [] {
      CountTagged(entries[..|entries| - 1], tag, row);
      assert Map(TagWith(tag), entries)[..|entries| - 1] == Map(TagWith(tag), entries[..|entries| - 1]);
    }
  }

  lemma {:induction false} CountRows(rows: seq<seq<Entry>>, row: int)
    ensures CountRow(TagRows(rows), row) == if 0 <= row < |rows| then |rows[row]| else 0
    decreases |rows|
  {
    if rows != [] {
      var last := |rows| - 1;
      CountRows(rows[..last], row);
      CountSplits(TagRows(rows[..last]), Map(TagWith(last), rows[last]), row);
      CountTagged(rows[last], last, row);
    }
  }

  lemma {:induction false} BinCountIsLengths(rows: seq<seq<Entry>>)
    ensures BinCount(TagRows(rows), |rows|) == Lengths(rows)
  {
    forall k | 0 <= k < |rows|
      ensures CountRow(TagRows(rows), k) == |rows[k]|
    {
      CountRows(rows, k);
    }
  }

  lemma {:induction false} TagRowsFlatten(rows: seq<seq<Entry>>)
    ensures Map(EntryOf(), TagRows(rows)) == Flatten(rows)
    decreases |rows|
  {
    if rows != [] {
      var last := |rows| - 1;
      TagRowsFlatten(rows[..last]);
      var tagged := Map(TagWith(last), rows[last]);
      assert Map(EntryOf(), tagged) == rows[last];
      assert Map(EntryOf(), TagRows(rows[..last]) + tagged) == Map(EntryOf(), TagRows(rows[..last])) + Map(EntryOf(), tagged);
    }
  }

  // ---- the packing loops

  /** One chunk: rows `first` to `last` of a part. */
  method PackChunk(part: Columns, column: seq<int>, first: nat, last: nat) returns (counts: seq<nat>, entries: seq<Entry>)
    requires ValidColumns(part, |column|) && first < last <= |part.counts|
    ensures counts == Lengths(SelectedEntries(part, column)[first..last])
    ensures entries == Arranged(SelectedEntries(part, column)[first..last], |column| + 1)
  {
    var starts := Starts(part.counts);
    var low, high := starts[first], starts[last - 1] + part.counts[last - 1];
    ghost var rows := SelectedEntries(part, column)[first..last];
    ChunkRange(part, column, first, last, low, high);
    var kept := Kept(RepeatRows(part.counts[first..last]), Picked(part.ids[low..high], column), part.values[low..high]);
    assert kept == TagRows(rows);
    if !InOrder(kept) {
      var sorted := SortBy(kept, ChunkKey(|column| + 1));
      entries := Map(EntryOf(), sorted);
    } else {
      entries := Map(EntryOf(), kept);
    }
    counts := BinCount(kept, last - first);
    BinCountIsLengths(rows);
  }

  lemma ChunkRange(part: Columns, column: seq<int>, first: nat, last: nat, low: nat, high: nat)
    requires ValidColumns(part, |column|) && first < last <= |part.counts|
    requires low == Starts(part.counts)[first] && high == Starts(part.counts)[last - 1] + part.counts[last - 1]
    ensures low <= high <= |part.ids| && Fits(part.ids[low..high], part.values[low..high], part.counts[first..last], column)
    ensures Kept(RepeatRows(part.counts[first..last]), Picked(part.ids[low..high], column), part.values[low..high])
         == TagRows(SelectedEntries(part, column)[first..last])
  {
    hide Sum, Starts, Kept, RepeatRows, Picked, TagRows, EntriesAt;
    RangeEnds(part.counts, first, last);
    RunMask(part.ids, part.values, part.counts, column, first, last, SelectedEntries(part, column)[first..last], low, high);
  }

  lemma RangeEnds(counts: seq<nat>, first: nat, last: nat)
    requires first < last <= |counts|
    ensures Starts(counts)[first] == Sum(counts[..first])
    ensures Starts(counts)[last - 1] + counts[last - 1] == Sum(counts[..last])
  {
    SumStep(counts, last - 1);
  }

  lemma {:induction false} RunMask(ids: seq<nat>, values: seq<real>, counts: seq<nat>, column: seq<int>, first: nat,
                                   last: nat, rows: seq<seq<Entry>>, low: nat, high: nat)
    requires Fits(ids, values, counts, column) && first < last <= |counts| && |rows| == last - first
    requires forall k :: 0 <= k < |rows| ==> rows[k] == EntriesAt(ids, values, counts, column, first + k)
    requires low == Sum(counts[..first]) && high == Sum(counts[..last])
    ensures low <= high <= |ids| && Fits(ids[low..high], values[low..high], counts[first..last], column)
    ensures Kept(RepeatRows(counts[first..last]), Picked(ids[low..high], column), values[low..high]) == TagRows(rows)
  {
    EntriesInside(ids, values, counts, column, first, last, 0, low, high);
    forall k | 0 <= k < last - first
      ensures rows[k] == EntriesAt(ids[low..high], values[low..high], counts[first..last], column, k)
    {
      EntriesInside(ids, values, counts, column, first, last, k, low, high);
    }
    MaskIsSelection(ids[low..high], values[low..high], counts[first..last], column, rows);
  }

  lemma ArrangedLength(rows: seq<seq<Entry>>, stride: nat)
    ensures |Arranged(rows, stride)| == Sum(Lengths(rows))
  {
    TagRowsFlatten(rows);
    FlattenLength(rows);
    SortOrders(TagRows(rows), ChunkKey(stride));
  }

  /** The offsets and entries a part adds after `total` entries, chunk by chunk. */
  method PackPart(part: Columns, column: seq<int>, chunk: nat, total: nat) returns (offsets: seq<nat>, entries: seq<Entry>)
    requires ValidColumns(part, |column|)
    ensures offsets == PartOffsets(Lengths(SelectedEntries(part, column)), total)
    ensures entries == ArrangedFrom(SelectedEntries(part, column), part.counts, 0, chunk, |column| + 1)
    ensures |entries| == Sum(Lengths(SelectedEntries(part, column)))
  {
    ghost var rows := SelectedEntries(part, column);
    offsets, entries := [], [];
    var first := 0;
    PackedStart(rows, part.counts, chunk, |column| + 1, total);
    while first < |part.counts|
      invariant first <= |part.counts|
      invariant PackedUpTo(rows, part.counts, first, chunk, |column| + 1, total, offsets, entries)
    {
      first, offsets, entries := AppendChunk(part, column, chunk, total, first, offsets, entries);
    }
    PackedEnd(rows, part.counts, chunk, |column| + 1, total, offsets, entries);
  }

  /** One round of the loop: a run of rows that starts within `chunk` entries of the first. */
  method AppendChunk(part: Columns, column: seq<int>, chunk: nat, total: nat, first: nat, offsets: seq<nat>, entries: seq<Entry>)
    returns (last: nat, allOffsets: seq<nat>, allEntries: seq<Entry>)
    requires ValidColumns(part, |column|) && first < |part.counts|
    requires PackedUpTo(SelectedEntries(part, column), part.counts, first, chunk, |column| + 1, total, offsets, entries)
    ensures first < last <= |part.counts|
    ensures PackedUpTo(SelectedEntries(part, column), part.counts, last, chunk, |column| + 1, total, allOffsets, allEntries)
  {
    last := ChunkEnd(part.counts, first, chunk);
    var counts, arranged := PackChunk(part, column, first, last);
    NextChunk(SelectedEntries(part, column), part.counts, first, last, chunk, |column| + 1, total, offsets, entries,
              counts, arranged);
    allOffsets := offsets + PartOffsets(counts, total + |entries|);
    allEntries := entries + arranged;
  }

  lemma PackedStart(rows: seq<seq<Entry>>, counts: seq<nat>, chunk: nat, stride: nat, total: nat)
    requires |rows| == |counts|
    ensures PackedUpTo(rows, counts, 0, chunk, stride, total, [], [])
  {
    assert Lengths(rows)[..0] == [];
    assert [] + ArrangedFrom(rows, counts, 0, chunk, stride) == ArrangedFrom(rows, counts, 0, chunk, stride);
  }

  lemma {:induction false} PackedEnd(rows: seq<seq<Entry>>, counts: seq<nat>, chunk: nat, stride: nat, total: nat,
                                     offsets: seq<nat>, entries: seq<Entry>)
    requires |rows| == |counts| && PackedUpTo(rows, counts, |counts|, chunk, stride, total, offsets, entries)
    ensures offsets == PartOffsets(Lengths(rows), total)
    ensures entries == ArrangedFrom(rows, counts, 0, chunk, stride)
    ensures |entries| == Sum(Lengths(rows))
  {
    assert Lengths(rows)[..|counts|] == Lengths(rows);
    assert entries + [] == entries;
  }

  /** What has been written once the rows before `first` are packed. */
  ghost predicate PackedUpTo(rows: seq<seq<Entry>>, counts: seq<nat>, first: nat, chunk: nat, stride: nat, total: nat,
                             offsets: seq<nat>, entries: seq<Entry>)
    requires |rows| == |counts| && first <= |counts|
  {
    && entries + ArrangedFrom(rows, counts, first, chunk, stride) == ArrangedFrom(rows, counts, 0, chunk, stride)
    && WrittenFor(Lengths(rows)[..first], total, offsets, |entries|)
  }

  ghost predicate WrittenFor(lengths: seq<nat>, total: nat, offsets: seq<nat>, entries: nat) {
    entries == Sum(lengths) && offsets == PartOffsets(lengths, total)
  }

  lemma {:induction false} MoreWritten(lengths: seq<nat>, more: seq<nat>, both: seq<nat>, total: nat, offsets: seq<nat>,
                                       entries: nat)
    requires WrittenFor(lengths, total, offsets, entries) && both == lengths + more
    ensures WrittenFor(both, total, offsets + PartOffsets(more, total + entries), entries + Sum(more))
  {
    SumSplits(lengths, more);
    MoreOffsets(lengths, more, total);
  }

  lemma NextChunk(rows: seq<seq<Entry>>, counts: seq<nat>, first: nat, last: nat, chunk: nat, stride: nat, total: nat,
                  offsets: seq<nat>, entries: seq<Entry>, more: seq<nat>, arranged: seq<Entry>)
    requires |rows| == |counts| && first < |counts| && last == ChunkEnd(counts, first, chunk)
    requires more == Lengths(rows[first..last]) && arranged == Arranged(rows[first..last], stride)
    requires PackedUpTo(rows, counts, first, chunk, stride, total, offsets, entries)
    ensures PackedUpTo(rows, counts, last, chunk, stride, total,
                       offsets + PartOffsets(more, total + |entries|), entries + arranged)
  {
    hide Arranged, PartOffsets, Sum, Lengths;
    ArrangedLength(rows[first..last], stride);
    RunLengths(rows, first, last);
    MoreWritten(Lengths(rows)[..first], more, Lengths(rows)[..last], total, offsets, |entries|);
    assert |entries + arranged| == |entries| + Sum(more);
    assert entries + arranged + ArrangedFrom(rows, counts, last, chunk, stride)
        == entries + ArrangedFrom(rows, counts, first, chunk, stride) by {
      AppendAssociates(entries, arranged, ArrangedFrom(rows, counts, last, chunk, stride));
    }
  }

  lemma RunLengths(rows: seq<seq<Entry>>, first: nat, last: nat)
    requires first <= last <= |rows|
    ensures Lengths(rows)[..last] == Lengths(rows)[..first] + Lengths(rows[first..last])
  {}

  /** `total + np.cumsum(counts)`. */
  function PartOffsets(counts: seq<nat>, total: nat): (r: seq<nat>)
    ensures |r| == |counts|
  {
    seq(|counts|, k requires 0 <= k < |counts| => OffsetAfter(counts, total, k))
  }

  function OffsetAfter(counts: seq<nat>, total: nat, k: nat): nat
    requires k < |counts|
  {
    total + Ends(counts)[k]
  }

  lemma {:induction false} MoreOffsets(counts: seq<nat>, more: seq<nat>, total: nat)
    ensures PartOffsets(counts + more, total) == PartOffsets(counts, total) + PartOffsets(more, total + Sum(counts))
  {
    EndsAppend(counts, more);
  }

  /** `packed`: all parts, one after another. */
  method PackColumns(parts: seq<Columns>, column: seq<int>, chunk: nat) returns (result: Packed)
    requires forall k :: 0 <= k < |parts| ==> ValidColumns(parts[k], |column|)
    ensures result == PackedOf(parts, column, chunk)
  {
    var offsets: seq<nat>, entries: seq<Entry> := [0], [];
    var labels: seq<nat>, importance: seq<real> := [], [];
    for p := 0 to |parts|
      invariant offsets == Pack(AllRows(parts[..p], column)).offsets
      invariant entries == AllArranged(parts[..p], column, chunk)
      invariant labels == LabelsOf(AllRows(parts[..p], column)) && importance == ImportanceOf(AllRows(parts[..p], column))
      invariant |entries| == |Pack(AllRows(parts[..p], column)).indices|
    {
      var part := parts[p];
      assert parts[..p + 1][..p] == parts[..p] && parts[..p + 1][p] == part;
      var moreOffsets, more := PackPart(part, column, chunk, |entries|);
      PartAppends(AllRows(parts[..p], column), SelectedEntries(part, column), part.labels, part.importance);
      offsets := offsets + moreOffsets;
      entries := entries + more;
      labels := labels + part.labels;
      importance := importance + part.importance;
    }
    assert parts[..|parts|] == parts;
    result := Packed(offsets, ColumnsOf(entries), ValuesOf(entries), labels, importance);
  }

  lemma PartAppends(rows: seq<Row>, entries: seq<seq<Entry>>, labels: seq<nat>, importance: seq<real>)
    requires |entries| == |labels| == |importance|
    ensures var more := MakeRows(entries, labels, importance);
      var p, all := Pack(rows), Pack(rows + more);
      && all.offsets == p.offsets + PartOffsets(Lengths(entries), |p.indices|)
      && |all.indices| == |p.indices| + Sum(Lengths(entries))
      && LabelsOf(rows + more) == LabelsOf(rows) + labels && ImportanceOf(rows + more) == ImportanceOf(rows) + importance
  {
    hide MakeRows, Sum, Lengths, Pack, Entries, LabelsOf, ImportanceOf;
    var more := MakeRows(entries, labels, importance);
    MadeRows(entries, labels, importance);
    MadePack(more, |Pack(rows).indices|);
    PackAppends(rows, more);
    EntriesAppend(rows, more);
  }

  lemma MadePack(more: seq<Row>, total: nat)
    ensures var q, counts := Pack(more), Lengths(Entries(more));
      && |q.indices| == Sum(counts) && |q.offsets| == |more| + 1 == |counts| + 1
      && seq(|more|, k requires 0 <= k < |more| => total + q.offsets[k + 1]) == PartOffsets(counts, total)
  {
    FlattenLength(Entries(more));
  }

  lemma MadeRows(entries: seq<seq<Entry>>, labels: seq<nat>, importance: seq<real>)
    requires |entries| == |labels| == |importance|
    ensures var more := MakeRows(entries, labels, importance);
      Entries(more) == entries && LabelsOf(more) == labels && ImportanceOf(more) == importance
  {}
}
