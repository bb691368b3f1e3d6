/**
 When `packed` writes what `Packed.build` writes for the same rows listed in column order: for every chunk
 size and every order of entries within a row, exactly when the selected columns lie within one stride.
 */
module PackingOrder {
  import opened RowLayout
  import opened PackedRows
  import opened StableSort
  import opened Packing

  function SortedEntries(rows: seq<seq<Entry>>): (r: seq<seq<Entry>>)
    ensures |r| == |rows| && forall k :: 0 <= k < |r| ==> r[k] == SortBy(rows[k], ColumnKey())
  {
    seq(|rows|, k requires 0 <= k < |rows| => SortBy(rows[k], ColumnKey()))
  }

  /** The rows with each row's entries in column order. */
  function InColumnOrder(rows: seq<Row>): (r: seq<Row>)
    ensures |r| == |rows|
  {
    seq(|rows|, k requires 0 <= k < |rows| => rows[k].(entries := SortBy(rows[k].entries, ColumnKey())))
  }

  /** No column of a row lies more than `stride` above a column of any row. */
  ghost predicate Within(rows: seq<seq<Entry>>, stride: nat) {
    forall i, j, x: Entry, y: Entry :: 0 <= i < |rows| && 0 <= j < |rows| && x in rows[i] && y in rows[j] ==> x.column - y.column <= stride
  }

  lemma {:induction false} TaggedMember(rows: seq<seq<Entry>>, x: Keyed)
    requires x in TagRows(rows)
    ensures 0 <= x.row < |rows| && x.entry in rows[x.row]
    decreases |rows|
  {
    var last := |rows| - 1;
    if x in TagRows(rows[..last]) {
      TaggedMember(rows[..last], x);
    } else {
      var tagged := Map(TagWith(last), rows[last]);
      var k :| 0 <= k < |tagged| && tagged[k] == x;
    }
  }

  lemma AtLeastOnce(n: int, stride: nat)
    requires n >= 1
    ensures n * stride >= stride
  {}

  lemma RowsApart(r: int, s: int, stride: nat, c: nat, d: nat)
    requires r < s && c - d <= stride
    ensures r * stride + c <= s * stride + d
  {
    AtLeastOnce(s - r, stride);
    Distributes(r, s - r, stride);
  }

  lemma Distributes(r: int, n: int, stride: nat)
    ensures (r + n) * stride == r * stride + n * stride
  {}

  lemma {:induction false} SortAlike<T>(s: seq<T>, key: T -> int, other: T -> int)
    requires forall x, y :: key(x) <= key(y) <==> other(x) <= other(y)
    ensures SortBy(s, key) == SortBy(s, other)
    decreases |s|
  {
    if s != [] {
      SortAlike(s[1..], key, other);
      InsertAlike(s[0], SortBy(s[1..], key), key, other);
    }
  }

  lemma {:induction false} InsertAlike<T>(x: T, s: seq<T>, key: T -> int, other: T -> int)
    requires forall a, b :: key(a) <= key(b) <==> other(a) <= other(b)
    ensures Insert(x, s, key) == Insert(x, s, other)
    decreases |s|
  {
    if s != [] {
      InsertAlike(x, s[1..], key, other);
    }
  }

  lemma {:induction false} SortTaggedRow(row: int, entries: seq<Entry>, stride: nat)
    ensures SortBy(Map(TagWith(row), entries), ChunkKey(stride)) == Map(TagWith(row), SortBy(entries, ColumnKey()))
  {
    var base := row * stride;
    var shifted := (e: Entry) => base + e.column;
    SortMaps(entries, TagWith(row), shifted, ChunkKey(stride));
    SortAlike(entries, shifted, ColumnKey());
  }

  lemma KeysRise(rows: seq<seq<Entry>>, stride: nat)
    requires rows != [] && Within(rows, stride)
    ensures var last := |rows| - 1;
      && Within(rows[..last], stride)
      && forall x, y :: x in TagRows(rows[..last]) && y in Map(TagWith(last), rows[last])
           ==> ChunkKey(stride)(x) <= ChunkKey(stride)(y)
  {
    var last := |rows| - 1;
    var front, tagged := TagRows(rows[..last]), Map(TagWith(last), rows[last]);
    forall x, y | x in front && y in tagged
      ensures ChunkKey(stride)(x) <= ChunkKey(stride)(y)
    {
      TaggedMember(rows[..last], x);
      var k :| 0 <= k < |tagged| && tagged[k] == y;
      assert x.entry in rows[x.row] && y.entry in rows[last];
      RowsApart(x.row, y.row, stride, x.entry.column, y.entry.column);
    }
  }

  /** The one sort over a chunk sorts its rows one by one. */
  lemma {:induction false} SortTagged(rows: seq<seq<Entry>>, stride: nat)
    requires Within(rows, stride)
    ensures SortBy(TagRows(rows), ChunkKey(stride)) == TagRows(SortedEntries(rows))
    decreases |rows|
  {
    if rows != [] {
      var last := |rows| - 1;
      KeysRise(rows, stride);
      SortTagged(rows[..last], stride);
      SortLastRow(TagRows(rows[..last]), last, rows[last], stride, TagRows(SortedEntries(rows[..last])));
      TagSorted(rows);
    }
  }

  lemma TagSorted(rows: seq<seq<Entry>>)
    requires rows != []
    ensures var last := |rows| - 1;
      TagRows(SortedEntries(rows)) == TagRows(SortedEntries(rows[..last])) + Map(TagWith(last), SortBy(rows[last], ColumnKey()))
  {
    assert SortedEntries(rows)[..|rows| - 1] == SortedEntries(rows[..|rows| - 1]);
  }

  lemma SortLastRow(front: seq<Keyed>, row: int, entries: seq<Entry>, stride: nat, sortedFront: seq<Keyed>)
    requires forall x, y :: x in front && y in Map(TagWith(row), entries) ==> ChunkKey(stride)(x) <= ChunkKey(stride)(y)
    requires SortBy(front, ChunkKey(stride)) == sortedFront
    ensures SortBy(front + Map(TagWith(row), entries), ChunkKey(stride))
         == sortedFront + Map(TagWith(row), SortBy(entries, ColumnKey()))
  {
    SortTaggedRow(row, entries, stride);
    SortSplits(front, Map(TagWith(row), entries), ChunkKey(stride));
  }

  lemma {:induction false} InOrderRows(rows: seq<seq<Entry>>)
    requires InOrder(TagRows(rows))
    ensures forall k :: 0 <= k < |rows| ==> StrictlyOrdered(rows[k], ColumnKey())
    decreases |rows|
  {
    if rows != [] {
      var last := |rows| - 1;
      var front, tagged := TagRows(rows[..last]), Map(TagWith(last), rows[last]);
      forall i | 0 < i < |front|
        ensures front[i - 1].entry.column < front[i].entry.column || front[i - 1].row != front[i].row
      {
        assert TagRows(rows)[i] == front[i] && TagRows(rows)[i - 1] == front[i - 1];
      }
      InOrderRows(rows[..last]);
      forall i | 0 < i < |rows[last]|
        ensures rows[last][i - 1].column < rows[last][i].column
      {
        assert TagRows(rows)[|front| + i] == tagged[i] && TagRows(rows)[|front| + i - 1] == tagged[i - 1];
      }
      RisingIsStrict(rows[last]);
    }
  }

  lemma {:induction false} RisingIsStrict(s: seq<Entry>)
    requires forall i :: 0 < i < |s| ==> s[i - 1].column < s[i].column
    ensures StrictlyOrdered(s, ColumnKey())
    decreases |s|
  {
    if s != [] {
      RisingIsStrict(s[..|s| - 1]);
      assert forall i, j :: 0 <= i < j < |s| - 1 ==> s[i].column < s[j].column by {
        forall i, j | 0 <= i < j < |s| - 1
          ensures s[i].column < s[j].column
        {
          assert ColumnKey()(s[..|s| - 1][i]) < ColumnKey()(s[..|s| - 1][j]);
        }
      }
      if |s| > 1 { assert s[|s| - 2].column < s[|s| - 1].column; }
    }
  }

  /** A chunk is written row by row in column order. */
  lemma {:induction false} ArrangedInOrder(rows: seq<seq<Entry>>, stride: nat)
    requires Within(rows, stride) || InOrder(TagRows(rows))
    ensures Arranged(rows, stride) == Flatten(SortedEntries(rows))
  {
    if InOrder(TagRows(rows)) {
      InOrderRows(rows);
      forall k | 0 <= k < |rows|
        ensures SortedEntries(rows)[k] == rows[k]
      {
        SortKeepsOrdered(rows[k], ColumnKey());
      }
      assert SortedEntries(rows) == rows;
      TagRowsFlatten(rows);
    } else {
      SortTagged(rows, stride);
      TagRowsFlatten(SortedEntries(rows));
    }
  }

  lemma SortedSplit(a: seq<seq<Entry>>, b: seq<seq<Entry>>)
    ensures SortedEntries(a + b) == SortedEntries(a) + SortedEntries(b)
    ensures Flatten(SortedEntries(a + b)) == Flatten(SortedEntries(a)) + Flatten(SortedEntries(b))
  {
    assert SortedEntries(a + b) == SortedEntries(a) + SortedEntries(b);
    FlattenSplits(SortedEntries(a), SortedEntries(b));
  }

  lemma WithinRun(rows: seq<seq<Entry>>, first: nat, last: nat, stride: nat)
    requires first <= last <= |rows| && Within(rows, stride)
    ensures Within(rows[first..last], stride)
  {}

  lemma {:induction false} ArrangedFromInOrder(rows: seq<seq<Entry>>, counts: seq<nat>, first: nat, chunk: nat, stride: nat)
    requires |rows| == |counts| && first <= |counts| && Within(rows, stride)
    ensures ArrangedFrom(rows, counts, first, chunk, stride) == Flatten(SortedEntries(rows[first..]))
    decreases |counts| - first
  {
    if first < |counts| {
      var last := ChunkEnd(counts, first, chunk);
      ArrangedFromInOrder(rows, counts, last, chunk, stride);
      ChunkInOrder(rows, first, last, stride);
    }
  }

  lemma ChunkInOrder(rows: seq<seq<Entry>>, first: nat, last: nat, stride: nat)
    requires first <= last <= |rows| && Within(rows, stride)
    ensures Flatten(SortedEntries(rows[first..]))
         == Arranged(rows[first..last], stride) + Flatten(SortedEntries(rows[last..]))
  {
    hide Arranged, Flatten, SortedEntries, Within;
    WithinRun(rows, first, last, stride);
    ArrangedInOrder(rows[first..last], stride);
    assert rows[first..] == rows[first..last] + rows[last..];
    SortedSplit(rows[first..last], rows[last..]);
  }

  // ---- the whole matrix

  /** The selected columns lie within one stride, `len(column) + 1`. */
  ghost predicate SpreadFits(column: seq<int>) {
    forall a, b :: 0 <= a < |column| && 0 <= b < |column| && column[a] >= 0 && column[b] >= 0
      ==> column[a] - column[b] <= |column| + 1
  }

  lemma {:induction false} SelectedFromColumn(ids: seq<nat>, values: seq<real>, column: seq<int>, x: Entry)
    requires |ids| == |values| && (forall k :: 0 <= k < |ids| ==> ids[k] < |column|)
    requires x in SelectEntries(ids, values, column)
    ensures exists a :: 0 <= a < |column| && column[a] == x.column
    decreases |ids|
  {
    var last := |ids| - 1;
    if x in SelectEntries(ids[..last], values[..last], column) {
      SelectedFromColumn(ids[..last], values[..last], column, x);
    } else {
      assert column[ids[last]] == x.column;
    }
  }

  lemma PartWithin(part: Columns, column: seq<int>)
    requires ValidColumns(part, |column|) && SpreadFits(column)
    ensures Within(SelectedEntries(part, column), |column| + 1)
  {
    var rows := SelectedEntries(part, column);
    forall i, j, x: Entry, y: Entry | 0 <= i < |rows| && 0 <= j < |rows| && x in rows[i] && y in rows[j]
      ensures x.column - y.column <= |column| + 1
    {
      SelectedFromColumn(Slice(part.ids, part.counts, i), Slice(part.values, part.counts, i), column, x);
      SelectedFromColumn(Slice(part.ids, part.counts, j), Slice(part.values, part.counts, j), column, y);
    }
  }

  lemma OrderedEntries(rows: seq<Row>)
    ensures Entries(InColumnOrder(rows)) == SortedEntries(Entries(rows))
    ensures Lengths(Entries(InColumnOrder(rows))) == Lengths(Entries(rows))
    ensures LabelsOf(InColumnOrder(rows)) == LabelsOf(rows)
    ensures ImportanceOf(InColumnOrder(rows)) == ImportanceOf(rows)
  {
    forall k | 0 <= k < |rows|
      ensures |SortBy(rows[k].entries, ColumnKey())| == |rows[k].entries|
    {
      SortOrders(rows[k].entries, ColumnKey());
    }
    assert Entries(InColumnOrder(rows)) == SortedEntries(Entries(rows));
  }

  lemma PartInOrder(part: Columns, column: seq<int>, chunk: nat, before: seq<Row>)
    requires ValidColumns(part, |column|) && SpreadFits(column)
    ensures var entries := SelectedEntries(part, column);
      var more := MakeRows(entries, part.labels, part.importance);
      Flatten(SortedEntries(Entries(before + more)))
      == Flatten(SortedEntries(Entries(before))) + ArrangedFrom(entries, part.counts, 0, chunk, |column| + 1)
  {
    var entries := SelectedEntries(part, column);
    var more := MakeRows(entries, part.labels, part.importance);
    PartWithin(part, column);
    ArrangedFromInOrder(entries, part.counts, 0, chunk, |column| + 1);
    assert entries[0..] == entries && Entries(more) == entries;
    EntriesAppend(before, more);
    SortedSplit(Entries(before), entries);
  }

  ghost predicate ValidParts(parts: seq<Columns>, column: seq<int>) {
    forall k :: 0 <= k < |parts| ==> ValidColumns(parts[k], |column|)
  }

  lemma {:induction false} AllInOrder(parts: seq<Columns>, column: seq<int>, chunk: nat)
    requires ValidParts(parts, column) && SpreadFits(column)
    ensures AllArranged(parts, column, chunk) == Flatten(SortedEntries(Entries(AllRows(parts, column))))
    decreases |parts|
  {
    if parts != [] {
      var last := |parts| - 1;
      AllInOrder(parts[..last], column, chunk);
      PartInOrder(parts[last], column, chunk, AllRows(parts[..last], column));
    }
  }

  /** Whether `packed` writes the rows of the parts in column order. */
  ghost predicate Agrees(parts: seq<Columns>, column: seq<int>, chunk: nat)
    requires ValidParts(parts, column)
  {
    PackedOf(parts, column, chunk) == Pack(InColumnOrder(AllRows(parts, column)))
  }

  /** For columns within one stride, `packed` writes the rows in column order, whatever the chunk size. */
  lemma PackedInColumnOrder(parts: seq<Columns>, column: seq<int>, chunk: nat)
    requires ValidParts(parts, column) && SpreadFits(column)
    ensures Agrees(parts, column, chunk)
  {
    AllInOrder(parts, column, chunk);
    OrderedEntries(AllRows(parts, column));
  }

  // ---- columns too far apart

  /** Two rows, the first out of order, over two ids whose columns lie more than one stride apart. */
  function TwoRows(high: nat, low: nat): Columns {
    Columns([high, low, low], [1.0, 1.0, 1.0], [2, 1], [0, 0], [1.0, 1.0])
  }

  lemma {:induction false} TwoRowsSlices<T>(flat: seq<T>, counts: seq<nat>)
    requires counts == [2, 1] && |flat| == 3
    ensures Sum(counts) == 3
    ensures Slice(flat, counts, 0) == flat[..2] && Slice(flat, counts, 1) == flat[2..]
  {
    assert counts[..0] == [] && counts[..1] == [2] && [2][..0] == [];
    assert Sum([2]) == 2 && Sum(counts) == 3;
  }

  lemma {:induction false} OneSelected(id: nat, column: seq<int>)
    requires id < |column| && column[id] >= 0
    ensures SelectEntries([id], [1.0], column) == [Entry(column[id], 1.0)]
  {
    assert [id][..0] == [] && [1.0][..0] == [];
    assert SelectEntries([], [], column) == [];
  }

  lemma {:induction false} TwoSelected(high: nat, low: nat, column: seq<int>)
    requires high < |column| && low < |column| && column[high] >= 0 && column[low] >= 0
    ensures SelectEntries([high, low], [1.0, 1.0], column) == [Entry(column[high], 1.0), Entry(column[low], 1.0)]
  {
    OneSelected(high, column);
    OneSelected(low, column);
    assert [high, low] == [high] + [low] && [1.0, 1.0] == [1.0] + [1.0];
    SelectSplits([high], [low], [1.0], [1.0], column);
  }

  lemma TwoRowsValid(width: nat, high: nat, low: nat)
    requires high < width && low < width
    ensures ValidColumns(TwoRows(high, low), width)
  {
    TwoRowsSlices(TwoRows(high, low).ids, TwoRows(high, low).counts);
  }

  lemma TwoRowsEntries(column: seq<int>, high: nat, low: nat)
    requires high < |column| && low < |column| && column[high] >= 0 && column[low] >= 0
    requires ValidColumns(TwoRows(high, low), |column|)
    ensures SelectedEntries(TwoRows(high, low), column)
         == [[Entry(column[high], 1.0), Entry(column[low], 1.0)], [Entry(column[low], 1.0)]]
  {
    var part := TwoRows(high, low);
    TwoRowsSlices(part.ids, part.counts);
    TwoRowsSlices(part.values, part.counts);
    assert part.ids[..2] == [high, low] && part.ids[2..] == [low];
    assert part.values[..2] == [1.0, 1.0] && part.values[2..] == [1.0];
    TwoSelected(high, low, column);
    OneSelected(low, column);
    var rows := SelectedEntries(part, column);
    assert |rows| == 2 && rows[0] == RowEntries(part, column, 0) && rows[1] == RowEntries(part, column, 1);
  }

  lemma TwoRowsTagged(c: nat, d: nat)
    ensures TagRows([[Entry(c, 1.0), Entry(d, 1.0)], [Entry(d, 1.0)]])
         == [Keyed(0, Entry(c, 1.0)), Keyed(0, Entry(d, 1.0)), Keyed(1, Entry(d, 1.0))]
  {
    var rows := [[Entry(c, 1.0), Entry(d, 1.0)], [Entry(d, 1.0)]];
    assert rows[..1] == [rows[0]] && [rows[0]][..0] == [];
    assert TagRows([]) == [];
    assert TagRows([rows[0]]) == Map(TagWith(0), rows[0]);
  }

  lemma SortThree(a: Keyed, b: Keyed, c: Keyed, key: Keyed -> int)
    requires key(b) < key(c) < key(a)
    ensures SortBy([a, b, c], key) == [b, c, a]
  {
    assert [a, b, c][1..] == [b, c] && [b, c][1..] == [c] && [c][1..] == [];
    assert SortBy([c], key) == [c];
    assert SortBy([b, c], key) == [b, c];
    assert Insert(a, [c], key) == [c, a];
  }

  /** The chunk's sort then mixes the rows: the first row's high column lands in the second row. */
  lemma RowsMix(c: nat, d: nat, stride: nat)
    requires c - d > stride
    ensures Arranged([[Entry(c, 1.0), Entry(d, 1.0)], [Entry(d, 1.0)]], stride)
         == [Entry(d, 1.0), Entry(d, 1.0), Entry(c, 1.0)]
  {
    TwoRowsTagged(c, d);
    var x, y, z := Keyed(0, Entry(c, 1.0)), Keyed(0, Entry(d, 1.0)), Keyed(1, Entry(d, 1.0));
    assert [x, y, z][1 - 1].entry.column >= [x, y, z][1].entry.column;
    assert ChunkKey(stride)(x) == c && ChunkKey(stride)(y) == d && ChunkKey(stride)(z) == stride + d;
    if stride == 0 {
      SortThreeTied(x, y, z, ChunkKey(stride));
    } else {
      SortThree(x, y, z, ChunkKey(stride));
    }
  }

  lemma SortThreeTied(a: Keyed, b: Keyed, c: Keyed, key: Keyed -> int)
    requires key(b) == key(c) < key(a)
    ensures SortBy([a, b, c], key) == [b, c, a]
  {
    assert [a, b, c][1..] == [b, c] && [b, c][1..] == [c] && [c][1..] == [];
    assert SortBy([c], key) == [c];
    assert SortBy([b, c], key) == [b, c];
    assert Insert(a, [c], key) == [c, a];
  }

  lemma SortTwo(c: nat, d: nat)
    requires d < c
    ensures SortedEntries([[Entry(c, 1.0), Entry(d, 1.0)], [Entry(d, 1.0)]])
         == [[Entry(d, 1.0), Entry(c, 1.0)], [Entry(d, 1.0)]]
    ensures Flatten([[Entry(d, 1.0), Entry(c, 1.0)], [Entry(d, 1.0)]])
         == [Entry(d, 1.0), Entry(c, 1.0), Entry(d, 1.0)]
  {
    var x, y := Entry(c, 1.0), Entry(d, 1.0);
    assert [x, y][1..] == [y] && [y][1..] == [];
    assert SortBy([y], ColumnKey()) == [y];
    assert Insert(x, [y], ColumnKey()) == [y] + Insert(x, [y][1..], ColumnKey());
    assert Insert(x, [], ColumnKey()) == [x];
    assert [y, x] == [y] + [x];
    FlattenSplits([[y, x]], [[y]]);
    FlattenOne([y, x]);
    FlattenOne([y]);
    assert [[y, x], [y]] == [[y, x]] + [[y]];
  }

  lemma TwoRowsAreOneChunk(counts: seq<nat>, chunk: nat)
    requires counts == [2, 1] && chunk >= 2
    ensures ChunkEnd(counts, 0, chunk) == 2
  {
    assert counts[..0] == [] && counts[..1] == [2] && [2][..0] == [];
    assert Starts(counts) == [0, 2];
    assert SearchRight([0, 2], chunk) == 2;
  }

  lemma {:induction false} OneChunk(rows: seq<seq<Entry>>, counts: seq<nat>, chunk: nat, stride: nat)
    requires |rows| == 2 && counts == [2, 1] && chunk >= 2
    ensures ArrangedFrom(rows, counts, 0, chunk, stride) == Arranged(rows, stride)
  {
    TwoRowsAreOneChunk(counts, chunk);
    assert ArrangedFrom(rows, counts, 2, chunk, stride) == [];
    assert rows[0..2] == rows;
  }

  lemma {:induction false} OnePart(part: Columns, column: seq<int>, chunk: nat)
    requires ValidColumns(part, |column|)
    ensures AllArranged([part], column, chunk)
         == ArrangedFrom(SelectedEntries(part, column), part.counts, 0, chunk, |column| + 1)
    ensures Entries(AllRows([part], column)) == SelectedEntries(part, column)
  {
    assert [part][..0] == [];
    assert AllRows([part], column) == [] + MakeRows(SelectedEntries(part, column), part.labels, part.importance);
  }

  lemma TooFarApart(column: seq<int>, high: nat, low: nat, chunk: nat)
    requires high < |column| && low < |column| && column[high] >= 0 && column[low] >= 0 && chunk >= 2
    requires column[high] - column[low] > |column| + 1
    ensures ValidParts([TwoRows(high, low)], column)
    ensures !Agrees([TwoRows(high, low)], column, chunk)
  {
    TwoRowsValid(|column|, high, low);
    MixedIndices(column, high, low, chunk);
    BuiltIndices(column, high, low);
    assert PackedOf([TwoRows(high, low)], column, chunk).indices[1] == column[low];
    assert Pack(InColumnOrder(AllRows([TwoRows(high, low)], column))).indices[1] == column[high];
  }

  lemma {:induction false} MixedIndices(column: seq<int>, high: nat, low: nat, chunk: nat)
    requires high < |column| && low < |column| && column[high] >= 0 && column[low] >= 0 && chunk >= 2
    requires column[high] - column[low] > |column| + 1 && ValidColumns(TwoRows(high, low), |column|)
    ensures AllArranged([TwoRows(high, low)], column, chunk)
         == [Entry(column[low], 1.0), Entry(column[low], 1.0), Entry(column[high], 1.0)]
  {
    hide AllArranged, ArrangedFrom, Arranged, SelectedEntries;
    var part := TwoRows(high, low);
    TwoRowsEntries(column, high, low);
    OnePart(part, column, chunk);
    OneChunk(SelectedEntries(part, column), part.counts, chunk, |column| + 1);
    RowsMix(column[high], column[low], |column| + 1);
  }

  lemma {:induction false} BuiltIndices(column: seq<int>, high: nat, low: nat)
    requires high < |column| && low < |column| && column[high] > column[low] >= 0
    requires ValidColumns(TwoRows(high, low), |column|)
    ensures Pack(InColumnOrder(AllRows([TwoRows(high, low)], column))).indices == [column[low], column[high], column[low]]
  {
    TwoRowsBuilt(column, high, low);
    TwoBuilt(AllRows([TwoRows(high, low)], column), column[high], column[low]);
  }

  lemma {:induction false} TwoRowsBuilt(column: seq<int>, high: nat, low: nat)
    requires high < |column| && low < |column| && column[high] > column[low] >= 0
    requires ValidColumns(TwoRows(high, low), |column|)
    ensures Entries(AllRows([TwoRows(high, low)], column))
         == [[Entry(column[high], 1.0), Entry(column[low], 1.0)], [Entry(column[low], 1.0)]]
  {
    TwoRowsEntries(column, high, low);
    OnePart(TwoRows(high, low), column, 0);
  }

  lemma TwoBuilt(rows: seq<Row>, c: nat, d: nat)
    requires d < c && Entries(rows) == [[Entry(c, 1.0), Entry(d, 1.0)], [Entry(d, 1.0)]]
    ensures Pack(InColumnOrder(rows)).indices == [d, c, d]
  {
    SortTwo(c, d);
    FlatIndices(rows, [Entry(d, 1.0), Entry(c, 1.0), Entry(d, 1.0)]);
  }

  lemma FlatIndices(rows: seq<Row>, flat: seq<Entry>)
    requires Flatten(SortedEntries(Entries(rows))) == flat
    ensures Pack(InColumnOrder(rows)).indices == ColumnsOf(flat)
  {
    OrderedEntries(rows);
  }

  /**
   `packed` agrees with the builder on every frame set exactly when the selected columns lie within one
   stride. A frozen base with many more names than the fit's own frames can break this.
   */
  lemma StrideIsExact(column: seq<int>, chunk: nat)
    requires chunk >= 2
    ensures (forall parts :: ValidParts(parts, column) ==> Agrees(parts, column, chunk)) <==> SpreadFits(column)
  {
    if SpreadFits(column) {
      forall parts | ValidParts(parts, column)
        ensures Agrees(parts, column, chunk)
      {
        PackedInColumnOrder(parts, column, chunk);
      }
    } else {
      var a, b :| 0 <= a < |column| && 0 <= b < |column| && column[a] >= 0 && column[b] >= 0
        && column[a] - column[b] > |column| + 1;
      TooFarApart(column, a, b, chunk);
    }
  }
}
