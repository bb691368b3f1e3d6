/**
 The packed matrix a fit reads: `Packed` of context_optimizer.py, its builder, and the rows it stands for.
 Reals stand for finite floats.
 */
module PackedRows {
  import opened RowLayout
  import opened Wrappers

  const ACTIONS: nat := 4

  datatype Entry = Entry(column: nat, value: real)

  datatype Row = Row(entries: seq<Entry>, action: nat, importance: real)

  datatype Packed = Packed(offsets: seq<nat>, indices: seq<nat>, values: seq<real>, labels: seq<nat>, importance: seq<real>)

  function Entries(rows: seq<Row>): (r: seq<seq<Entry>>)
    ensures |r| == |rows| && forall k :: 0 <= k < |r| ==> r[k] == rows[k].entries
  {
    seq(|rows|, k requires 0 <= k < |rows| => rows[k].entries)
  }

  function ColumnsOf(entries: seq<Entry>): (r: seq<nat>)
    ensures |r| == |entries| && forall k :: 0 <= k < |r| ==> r[k] == entries[k].column
  {
    seq(|entries|, k requires 0 <= k < |entries| => entries[k].column)
  }

  function ValuesOf(entries: seq<Entry>): (r: seq<real>)
    ensures |r| == |entries| && forall k :: 0 <= k < |r| ==> r[k] == entries[k].value
  {
    seq(|entries|, k requires 0 <= k < |entries| => entries[k].value)
  }

  function LabelsOf(rows: seq<Row>): (r: seq<nat>)
    ensures |r| == |rows| && forall k :: 0 <= k < |r| ==> r[k] == rows[k].action
  {
    seq(|rows|, k requires 0 <= k < |rows| => rows[k].action)
  }

  function ImportanceOf(rows: seq<Row>): (r: seq<real>)
    ensures |r| == |rows| && forall k :: 0 <= k < |r| ==> r[k] == rows[k].importance
  {
    seq(|rows|, k requires 0 <= k < |rows| => rows[k].importance)
  }

  /** The matrix that holds these rows. */
  function Pack(rows: seq<Row>): Packed {
    var flat := Flatten(Entries(rows));
    Packed([0] + Ends(Lengths(Entries(rows))), ColumnsOf(flat), ValuesOf(flat), LabelsOf(rows), ImportanceOf(rows))
  }

  ghost predicate Valid(p: Packed) {
    && |p.offsets| == |p.labels| + 1 && |p.importance| == |p.labels| && |p.indices| == |p.values|
    && p.offsets[0] == 0 && p.offsets[|p.labels|] == |p.indices|
    && forall i, j :: 0 <= i <= j < |p.offsets| ==> p.offsets[i] <= p.offsets[j]
  }

  /** `np.diff(offsets)`. */
  function Counts(p: Packed): (r: seq<nat>)
    requires Valid(p)
    ensures |r| == |p.labels|
  {
    seq(|p.labels|, k requires 0 <= k < |p.labels| => p.offsets[k + 1] - p.offsets[k])
  }

  function EntryAt(p: Packed, j: nat): Entry
    requires Valid(p) && j < |p.indices|
  {
    Entry(p.indices[j], p.values[j])
  }

  function AllEntries(p: Packed): (r: seq<Entry>)
    requires Valid(p)
    ensures |r| == |p.indices|
  {
    seq(|p.indices|, j requires 0 <= j < |p.indices| => EntryAt(p, j))
  }

  /** The row between two offsets. */
  function RowOf(p: Packed, k: nat): Row
    requires Valid(p) && k < |p.labels|
  {
    Row(AllEntries(p)[p.offsets[k]..p.offsets[k + 1]], p.labels[k], p.importance[k])
  }

  function Rows(p: Packed): (r: seq<Row>)
    requires Valid(p)
    ensures |r| == |p.labels|
  {
    seq(|p.labels|, k requires 0 <= k < |p.labels| => RowOf(p, k))
  }

  lemma {:induction false} OffsetsAreSums(p: Packed, k: nat)
    requires Valid(p) && k <= |p.labels|
    ensures Sum(Counts(p)[..k]) == p.offsets[k]
    decreases k
  {
    if k > 0 {
      OffsetsAreSums(p, k - 1);
      SumStep(Counts(p), k - 1);
    }
  }

  lemma PackIsValid(rows: seq<Row>)
    ensures Valid(Pack(rows))
    ensures forall k :: 0 <= k <= |rows| ==> Pack(rows).offsets[k] == Sum(Lengths(Entries(rows))[..k])
  {
    var p, counts := Pack(rows), Lengths(Entries(rows));
    FlattenLength(Entries(rows));
    assert counts[..|rows|] == counts;
    forall k | 0 <= k <= |rows|
      ensures p.offsets[k] == Sum(counts[..k])
    {
      if k > 0 { assert p.offsets[k] == Ends(counts)[k - 1]; }
    }
    forall i, j | 0 <= i <= j < |p.offsets|
      ensures p.offsets[i] <= p.offsets[j]
    {
      SumPrefix(counts, i, j);
    }
  }

  /** Packing loses nothing. */
  lemma RowsOfPack(rows: seq<Row>)
    ensures Valid(Pack(rows)) && Rows(Pack(rows)) == rows
  {
    PackIsValid(rows);
    var p, entries := Pack(rows), Entries(rows);
    assert AllEntries(p) == Flatten(entries);
    forall k | 0 <= k < |rows|
      ensures RowOf(p, k) == rows[k]
    {
      RowAt(entries, k);
      SumStep(Lengths(entries), k);
    }
  }

  lemma RowIsSlice(p: Packed, k: nat)
    requires Valid(p) && k < |p.labels|
    ensures Sum(Counts(p)) == |p.indices|
    ensures RowOf(p, k).entries == Slice(AllEntries(p), Counts(p), k)
  {
    OffsetsAreSums(p, |p.labels|);
    assert Counts(p)[..|p.labels|] == Counts(p);
    OffsetsAreSums(p, k);
  }

  lemma RowsAreSlices(p: Packed)
    requires Valid(p)
    ensures Sum(Counts(p)) == |p.indices|
    ensures Entries(Rows(p)) == Slices(AllEntries(p), Counts(p))
  {
    OffsetsAreSums(p, |p.labels|);
    assert Counts(p)[..|p.labels|] == Counts(p);
    forall k | 0 <= k < |p.labels|
      ensures Entries(Rows(p))[k] == Slices(AllEntries(p), Counts(p))[k]
    {
      RowIsSlice(p, k);
    }
  }

  lemma OffsetsOfCounts(p: Packed)
    requires Valid(p)
    ensures [0] + Ends(Counts(p)) == p.offsets
  {
    forall k | 0 <= k <= |p.labels|
      ensures ([0] + Ends(Counts(p)))[k] == p.offsets[k]
    {
      OffsetsAreSums(p, k);
    }
  }

  /** Every valid matrix is the packing of its rows. */
  lemma PackOfRows(p: Packed)
    requires Valid(p)
    ensures Pack(Rows(p)) == p
  {
    RowsAreSlices(p);
    FlattenOfSlices(AllEntries(p), Counts(p));
    OffsetsOfCounts(p);
    EntriesReadBack(p);
    RowsReadBack(p);
  }

  lemma EntriesReadBack(p: Packed)
    requires Valid(p)
    ensures ColumnsOf(AllEntries(p)) == p.indices && ValuesOf(AllEntries(p)) == p.values
  {}

  lemma RowsReadBack(p: Packed)
    requires Valid(p)
    ensures LabelsOf(Rows(p)) == p.labels && ImportanceOf(Rows(p)) == p.importance
  {}

  lemma {:induction false} EndsAppend(counts: seq<nat>, more: seq<nat>)
    ensures Ends(counts + more) == Ends(counts) + seq(|more|, k requires 0 <= k < |more| => Sum(counts) + Ends(more)[k])
  {
    forall k | 0 <= k < |counts| + |more|
      ensures Ends(counts + more)[k]
           == if k < |counts| then Ends(counts)[k] else Sum(counts) + Ends(more)[k - |counts|]
    {
      if k < |counts| {
        assert (counts + more)[..k + 1] == counts[..k + 1];
      } else {
        assert (counts + more)[..k + 1] == counts + more[..k - |counts| + 1];
        SumSplits(counts, more[..k - |counts| + 1]);
      }
    }
  }

  lemma EntriesAppend(rows: seq<Row>, more: seq<Row>)
    ensures Entries(rows + more) == Entries(rows) + Entries(more)
    ensures Lengths(Entries(rows + more)) == Lengths(Entries(rows)) + Lengths(Entries(more))
    ensures Flatten(Entries(rows + more)) == Flatten(Entries(rows)) + Flatten(Entries(more))
    ensures LabelsOf(rows + more) == LabelsOf(rows) + LabelsOf(more)
    ensures ImportanceOf(rows + more) == ImportanceOf(rows) + ImportanceOf(more)
  {
    EntriesJoin(rows, more);
    LengthsJoin(Entries(rows), Entries(more));
    FlattenSplits(Entries(rows), Entries(more));
  }

  lemma EntriesJoin(rows: seq<Row>, more: seq<Row>)
    ensures Entries(rows + more) == Entries(rows) + Entries(more)
    ensures LabelsOf(rows + more) == LabelsOf(rows) + LabelsOf(more)
    ensures ImportanceOf(rows + more) == ImportanceOf(rows) + ImportanceOf(more)
  {}

  lemma LengthsJoin<T>(a: seq<seq<T>>, b: seq<seq<T>>)
    ensures Lengths(a + b) == Lengths(a) + Lengths(b)
  {}

  /** What more rows add to a matrix. */
  lemma PackAppends(rows: seq<Row>, more: seq<Row>)
    ensures var p, q, all := Pack(rows), Pack(more), Pack(rows + more);
      && all.offsets == p.offsets + seq(|more|, k requires 0 <= k < |more| => |p.indices| + q.offsets[k + 1])
      && all.indices == p.indices + q.indices && all.values == p.values + q.values
      && all.labels == p.labels + q.labels && all.importance == p.importance + q.importance
  {
    hide Flatten, Lengths, Ends, Entries, ColumnsOf, ValuesOf;
    EntriesAppend(rows, more);
    FlattenLength(Entries(rows));
    EndsAppend(Lengths(Entries(rows)), Lengths(Entries(more)));
    FlatAppends(Flatten(Entries(rows)), Flatten(Entries(more)));
  }

  lemma FlatAppends(a: seq<Entry>, b: seq<Entry>)
    ensures ColumnsOf(a + b) == ColumnsOf(a) + ColumnsOf(b)
    ensures ValuesOf(a + b) == ValuesOf(a) + ValuesOf(b)
  {}

  lemma PackOne(rows: seq<Row>, row: Row)
    ensures var p, q := Pack(rows), Pack(rows + [row]);
      && q.offsets == p.offsets + [|p.indices| + |row.entries|]
      && q.indices == p.indices + ColumnsOf(row.entries) && q.values == p.values + ValuesOf(row.entries)
      && q.labels == p.labels + [row.action] && q.importance == p.importance + [row.importance]
  {
    PackAppends(rows, [row]);
    assert Entries([row]) == [row.entries];
    FlattenOne(row.entries);
    PackIsValid([row]);
  }

  // ---- Packed.build

  /** A row as features by name, in the order its dictionary lists them. */
  datatype FeatureRow = FeatureRow(features: seq<(string, real)>, action: int, importance: real)

  datatype BuildError = InvalidTargetOrImportance

  /** `{name: index for index, name in enumerate(names)}`: the last position of a name wins. */
  function Vocabulary(names: seq<string>): (r: map<string, nat>)
    ensures forall n :: n in r <==> n in names
    ensures forall n :: n in r ==> r[n] < |names| && names[r[n]] == n
  {
    if names == [] then map[]
    else
      assert names == names[..|names| - 1] + [names[|names| - 1]];
      Vocabulary(names[..|names| - 1])[names[|names| - 1] := |names| - 1]
  }

  /** The features the vocabulary holds, by their column. */
  function Select(features: seq<(string, real)>, vocabulary: map<string, nat>): seq<Entry> {
    if features == [] then []
    else
      var name, value := features[|features| - 1].0, features[|features| - 1].1;
      Select(features[..|features| - 1], vocabulary)
      + if name in vocabulary then [Entry(vocabulary[name], value)] else []
  }

  predicate Acceptable(row: FeatureRow) { 0 <= row.action < ACTIONS && row.importance > 0.0 }

  function Selected(row: FeatureRow, vocabulary: map<string, nat>): Row
    requires Acceptable(row)
  {
    Row(Select(row.features, vocabulary), row.action, row.importance)
  }

  function SelectedRows(rows: seq<FeatureRow>, vocabulary: map<string, nat>): (r: seq<Row>)
    requires forall k :: 0 <= k < |rows| ==> Acceptable(rows[k])
    ensures |r| == |rows|
  {
    seq(|rows|, k requires 0 <= k < |rows| => Selected(rows[k], vocabulary))
  }

  /** The known features of one row, appended in its order. */
  method AppendFeatures(features: seq<(string, real)>, vocabulary: map<string, nat>, indices: seq<nat>, values: seq<real>)
    returns (moreIndices: seq<nat>, moreValues: seq<real>)
    ensures moreIndices == indices + ColumnsOf(Select(features, vocabulary))
    ensures moreValues == values + ValuesOf(Select(features, vocabulary))
  {
    moreIndices, moreValues := indices, values;
    for e := 0 to |features|
      invariant moreIndices == indices + ColumnsOf(Select(features[..e], vocabulary))
      invariant moreValues == values + ValuesOf(Select(features[..e], vocabulary))
    {
      var name, value := features[e].0, features[e].1;
      assert features[..e + 1][..e] == features[..e];
      if name in vocabulary {
        moreIndices := moreIndices + [vocabulary[name]];
        moreValues := moreValues + [value];
      }
    }
    assert features[..|features|] == features;
  }

  /** `Packed.build`: one entry per known feature, in the rows' own order; a bad row stops it. */
  method Build(rows: seq<FeatureRow>, names: seq<string>) returns (r: Result<Packed, BuildError>)
    ensures r.Ok? <==> forall k :: 0 <= k < |rows| ==> Acceptable(rows[k])
    ensures r.Ok? ==> r.value == Pack(SelectedRows(rows, Vocabulary(names)))
  {
    var vocabulary := Vocabulary(names);
    var offsets: seq<nat>, indices: seq<nat>, values: seq<real> := [0], [], [];
    var labels: seq<nat>, importance: seq<real> := [], [];
    for k := 0 to |rows|
      invariant forall j :: 0 <= j < k ==> Acceptable(rows[j])
      invariant Packed(offsets, indices, values, labels, importance) == Pack(SelectedRows(rows[..k], vocabulary))
    {
      var row := rows[k];
      if !(0 <= row.action < ACTIONS) || row.importance <= 0.0 {
        return Err(InvalidTargetOrImportance);
      }
      indices, values := AppendFeatures(row.features, vocabulary, indices, values);
      PackOne(SelectedRows(rows[..k], vocabulary), Selected(row, vocabulary));
      assert SelectedRows(rows[..k + 1], vocabulary) == SelectedRows(rows[..k], vocabulary) + [Selected(row, vocabulary)];
      offsets := offsets + [|indices|];
      labels := labels + [row.action];
      importance := importance + [row.importance];
    }
    assert rows[..|rows|] == rows;
    r := Ok(Packed(offsets, indices, values, labels, importance));
  }
}
