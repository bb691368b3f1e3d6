/**
 `trainable_frames` of context_action_pipeline.py: the frames that hold a feature with a finite accumulator,
 and when fitting them alone leaves the very weights and accumulators of fitting every frame.
 */
module TrainableFrames {
  import opened RowLayout
  import opened PackedRows
  import opened Optimizer

  // ---- the array expressions

  /** `values[mask]`. */
  function Compress<T>(values: seq<T>, mask: seq<bool>): seq<T>
    requires |values| == |mask|
  {
    if values == [] then []
    else
      var last := |values| - 1;
      Compress(values[..last], mask[..last]) + if mask[last] then [values[last]] else []
  }

  /** `np.isfinite(accumulators[::4])` for one feature. */
  predicate FiniteFeature(accumulators: seq<Accumulator>, column: nat) {
    column * 4 < |accumulators| && accumulators[column * 4].Finite?
  }

  /** `np.bincount(rows, weights=finite[indices])` for one row: how many of its features are finite. */
  function FiniteCount(indices: seq<nat>, accumulators: seq<Accumulator>): nat {
    if indices == [] then 0
    else FiniteCount(indices[..|indices| - 1], accumulators)
         + if FiniteFeature(accumulators, indices[|indices| - 1]) then 1 else 0
  }

  function KeepRows(data: Packed, accumulators: seq<Accumulator>): (r: seq<bool>)
    requires Valid(data)
    ensures |r| == |data.labels|
  {
    seq(|data.labels|, k requires 0 <= k < |data.labels| =>
      FiniteCount(data.indices[data.offsets[k]..data.offsets[k + 1]], accumulators) > 0)
  }

  /** `keep_row[rows]`: each entry's row flag. */
  function SpreadFlags(flags: seq<bool>, counts: seq<nat>): (r: seq<bool>)
    requires |flags| == |counts|
    ensures |r| == Sum(counts)
  {
    if flags == [] then []
    else
      var last := |flags| - 1;
      SpreadFlags(flags[..last], counts[..last]) + seq(counts[last], _ => flags[last])
  }

  function Trainable(data: Packed, accumulators: seq<Accumulator>): Packed
    requires Valid(data)
  {
    OffsetsAreSums(data, |data.labels|);
    assert Counts(data)[..|data.labels|] == Counts(data);
    var keep := KeepRows(data, accumulators);
    var entries := SpreadFlags(keep, Counts(data));
    Packed([0] + Ends(Compress(Counts(data), keep)), Compress(data.indices, entries), Compress(data.values, entries),
           Compress(data.labels, keep), Compress(data.importance, keep))
  }

  // ---- the rows it stands for

  predicate Moves(row: Row, accumulators: seq<Accumulator>) {
    exists j :: 0 <= j < |row.entries| && FiniteFeature(accumulators, row.entries[j].column)
  }

  function KeptRows(rows: seq<Row>, accumulators: seq<Accumulator>): seq<Row> {
    if rows == [] then []
    else KeptRows(rows[..|rows| - 1], accumulators)
         + if Moves(rows[|rows| - 1], accumulators) then [rows[|rows| - 1]] else []
  }

  lemma {:induction false} FiniteCountFinds(entries: seq<Entry>, accumulators: seq<Accumulator>)
    ensures FiniteCount(ColumnsOf(entries), accumulators) > 0
       <==> exists j :: 0 <= j < |entries| && FiniteFeature(accumulators, entries[j].column)
    decreases |entries|
  {
    if entries != [] {
      var last := |entries| - 1;
      FiniteCountFinds(entries[..last], accumulators);
      assert ColumnsOf(entries)[..last] == ColumnsOf(entries[..last]);
      assert forall j :: 0 <= j < last ==> entries[..last][j] == entries[j];
    }
  }

  lemma {:induction false} CompressSplits<T>(a: seq<T>, b: seq<T>, m: seq<bool>, n: seq<bool>)
    requires |a| == |m| && |b| == |n|
    ensures Compress(a + b, m + n) == Compress(a, m) + Compress(b, n)
    decreases |b|
  {
    if b == [] {
      assert a + b == a && m + n == m;
    } else {
      var last := |b| - 1;
      assert (a + b)[..|a| + last] == a + b[..last] && (m + n)[..|a| + last] == m + n[..last];
      CompressSplits(a, b[..last], m, n[..last]);
    }
  }

  lemma {:induction false} CompressWhole<T>(values: seq<T>, flag: bool)
    ensures Compress(values, seq(|values|, _ => flag)) == if flag then values else []
    decreases |values|
  {
    if values != [] {
      CompressWhole(values[..|values| - 1], flag);
      assert seq(|values|, _ => flag)[..|values| - 1] == seq(|values| - 1, _ => flag);
    }
  }

  lemma LastRowMasked<T>(front: seq<T>, row: seq<T>, mask: seq<bool>, flag: bool, kept: seq<seq<T>>)
    requires |front| == |mask| && Compress(front, mask) == Flatten(kept)
    ensures Compress(front + row, mask + seq(|row|, _ => flag)) == Flatten(kept + if flag then [row] else [])
  {
    CompressSplits(front, row, mask, seq(|row|, _ => flag));
    CompressWhole(row, flag);
    if flag {
      FlattenSplits(kept, [row]);
      FlattenOne(row);
    } else {
      assert kept + [] == kept && Flatten(kept) + [] == Flatten(kept);
    }
  }

  /** Masking the entries by their row's flag drops whole rows. */
  lemma {:induction false} CompressRows<T>(rows: seq<seq<T>>, flags: seq<bool>)
    requires |rows| == |flags|
    ensures |Flatten(rows)| == Sum(Lengths(rows))
    ensures Compress(Flatten(rows), SpreadFlags(flags, Lengths(rows))) == Flatten(Compress(rows, flags))
    decreases |rows|
  {
    FlattenLength(rows);
    if rows != [] {
      var last := |rows| - 1;
      CompressRows(rows[..last], flags[..last]);
      assert Lengths(rows)[..last] == Lengths(rows[..last]);
      LastRowMasked(Flatten(rows[..last]), rows[last], SpreadFlags(flags[..last], Lengths(rows[..last])), flags[last],
                    Compress(rows[..last], flags[..last]));
    }
  }

  lemma {:induction false} CompressMaps<S, T>(a: seq<S>, b: seq<T>, f: S -> T, mask: seq<bool>)
    requires |a| == |b| == |mask| && forall k :: 0 <= k < |a| ==> b[k] == f(a[k])
    ensures |Compress(a, mask)| == |Compress(b, mask)|
    ensures forall k :: 0 <= k < |Compress(a, mask)| ==> Compress(b, mask)[k] == f(Compress(a, mask)[k])
    decreases |a|
  {
    if a != [] {
      var last := |a| - 1;
      CompressMaps(a[..last], b[..last], f, mask[..last]);
    }
  }

  lemma {:induction false} KeptIsCompressed(rows: seq<Row>, accumulators: seq<Accumulator>, mask: seq<bool>)
    requires |rows| == |mask| && forall k :: 0 <= k < |rows| ==> mask[k] == Moves(rows[k], accumulators)
    ensures KeptRows(rows, accumulators) == Compress(rows, mask)
    decreases |rows|
  {
    if rows != [] {
      KeptIsCompressed(rows[..|rows| - 1], accumulators, mask[..|rows| - 1]);
    }
  }

  lemma KeepIsMoves(data: Packed, accumulators: seq<Accumulator>, k: nat)
    requires Valid(data) && k < |data.labels|
    ensures KeepRows(data, accumulators)[k] == Moves(RowOf(data, k), accumulators)
  {
    FiniteCountFinds(RowOf(data, k).entries, accumulators);
    assert ColumnsOf(RowOf(data, k).entries) == data.indices[data.offsets[k]..data.offsets[k + 1]];
  }

  /** What masking the rows' own lists gives. */
  lemma {:induction false} PackCompressed(rows: seq<Row>, mask: seq<bool>)
    requires |rows| == |mask|
    ensures Entries(Compress(rows, mask)) == Compress(Entries(rows), mask)
    ensures Lengths(Entries(Compress(rows, mask))) == Compress(Lengths(Entries(rows)), mask)
    ensures LabelsOf(Compress(rows, mask)) == Compress(LabelsOf(rows), mask)
    ensures ImportanceOf(Compress(rows, mask)) == Compress(ImportanceOf(rows), mask)
  {
    CompressMaps(rows, Entries(rows), (r: Row) => r.entries, mask);
    CompressMaps(rows, Lengths(Entries(rows)), (r: Row) => |r.entries| as nat, mask);
    CompressMaps(rows, LabelsOf(rows), (r: Row) => r.action, mask);
    CompressMaps(rows, ImportanceOf(rows), (r: Row) => r.importance, mask);
  }

  /** The masks and running totals build exactly the matrix of the kept rows. */
  lemma {:induction false} TrainableIsKeptRows(data: Packed, accumulators: seq<Accumulator>)
    requires Valid(data)
    ensures Trainable(data, accumulators) == Pack(KeptRows(Rows(data), accumulators))
    ensures Valid(Trainable(data, accumulators))
    ensures Rows(Trainable(data, accumulators)) == KeptRows(Rows(data), accumulators)
  {
    var rows, keep := Rows(data), KeepRows(data, accumulators);
    forall k | 0 <= k < |rows| ensures keep[k] == Moves(rows[k], accumulators) {
      KeepIsMoves(data, accumulators, k);
    }
    KeptIsCompressed(rows, accumulators, keep);
    PackCompressed(rows, keep);
    TrainableLists(data, accumulators);
    RowsOfPack(KeptRows(rows, accumulators));
  }

  lemma TrainableLists(data: Packed, accumulators: seq<Accumulator>)
    requires Valid(data)
    ensures var rows, keep := Rows(data), KeepRows(data, accumulators);
      var flat := Flatten(Compress(Entries(rows), keep));
      Trainable(data, accumulators)
      == Packed([0] + Ends(Compress(Lengths(Entries(rows)), keep)), ColumnsOf(flat), ValuesOf(flat),
                Compress(LabelsOf(rows), keep), Compress(ImportanceOf(rows), keep))
  {
    var rows, keep := Rows(data), KeepRows(data, accumulators);
    RowsAreSlices(data);
    FlattenOfSlices(AllEntries(data), Counts(data));
    CompressRows(Entries(rows), keep);
    FlatMasked(AllEntries(data), data.indices, data.values, SpreadFlags(keep, Counts(data)));
    RowsReadBack(data);
  }

  lemma {:induction false} FlatMasked(entries: seq<Entry>, indices: seq<nat>, values: seq<real>, mask: seq<bool>)
    requires |entries| == |indices| == |values| == |mask|
    requires forall k :: 0 <= k < |entries| ==> entries[k] == Entry(indices[k], values[k])
    ensures Compress(indices, mask) == ColumnsOf(Compress(entries, mask))
    ensures Compress(values, mask) == ValuesOf(Compress(entries, mask))
  {
    CompressMaps(entries, indices, (e: Entry) => e.column, mask);
    CompressMaps(entries, values, (e: Entry) => e.value, mask);
  }

  // ---- a frame of frozen features moves nothing

  /** A feature frozen for its first action is frozen for all four. */
  ghost predicate FrozenWhole(accumulators: seq<Accumulator>, features: nat)
    requires |accumulators| == Cells(features)
  {
    forall f, k {:trigger Place(f, k, features)} :: 0 <= f < features && 0 <= k < ACTIONS ==>
      (accumulators[Place(f, 0, features)].Infinite? ==> accumulators[Place(f, k, features)].Infinite?)
  }

  /** The cells frozen in one fit are those frozen in the other, and their weights are equal. */
  ghost predicate SameFrozen(a: Fit, b: Fit) {
    && |a.weights| == |b.weights| == |a.accumulators| == |b.accumulators|
    && (forall i :: 0 <= i < |a.accumulators| ==> a.accumulators[i].Infinite? == b.accumulators[i].Infinite?)
    && (forall i :: 0 <= i < |a.accumulators| && a.accumulators[i].Infinite? ==> a.weights[i] == b.weights[i])
  }

  lemma {:induction false} ActionsKeepFrozen(fit: Fit, row: Row, j: nat, count: nat, p: seq<real>, rate: real, m: Maths, features: nat)
    requires FitShape(fit, features) && RowFits(row, features) && j < |row.entries| && count <= ACTIONS && |p| == ACTIONS
    ensures SameFrozen(fit, MoveActions(fit, row, j, count, p, rate, m, features))
    decreases count
  {
    if count > 0 {
      ActionsKeepFrozen(fit, row, j, count - 1, p, rate, m, features);
    }
  }

  lemma {:induction false} EntriesKeepFrozen(fit: Fit, row: Row, count: nat, p: seq<real>, rate: real, m: Maths, features: nat)
    requires FitShape(fit, features) && RowFits(row, features) && count <= |row.entries| && |p| == ACTIONS
    ensures SameFrozen(fit, MoveEntries(fit, row, count, p, rate, m, features))
    decreases count
  {
    if count > 0 {
      EntriesKeepFrozen(fit, row, count - 1, p, rate, m, features);
      ActionsKeepFrozen(MoveEntries(fit, row, count - 1, p, rate, m, features), row, count - 1, ACTIONS, p, rate, m, features);
    }
  }

  lemma {:induction false} EpochKeepsFrozen(fit: Fit, rows: seq<Row>, rate: real, m: Maths, features: nat)
    requires FitShape(fit, features) && AllFit(rows, features)
    ensures SameFrozen(fit, Epoch(fit, rows, rate, m, features))
    decreases |rows|
  {
    if rows != [] {
      var before := Epoch(fit, rows[..|rows| - 1], rate, m, features);
      var row := rows[|rows| - 1];
      EpochKeepsFrozen(fit, rows[..|rows| - 1], rate, m, features);
      EntriesKeepFrozen(before, row, |row.entries|, Softmax(Scores(row.entries, before.weights, features), m), rate, m, features);
    }
  }

  /** A weight whose accumulator starts infinite never moves, in any number of epochs. */
  lemma {:induction false} FrozenWeightsNeverMove(fit: Fit, rows: seq<Row>, rates: seq<real>, m: Maths, features: nat)
    requires FitShape(fit, features) && AllFit(rows, features)
    ensures SameFrozen(fit, Epochs(fit, rows, rates, m, features))
    decreases |rates|
  {
    if rates != [] {
      FrozenWeightsNeverMove(fit, rows, rates[..|rates| - 1], m, features);
      EpochKeepsFrozen(Epochs(fit, rows, rates[..|rates| - 1], m, features), rows, rates[|rates| - 1], m, features);
    }
  }

  lemma {:induction false} FrozenActionsStay(fit: Fit, row: Row, j: nat, count: nat, p: seq<real>, rate: real, m: Maths, features: nat)
    requires FitShape(fit, features) && RowFits(row, features) && j < |row.entries| && count <= ACTIONS && |p| == ACTIONS
    requires forall k :: 0 <= k < ACTIONS ==> fit.accumulators[Place(row.entries[j].column, k, features)].Infinite?
    ensures MoveActions(fit, row, j, count, p, rate, m, features) == fit
    decreases count
  {
    if count > 0 {
      FrozenActionsStay(fit, row, j, count - 1, p, rate, m, features);
      var place := Place(row.entries[j].column, count - 1, features);
      assert fit.weights[place := fit.weights[place]] == fit.weights;
      assert fit.accumulators[place := Infinite] == fit.accumulators;
    }
  }

  lemma {:induction false} FrozenRowStays(fit: Fit, row: Row, count: nat, p: seq<real>, rate: real, m: Maths, features: nat)
    requires FitShape(fit, features) && RowFits(row, features) && count <= |row.entries| && |p| == ACTIONS
    requires FrozenWhole(fit.accumulators, features) && !Moves(row, fit.accumulators)
    ensures MoveEntries(fit, row, count, p, rate, m, features) == fit
    decreases count
  {
    if count > 0 {
      FrozenRowStays(fit, row, count - 1, p, rate, m, features);
      assert !FiniteFeature(fit.accumulators, row.entries[count - 1].column);
      assert fit.accumulators[Place(row.entries[count - 1].column, 0, features)].Infinite?;
      FrozenActionsStay(fit, row, count - 1, ACTIONS, p, rate, m, features);
    }
  }

  lemma {:induction false} KeptFit(rows: seq<Row>, accumulators: seq<Accumulator>, features: nat)
    requires AllFit(rows, features)
    ensures AllFit(KeptRows(rows, accumulators), features)
    decreases |rows|
  {
    if rows != [] {
      KeptFit(rows[..|rows| - 1], accumulators, features);
    }
  }

  /** Which features are finite does not change from one fit to the next. */
  lemma SameFinite(a: Fit, b: Fit, row: Row, features: nat)
    requires SameFrozen(a, b) && FitShape(a, features)
    ensures Moves(row, a.accumulators) == Moves(row, b.accumulators)
    ensures FrozenWhole(a.accumulators, features) ==> FrozenWhole(b.accumulators, features)
  {
    forall c: nat
      ensures FiniteFeature(a.accumulators, c) == FiniteFeature(b.accumulators, c)
    {
    }
  }

  lemma {:induction false} EpochOverKept(fit: Fit, first: Fit, rows: seq<Row>, rate: real, m: Maths, features: nat)
    requires FitShape(fit, features) && AllFit(rows, features)
    requires SameFrozen(first, fit) && FrozenWhole(first.accumulators, features)
    ensures AllFit(KeptRows(rows, first.accumulators), features)
    ensures Epoch(fit, KeptRows(rows, first.accumulators), rate, m, features) == Epoch(fit, rows, rate, m, features)
    decreases |rows|
  {
    KeptFit(rows, first.accumulators, features);
    if rows != [] {
      var front, row := rows[..|rows| - 1], rows[|rows| - 1];
      EpochOverKept(fit, first, front, rate, m, features);
      var before := Epoch(fit, front, rate, m, features);
      EpochKeepsFrozen(fit, front, rate, m, features);
      FrozenChain(first, fit, before);
      SameFinite(first, before, row, features);
      LastRowKept(fit, KeptRows(front, first.accumulators), row, before, rate, m, features);
      assert KeptRows(front, first.accumulators) + [] == KeptRows(front, first.accumulators);
    }
  }

  /** The last row moves the fit only when it is kept. */
  lemma LastRowKept(fit: Fit, kept: seq<Row>, row: Row, before: Fit, rate: real, m: Maths, features: nat)
    requires FitShape(fit, features) && AllFit(kept, features) && RowFits(row, features)
    requires FitShape(before, features) && FrozenWhole(before.accumulators, features)
    requires Epoch(fit, kept, rate, m, features) == before
    ensures Moves(row, before.accumulators) ==>
      AllFit(kept + [row], features) && Epoch(fit, kept + [row], rate, m, features) == MoveRow(before, row, rate, m, features)
    ensures !Moves(row, before.accumulators) ==> MoveRow(before, row, rate, m, features) == before
  {
    EpochAppends(fit, kept, row, rate, m, features);
    if !Moves(row, before.accumulators) {
      FrozenRowStays(before, row, |row.entries|, Softmax(Scores(row.entries, before.weights, features), m), rate, m, features);
    }
  }

  lemma FrozenChain(a: Fit, b: Fit, c: Fit)
    requires SameFrozen(a, b) && SameFrozen(b, c)
    ensures SameFrozen(a, c)
  {}

  lemma EpochAppends(fit: Fit, rows: seq<Row>, row: Row, rate: real, m: Maths, features: nat)
    requires FitShape(fit, features) && AllFit(rows, features) && RowFits(row, features)
    ensures AllFit(rows + [row], features)
    ensures Epoch(fit, rows + [row], rate, m, features) == MoveRow(Epoch(fit, rows, rate, m, features), row, rate, m, features)
  {
    assert (rows + [row])[..|rows|] == rows;
  }

  /** Any number of epochs over the kept frames ends with the very same weights and accumulators. */
  lemma {:induction false} KeptFramesSuffice(fit: Fit, rows: seq<Row>, rates: seq<real>, m: Maths, features: nat)
    requires FitShape(fit, features) && AllFit(rows, features) && FrozenWhole(fit.accumulators, features)
    ensures AllFit(KeptRows(rows, fit.accumulators), features)
    ensures Epochs(fit, KeptRows(rows, fit.accumulators), rates, m, features) == Epochs(fit, rows, rates, m, features)
    decreases |rates|
  {
    KeptFit(rows, fit.accumulators, features);
    if rates != [] {
      var front := rates[..|rates| - 1];
      KeptFramesSuffice(fit, rows, front, m, features);
      FrozenWeightsNeverMove(fit, rows, front, m, features);
      EpochOverKept(Epochs(fit, rows, front, m, features), fit, rows, rates[|rates| - 1], m, features);
    }
  }

  // ---- a feature frozen for its first action alone

  /** A frame of one feature, answered by another action than `k`. */
  function Probe(column: nat, k: nat): Row {
    Row([Entry(column, 1.0)], if k == 0 then 1 else 0, 1.0)
  }

  lemma {:induction false} FiniteGrows(fit: Fit, row: Row, count: nat, p: seq<real>, rate: real, m: Maths, features: nat, k: nat)
    requires FitShape(fit, features) && RowFits(row, features) && |row.entries| == 1 && count <= ACTIONS && |p| == ACTIONS
    requires k < ACTIONS && fit.accumulators[Place(row.entries[0].column, k, features)].Finite?
    ensures var place, after := Place(row.entries[0].column, k, features), MoveActions(fit, row, 0, count, p, rate, m, features);
      after.accumulators[place]
      == if count > k then Accumulate(fit.accumulators[place], Gradient(p, row.entries[0], row.action, row.importance, k))
         else fit.accumulators[place]
    decreases count
  {
    if count > 0 {
      FiniteGrows(fit, row, count - 1, p, rate, m, features, k);
    }
  }

  lemma PositiveProduct(a: real, b: real, product: real)
    requires a > 0.0 && b > 0.0 && product == a * b
    ensures product > 0.0
  {}

  lemma AccumulateGrows(a: Accumulator, g: real, square: real)
    requires a.Finite? && g > 0.0 && square == g * g
    ensures Accumulate(a, g) != a
  {
    PositiveProduct(g, g, square);
    assert Accumulate(a, g).value == a.value + square;
  }

  lemma OneEpoch(fit: Fit, row: Row, rate: real, m: Maths, features: nat)
    requires FitShape(fit, features) && RowFits(row, features)
    ensures Epochs(fit, [], [rate], m, features) == fit
    ensures Epochs(fit, [row], [rate], m, features) == MoveRow(fit, row, rate, m, features)
  {
    var rows := [row];
    assert rows[..0] == [] && [rate][..0] == [];
    assert Epoch(fit, [], rate, m, features) == fit;
    assert Epoch(fit, rows, rate, m, features) == MoveRow(fit, row, rate, m, features);
  }

  lemma ProbeMoves(fit: Fit, column: nat, k: nat, rate: real, m: Maths, features: nat)
    requires FitShape(fit, features) && Sound(m) && column < features && 0 < k < ACTIONS
    requires fit.accumulators[Place(column, k, features)].Finite?
    ensures RowFits(Probe(column, k), features) && MoveRow(fit, Probe(column, k), rate, m, features) != fit
  {
    var row := Probe(column, k);
    var p := Softmax(Scores(row.entries, fit.weights, features), m);
    assert MoveEntries(fit, row, 0, p, rate, m, features) == fit;
    FiniteGrows(fit, row, ACTIONS, p, rate, m, features, k);
    SoftmaxIsPositive(Scores(row.entries, fit.weights, features), m, k);
    ProbeChanges(fit, MoveRow(fit, row, rate, m, features), Place(column, k, features), Gradient(p, row.entries[0], row.action, row.importance, k));
  }

  lemma ProbeChanges(fit: Fit, after: Fit, place: nat, gradient: real)
    requires place < |fit.accumulators| == |after.accumulators| && fit.accumulators[place].Finite? && gradient > 0.0
    requires after.accumulators[place] == Accumulate(fit.accumulators[place], gradient)
    ensures after != fit
  {
    AccumulateGrows(fit.accumulators[place], gradient, gradient * gradient);
  }

  /** Such a frame is dropped, though an epoch over it would change an accumulator. */
  lemma DroppedFrameMatters(fit: Fit, column: nat, k: nat, rate: real, m: Maths, features: nat)
    requires FitShape(fit, features) && Sound(m) && column < features && 0 < k < ACTIONS
    requires fit.accumulators[Place(column, 0, features)].Infinite?
    requires fit.accumulators[Place(column, k, features)].Finite?
    ensures AllFit([Probe(column, k)], features) && KeptRows([Probe(column, k)], fit.accumulators) == []
    ensures Epochs(fit, [], [rate], m, features) != Epochs(fit, [Probe(column, k)], [rate], m, features)
  {
    ProbeMoves(fit, column, k, rate, m, features);
    OneEpoch(fit, Probe(column, k), rate, m, features);
    ProbeIsDropped(fit, column, k, features);
  }

  lemma ProbeIsDropped(fit: Fit, column: nat, k: nat, features: nat)
    requires FitShape(fit, features) && column < features && 0 < k < ACTIONS
    requires fit.accumulators[Place(column, 0, features)].Infinite?
    ensures KeptRows([Probe(column, k)], fit.accumulators) == []
  {
    assert [Probe(column, k)][..0] == [];
    assert KeptRows([], fit.accumulators) == [];
  }

  ghost predicate SameEnd(fit: Fit, rows: seq<Row>, rates: seq<real>, m: Maths, features: nat)
    requires FitShape(fit, features) && AllFit(rows, features)
  {
    AllFit(KeptRows(rows, fit.accumulators), features)
    && Epochs(fit, KeptRows(rows, fit.accumulators), rates, m, features) == Epochs(fit, rows, rates, m, features)
  }

  /**
   Dropping frames changes no fit exactly when every feature frozen for its first action is frozen for all:
   the flag that decides reads the first action alone.
   */
  lemma DroppingIsExact(fit: Fit, m: Maths, features: nat)
    requires FitShape(fit, features) && Sound(m)
    ensures (forall rows, rates :: AllFit(rows, features) ==> SameEnd(fit, rows, rates, m, features))
       <==> FrozenWhole(fit.accumulators, features)
  {
    if FrozenWhole(fit.accumulators, features) {
      forall rows, rates | AllFit(rows, features)
        ensures SameEnd(fit, rows, rates, m, features)
      {
        KeptFramesSuffice(fit, rows, rates, m, features);
      }
    } else {
      var f, k :| 0 <= f < features && 0 <= k < ACTIONS && fit.accumulators[Place(f, 0, features)].Infinite?
        && !fit.accumulators[Place(f, k, features)].Infinite?;
      DroppedFrameMatters(fit, f, k, 1.0, m, features);
      assert !SameEnd(fit, [Probe(f, k)], [1.0], m, features);
    }
  }
}
