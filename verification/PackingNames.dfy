/**
 `FeatureSet.packed`: from feature names to columns, and the packed matrix as the builder's, given the same
 frames with each frame's features listed in any order that puts the known ones in column order.
 */
module PackingNames {
  import opened Names
  import opened RowLayout
  import opened PackedRows
  import opened StableSort
  import opened Packing
  import opened PackingOrder

  /** Each global id's column in the model's vocabulary, -1 for a name it does not hold. */
  ghost predicate IsColumn(column: seq<int>, names: seq<string>, vocabulary: map<string, nat>) {
    && |column| == |names|
    && forall k :: 0 <= k < |names| ==> column[k] == if names[k] in vocabulary then vocabulary[names[k]] else -1
  }

  /** The loop that fills the column map: names no frame holds are passed over. */
  method ColumnMap(names: seq<string>, modelNames: seq<string>) returns (column: seq<int>)
    requires Distinct(names)
    ensures IsColumn(column, names, Vocabulary(modelNames))
  {
    column := seq(|names|, _ => -1);
    var index := Vocabulary(names);
    for position := 0 to |modelNames|
      invariant IsColumn(column, names, Vocabulary(modelNames[..position]))
    {
      var name := modelNames[position];
      assert modelNames[..position + 1][..position] == modelNames[..position];
      if name in index {
        column := column[index[name] := position];
      }
    }
    assert modelNames[..|modelNames|] == modelNames;
  }

  /** The features of a row by name. */
  function Named(ids: seq<nat>, values: seq<real>, names: seq<string>): (r: seq<(string, real)>)
    requires |ids| == |values| && forall k :: 0 <= k < |ids| ==> ids[k] < |names|
    ensures |r| == |ids|
  {
    seq(|ids|, k requires 0 <= k < |ids| => (names[ids[k]], values[k]))
  }

  lemma {:induction false} SelectByName(ids: seq<nat>, values: seq<real>, names: seq<string>, column: seq<int>, vocabulary: map<string, nat>)
    requires |ids| == |values| && (forall k :: 0 <= k < |ids| ==> ids[k] < |names|)
    requires IsColumn(column, names, vocabulary)
    ensures Select(Named(ids, values, names), vocabulary) == SelectEntries(ids, values, column)
    decreases |ids|
  {
    if ids != [] {
      var last := |ids| - 1;
      SelectByName(ids[..last], values[..last], names, column, vocabulary);
      assert Named(ids, values, names)[..last] == Named(ids[..last], values[..last], names);
    }
  }

  /** The frames of a part as `Columns.rows` reads them back. */
  function FrameRow(part: Columns, names: seq<string>, k: nat): FeatureRow
    requires ValidColumns(part, |names|) && k < |part.counts|
  {
    FeatureRow(Named(Slice(part.ids, part.counts, k), Slice(part.values, part.counts, k), names),
               part.labels[k], part.importance[k])
  }

  function FrameRows(parts: seq<Columns>, names: seq<string>): seq<FeatureRow>
    requires forall k :: 0 <= k < |parts| ==> ValidColumns(parts[k], |names|)
  {
    if parts == [] then []
    else
      var part := parts[|parts| - 1];
      FrameRows(parts[..|parts| - 1], names) + seq(|part.counts|, k requires 0 <= k < |part.counts| => FrameRow(part, names, k))
  }

  ghost predicate Describes(row: Row, frame: FeatureRow, vocabulary: map<string, nat>) {
    && row.entries == Select(frame.features, vocabulary)
    && row.action == frame.action && row.importance == frame.importance
  }

  lemma {:induction false} AllRowsDescribe(parts: seq<Columns>, names: seq<string>, column: seq<int>, vocabulary: map<string, nat>)
    requires IsColumn(column, names, vocabulary) && forall k :: 0 <= k < |parts| ==> ValidColumns(parts[k], |names|)
    ensures |AllRows(parts, column)| == |FrameRows(parts, names)|
    ensures forall k :: 0 <= k < |AllRows(parts, column)| ==>
      Describes(AllRows(parts, column)[k], FrameRows(parts, names)[k], vocabulary)
    decreases |parts|
  {
    if parts != [] {
      var part := parts[|parts| - 1];
      AllRowsDescribe(parts[..|parts| - 1], names, column, vocabulary);
      var more := MakeRows(SelectedEntries(part, column), part.labels, part.importance);
      forall k | 0 <= k < |part.counts|
        ensures Describes(more[k], FrameRow(part, names, k), vocabulary)
      {
        SelectByName(Slice(part.ids, part.counts, k), Slice(part.values, part.counts, k), names, column, vocabulary);
      }
    }
  }

  lemma {:induction false} SelectSplitsNames(a: seq<(string, real)>, b: seq<(string, real)>, vocabulary: map<string, nat>)
    ensures Select(a + b, vocabulary) == Select(a, vocabulary) + Select(b, vocabulary)
    decreases |b|
  {
    if b == [] {
      assert a + b == a;
    } else {
      assert (a + b)[..|a + b| - 1] == a + b[..|b| - 1];
      SelectSplitsNames(a, b[..|b| - 1], vocabulary);
    }
  }

  /** Listing a frame's features in another order selects the same entries in another order. */
  lemma {:induction false} SelectPermutes(a: seq<(string, real)>, b: seq<(string, real)>, vocabulary: map<string, nat>)
    requires multiset(a) == multiset(b)
    ensures multiset(Select(a, vocabulary)) == multiset(Select(b, vocabulary))
    decreases |a|
  {
    if a == [] {
      assert |multiset(b)| == 0;
    } else {
      var front, last := a[..|a| - 1], a[|a| - 1];
      assert a == front + [last];
      assert last in multiset(b);
      var i := PlaceOf(b, last);
      TakenOut(b, i);
      SelectPermutes(front, b[..i] + b[i + 1..], vocabulary);
      SelectWithout(b, i, vocabulary);
      SelectSplitsNames(front, [last], vocabulary);
    }
  }

  lemma {:induction false} SelectWithout(b: seq<(string, real)>, i: nat, vocabulary: map<string, nat>)
    requires i < |b|
    ensures multiset(Select(b, vocabulary))
         == multiset(Select(b[..i] + b[i + 1..], vocabulary)) + multiset(Select([b[i]], vocabulary))
  {
    SelectTakesOut(b[..i], b[i], b[i + 1..], vocabulary);
    assert b == b[..i] + ([b[i]] + b[i + 1..]);
  }

  lemma TakenOut<T>(b: seq<T>, i: nat)
    requires i < |b|
    ensures multiset(b[..i] + b[i + 1..]) == multiset(b) - multiset{b[i]}
  {
    assert b == b[..i] + [b[i]] + b[i + 1..];
  }

  lemma {:induction false} SelectTakesOut(a: seq<(string, real)>, x: (string, real), b: seq<(string, real)>,
                                          vocabulary: map<string, nat>)
    ensures multiset(Select(a + ([x] + b), vocabulary)) == multiset(Select(a + b, vocabulary)) + multiset(Select([x], vocabulary))
  {
    SelectSplitsNames(a, [x] + b, vocabulary);
    SelectSplitsNames([x], b, vocabulary);
    SelectSplitsNames(a, b, vocabulary);
  }

  /** The same frame, its known features listed in column order. */
  ghost predicate ListsInOrder(listed: FeatureRow, frame: FeatureRow, vocabulary: map<string, nat>) {
    && multiset(listed.features) == multiset(frame.features)
    && listed.action == frame.action && listed.importance == frame.importance
    && StrictlyOrdered(Select(listed.features, vocabulary), ColumnKey())
  }

  /** The matrix `packed` writes is the builder's for the frames listed in column order. */
  lemma {:induction false} PackedIsBuilt(parts: seq<Columns>, names: seq<string>, modelNames: seq<string>, column: seq<int>,
                                         chunk: nat, listed: seq<FeatureRow>)
    requires forall k :: 0 <= k < |parts| ==> ValidColumns(parts[k], |names|)
    requires IsColumn(column, names, Vocabulary(modelNames)) && SpreadFits(column)
    requires |listed| == |FrameRows(parts, names)|
    requires forall k :: 0 <= k < |listed| ==> Acceptable(listed[k])
    requires forall k :: 0 <= k < |listed| ==> ListsInOrder(listed[k], FrameRows(parts, names)[k], Vocabulary(modelNames))
    ensures PackedOf(parts, column, chunk) == Pack(SelectedRows(listed, Vocabulary(modelNames)))
  {
    var vocabulary, rows := Vocabulary(modelNames), AllRows(parts, column);
    PackedInColumnOrder(parts, column, chunk);
    AllRowsDescribe(parts, names, column, vocabulary);
    forall k | 0 <= k < |rows|
      ensures InColumnOrder(rows)[k] == SelectedRows(listed, vocabulary)[k]
    {
      assert Describes(rows[k], FrameRows(parts, names)[k], vocabulary);
      SelectPermutes(FrameRows(parts, names)[k].features, listed[k].features, vocabulary);
      SortIsUnique(rows[k].entries, Select(listed[k].features, vocabulary), ColumnKey());
    }
    assert InColumnOrder(rows) == SelectedRows(listed, vocabulary);
  }

  /** A vocabulary with at most two names more than the fit always lies within one stride. */
  lemma {:induction false} SmallVocabularyFits(column: seq<int>, names: seq<string>, modelNames: seq<string>)
    requires IsColumn(column, names, Vocabulary(modelNames)) && |modelNames| <= |names| + 2
    ensures SpreadFits(column)
  {}
}
