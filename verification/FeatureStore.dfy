/**
 Features by global id: the vocabulary gives ids in the order names arrive, each profile's store keeps its chunks in
 the order they arrive, and what is read back through the vocabulary is each frame's own features.
 */
module FeatureStore {
  import opened RowLayout
  import opened Gather
  import opened PackingNames
  import opened FitPlan
  import opened FitState

  datatype FeatureChunk = FeatureChunk(at: Chunk, names: seq<string>, ids: seq<nat>, values: seq<real>, counts: seq<nat>)

  ghost predicate Fits(names: seq<string>, ids: seq<nat>, values: seq<real>, counts: seq<nat>) {
    |ids| == |values| == Sum(counts) && forall e :: 0 <= e < |ids| ==> ids[e] < |names|
  }

  /** The rows some entries stand for, by name. */
  function RowsOf(names: seq<string>, ids: seq<nat>, values: seq<real>, counts: seq<nat>): (r: seq<Features>)
    requires Fits(names, ids, values, counts)
    ensures |r| == |counts|
  {
    Slices(Named(ids, values, names), counts)
  }

  ghost predicate WellFormed(chunk: FeatureChunk) { Fits(chunk.names, chunk.ids, chunk.values, chunk.counts) }

  function ChunkNamed(chunk: FeatureChunk): seq<Features>
    requires WellFormed(chunk)
  {
    RowsOf(chunk.names, chunk.ids, chunk.values, chunk.counts)
  }

  lemma NamesGrow(names: seq<string>, more: seq<string>, ids: seq<nat>, values: seq<real>, counts: seq<nat>)
    requires names <= more && Fits(names, ids, values, counts)
    ensures Fits(more, ids, values, counts) && RowsOf(more, ids, values, counts) == RowsOf(names, ids, values, counts)
  {
    assert Named(ids, values, more) == Named(ids, values, names);
  }

  lemma RowsSplit(names: seq<string>, i: seq<nat>, v: seq<real>, m: seq<nat>, j: seq<nat>, w: seq<real>, n: seq<nat>)
    requires Fits(names, i, v, m) && Fits(names, j, w, n)
    ensures Fits(names, i + j, v + w, m + n)
    ensures RowsOf(names, i + j, v + w, m + n) == RowsOf(names, i, v, m) + RowsOf(names, j, w, n)
  {
    SumSplits(m, n);
    SlicesSplit(Named(i, v, names), Named(j, w, names), m, n);
    assert Named(i + j, v + w, names) == Named(i, v, names) + Named(j, w, names);
  }

  lemma OneRow(names: seq<string>, ids: seq<nat>, values: seq<real>)
    requires Fits(names, ids, values, [|ids|])
    ensures RowsOf(names, ids, values, [|ids|]) == [Named(ids, values, names)]
  {
    assert Slice(Named(ids, values, names), [|ids|], 0) == Named(ids, values, names);
  }

  // ---- ids in the order names arrive

  ghost predicate IsIndex(names: seq<string>, index: map<string, nat>) {
    && (forall i :: 0 <= i < |names| ==> names[i] in index && index[names[i]] == i)
    && (forall n :: n in index ==> index[n] < |names| && names[index[n]] == n)
  }

  class Vocabulary {
    var names: seq<string>
    var index: map<string, nat>

    ghost predicate Valid()
      reads this
    {
      IsIndex(names, index)
    }

    constructor ()
      ensures Valid() && names == []
    {
      names, index := [], map[];
    }

    method Ids(wanted: seq<string>) returns (result: seq<nat>)
      requires Valid()
      modifies this
      ensures Valid() && old(names) <= names
      ensures |result| == |wanted| && forall i :: 0 <= i < |wanted| ==> result[i] < |names| && names[result[i]] == wanted[i]
      ensures forall n :: n in names ==> n in old(names) || n in wanted
    {
      result := [];
      for position := 0 to |wanted|
        invariant Valid() && old(names) <= names
        invariant |result| == position
        invariant forall i :: 0 <= i < position ==> result[i] < |names| && names[result[i]] == wanted[i]
        invariant forall n :: n in names ==> n in old(names) || n in wanted
      {
        var name := wanted[position];
        if name !in index {
          index := index[name := |names|];
          names := names + [name];
        }
        result := result + [index[name]];
      }
    }
  }

  // ---- a feature task

  /** A frame's entries, with ids local to the chunk. */
  method LocalIds(features: Features, names: seq<string>, local: map<string, nat>)
    returns (ids: seq<nat>, values: seq<real>, more: seq<string>, next: map<string, nat>)
    requires IsIndex(names, local)
    ensures IsIndex(more, next) && names <= more
    ensures |ids| == |values| == |features| && forall e :: 0 <= e < |ids| ==> ids[e] < |more|
    ensures Named(ids, values, more) == features
  {
    ids, values, more, next := [], [], names, local;
    for e := 0 to |features|
      invariant IsIndex(more, next) && names <= more
      invariant |ids| == |values| == e && forall k :: 0 <= k < |ids| ==> ids[k] < |more|
      invariant Named(ids, values, more) == features[..e]
    {
      var (name, value) := features[e];
      if name !in next {
        next := next[name := |more|];
        more := more + [name];
      }
      ids, values := ids + [next[name]], values + [value];
    }
  }

  /** The features of a task's frames; rows with the same evidence are extracted once. */
  method FeaturesTask(inputs: Inputs, profile: string, at: Chunk, frames: seq<Frame>) returns (chunk: FeatureChunk)
    ensures WellFormed(chunk) && chunk.at == at && ChunkNamed(chunk) == inputs.FeaturesOf(profile, at.split, frames)
  {
    var names: seq<string>, local: map<string, nat> := [], map[];
    var ids: seq<nat>, values: seq<real>, counts: seq<nat> := [], [], [];
    var byEvidence: map<int, Features> := map[];
    ghost var rows: seq<Features> := [];
    for k := 0 to |frames|
      invariant IsIndex(names, local) && Fits(names, ids, values, counts) && |counts| == k
      invariant forall e :: e in byEvidence ==> byEvidence[e] == inputs.extract(e)
      invariant RowsOf(names, ids, values, counts) == rows
      invariant |rows| == k && forall m :: 0 <= m < k ==> rows[m] == inputs.FrameFeatures(profile, at.split, frames[m])
    {
      var features, known := Extract(inputs, profile, at.split, frames[k], byEvidence);
      byEvidence := known;
      var moreIds, moreValues, more, next := LocalIds(features, names, local);
      NamesGrow(names, more, ids, values, counts);
      OneRow(more, moreIds, moreValues);
      RowsSplit(more, ids, values, counts, moreIds, moreValues, [|moreIds|]);
      names, local := more, next;
      ids, values, counts := ids + moreIds, values + moreValues, counts + [|moreIds|];
      rows := rows + [features];
    }
    chunk := FeatureChunk(at, names, ids, values, counts);
    assert rows == inputs.FeaturesOf(profile, at.split, frames);
  }

  method Extract(inputs: Inputs, profile: string, split: string, frame: Frame, byEvidence: map<int, Features>)
    returns (features: Features, known: map<int, Features>)
    requires forall e :: e in byEvidence ==> byEvidence[e] == inputs.extract(e)
    ensures features == inputs.FrameFeatures(profile, split, frame)
    ensures forall e :: e in known ==> known[e] == inputs.extract(e)
  {
    known := byEvidence;
    match frame
    case ActionRow(_, _, _, _) =>
      var item := inputs.rowEvidence(profile, split, frame);
      if item !in known { known := known[item := inputs.extract(item)]; }
      features := known[item];
    case SpanFrame(evidence, _, _) =>
      features := inputs.extract(evidence);
  }

  // ---- the chunks of a profile

  /** Local ids replaced by global ones: `mapping[ids]`. */
  function Through(mapping: seq<nat>, ids: seq<nat>): (r: seq<nat>)
    requires forall e :: 0 <= e < |ids| ==> ids[e] < |mapping|
    ensures |r| == |ids|
  {
    seq(|ids|, e requires 0 <= e < |ids| => NatAt(mapping, ids[e]))
  }

  function NatAt(mapping: seq<nat>, i: nat): nat
    requires i < |mapping|
  {
    mapping[i]
  }

  lemma ThroughKeepsRows(chunk: FeatureChunk, mapping: seq<nat>, names: seq<string>)
    requires WellFormed(chunk) && |mapping| == |chunk.names|
    requires forall i :: 0 <= i < |mapping| ==> mapping[i] < |names| && names[mapping[i]] == chunk.names[i]
    ensures Fits(names, Through(mapping, chunk.ids), chunk.values, chunk.counts)
    ensures RowsOf(names, Through(mapping, chunk.ids), chunk.values, chunk.counts) == ChunkNamed(chunk)
  {
    assert Named(Through(mapping, chunk.ids), chunk.values, names) == Named(chunk.ids, chunk.values, chunk.names);
  }

  /** Each chunk's rows lie together, from its first row on. */
  ghost predicate Lie(rows: seq<Features>, firstRow: map<Chunk, nat>, store: map<Chunk, seq<Features>>)
    requires firstRow.Keys == store.Keys
  {
    forall c :: c in store ==> firstRow[c] + |store[c]| <= |rows| && rows[firstRow[c]..firstRow[c] + |store[c]|] == store[c]
  }

  lemma LieMore(rows: seq<Features>, firstRow: map<Chunk, nat>, store: map<Chunk, seq<Features>>, at: Chunk, more: seq<Features>)
    requires firstRow.Keys == store.Keys && Lie(rows, firstRow, store)
    ensures Lie(rows + more, firstRow[at := |rows|], store[at := more])
  {
    forall c | c in store && c != at
      ensures (rows + more)[firstRow[c]..firstRow[c] + |store[c]|] == store[c]
    {
      assert (rows + more)[firstRow[c]..firstRow[c] + |store[c]|] == rows[firstRow[c]..firstRow[c] + |store[c]|];
    }
    assert (rows + more)[|rows|..|rows| + |more|] == more;
  }

  lemma {:induction false} AddedRows(names: seq<string>, ids: seq<seq<nat>>, values: seq<seq<real>>, counts: seq<seq<nat>>,
                                     chunk: FeatureChunk, global: seq<nat>, mapping: seq<nat>)
    requires Fits(names, Flatten(ids), Flatten(values), Flatten(counts))
    requires WellFormed(chunk) && |mapping| == |chunk.names| && global == Through(mapping, chunk.ids)
    requires forall i :: 0 <= i < |mapping| ==> mapping[i] < |names| && names[mapping[i]] == chunk.names[i]
    ensures var (i, v, n) := (Flatten(ids + [global]), Flatten(values + [chunk.values]), Flatten(counts + [chunk.counts]));
      Fits(names, i, v, n) && |n| == |Flatten(counts)| + |chunk.counts|
      && RowsOf(names, i, v, n) == RowsOf(names, Flatten(ids), Flatten(values), Flatten(counts)) + ChunkNamed(chunk)
  {
    ThroughKeepsRows(chunk, mapping, names);
    RowsSplit(names, Flatten(ids), Flatten(values), Flatten(counts), global, chunk.values, chunk.counts);
    FlattenMore(ids, global);
    FlattenMore(values, chunk.values);
    FlattenMore(counts, chunk.counts);
  }

  function Chosen<T>(rows: seq<T>, wanted: seq<nat>): (r: seq<T>)
    requires forall j :: 0 <= j < |wanted| ==> wanted[j] < |rows|
    ensures |r| == |wanted|
  {
    seq(|wanted|, j requires 0 <= j < |wanted| => rows[wanted[j]])
  }

  /** Whether the mapping gives each of a chunk's names its id. */
  ghost predicate GivesIds(names: seq<string>, wanted: seq<string>, mapping: seq<nat>) {
    |mapping| == |wanted| && forall i :: 0 <= i < |mapping| ==> mapping[i] < |names| && names[mapping[i]] == wanted[i]
  }

  /** What a profile's store holds. */
  datatype IdStore = IdStore(firstRow: map<Chunk, nat>, ids: seq<seq<nat>>, values: seq<seq<real>>, counts: seq<seq<nat>>, rows: nat) {
    ghost predicate Valid(names: seq<string>) {
      Fits(names, Flatten(ids), Flatten(values), Flatten(counts)) && rows == |Flatten(counts)|
    }

    /** Every row in the order it arrived, by name. */
    ghost function Rows(names: seq<string>): seq<Features>
      requires Valid(names)
    {
      RowsOf(names, Flatten(ids), Flatten(values), Flatten(counts))
    }

    /** The store a fit sees by name: each chunk's rows, wherever they lie. */
    ghost predicate Stores(names: seq<string>, store: map<Chunk, seq<Features>>) {
      Valid(names) && firstRow.Keys == store.Keys && Lie(Rows(names), firstRow, store)
    }

    /** With one more chunk, its local ids replaced by global ones. */
    function With(chunk: FeatureChunk, mapping: seq<nat>): IdStore
      requires forall e :: 0 <= e < |chunk.ids| ==> chunk.ids[e] < |mapping|
    {
      IdStore(firstRow[chunk.at := rows], ids + [Through(mapping, chunk.ids)], values + [chunk.values], counts + [chunk.counts],
              rows + |chunk.counts|)
    }

    lemma GrowsWith(names: seq<string>, more: seq<string>, store: map<Chunk, seq<Features>>)
      requires Stores(names, store) && names <= more
      ensures Stores(more, store)
    {
      NamesGrow(names, more, Flatten(ids), Flatten(values), Flatten(counts));
    }

    lemma StoresMore(names: seq<string>, store: map<Chunk, seq<Features>>, chunk: FeatureChunk, mapping: seq<nat>)
      requires WellFormed(chunk) && Stores(names, store) && GivesIds(names, chunk.names, mapping)
      ensures With(chunk, mapping).Stores(names, store[chunk.at := ChunkNamed(chunk)])
    {
      AddedRows(names, ids, values, counts, chunk, Through(mapping, chunk.ids), mapping);
      LieMore(Rows(names), firstRow, store, chunk.at, ChunkNamed(chunk));
    }

    /** The row of a frame of a stored chunk. */
    lemma RowIs(names: seq<string>, store: map<Chunk, seq<Features>>, c: Chunk, offset: nat)
      requires Stores(names, store) && c in store && offset < |store[c]|
      ensures firstRow[c] + offset < rows && Rows(names)[firstRow[c] + offset] == store[c][offset]
    {
      assert Rows(names)[firstRow[c]..firstRow[c] + |store[c]|][offset] == store[c][offset];
    }
  }

  const EMPTY_STORE: IdStore := IdStore(map[], [], [], [], 0)

  class ProfileStore {
    var firstRow: map<Chunk, nat>
    var ids: seq<seq<nat>>
    var values: seq<seq<real>>
    var counts: seq<seq<nat>>
    var rows: nat

    ghost function Contents(): IdStore
      reads this
    {
      IdStore(firstRow, ids, values, counts, rows)
    }

    constructor ()
      ensures Contents() == EMPTY_STORE
    {
      firstRow, ids, values, counts, rows := map[], [], [], [], 0;
    }

    /** A chunk's rows, under global ids; new names get the next ids. */
    method Add(chunk: FeatureChunk, vocabulary: Vocabulary) returns (ghost mapping: seq<nat>)
      requires WellFormed(chunk) && vocabulary.Valid()
      modifies this, vocabulary
      ensures vocabulary.Valid() && old(vocabulary.names) <= vocabulary.names && GivesIds(vocabulary.names, chunk.names, mapping)
      ensures Contents() == old(Contents()).With(chunk, mapping)
    {
      var given := vocabulary.Ids(chunk.names);
      mapping := given;
      firstRow := firstRow[chunk.at := rows];
      ids, values, counts := ids + [Through(given, chunk.ids)], values + [chunk.values], counts + [chunk.counts];
      rows := rows + |chunk.counts|;
    }

    /** Where a frame's row lies. */
    method Row(source: Source, split: string, number: nat, perTask: nat) returns (row: nat)
      requires perTask > 0 && Chunk(source, split, number - number % perTask) in firstRow
      ensures row == firstRow[Chunk(source, split, number - number % perTask)] + number % perTask
    {
      var offset := number % perTask;
      return firstRow[Chunk(source, split, number - offset)] + offset;
    }

    /** The entries of some rows, row after row. */
    method Gather(wanted: seq<nat>, ghost names: seq<string>) returns (outIds: seq<nat>, outValues: seq<real>, outCounts: seq<nat>)
      requires Contents().Valid(names) && forall j :: 0 <= j < |wanted| ==> wanted[j] < rows
      ensures Fits(names, outIds, outValues, outCounts) && |outCounts| == |wanted|
      ensures RowsOf(names, outIds, outValues, outCounts) == Chosen(Contents().Rows(names), wanted)
    {
      var allIds, allValues, allCounts := Flatten(ids), Flatten(values), Flatten(counts);
      var index := RowsIndex(allCounts, wanted);
      GatheredRows(names, allIds, allValues, allCounts, wanted);
      return Pick(allIds, index), Pick(allValues, index), Pick(allCounts, wanted);
    }
  }

  lemma {:induction false} FlattenMore<T>(rows: seq<seq<T>>, row: seq<T>)
    ensures Flatten(rows + [row]) == Flatten(rows) + row
  {
    FlattenSplits(rows, [row]);
    FlattenOne(row);
  }

  lemma GatheredRows(names: seq<string>, ids: seq<nat>, values: seq<real>, counts: seq<nat>, wanted: seq<nat>)
    requires Fits(names, ids, values, counts) && forall j :: 0 <= j < |wanted| ==> wanted[j] < |counts|
    ensures forall p :: 0 <= p < |RowsIndex(counts, wanted)| ==> 0 <= RowsIndex(counts, wanted)[p] < |ids|
    ensures var index := RowsIndex(counts, wanted);
      var i, v, m := Pick(ids, index), Pick(values, index), Pick(counts, wanted);
      Fits(names, i, v, m)
      && RowsOf(names, i, v, m) == Chosen(RowsOf(names, ids, values, counts), wanted)
  {
    var named, index := Named(ids, values, names), RowsIndex(counts, wanted);
    var picked := PickRows(named, counts, wanted);
    GatherReadsRows(named, counts, wanted);
    assert Named(Pick(ids, index), Pick(values, index), names) == Pick(named, index);
    SlicesOfFlatten(picked);
    assert picked == Chosen(RowsOf(names, ids, values, counts), wanted);
  }

  // ---- a key's columns by id

  /** The featurised frames of a key: entries by id, then each frame's count, label, importance and weight. */
  datatype IdColumns = IdColumns(ids: seq<nat>, values: seq<real>, counts: seq<nat>, labels: seq<nat>, importance: seq<real>, weights: seq<real>)

  ghost predicate Shaped(names: seq<string>, c: IdColumns) {
    Fits(names, c.ids, c.values, c.counts) && |c.counts| == |c.labels| == |c.importance| == |c.weights|
  }

  /** What columns say, their ids read back through the vocabulary. */
  function ReadColumns(names: seq<string>, c: IdColumns): (r: seq<Column>)
    requires Shaped(names, c)
    ensures |r| == |c.counts|
  {
    seq(|c.counts|, i requires 0 <= i < |c.counts| =>
      Column(RowsOf(names, c.ids, c.values, c.counts)[i], c.labels[i], c.importance[i], c.weights[i]))
  }

  lemma ColumnsGrow(names: seq<string>, more: seq<string>, c: IdColumns)
    requires names <= more && Shaped(names, c)
    ensures Shaped(more, c) && ReadColumns(more, c) == ReadColumns(names, c)
  {
    NamesGrow(names, more, c.ids, c.values, c.counts);
  }

  /** Whether a store has the row of every slot. */
  ghost predicate HasRows(inputs: Inputs, store: map<Chunk, seq<Features>>, key: Key, plan: seq<Slot>)
    requires inputs.perTask > 0
  {
    forall i :: 0 <= i < |plan| ==> HasRow(inputs, store, key, plan[i])
  }

  ghost predicate HasRow(inputs: Inputs, store: map<Chunk, seq<Features>>, key: Key, slot: Slot)
    requires inputs.perTask > 0
  {
    var c := inputs.SlotChunk(key, slot);
    c in store && slot.number % inputs.perTask < |store[c]|
  }

  /** The columns made of a key's rows, by name. */
  function NamedColumns(inputs: Inputs, store: map<Chunk, seq<Features>>, key: Key, plan: seq<Slot>, frames: seq<Frame>): (r: seq<Column>)
    requires inputs.perTask > 0 && |plan| == |frames|
    ensures |r| == |plan|
  {
    seq(|plan|, i requires 0 <= i < |plan| => inputs.ColumnOf(StoredRow(inputs, store, key, plan[i]), frames[i]))
  }

  /** Whether columns are those made of the key's rows in the store. */
  ghost predicate IsColumns(inputs: Inputs, names: seq<string>, store: IdStore, key: Key, plan: seq<Slot>, frames: seq<Frame>, c: IdColumns)
    requires inputs.perTask > 0
  {
    && store.Valid(names) && |plan| == |frames| && Shaped(names, c)
    && (forall i :: 0 <= i < |plan| ==> SlotRow(inputs, store, key, plan[i]) < store.rows)
    && RowsOf(names, c.ids, c.values, c.counts) == Chosen(store.Rows(names), SlotRows(inputs, store, key, plan))
    && |c.counts| == |frames|
    && forall i :: 0 <= i < |frames| ==>
      c.labels[i] == frames[i].action && c.importance[i] == inputs.Importance(frames[i]) && c.weights[i] == frames[i].weight
  }

  /** Where a slot's row lies, if its chunk is in. */
  function SlotRow(inputs: Inputs, store: IdStore, key: Key, slot: Slot): nat
    requires inputs.perTask > 0
  {
    var c := inputs.SlotChunk(key, slot);
    if c in store.firstRow then store.firstRow[c] + slot.number % inputs.perTask else store.rows
  }

  function SlotRows(inputs: Inputs, store: IdStore, key: Key, plan: seq<Slot>): (r: seq<nat>)
    requires inputs.perTask > 0
    ensures |r| == |plan| && forall i :: 0 <= i < |r| ==> r[i] == SlotRow(inputs, store, key, plan[i])
  {
    seq(|plan|, i requires 0 <= i < |plan| => SlotRow(inputs, store, key, plan[i]))
  }

  lemma SlotRowIs(inputs: Inputs, names: seq<string>, store: IdStore, named: map<Chunk, seq<Features>>, key: Key, slot: Slot)
    requires inputs.perTask > 0 && store.Stores(names, named) && HasRow(inputs, named, key, slot)
    ensures SlotRow(inputs, store, key, slot) < store.rows
    ensures store.Rows(names)[SlotRow(inputs, store, key, slot)] == StoredRow(inputs, named, key, slot)
  {
    store.RowIs(names, named, inputs.SlotChunk(key, slot), slot.number % inputs.perTask);
  }

  /** Columns made of the rows by id read as the columns made of the rows by name. */
  lemma ColumnsRead(inputs: Inputs, names: seq<string>, store: IdStore, named: map<Chunk, seq<Features>>, key: Key, plan: seq<Slot>,
                    frames: seq<Frame>, c: IdColumns)
    requires inputs.perTask > 0 && store.Stores(names, named) && HasRows(inputs, named, key, plan)
    requires IsColumns(inputs, names, store, key, plan, frames, c)
    ensures ReadColumns(names, c) == NamedColumns(inputs, named, key, plan, frames)
  {
    var a, b := ReadColumns(names, c), NamedColumns(inputs, named, key, plan, frames);
    forall i | 0 <= i < |a| ensures a[i] == b[i] {
      SlotRowIs(inputs, names, store, named, key, plan[i]);
    }
  }

  /** `Columns.of`. */
  method ColumnsOf(inputs: Inputs, ids: seq<nat>, values: seq<real>, counts: seq<nat>, frames: seq<Frame>) returns (c: IdColumns)
    ensures c.ids == ids && c.values == values && c.counts == counts
    ensures |c.labels| == |c.importance| == |c.weights| == |frames| && forall i :: 0 <= i < |frames| ==>
      c.labels[i] == frames[i].action && c.importance[i] == inputs.Importance(frames[i]) && c.weights[i] == frames[i].weight
  {
    c := IdColumns(ids, values, counts,
                   seq(|frames|, i requires 0 <= i < |frames| => frames[i].action),
                   seq(|frames|, i requires 0 <= i < |frames| => inputs.Importance(frames[i])),
                   seq(|frames|, i requires 0 <= i < |frames| => frames[i].weight));
  }

  /** A planned key's columns out of its profile's store, in the order of its frames. */
  method AssembleIds(inputs: Inputs, profileStore: ProfileStore, key: Key, plan: seq<Slot>, frames: seq<Frame>, ghost names: seq<string>,
                     ghost named: map<Chunk, seq<Features>>)
    returns (c: IdColumns)
    requires inputs.perTask > 0 && |plan| == |frames|
    requires profileStore.Contents().Stores(names, named) && HasRows(inputs, named, key, plan)
    ensures IsColumns(inputs, names, profileStore.Contents(), key, plan, frames, c)
  {
    ghost var store := profileStore.Contents();
    var rows: seq<nat> := [];
    for i := 0 to |plan|
      invariant |rows| == i
      invariant forall j :: 0 <= j < i ==> rows[j] == SlotRow(inputs, store, key, plan[j]) < store.rows
    {
      SlotRowIs(inputs, names, store, named, key, plan[i]);
      var slot := plan[i];
      var row := profileStore.Row(slot.source, inputs.SlotSplit(key, slot.source), slot.number, inputs.perTask);
      rows := rows + [row];
    }
    assert rows == SlotRows(inputs, store, key, plan);
    var ids, values, counts := profileStore.Gather(rows, names);
    c := ColumnsOf(inputs, ids, values, counts, frames);
  }

  /** Columns that read the same have the same counts and values, and ids that name the same features. */
  lemma SameReading(names: seq<string>, a: IdColumns, others: seq<string>, b: IdColumns)
    requires Shaped(names, a) && Shaped(others, b) && ReadColumns(names, a) == ReadColumns(others, b)
    ensures a.counts == b.counts && a.values == b.values && |a.ids| == |b.ids|
    ensures a.labels == b.labels && a.importance == b.importance && a.weights == b.weights
    ensures forall e :: 0 <= e < |a.ids| ==> names[a.ids[e]] == others[b.ids[e]]
  {
    var x, y := ReadColumns(names, a), ReadColumns(others, b);
    assert |x| == |y|;
    forall i | 0 <= i < |x|
      ensures RowsOf(names, a.ids, a.values, a.counts)[i] == RowsOf(others, b.ids, b.values, b.counts)[i]
      ensures a.labels[i] == b.labels[i] && a.importance[i] == b.importance[i] && a.weights[i] == b.weights[i]
    {
      assert x[i] == y[i];
    }
    SameRows(names, a.ids, a.values, a.counts, others, b.ids, b.values, b.counts);
  }

  lemma SameRows(names: seq<string>, ids: seq<nat>, values: seq<real>, counts: seq<nat>,
                 others: seq<string>, otherIds: seq<nat>, otherValues: seq<real>, otherCounts: seq<nat>)
    requires Fits(names, ids, values, counts) && Fits(others, otherIds, otherValues, otherCounts)
    requires RowsOf(names, ids, values, counts) == RowsOf(others, otherIds, otherValues, otherCounts)
    ensures counts == otherCounts && values == otherValues && |ids| == |otherIds|
    ensures forall e :: 0 <= e < |ids| ==> names[ids[e]] == others[otherIds[e]]
  {
    var a, b := Named(ids, values, names), Named(otherIds, otherValues, others);
    FlattenOfSlices(a, counts);
    FlattenOfSlices(b, otherCounts);
    assert a == b;
    forall e | 0 <= e < |ids|
      ensures names[ids[e]] == others[otherIds[e]] && values[e] == otherValues[e]
    {
      assert a[e] == b[e];
    }
  }
}
