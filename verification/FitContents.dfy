/**
 What the columns of a key are, entry by entry: which of the frames prepared from the tasks' results they hold, and
 each frame's own features, label and weights.
 */
module FitContents {
  import opened Wrappers
  import opened RowLayout
  import opened PackingNames
  import opened FitPlan
  import opened FitInvariant
  import opened FitRuns
  import opened FitOutcome
  import opened FeatureStore
  import opened FitIds

  /** The frames prepared for a key from what its chain and span curriculum return; a frozen base takes only the tail for TRAIN. */
  function PreparedFor(inputs: Inputs, key: Key): seq<Frame> {
    if key.split != TRAIN then
      inputs.prepared(inputs.chain(key, None, None), inputs.spans(key), key.split)
    else if inputs.frozen then
      inputs.prepared(inputs.chain(key, Some([]), Some(inputs.tail)), [], TRAIN)
    else
      var extra := inputs.historical + Flatten(inputs.captured) + inputs.capitals + inputs.english;
      inputs.prepared(inputs.chain(key, Some(extra), Some(inputs.tail)), inputs.spans(key), TRAIN)
  }

  /** Heads are fitted on the TRAIN frames that ask one's question; any other fit keeps every frame. */
  predicate IsWanted(inputs: Inputs, key: Key, f: Frame) { inputs.heads && key.split == TRAIN ==> inputs.asksHead(f) }

  ghost predicate Rising(places: seq<nat>) { forall i, j :: 0 <= i < j < |places| ==> places[i] < places[j] }

  /** The places of exactly the wanted frames, in their order. */
  ghost predicate IsSelection(all: seq<Frame>, wanted: Frame -> bool, places: seq<nat>) {
    Rising(places) && forall n: nat :: n in places <==> n < |all| && wanted(all[n])
  }

  ghost predicate Selected(all: seq<Frame>, places: seq<nat>, some: seq<Frame>) {
    |some| == |places| && forall i :: 0 <= i < |places| ==> places[i] < |all| && some[i] == all[places[i]]
  }

  // ---- the final frames are a selection of the prepared ones

  lemma {:induction false} HeadPlaces(inputs: Inputs, frames: seq<Frame>) returns (places: seq<nat>)
    ensures IsSelection(frames, inputs.asksHead, places) && Selected(frames, places, inputs.OnlyHeads(frames))
  {
    if frames == [] {
      places := [];
    } else {
      var last := |frames| - 1;
      var before := HeadPlaces(inputs, frames[..last]);
      places := before + if inputs.asksHead(frames[last]) then [last] else [];
      forall n: nat ensures n in places <==> n < |frames| && inputs.asksHead(frames[n]) {
        if n < last { assert frames[..last][n] == frames[n]; }
      }
      forall i, j | 0 <= i < j < |places| ensures places[i] < places[j] {
        if j < |before| { assert before[i] < before[j]; } else { assert before[i] in before; }
      }
    }
  }

  function AllPlaces(count: nat): (r: seq<nat>)
    ensures |r| == count && forall i :: 0 <= i < count ==> r[i] == i
  {
    seq(count, i requires 0 <= i < count => i)
  }

  lemma {:induction false} CapturedFlattens(inputs: Inputs, count: nat)
    requires count <= |inputs.captured| && inputs.BuildsCurricula()
    ensures inputs.CapturedUpTo(count) == Flatten(inputs.captured[..count])
  {
    if count > 0 {
      CapturedFlattens(inputs, count - 1);
      assert inputs.captured[..count][..count - 1] == inputs.captured[..count - 1];
    }
  }

  lemma {:induction false} NothingFlattens(inputs: Inputs, count: nat)
    requires count <= |inputs.captured| && !inputs.BuildsCurricula()
    ensures inputs.CapturedUpTo(count) == []
  {
    if count > 0 { NothingFlattens(inputs, count - 1); }
  }

  lemma PreparedIs(inputs: Inputs, key: Key)
    requires inputs.IsKey(key)
    ensures PreparedFor(inputs, key) == inputs.prepared(inputs.ChainRows(key), inputs.SpanRows(key), key.split)
  {
    if key.split == TRAIN {
      if inputs.frozen {
        NothingFlattens(inputs, |inputs.captured|);
        assert inputs.ExtraRows() == [];
      } else {
        CapturedFlattens(inputs, |inputs.captured|);
        assert inputs.captured[..|inputs.captured|] == inputs.captured;
      }
    }
  }

  function Wanted(inputs: Inputs, key: Key): Frame -> bool { (f: Frame) => IsWanted(inputs, key, f) }

  /** The final frames are exactly the wanted ones of those prepared, in the order they were prepared in. */
  lemma FinalFramesAre(inputs: Inputs, key: Key) returns (places: seq<nat>)
    requires inputs.IsKey(key)
    ensures IsSelection(PreparedFor(inputs, key), Wanted(inputs, key), places)
    ensures Selected(PreparedFor(inputs, key), places, inputs.FinalFrames(key))
  {
    var frames := PreparedFor(inputs, key);
    PreparedIs(inputs, key);
    if inputs.Selects(key) {
      places := HeadPlaces(inputs, frames);
    } else {
      places := AllPlaces(|frames|);
      forall n: nat | n < |frames| ensures n in places { assert places[n] == n; }
    }
  }

  lemma {:induction false} HeadsCount(inputs: Inputs, frames: seq<Frame>, f: Frame)
    ensures multiset(inputs.OnlyHeads(frames))[f] == if inputs.asksHead(f) then multiset(frames)[f] else 0
  {
    if frames != [] {
      HeadsCount(inputs, frames[..|frames| - 1], f);
      assert frames == frames[..|frames| - 1] + [frames[|frames| - 1]];
    }
  }

  /** Each prepared frame that is wanted is trained on as often as it was prepared, any other never. */
  lemma FinalFramesCount(inputs: Inputs, key: Key, f: Frame)
    requires inputs.IsKey(key)
    ensures multiset(inputs.FinalFrames(key))[f]
         == if IsWanted(inputs, key, f) then multiset(PreparedFor(inputs, key))[f] else 0
  {
    PreparedIs(inputs, key);
    HeadsCount(inputs, PreparedFor(inputs, key), f);
  }

  // ---- the columns, entry by entry

  function EvidenceOfFrame(inputs: Inputs, key: Key, f: Frame): int {
    match f
    case ActionRow(_, _, _, _) => inputs.rowEvidence(key.profile, key.split, f)
    case SpanFrame(evidence, _, _) => evidence
  }

  /** The i-th frame of some columns: its entries name and weigh the frame's features, and the rest is the frame's own. */
  ghost predicate HoldsFrame(inputs: Inputs, key: Key, names: seq<string>, c: IdColumns, i: nat, f: Frame)
    requires Shaped(names, c) && i < |c.counts|
  {
    var features := inputs.extract(EvidenceOfFrame(inputs, key, f));
    var start := Sum(c.counts[..i]);
    && c.counts[i] == |features| && start + |features| <= |c.ids|
    && (forall e :: 0 <= e < |features| ==> names[c.ids[start + e]] == features[e].0 && c.values[start + e] == features[e].1)
    && c.labels[i] == f.action && c.weights[i] == f.weight
    && c.importance[i] == if f.action == 0 then f.weight * inputs.keepImportance else f.weight
  }

  /** Columns hold exactly the wanted frames of those prepared for their key, in that order. */
  ghost predicate HoldsWanted(inputs: Inputs, key: Key, names: seq<string>, c: IdColumns) {
    Shaped(names, c) && exists places :: HoldsPlaces(inputs, key, names, c, places)
  }

  ghost predicate HoldsPlaces(inputs: Inputs, key: Key, names: seq<string>, c: IdColumns, places: seq<nat>)
    requires Shaped(names, c)
  {
    && IsSelection(PreparedFor(inputs, key), Wanted(inputs, key), places) && |places| == |c.counts|
    && forall i :: 0 <= i < |places| ==> places[i] < |PreparedFor(inputs, key)|
                                         && HoldsFrame(inputs, key, names, c, i, PreparedFor(inputs, key)[places[i]])
  }

  lemma ReadsFrame(inputs: Inputs, key: Key, names: seq<string>, c: IdColumns, i: nat)
    requires ReadsAs(names, c, inputs.FinalColumns(key)) && i < |c.counts|
    ensures i < |inputs.FinalFrames(key)| && HoldsFrame(inputs, key, names, c, i, inputs.FinalFrames(key)[i])
  {
    var f := inputs.FinalFrames(key)[i];
    assert ReadColumns(names, c)[i] == inputs.FinalColumns(key)[i];
    hide ReadColumns;
    assert RowsOf(names, c.ids, c.values, c.counts)[i] == inputs.FrameFeatures(key.profile, key.split, f);
    ImportanceIs(inputs, f);
    SumStep(c.counts, i);
    var row := Slice(Named(c.ids, c.values, names), c.counts, i);
    assert row == inputs.extract(EvidenceOfFrame(inputs, key, f));
    forall e | 0 <= e < |row| ensures row[e] == (names[c.ids[Sum(c.counts[..i]) + e]], c.values[Sum(c.counts[..i]) + e]) {}
  }

  lemma ImportanceIs(inputs: Inputs, f: Frame)
    ensures inputs.Importance(f) == if f.action == 0 then f.weight * inputs.keepImportance else f.weight
  {}

  /** Columns that read back as the serial ones hold the wanted frames. */
  lemma SerialHoldsWanted(inputs: Inputs, key: Key, names: seq<string>, c: IdColumns)
    requires inputs.IsKey(key) && ReadsAs(names, c, inputs.FinalColumns(key))
    ensures HoldsWanted(inputs, key, names, c)
  {
    var places := FinalFramesAre(inputs, key);
    hide IsSelection, HoldsFrame;
    forall i | 0 <= i < |places|
      ensures places[i] < |PreparedFor(inputs, key)| && HoldsFrame(inputs, key, names, c, i, PreparedFor(inputs, key)[places[i]])
    {
      ReadsFrame(inputs, key, names, c, i);
    }
    assert HoldsPlaces(inputs, key, names, c, places);
  }

  /** In every run that drains each key's columns hold the wanted frames, whatever order its tasks finished in. */
  lemma EveryRunHoldsWanted(inputs: Inputs, capacity: nat, states: seq<System>, moves: seq<Move>, ids: seq<Ids>, k: Key)
    requires Proper(inputs) && IsIdRun(inputs, capacity, states, moves, ids) && inputs.IsKey(k)
    requires Drained(states[|states| - 1]) && !states[|states| - 1].fit.rejected
    ensures var last := ids[|ids| - 1]; k in last.columns && HoldsWanted(inputs, k, last.names, last.columns[k])
  {
    var last := ids[|ids| - 1];
    EveryRunReadsBack(inputs, capacity, states, moves, ids);
    hide IsIdRun, Drained, ReadsAs, HoldsWanted;
    assert SerialColumns(inputs)[k] == inputs.FinalColumns(k) && ReadsAs(last.names, last.columns[k], SerialColumns(inputs)[k]);
    SerialHoldsWanted(inputs, k, last.names, last.columns[k]);
  }

  // ---- what is rejected

  /** A frame's importance and, on TRAIN, its weight must be positive. */
  ghost predicate CanTrain(inputs: Inputs, split: string, f: Frame) {
    (if f.action == 0 then f.weight * inputs.keepImportance else f.weight) > 0.0 && (split == TRAIN ==> f.weight > 0.0)
  }

  /** A wanted frame the fit cannot train on. */
  ghost predicate IsRefused(inputs: Inputs, key: Key, f: Frame) { IsWanted(inputs, key, f) && !CanTrain(inputs, key.split, f) }

  ghost predicate HasRefused(inputs: Inputs) {
    exists key, n: nat :: inputs.IsKey(key) && n < |PreparedFor(inputs, key)| && IsRefused(inputs, key, PreparedFor(inputs, key)[n])
  }

  lemma AcceptsEach(inputs: Inputs, split: string, frames: seq<Frame>)
    ensures inputs.Accepts(split, frames) <==> forall k :: 0 <= k < |frames| ==> CanTrain(inputs, split, frames[k])
  {
    forall k | 0 <= k < |frames|
      ensures CanTrain(inputs, split, frames[k]) <==> inputs.Importance(frames[k]) > 0.0 && (split == TRAIN ==> frames[k].weight > 0.0)
    {
      ImportanceIs(inputs, frames[k]);
    }
    hide CanTrain;
  }

  lemma AllSelected(inputs: Inputs, split: string, all: seq<Frame>, wanted: Frame -> bool, places: seq<nat>, some: seq<Frame>)
    requires IsSelection(all, wanted, places) && Selected(all, places, some)
    ensures (forall k :: 0 <= k < |some| ==> CanTrain(inputs, split, some[k]))
       <==> forall n: nat :: n < |all| && wanted(all[n]) ==> CanTrain(inputs, split, all[n])
  {
    hide CanTrain, Rising;
    forall n: nat | n < |all| && wanted(all[n]) ensures exists i :: 0 <= i < |some| && some[i] == all[n] {
      assert n in places;
      var i :| 0 <= i < |places| && places[i] == n;
      assert some[i] == all[n];
    }
    forall i | 0 <= i < |some| ensures wanted(some[i]) { assert places[i] in places; }
  }

  lemma AcceptsExactly(inputs: Inputs, key: Key)
    requires inputs.IsKey(key)
    ensures inputs.Accepts(key.split, inputs.FinalFrames(key))
       <==> forall n: nat :: n < |PreparedFor(inputs, key)| ==> !IsRefused(inputs, key, PreparedFor(inputs, key)[n])
  {
    var places := FinalFramesAre(inputs, key);
    AcceptsEach(inputs, key.split, inputs.FinalFrames(key));
    hide CanTrain, IsSelection, Selected, PreparedFor;
    AllSelected(inputs, key.split, PreparedFor(inputs, key), Wanted(inputs, key), places, inputs.FinalFrames(key));
  }

  /** The fit stops exactly when some key has a wanted frame it cannot train on. */
  lemma StopsExactly(inputs: Inputs)
    ensures StoppedRightly(inputs) <==> HasRefused(inputs)
  {
    forall key | inputs.IsKey(key)
      ensures inputs.Accepts(key.split, inputs.FinalFrames(key))
         <==> forall n: nat :: n < |PreparedFor(inputs, key)| ==> !IsRefused(inputs, key, PreparedFor(inputs, key)[n])
    {
      AcceptsExactly(inputs, key);
    }
  }
}
