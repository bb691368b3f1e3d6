/** No feature task is added twice, and each key is assembled once: its columns never change after. */
module FitOnce {
  import opened FitPlan
  import opened FitState
  import opened FitInvariant
  import opened FitRequests
  import opened FitSteps
  import opened FitFrames
  import opened FitRuns
  import opened FitOutcome

  // ---- how often a list of requests adds a feature task

  /** Whether a task is the one of a chunk of these frames, from `start` on. */
  predicate IsChunkOf(inputs: Inputs, k: Job, profile: string, source: Source, split: string, frames: seq<Frame>, start: nat)
    requires inputs.perTask > 0 && k.Featurise?
  {
    k.profile == profile && k.chunk == Chunk(source, split, k.chunk.start) && k.frames == inputs.Share(frames, k.chunk.start)
    && k.chunk.start % inputs.perTask == 0 && start <= k.chunk.start < |frames|
  }

  lemma FirstOrLater(inputs: Inputs, k: Job, profile: string, source: Source, split: string, frames: seq<Frame>, start: nat)
    requires inputs.perTask > 0 && k.Featurise? && start % inputs.perTask == 0 && start < |frames|
    ensures OneIf(IsChunkOf(inputs, k, profile, source, split, frames, start))
         == OneIf(k == Featurise(profile, Chunk(source, split, start), inputs.Share(frames, start)))
            + OneIf(IsChunkOf(inputs, k, profile, source, split, frames, start + inputs.perTask))
  {
    if start < k.chunk.start && k.chunk.start % inputs.perTask == 0 { NextMultiple(start, k.chunk.start, inputs.perTask); }
  }

  lemma {:induction false} ChunkCounts(inputs: Inputs, priority: Priority, profile: string, source: Source, split: string,
                                       frames: seq<Frame>, start: nat, k: Job)
    requires inputs.perTask > 0 && start % inputs.perTask == 0 && k.Featurise?
    ensures Added(ChunkRequests(inputs, priority, profile, source, split, frames, start))[k]
         == OneIf(IsChunkOf(inputs, k, profile, source, split, frames, start))
    decreases if start < |frames| then |frames| - start else 0
  {
    if start < |frames| {
      FirstOrLater(inputs, k, profile, source, split, frames, start);
      hide IsChunkOf;
      var first := Request(priority, Featurise(profile, Chunk(source, split, start), inputs.Share(frames, start)));
      ModStep(start, inputs.perTask);
      ChunkCounts(inputs, priority, profile, source, split, frames, start + inputs.perTask, k);
      AddedSplits([first], ChunkRequests(inputs, priority, profile, source, split, frames, start + inputs.perTask));
      AddedOne(first);
    }
  }

  lemma ProfileCounts(inputs: Inputs, profile: string, extra: seq<Frame>, tail: seq<Frame>, k: Job)
    requires inputs.perTask > 0 && k.Featurise?
    ensures Added(ProfileRequests(inputs, profile, extra, tail))[k]
         == if inputs.heads then 0
            else OneIf(IsChunkOf(inputs, k, profile, Source.Extra, TRAIN, extra, 0)) + OneIf(IsChunkOf(inputs, k, profile, Source.Tail, TRAIN, tail, 0))
  {
    ProfileParts(inputs, profile, extra, tail);
    ChunkCounts(inputs, Ahead, profile, Source.Extra, TRAIN, extra, 0, k);
    ChunkCounts(inputs, Ahead, profile, Source.Tail, TRAIN, tail, 0, k);
  }

  lemma {:induction false} TrainCounts(inputs: Inputs, profiles: seq<string>, extra: seq<Frame>, tail: seq<Frame>, k: Job)
    requires inputs.perTask > 0 && k.Featurise? && forall a, b :: 0 <= a < b < |profiles| ==> profiles[a] != profiles[b]
    ensures Added(TrainRequests(inputs, profiles, extra, tail))[k]
         == if inputs.heads || k.profile !in profiles then 0
            else OneIf(IsChunkOf(inputs, k, k.profile, Source.Extra, TRAIN, extra, 0)) + OneIf(IsChunkOf(inputs, k, k.profile, Source.Tail, TRAIN, tail, 0))
  {
    if profiles != [] {
      var before, profile := profiles[..|profiles| - 1], profiles[|profiles| - 1];
      TrainCounts(inputs, before, extra, tail, k);
      AddedSplits(TrainRequests(inputs, before, extra, tail), ProfileRequests(inputs, profile, extra, tail));
      ProfileCounts(inputs, profile, extra, tail, k);
      assert profiles == before + [profile];
    }
  }

  /** The natural frames featurised ahead for a split. */
  function NaturalAhead(inputs: Inputs, split: string): seq<Frame> {
    if (inputs.frozen || inputs.heads) && split == TRAIN then [] else inputs.natural(split)
  }

  lemma {:induction false} NaturalCounts(inputs: Inputs, keys: seq<Key>, k: Job)
    requires inputs.perTask > 0 && k.Featurise? && DistinctKeys(keys)
    ensures Added(NaturalRequests(inputs, keys))[k]
         == OneIf(Key(k.profile, k.chunk.split) in keys
                  && IsChunkOf(inputs, k, k.profile, Natural, k.chunk.split, NaturalAhead(inputs, k.chunk.split), 0))
  {
    if keys != [] {
      var before, key := keys[..|keys| - 1], keys[|keys| - 1];
      NaturalCounts(inputs, before, k);
      AddedSplits(NaturalRequests(inputs, before), KeyNatural(inputs, key));
      ChunkCounts(inputs, Ahead, key.profile, Natural, key.split, inputs.natural(key.split), 0, k);
      assert keys == before + [key];
    }
  }

  // ---- a feature task is added when its chunk's frames are there, and once

  /** The task of a chunk of frames whose feature tasks have been added. */
  ghost predicate IsDue(inputs: Inputs, fit: Fit, k: Job)
    requires inputs.perTask > 0 && k.Featurise?
  {
    k.profile in inputs.profiles
    && IsChunkOf(inputs, k, k.profile, k.chunk.source, k.chunk.split, Released(inputs, fit, k.profile, k.chunk.source, k.chunk.split), 0)
  }

  ghost predicate AskedOnce(inputs: Inputs, fit: Fit, asked: seq<Request>, k: Job)
    requires inputs.perTask > 0 && k.Featurise?
  {
    Added(asked)[k] == OneIf(IsDue(inputs, fit, k))
  }

  lemma FirstDue(inputs: Inputs, k: Job)
    requires Proper(inputs) && k.Featurise?
    ensures IsDue(inputs, FirstFit(inputs), k)
       <==> k.profile in inputs.profiles && k.chunk.split in inputs.splits
            && IsChunkOf(inputs, k, k.profile, Natural, k.chunk.split, NaturalAhead(inputs, k.chunk.split), 0)
  {}

  lemma FirstAskedOnce(inputs: Inputs, k: Job)
    requires Proper(inputs) && k.Featurise?
    ensures AskedOnce(inputs, FirstFit(inputs), FirstRequests(inputs), k)
  {
    var keys := KeyList(inputs.profiles, inputs.splits);
    FirstParts(inputs);
    KeyListIs(inputs.profiles, inputs.splits);
    CurriculaCounts(inputs, k);
    AllKeyCounts(inputs, keys, k);
    NaturalCounts(inputs, keys, k);
    FirstDue(inputs, k);
  }

  lemma SameDue(inputs: Inputs, a: Fit, b: Fit, k: Job)
    requires inputs.perTask > 0 && k.Featurise? && CurriculaIn(inputs, a) == CurriculaIn(inputs, b)
    requires IsFramed(a, Key(k.profile, k.chunk.split)) == IsFramed(b, Key(k.profile, k.chunk.split))
    ensures IsDue(inputs, a, k) == IsDue(inputs, b, k)
  {}

  /** What a callback adds becomes due by it, and was not before. */
  ghost predicate AddsDue(inputs: Inputs, fit: Fit, next: Fit, requests: seq<Request>, k: Job)
    requires inputs.perTask > 0 && k.Featurise?
  {
    OneIf(IsDue(inputs, next, k)) == OneIf(IsDue(inputs, fit, k)) + Added(requests)[k]
  }

  lemma CurriculumDue(inputs: Inputs, fit: Fit, out: multiset<Job>, j: Job, next: Fit, k: Job)
    requires Proper(inputs) && Values(inputs, fit) && Chained(inputs, fit) && Tasks(inputs, fit, out) && IsCurriculum(j) && j in out
    requires next == ExtraReady(inputs, Curriculum(inputs, fit, j)).0 && k.Featurise?
    ensures AddsDue(inputs, fit, next, ExtraReady(inputs, Curriculum(inputs, fit, j)).1, k)
  {
    var came := Curriculum(inputs, fit, j);
    assert inputs.Trains() && !CurriculaIn(inputs, fit) by { CurriculumComes(inputs, fit, out, j); }
    CurriculumValues(inputs, fit, out, j, came, next);
    if CurriculaIn(inputs, came) {
      TrainCounts(inputs, inputs.profiles, inputs.ExtraRows(), inputs.TailRows(), k);
      TrainDue(inputs, fit, next, k);
    } else {
      NothingAdded();
      SameDue(inputs, fit, next, k);
    }
  }

  lemma TrainDue(inputs: Inputs, fit: Fit, next: Fit, k: Job)
    requires inputs.perTask > 0 && inputs.Trains() && !CurriculaIn(inputs, fit) && CurriculaIn(inputs, next) && k.Featurise?
    requires next.chains == fit.chains && next.spans == fit.spans
    ensures OneIf(IsDue(inputs, next, k)) == OneIf(IsDue(inputs, fit, k))
      + if inputs.heads || k.profile !in inputs.profiles then 0
        else OneIf(IsChunkOf(inputs, k, k.profile, Source.Extra, TRAIN, inputs.ExtraRows(), 0))
             + OneIf(IsChunkOf(inputs, k, k.profile, Source.Tail, TRAIN, inputs.TailRows(), 0))
  {
    match k.chunk.source
    case Natural =>
    case Fresh => assert IsFramed(fit, Key(k.profile, k.chunk.split)) == IsFramed(next, Key(k.profile, k.chunk.split));
    case Extra =>
    case Tail =>
  }

  /** What is framed and which curricula are in does not change by planning or assembling. */
  lemma FramesStayFramed(inputs: Inputs, came: Fit, key: Key)
    requires inputs.perTask > 0 && key.profile in came.arrived && key.profile in came.stores
    ensures var next := FramesReady(inputs, came, key).0;
      CurriculaIn(inputs, next) == CurriculaIn(inputs, came) && forall k :: IsFramed(next, k) == IsFramed(came, k)
  {
    var next := FramesReady(inputs, came, key).0;
    if IsFramed(came, key) { assert next.chains == came.chains[key := []]; }
  }

  lemma FramesDue(inputs: Inputs, fit: Fit, out: multiset<Job>, j: Job, came: Fit, key: Key, next: Fit, k: Job)
    requires Proper(inputs) && Invariant(inputs, fit, out) && Came(inputs, fit, came, key) && Chained(inputs, came)
    requires key.profile in came.arrived && key.profile in came.stores && k.Featurise?
    requires next == FramesReady(inputs, came, key).0
    ensures AddsDue(inputs, fit, next, FramesReady(inputs, came, key).1, k)
  {
    hide PlanKey, Assemble, IsDue, Invariant;
    FramesStayFramed(inputs, came, key);
    if !IsFramed(came, key) {
      NothingAdded();
      SameDue(inputs, fit, next, k);
    } else {
      LateAdded(inputs, fit, out, came, key, k);
      LateDue(inputs, fit, next, key, k);
    }
  }

  lemma LateAdded(inputs: Inputs, fit: Fit, out: multiset<Job>, came: Fit, key: Key, k: Job)
    requires Proper(inputs) && Invariant(inputs, fit, out) && Came(inputs, fit, came, key) && Chained(inputs, came)
    requires key.profile in came.arrived && key.profile in came.stores && k.Featurise? && IsFramed(came, key)
    ensures Added(FramesReady(inputs, came, key).1)[k]
         == OneIf(IsChunkOf(inputs, k, key.profile, Fresh, key.split, inputs.KeyPlan(key).late, 0))
  {
    hide Assemble, IsChunkOf;
    FramedPlan(inputs, fit, came, key, PlanKey(inputs, came, key).0);
    ChunkCounts(inputs, Wanted, key.profile, Fresh, key.split, inputs.KeyPlan(key).late, 0, k);
  }

  lemma LateDue(inputs: Inputs, fit: Fit, next: Fit, key: Key, k: Job)
    requires inputs.perTask > 0 && inputs.IsKey(key) && !IsFramed(fit, key) && IsFramed(next, key) && k.Featurise?
    requires CurriculaIn(inputs, fit) == CurriculaIn(inputs, next)
    requires forall other :: other != key ==> IsFramed(fit, other) == IsFramed(next, other)
    ensures OneIf(IsDue(inputs, next, k))
         == OneIf(IsDue(inputs, fit, k)) + OneIf(IsChunkOf(inputs, k, key.profile, Fresh, key.split, inputs.KeyPlan(key).late, 0))
  {
    if k.chunk.source == Fresh && Key(k.profile, k.chunk.split) == key {
    } else {
      SameReleasedFor(inputs, fit, next, k);
    }
  }

  lemma SameReleasedFor(inputs: Inputs, fit: Fit, next: Fit, k: Job)
    requires inputs.perTask > 0 && k.Featurise? && CurriculaIn(inputs, fit) == CurriculaIn(inputs, next)
    requires k.chunk.source == Fresh ==> IsFramed(fit, Key(k.profile, k.chunk.split)) == IsFramed(next, Key(k.profile, k.chunk.split))
    ensures IsDue(inputs, next, k) == IsDue(inputs, fit, k)
  {}

  lemma FinishDue(inputs: Inputs, fit: Fit, out: multiset<Job>, j: Job, k: Job)
    requires Proper(inputs) && Invariant(inputs, fit, out) && j in out && CanFinish(fit, j) && k.Featurise?
    ensures AddsDue(inputs, fit, Finish(inputs, fit, j).0, Finish(inputs, fit, j).1, k)
  {
    hide AddsDue, FramesReady, ExtraReady, ChunkDone;
    match j
    case Chain(key, extra, tail) =>
      var came := fit.(chains := fit.chains[key := inputs.chain(key, extra, tail)]);
      ChainCame(inputs, fit, out, j, came);
      FramesDue(inputs, fit, out, j, came, key, FramesReady(inputs, came, key).0, k);
    case Spans(key) =>
      var came := fit.(spans := fit.spans[key := inputs.spans(key)]);
      SpansCame(inputs, fit, out, j, came);
      FramesDue(inputs, fit, out, j, came, key, FramesReady(inputs, came, key).0, k);
    case Featurise(_, _, _) => ChunkDue(inputs, fit, j, k);
    case _ => CurriculumDue(inputs, fit, out, j, Finish(inputs, fit, j).0, k);
  }

  lemma ChunkDue(inputs: Inputs, fit: Fit, j: Job, k: Job)
    requires inputs.perTask > 0 && j.Featurise? && CanFinish(fit, j) && k.Featurise?
    ensures AddsDue(inputs, fit, Finish(inputs, fit, j).0, [], k)
  {
    NothingAdded();
    SameDue(inputs, fit, Finish(inputs, fit, j).0, k);
  }

  lemma {:induction false} EveryStateAskedOnce(inputs: Inputs, capacity: nat, states: seq<System>, moves: seq<Move>, at: nat, k: Job)
    requires Proper(inputs) && IsRun(inputs, capacity, states, moves) && at < |states| && k.Featurise?
    ensures AskedOnce(inputs, states[at].fit, states[at].asked, k)
  {
    hide Holds, Next, Enabled, AskedOnce;
    if at == 0 {
      FirstAskedOnce(inputs, k);
    } else {
      EveryStateAskedOnce(inputs, capacity, states, moves, at - 1, k);
      EveryStateHolds(inputs, capacity, states, moves, at - 1);
      RunStep(inputs, capacity, states, moves, at - 1);
      MoveAskedOnce(inputs, capacity, states[at - 1], moves[at - 1], k);
    }
  }

  lemma MoveAskedOnce(inputs: Inputs, capacity: nat, s: System, move: Move, k: Job)
    requires Proper(inputs) && Holds(inputs, capacity, s) && Enabled(capacity, s, move) && k.Featurise?
    requires AskedOnce(inputs, s.fit, s.asked, k)
    ensures var t := Next(inputs, capacity, s, move); AskedOnce(inputs, t.fit, t.asked, k)
  {
    hide IsDue, Invariant, Finish;
    match move
    case Start(_) =>
    case Done(i) =>
      var j := s.running[i].request.job;
      InWithout(s.running, i);
      FinishDue(inputs, s.fit, Outstanding(s), j, k);
      AddedSplits(s.asked, Finish(inputs, s.fit, j).1);
  }

  /**
   No feature task is ever added twice: in every state each task of a chunk whose frames are there has been added
   once, and no other.
   */
  lemma EveryChunkIsAddedOnce(inputs: Inputs, capacity: nat, states: seq<System>, moves: seq<Move>, at: nat, k: Job)
    requires Proper(inputs) && IsRun(inputs, capacity, states, moves) && at < |states| && k.Featurise?
    ensures Added(states[at].asked)[k] <= 1
    ensures k in Added(states[at].asked) <==> IsDue(inputs, states[at].fit, k)
  {
    EveryStateAskedOnce(inputs, capacity, states, moves, at, k);
  }

  // ---- a key is assembled once

  lemma AssembledStay(inputs: Inputs, fit: Fit, ready: set<Key>)
    requires inputs.perTask > 0 && Planned(fit, ready) && forall k :: k in ready ==> k !in fit.columns
    ensures KeepsColumns(fit, Assemble(inputs, fit, ready))
  {}

  /** Columns once there stay as they are. */
  ghost predicate KeepsColumns(a: Fit, b: Fit) { forall k :: k in a.columns ==> k in b.columns && b.columns[k] == a.columns[k] }

  lemma FramesStay(inputs: Inputs, fit: Fit, out: multiset<Job>, came: Fit, key: Key)
    requires Proper(inputs) && Invariant(inputs, fit, out) && Came(inputs, fit, came, key)
    requires key.profile in came.arrived && key.profile in came.stores
    ensures KeepsColumns(fit, FramesReady(inputs, came, key).0)
  {
    assert KeyHolds(inputs, fit, {}, key);
    if IsFramed(came, key) && PlanKey(inputs, came, key).0.missing[key] == {} {
      AssembledStay(inputs, PlanKey(inputs, came, key).0, {key});
    }
  }

  lemma ChunkStays(inputs: Inputs, fit: Fit, out: multiset<Job>, j: Job)
    requires Proper(inputs) && Invariant(inputs, fit, out) && j.Featurise? && CanFinish(fit, j)
    ensures KeepsColumns(fit, Finish(inputs, fit, j).0)
  {
    forall k | k in Completed(fit, j.profile, j.chunk) ensures k !in fit.columns {
      assert KeyHolds(inputs, fit, {}, k);
    }
    AssembledStay(inputs, Stored(fit, j.profile, j.chunk, inputs.FeaturesOf(j.profile, j.chunk.split, j.frames)),
                  Completed(fit, j.profile, j.chunk));
  }

  lemma FinishStays(inputs: Inputs, fit: Fit, out: multiset<Job>, j: Job)
    requires Proper(inputs) && Invariant(inputs, fit, out) && j in out && CanFinish(fit, j)
    ensures KeepsColumns(fit, Finish(inputs, fit, j).0)
  {
    hide FramesReady, ChunkDone;
    match j
    case Chain(key, extra, tail) =>
      var came := fit.(chains := fit.chains[key := inputs.chain(key, extra, tail)]);
      ChainCame(inputs, fit, out, j, came);
      FramesStay(inputs, fit, out, came, key);
    case Spans(key) =>
      var came := fit.(spans := fit.spans[key := inputs.spans(key)]);
      SpansCame(inputs, fit, out, j, came);
      FramesStay(inputs, fit, out, came, key);
    case Featurise(_, _, _) => ChunkStays(inputs, fit, out, j);
    case _ =>
  }

  lemma StaySelf(a: Fit)
    ensures KeepsColumns(a, a)
  {}

  lemma StayFurther(a: Fit, b: Fit, c: Fit)
    requires KeepsColumns(a, b) && KeepsColumns(b, c)
    ensures KeepsColumns(a, c)
  {}

  lemma MoveStays(inputs: Inputs, capacity: nat, s: System, move: Move)
    requires Proper(inputs) && Holds(inputs, capacity, s) && Enabled(capacity, s, move)
    ensures KeepsColumns(s.fit, Next(inputs, capacity, s, move).fit)
  {
    hide Invariant, Finish;
    match move
    case Start(_) =>
    case Done(i) =>
      InWithout(s.running, i);
      FinishStays(inputs, s.fit, Outstanding(s), s.running[i].request.job);
  }

  /** In every run a key's columns, once there, are there for ever as they were made. */
  lemma {:induction false} ColumnsStay(inputs: Inputs, capacity: nat, states: seq<System>, moves: seq<Move>, at: nat, later: nat)
    requires Proper(inputs) && IsRun(inputs, capacity, states, moves) && at <= later < |states|
    ensures KeepsColumns(states[at].fit, states[later].fit)
  {
    hide IsRun, Holds, Next, Enabled, KeepsColumns;
    if at < later {
      ColumnsStay(inputs, capacity, states, moves, at, later - 1);
      EveryStateHolds(inputs, capacity, states, moves, later - 1);
      RunStep(inputs, capacity, states, moves, later - 1);
      MoveStays(inputs, capacity, states[later - 1], moves[later - 1]);
      StayFurther(states[at].fit, states[later - 1].fit, states[later].fit);
    } else {
      StaySelf(states[at].fit);
    }
  }

  /** Whether this move of a run assembles the key. */
  ghost predicate Assembles(states: seq<System>, i: nat, k: Key)
    requires i + 1 < |states|
  {
    k !in states[i].fit.columns && k in states[i + 1].fit.columns
  }

  /** Every key that has columns was assembled by exactly one move. */
  lemma EveryKeyIsAssembledOnce(inputs: Inputs, capacity: nat, states: seq<System>, moves: seq<Move>, at: nat, k: Key) returns (i: nat)
    requires Proper(inputs) && IsRun(inputs, capacity, states, moves) && at < |states| && k in states[at].fit.columns
    ensures i < at && Assembles(states, i, k)
    ensures forall other: nat :: other + 1 < |states| && Assembles(states, other, k) ==> other == i
  {
    i := FirstAssembled(inputs, capacity, states, moves, at, k);
    forall other: nat | other + 1 < |states| && Assembles(states, other, k) ensures other == i {
      if other < i { ColumnsStay(inputs, capacity, states, moves, other + 1, i); }
      if i < other { ColumnsStay(inputs, capacity, states, moves, i + 1, other); }
    }
  }

  lemma {:induction false} FirstAssembled(inputs: Inputs, capacity: nat, states: seq<System>, moves: seq<Move>, at: nat, k: Key) returns (i: nat)
    requires inputs.perTask > 0 && IsRun(inputs, capacity, states, moves) && at < |states| && k in states[at].fit.columns
    ensures i < at && Assembles(states, i, k)
  {
    hide Next, Enabled;
    assert at > 0;
    i := at - 1;
    if k in states[at - 1].fit.columns { i := FirstAssembled(inputs, capacity, states, moves, at - 1, k); }
  }

  // ---- a store is kept as long as a key needs it

  /**
   In every state of every run, while a key of a profile has no columns, the profile's store has every chunk that came,
   with the features of its frames.
   */
  lemma StoresAreKeptWhileNeeded(inputs: Inputs, capacity: nat, states: seq<System>, moves: seq<Move>, at: nat, k: Key, c: Chunk)
    requires Proper(inputs) && IsRun(inputs, capacity, states, moves) && at < |states| && inputs.IsKey(k)
    requires var fit := states[at].fit; !fit.rejected && k !in fit.columns && k.profile in fit.arrived && c in fit.arrived[k.profile]
    ensures var stores := states[at].fit.stores;
      k.profile in stores && c in stores[k.profile] && stores[k.profile][c] == inputs.ChunkRows(k.profile, c)
  {
    var fit := states[at].fit;
    EveryStateHolds(inputs, capacity, states, moves, at);
    hide IsRun, Next, Enabled;
    assert KeptChunk(inputs, fit, k.profile, c);
    assert k == Key(k.profile, k.split) && !ProfileDone(inputs, fit.columns, k.profile);
  }
}
