/**
 How runs of a fit end: no run is stuck or endless, every task is added once, and every run that drains has the
 columns of the serial fit.
 */
module FitOutcome {
  import opened SetSums
  import opened FitPlan
  import opened FitState
  import opened FitInvariant
  import opened FitRequests
  import opened FitSteps
  import opened FitRuns

  // ---- nothing outstanding means nothing missing

  lemma {:induction false} AllBelow(keys: set<nat>, n: nat)
    requires forall i: nat :: i < n ==> i in keys
    ensures |keys| >= n
  {
    if n > 0 {
      var rest := keys - {n - 1};
      AllBelow(rest, n - 1);
      assert keys == rest + {n - 1};
    }
  }

  lemma DrainedCurricula(inputs: Inputs, fit: Fit)
    requires Tasks(inputs, fit, multiset{}) && Unbuilt(inputs, fit)
    ensures CurriculaIn(inputs, fit)
  {
    assert Expected(inputs, fit, Historical) == Expected(inputs, fit, Capitals) == 0;
    assert Expected(inputs, fit, English) == Expected(inputs, fit, TailTask) == 0;
    if inputs.BuildsCurricula() {
      forall i: nat | i < |inputs.captured| ensures i in fit.captured.Keys {
        assert Expected(inputs, fit, Captured(i)) == 0;
      }
      AllBelow(fit.captured.Keys, |inputs.captured|);
      assert |fit.captured.Keys| == |fit.captured|;
    }
  }

  lemma DrainedKey(inputs: Inputs, fit: Fit, k: Key)
    requires Tasks(inputs, fit, multiset{}) && Unbuilt(inputs, fit) && CurriculaIn(inputs, fit) && inputs.IsKey(k)
    ensures IsFramed(fit, k)
  {
    assert Expected(inputs, fit, Chain(k, inputs.ChainArguments(k).0, inputs.ChainArguments(k).1)) == 0;
    assert Expected(inputs, fit, Job.Spans(k)) == 0;
  }

  /** Every chunk a framed key needs has had its task added. */
  lemma NeededReleased(inputs: Inputs, fit: Fit, k: Key, slot: Slot)
    requires inputs.perTask > 0 && inputs.IsKey(k) && IsFramed(fit, k) && CurriculaIn(inputs, fit)
    requires slot in inputs.KeyPlan(k).slots
    ensures IsReleased(inputs, fit, k.profile, inputs.SlotChunk(k, slot))
  {
    SlotIsInside(inputs, k, slot);
    Floored(slot.number, inputs.perTask);
    SourceReleased(inputs, fit, k, slot.source);
  }

  lemma SlotIsInside(inputs: Inputs, k: Key, slot: Slot)
    requires slot in inputs.KeyPlan(k).slots
    ensures slot.number
      < |PlannedFrames(FramesAhead(inputs.NaturalOf(k), inputs.ExtraOf(k), inputs.TailOf(k)), inputs.FinalFrames(k), slot.source)|
  {
    var i :| 0 <= i < |inputs.KeyPlan(k).slots| && inputs.KeyPlan(k).slots[i] == slot;
    PlanIsSound(FramesAhead(inputs.NaturalOf(k), inputs.ExtraOf(k), inputs.TailOf(k)), inputs.FinalFrames(k), i);
  }

  lemma Floored(number: nat, n: nat)
    requires n > 0
    ensures 0 <= number - number % n && (number - number % n) % n == 0
  {
    assert number == number / n * n + number % n;
    Euclid(number - number % n, number / n, 0, n);
  }

  lemma SourceReleased(inputs: Inputs, fit: Fit, k: Key, source: Source)
    requires inputs.IsKey(k) && IsFramed(fit, k) && CurriculaIn(inputs, fit)
    ensures PlannedFrames(FramesAhead(inputs.NaturalOf(k), inputs.ExtraOf(k), inputs.TailOf(k)), inputs.FinalFrames(k), source) != [] ==>
      Released(inputs, fit, k.profile, source, inputs.SlotSplit(k, source))
      == PlannedFrames(FramesAhead(inputs.NaturalOf(k), inputs.ExtraOf(k), inputs.TailOf(k)), inputs.FinalFrames(k), source)
  {}

  lemma DrainedColumn(inputs: Inputs, fit: Fit, k: Key)
    requires inputs.perTask > 0 && CurriculaIn(inputs, fit) && inputs.IsKey(k) && IsFramed(fit, k)
    requires KeyHolds(inputs, fit, {}, k) && Featurised(inputs, fit, multiset{})
    ensures k in fit.columns
  {
    if k in fit.missing {
      var c :| c in fit.missing[k];
      var slot :| slot in inputs.KeyPlan(k).slots && inputs.SlotChunk(k, slot) == c;
      NeededReleased(inputs, fit, k, slot);
    }
  }

  function SerialColumns(inputs: Inputs): map<Key, seq<Column>> {
    map k | k in inputs.Keys() :: inputs.FinalColumns(k)
  }

  lemma DrainedColumns(inputs: Inputs, fit: Fit)
    requires Proper(inputs) && Invariant(inputs, fit, multiset{}) && Unbuilt(inputs, fit)
    ensures fit.columns == SerialColumns(inputs) && !StoppedRightly(inputs)
  {
    DrainedCurricula(inputs, fit);
    forall k ensures inputs.IsKey(k) <==> k in fit.columns
      ensures k in fit.columns ==> fit.columns[k] == inputs.FinalColumns(k) && inputs.Accepts(k.split, inputs.FinalFrames(k))
    {
      assert KeyHolds(inputs, fit, {}, k) && Linked(inputs, fit, k);
      if inputs.IsKey(k) {
        DrainedKey(inputs, fit, k);
        DrainedColumn(inputs, fit, k);
      }
    }
  }

  /**
   A run that drains has every key, with the serial fit's columns: the error for keys never featurised cannot be
   raised. A run stops early only on frames the serial fit rejects too.
   */
  lemma EveryRunIsSerial(inputs: Inputs, capacity: nat, states: seq<System>, moves: seq<Move>)
    requires Proper(inputs) && IsRun(inputs, capacity, states, moves)
    ensures var s := states[|states| - 1];
      && (s.fit.rejected ==> StoppedRightly(inputs))
      && (!s.fit.rejected && Drained(s) ==> s.fit.columns == SerialColumns(inputs) && !StoppedRightly(inputs))
  {
    var s := states[|states| - 1];
    EveryStateHolds(inputs, capacity, states, moves, |states| - 1);
    if !s.fit.rejected && Drained(s) {
      assert Outstanding(s) == multiset{};
      DrainedColumns(inputs, s.fit);
    }
  }

  // ---- a run is never stuck

  lemma {:induction false} LeastExists(pending: seq<Entry>) returns (i: nat)
    requires pending != []
    requires forall a, b :: 0 <= a < b < |pending| ==> pending[a].sequence != pending[b].sequence
    ensures i < |pending| && Least(pending, i)
  {
    var last := |pending| - 1;
    if last == 0 {
      i := 0;
    } else {
      i := LeastExists(pending[..last]);
      if Before(pending[last], pending[i]) { i := last; }
    }
  }

  lemma {:induction false} NumberCount(entries: seq<Entry>, a: nat, b: nat)
    requires a < b < |entries| && entries[a].sequence == entries[b].sequence
    ensures NumbersIn(entries)[entries[a].sequence] >= 2
  {
    assert entries == entries[..b] + entries[b..];
    InSplits(entries[..b], entries[b..]);
    InWithout(entries[..b], a);
    InWithout(entries[b..], 0);
  }

  lemma PendingAreDistinct(inputs: Inputs, capacity: nat, s: System)
    requires inputs.perTask > 0 && Holds(inputs, capacity, s)
    ensures forall a, b :: 0 <= a < b < |s.pending| ==> s.pending[a].sequence != s.pending[b].sequence
  {
    forall a, b | 0 <= a < b < |s.pending| ensures s.pending[a].sequence != s.pending[b].sequence {
      assert Once(s, s.pending[a].sequence);
      if s.pending[a].sequence == s.pending[b].sequence { NumberCount(s.pending, a, b); }
    }
  }

  /** Unless it is over, a run can go on; and any running task may be the next to finish. */
  lemma NeverStuck(inputs: Inputs, capacity: nat, s: System) returns (move: Move)
    requires Proper(inputs) && Holds(inputs, capacity, s) && capacity > 0 && !s.fit.rejected && !Drained(s)
    ensures Enabled(capacity, s, move)
    ensures forall i: nat :: i < |s.running| ==> Enabled(capacity, s, Done(i))
  {
    forall i: nat | i < |s.running| ensures Enabled(capacity, s, Done(i)) {
      InWithout(s.running, i);
      CanAlwaysFinish(inputs, s.fit, Outstanding(s), s.running[i].request.job);
    }
    if s.running != [] {
      move := Done(0);
    } else {
      PendingAreDistinct(inputs, capacity, s);
      var i := LeastExists(s.pending);
      move := Start(i);
    }
  }

  // ---- a run ends

  function OneIf(b: bool): nat { if b then 1 else 0 }

  /** Results that are in. */
  function Results(fit: Fit): nat {
    OneIf(fit.historical.Some?) + OneIf(fit.capitals.Some?) + OneIf(fit.english.Some?) + OneIf(fit.tail.Some?)
    + |fit.captured| + |fit.chains| + |fit.spans|
  }

  function Bound(inputs: Inputs): nat { 4 + |inputs.captured| + |inputs.Keys()| + |inputs.Keys()| }

  lemma ResultsBounded(inputs: Inputs, fit: Fit)
    requires Values(inputs, fit) && Chained(inputs, fit)
    ensures Results(fit) <= Bound(inputs)
  {
    FitSteps.KeyCount(fit.captured.Keys, |inputs.captured|);
    forall k ensures (k in fit.chains ==> k in inputs.Keys()) && (k in fit.spans ==> k in inputs.Keys()) {
      assert Linked(inputs, fit, k);
    }
    SubsetSize(fit.chains.Keys, inputs.Keys());
    SubsetSize(fit.spans.Keys, inputs.Keys());
    assert |fit.captured.Keys| == |fit.captured| && |fit.chains.Keys| == |fit.chains| && |fit.spans.Keys| == |fit.spans|;
  }

  lemma FramesResults(inputs: Inputs, fit: Fit, key: Key)
    requires inputs.perTask > 0 && key.profile in fit.arrived && key.profile in fit.stores
    ensures Results(FramesReady(inputs, fit, key).0) == Results(fit)
  {
    if IsFramed(fit, key) {
      Grown(fit.chains, key, []);
      var next := FramesReady(inputs, fit, key).0;
      assert next.chains == fit.chains[key := []];
      SameResults(fit, next);
    }
  }

  lemma SameResults(a: Fit, b: Fit)
    requires b.historical == a.historical && b.capitals == a.capitals && b.english == a.english && b.tail == a.tail
    requires b.captured == a.captured && |b.chains| == |a.chains| && b.spans == a.spans
    ensures Results(a) == Results(b)
  {}

  lemma ExtraResults(inputs: Inputs, came: Fit)
    requires inputs.perTask > 0
    ensures Results(ExtraReady(inputs, came).0) == Results(came)
  {
    var next := ExtraReady(inputs, came).0;
    if CurriculaIn(inputs, came) {
      assert next == came.(extra := ExtraSoFar(inputs, came));
    }
    SameResults(came, next);
  }

  lemma CurriculumResults(inputs: Inputs, fit: Fit, j: Job)
    requires IsCurriculum(j) && Expected(inputs, fit, j) == 1
    ensures Results(Curriculum(inputs, fit, j)) == Results(fit) + 1
  {
    match j
    case Captured(i) => Grown(fit.captured, i, inputs.captured[i]);
    case _ =>
  }

  lemma FinishResults(inputs: Inputs, fit: Fit, j: Job)
    requires inputs.perTask > 0 && CanFinish(fit, j) && (!j.Featurise? ==> Expected(inputs, fit, j) == 1)
    ensures Results(Finish(inputs, fit, j).0) == Results(fit) + if j.Featurise? then 0 else 1
  {
    match j
    case Chain(key, extra, tail) =>
      var came := fit.(chains := fit.chains[key := inputs.chain(key, extra, tail)]);
      Grown(fit.chains, key, inputs.chain(key, extra, tail));
      FramesResults(inputs, came, key);
    case Spans(key) =>
      var came := fit.(spans := fit.spans[key := inputs.spans(key)]);
      Grown(fit.spans, key, inputs.spans(key));
      FramesResults(inputs, came, key);
    case Featurise(_, _, _) => SameResults(fit, Finish(inputs, fit, j).0);
    case _ =>
      CurriculumResults(inputs, fit, j);
      ExtraResults(inputs, Curriculum(inputs, fit, j));
  }

  /** A callback was run since `s`. */
  ghost predicate Further(t: System, s: System) {
    Results(t.fit) > Results(s.fit) || (Results(t.fit) == Results(s.fit) && |Outstanding(t)| < |Outstanding(s)|)
  }

  /** Fewer results to come, or as many and fewer tasks outstanding, or as many of both and fewer of them pending. */
  ghost predicate Closer(t: System, s: System) {
    Further(t, s)
    || (Results(t.fit) == Results(s.fit) && |Outstanding(t)| == |Outstanding(s)| && |t.pending| < |s.pending|)
  }

  /** Every move brings a run closer to its end; results are bounded, so every run ends. */
  lemma EveryMoveIsCloser(inputs: Inputs, capacity: nat, s: System, move: Move)
    requires Proper(inputs) && Holds(inputs, capacity, s) && Enabled(capacity, s, move)
    ensures Closer(Next(inputs, capacity, s, move), s)
    ensures Results(s.fit) <= Bound(inputs)
  {
    ResultsBounded(inputs, s.fit);
    var t := Next(inputs, capacity, s, move);
    match move
    case Start(i) => StartKeeps(inputs, capacity, s, i, t);
    case Done(i) =>
      var j := s.running[i].request.job;
      DoneOutstanding(inputs, capacity, s, i, t);
      DoneCloser(inputs, s, i, t, j);
  }

  lemma DoneCloser(inputs: Inputs, s: System, i: nat, t: System, j: Job)
    requires inputs.perTask > 0 && Tasks(inputs, s.fit, Outstanding(s)) && j in Outstanding(s) && CanFinish(s.fit, j)
    requires t.fit == Finish(inputs, s.fit, j).0
    requires Outstanding(t) == Outstanding(s) - multiset{j} + Added(Finish(inputs, s.fit, j).1)
    ensures Further(t, s)
  {
    if !j.Featurise? { assert Expected(inputs, s.fit, j) == 1; }
    FinishResults(inputs, s.fit, j);
    if j.Featurise? { NothingAdded(); }
  }

  // ---- every task but a feature task is added once

  /** Whether a curriculum, chain or span task of this fit has its result in. */
  ghost predicate Had(inputs: Inputs, fit: Fit, j: Job) {
    match j
    case Historical => inputs.BuildsCurricula() && fit.historical.Some?
    case Captured(i) => inputs.BuildsCurricula() && i < |inputs.captured| && i in fit.captured
    case Capitals => inputs.BuildsCurricula() && fit.capitals.Some?
    case English => inputs.BuildsCurricula() && fit.english.Some?
    case TailTask => inputs.Trains() && fit.tail.Some?
    case Chain(key, extra, tail) => inputs.IsKey(key) && key in fit.chains && (extra, tail) == inputs.ChainArguments(key)
    case Spans(key) => inputs.IsKey(key) && key in fit.spans && !(inputs.frozen && key.split == TRAIN)
    case Featurise(_, _, _) => false
  }

  /** The tasks of a fit, apart from the features: what `Had` becomes at the end. */
  ghost predicate IsTask(inputs: Inputs, j: Job) {
    match j
    case Captured(i) => inputs.BuildsCurricula() && i < |inputs.captured|
    case TailTask => inputs.Trains()
    case Chain(key, extra, tail) => inputs.IsKey(key) && (extra, tail) == inputs.ChainArguments(key)
    case Spans(key) => inputs.IsKey(key) && !(inputs.frozen && key.split == TRAIN)
    case Featurise(_, _, _) => false
    case _ => inputs.BuildsCurricula()
  }

  lemma CurriculumHad(inputs: Inputs, fit: Fit, j: Job, k: Job)
    requires IsCurriculum(j) && Expected(inputs, fit, j) == 1
    ensures Had(inputs, Curriculum(inputs, fit, j), k) <==> Had(inputs, fit, k) || k == j
  {}

  lemma SameHad(inputs: Inputs, a: Fit, b: Fit, k: Job)
    requires b.historical == a.historical && b.capitals == a.capitals && b.english == a.english && b.tail == a.tail
    requires b.captured == a.captured && b.chains.Keys == a.chains.Keys && b.spans == a.spans
    ensures Had(inputs, a, k) == Had(inputs, b, k)
  {
    if k.Chain? { assert k.key in a.chains <==> k.key in b.chains; }
  }

  lemma FramesHad(inputs: Inputs, fit: Fit, key: Key, k: Job)
    requires inputs.perTask > 0 && key.profile in fit.arrived && key.profile in fit.stores
    ensures Had(inputs, FramesReady(inputs, fit, key).0, k) == Had(inputs, fit, k)
  {
    var next := FramesReady(inputs, fit, key).0;
    if IsFramed(fit, key) {
      assert next.chains == fit.chains[key := []];
      assert next.chains.Keys == fit.chains.Keys;
    }
    SameHad(inputs, fit, next, k);
  }

  lemma ExtraHad(inputs: Inputs, came: Fit, k: Job)
    requires inputs.perTask > 0
    ensures Had(inputs, ExtraReady(inputs, came).0, k) == Had(inputs, came, k)
  {
    var next := ExtraReady(inputs, came).0;
    if CurriculaIn(inputs, came) {
      assert next == came.(extra := ExtraSoFar(inputs, came));
    }
    SameHad(inputs, came, next, k);
  }

  lemma FinishHad(inputs: Inputs, fit: Fit, j: Job, k: Job)
    requires inputs.perTask > 0 && CanFinish(fit, j) && (!j.Featurise? ==> Expected(inputs, fit, j) == 1) && !k.Featurise?
    ensures Had(inputs, Finish(inputs, fit, j).0, k) <==> Had(inputs, fit, k) || k == j
  {
    hide FramesReady, ExtraReady;
    match j
    case Chain(key, extra, tail) =>
      FramesHad(inputs, fit.(chains := fit.chains[key := inputs.chain(key, extra, tail)]), key, k);
    case Spans(key) => FramesHad(inputs, fit.(spans := fit.spans[key := inputs.spans(key)]), key, k);
    case Featurise(_, _, _) => SameHad(inputs, fit, Finish(inputs, fit, j).0, k);
    case _ =>
      ExtraHad(inputs, Curriculum(inputs, fit, j), k);
      CurriculumHad(inputs, fit, j, k);
  }

  ghost predicate AskedHolds(inputs: Inputs, s: System, k: Job) {
    Added(s.asked)[k] == Expected(inputs, s.fit, k) + OneIf(Had(inputs, s.fit, k))
  }

  lemma FirstAsked(inputs: Inputs, k: Job)
    requires Proper(inputs) && !k.Featurise?
    ensures AskedHolds(inputs, First(inputs), k)
  {
    FirstTasks(inputs, k);
  }

  lemma DoneAsked(inputs: Inputs, s: System, i: nat, t: System, k: Job)
    requires Proper(inputs) && i < |s.running| && CanFinish(s.fit, s.running[i].request.job) && !k.Featurise?
    requires var j := s.running[i].request.job;
      j in Outstanding(s) && Outstanding(t) == Outstanding(s) - multiset{j} + Added(Finish(inputs, s.fit, j).1)
      && t.fit == Finish(inputs, s.fit, j).0 && t.asked == s.asked + Finish(inputs, s.fit, j).1
      && (!j.Featurise? ==> Expected(inputs, s.fit, j) == 1)
    requires Outstanding(s)[k] == Expected(inputs, s.fit, k) && Outstanding(t)[k] == Expected(inputs, t.fit, k)
    requires AskedHolds(inputs, s, k) && Expected(inputs, s.fit, k) + OneIf(Had(inputs, s.fit, k)) <= 1
    ensures AskedHolds(inputs, t, k)
  {
    var j := s.running[i].request.job;
    AddedSplits(s.asked, Finish(inputs, s.fit, j).1);
    FinishHad(inputs, s.fit, j, k);
  }

  lemma HadOrExpected(inputs: Inputs, fit: Fit, k: Job)
    ensures Expected(inputs, fit, k) + OneIf(Had(inputs, fit, k)) <= OneIf(IsTask(inputs, k))
  {}

  lemma EveryStateTasks(inputs: Inputs, capacity: nat, states: seq<System>, moves: seq<Move>, at: nat)
    requires Proper(inputs) && IsRun(inputs, capacity, states, moves) && at < |states| && !states[at].fit.rejected
    ensures Tasks(inputs, states[at].fit, Outstanding(states[at]))
  {
    EveryStateHolds(inputs, capacity, states, moves, at);
  }

  lemma {:induction false} EveryStateAsked(inputs: Inputs, capacity: nat, states: seq<System>, moves: seq<Move>, at: nat, k: Job)
    requires Proper(inputs) && IsRun(inputs, capacity, states, moves) && at < |states| && !states[at].fit.rejected && !k.Featurise?
    ensures AskedHolds(inputs, states[at], k)
  {
    if at == 0 {
      FirstAsked(inputs, k);
    } else {
      EveryStateAsked(inputs, capacity, states, moves, at - 1, k);
      EveryStateTasks(inputs, capacity, states, moves, at - 1);
      EveryStateTasks(inputs, capacity, states, moves, at);
      MoveAsked(inputs, capacity, states[at - 1], moves[at - 1], states[at], k);
    }
  }

  lemma MoveAsked(inputs: Inputs, capacity: nat, s: System, move: Move, t: System, k: Job)
    requires Proper(inputs) && Enabled(capacity, s, move) && t == Next(inputs, capacity, s, move) && !k.Featurise?
    requires Tasks(inputs, s.fit, Outstanding(s)) && Tasks(inputs, t.fit, Outstanding(t)) && AskedHolds(inputs, s, k)
    ensures AskedHolds(inputs, t, k)
  {
    match move
    case Start(i) =>
    case Done(i) =>
      DoneOutstanding(inputs, capacity, s, i, t);
      StepAsked(inputs, s, i, t, k);
  }

  lemma StepAsked(inputs: Inputs, s: System, i: nat, t: System, k: Job)
    requires Proper(inputs) && i < |s.running| && CanFinish(s.fit, s.running[i].request.job) && !k.Featurise?
    requires Tasks(inputs, s.fit, Outstanding(s)) && Tasks(inputs, t.fit, Outstanding(t)) && AskedHolds(inputs, s, k)
    requires var j := s.running[i].request.job;
      j in Outstanding(s) && Outstanding(t) == Outstanding(s) - multiset{j} + Added(Finish(inputs, s.fit, j).1)
      && t.fit == Finish(inputs, s.fit, j).0 && t.asked == s.asked + Finish(inputs, s.fit, j).1
    ensures AskedHolds(inputs, t, k)
  {
    HadOrExpected(inputs, s.fit, k);
    assert Expected(inputs, t.fit, k) == Outstanding(t)[k];
    assert Expected(inputs, s.fit, k) == Outstanding(s)[k];
    assert !s.running[i].request.job.Featurise? ==> Expected(inputs, s.fit, s.running[i].request.job) == 1;
    DoneAsked(inputs, s, i, t, k);
  }

  /**
   No curriculum, chain or span task is ever added twice, nor one the fit does not have; a TRAIN chain only once the
   five curricula are in. A run that drains has added each of them.
   */
  lemma EveryTaskIsAddedOnce(inputs: Inputs, capacity: nat, states: seq<System>, moves: seq<Move>, at: nat, k: Job)
    requires Proper(inputs) && IsRun(inputs, capacity, states, moves) && at < |states| && !states[at].fit.rejected && !k.Featurise?
    ensures var s := states[at];
      && Added(s.asked)[k] <= OneIf(IsTask(inputs, k))
      && (k.Chain? && k.key.split == TRAIN && k in Added(s.asked) ==> CurriculaIn(inputs, s.fit))
      && (Drained(s) ==> Added(s.asked)[k] == OneIf(IsTask(inputs, k)))
  {
    var s := states[at];
    EveryStateAsked(inputs, capacity, states, moves, at, k);
    EveryStateHolds(inputs, capacity, states, moves, at);
    HadOrExpected(inputs, s.fit, k);
    if k.Chain? { assert Linked(inputs, s.fit, k.key); }
    if Drained(s) {
      assert Outstanding(s) == multiset{};
      DrainedHad(inputs, s.fit, k);
    }
  }

  lemma DrainedHad(inputs: Inputs, fit: Fit, k: Job)
    requires Tasks(inputs, fit, multiset{}) && Unbuilt(inputs, fit) && !k.Featurise?
    ensures Expected(inputs, fit, k) + OneIf(Had(inputs, fit, k)) == OneIf(IsTask(inputs, k))
  {
    DrainedCurricula(inputs, fit);
    assert Expected(inputs, fit, k) == 0;
  }
}
