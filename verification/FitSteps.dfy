/** Every callback keeps the invariant of a fit. */
module FitSteps {
  import opened Wrappers
  import opened FitPlan
  import opened FitState
  import opened FitInvariant
  import opened FitRequests

  // ---- the start

  lemma {:induction false} FirstReleased(inputs: Inputs, p: string, c: Chunk)
    requires Proper(inputs) && IsReleased(inputs, FirstFit(inputs), p, c)
    ensures TaskOf(inputs, p, c) in Added(NaturalRequests(inputs, KeyList(inputs.profiles, inputs.splits)))
  {
    assert c.source == Natural;
    KeyListIs(inputs.profiles, inputs.splits);
    NaturalCovers(inputs, KeyList(inputs.profiles, inputs.splits), Key(p, c.split), c.start);
  }

  lemma FirstFrames(inputs: Inputs, out: multiset<Job>, j: Job)
    requires Proper(inputs) && out == Added(FirstRequests(inputs)) && j in out && j.Featurise?
    ensures HoldsFrames(inputs, out, j)
  {
    var keys := KeyList(inputs.profiles, inputs.splits);
    FirstParts(inputs);
    KeyListIs(inputs.profiles, inputs.splits);
    CurriculaCounts(inputs, j);
    AllKeyCounts(inputs, keys, j);
    NaturalAdds(inputs, keys, j);
  }

  lemma FirstFeatures(inputs: Inputs, fit: Fit, out: multiset<Job>)
    requires Proper(inputs) && fit == FirstFit(inputs) && out == Added(FirstRequests(inputs))
    ensures Featurised(inputs, fit, out)
  {
    FirstParts(inputs);
    forall p, c | IsReleased(inputs, fit, p, c)
      ensures TaskOf(inputs, p, c) in out
    {
      FirstReleased(inputs, p, c);
    }
    forall j: Job ensures HoldsFrames(inputs, out, j) {
      if j in out && j.Featurise? { FirstFrames(inputs, out, j); }
    }
  }

  lemma FirstCurricula(inputs: Inputs)
    requires Proper(inputs)
    ensures Tasks(inputs, FirstFit(inputs), Added(FirstRequests(inputs)))
  {
    forall j: Job | !j.Featurise?
      ensures Added(FirstRequests(inputs))[j] == Expected(inputs, FirstFit(inputs), j)
    {
      FirstTasks(inputs, j);
    }
  }

  lemma FirstState(inputs: Inputs, fit: Fit)
    requires Proper(inputs) && fit == FirstFit(inputs)
    ensures Values(inputs, fit) && Chained(inputs, fit)
    ensures fit.arrived.Keys == fit.stores.Keys && Kept(inputs, fit) && Planning(inputs, fit, {})
  {}

  /** The state a run starts from. */
  lemma StartHolds(inputs: Inputs, fit: Fit, out: multiset<Job>)
    requires Proper(inputs) && fit == FirstFit(inputs) && out == Added(FirstRequests(inputs))
    ensures Invariant(inputs, fit, out)
  {
    FirstCurricula(inputs);
    FirstFeatures(inputs, fit, out);
    FirstState(inputs, fit);
  }

  // ---- a curriculum comes in

  ghost predicate IsCurriculum(j: Job) { !j.Chain? && !j.Spans? && !j.Featurise? }

  lemma {:induction false} KeyCount(keys: set<nat>, n: nat)
    requires forall i :: i in keys ==> i < n
    ensures |keys| <= n
    ensures |keys| == n ==> forall i: nat :: i < n ==> i in keys
  {
    if n > 0 {
      var rest := keys - {n - 1};
      KeyCount(rest, n - 1);
      assert n - 1 in keys ==> keys == rest + {n - 1};
      assert n - 1 !in keys ==> keys == rest;
    }
  }

  /** As many captured sources as there are is all of them. */
  lemma AllCaptured(inputs: Inputs, fit: Fit)
    requires Values(inputs, fit) && |fit.captured| >= |inputs.captured|
    ensures forall i: nat :: i < |inputs.captured| ==> i in fit.captured
  {
    KeyCount(fit.captured.Keys, |inputs.captured|);
    assert |fit.captured.Keys| == |fit.captured|;
  }

  lemma {:induction false} CapturedInOrder(inputs: Inputs, fit: Fit, count: nat)
    requires count <= |inputs.captured|
    requires forall i: nat :: i < count ==> i in fit.captured && fit.captured[i] == inputs.CapturedRows(i)
    ensures CapturedSoFar(fit, count) == inputs.CapturedUpTo(count)
  {
    if count > 0 { CapturedInOrder(inputs, fit, count - 1); }
  }

  ghost predicate CurriculaValues(inputs: Inputs, fit: Fit) {
    && (fit.historical.Some? ==> fit.historical.value == inputs.HistoricalRows())
    && (fit.capitals.Some? ==> fit.capitals.value == inputs.CapitalsRows())
    && (fit.english.Some? ==> fit.english.value == inputs.EnglishRows())
    && (fit.tail.Some? ==> fit.tail.value == inputs.TailRows())
    && (forall i :: i in fit.captured ==> i < |inputs.captured| && fit.captured[i] == inputs.CapturedRows(i))
  }

  lemma CurriculumWaited(inputs: Inputs, fit: Fit, j: Job)
    requires Values(inputs, fit) && IsCurriculum(j) && Expected(inputs, fit, j) == 1
    ensures inputs.Trains() && !CurriculaIn(inputs, fit)
  {
    if CurriculaIn(inputs, fit) {
      AllCaptured(inputs, fit);
      assert false;
    }
  }

  lemma CurriculumValue(inputs: Inputs, fit: Fit, j: Job)
    requires Values(inputs, fit) && IsCurriculum(j) && Expected(inputs, fit, j) == 1
    ensures CurriculaValues(inputs, Curriculum(inputs, fit, j))
  {}

  lemma CurriculumComes(inputs: Inputs, fit: Fit, out: multiset<Job>, j: Job)
    requires Proper(inputs) && Values(inputs, fit) && Tasks(inputs, fit, out) && IsCurriculum(j) && j in out
    ensures inputs.Trains() && !CurriculaIn(inputs, fit) && out[j] == 1
    ensures CurriculaValues(inputs, Curriculum(inputs, fit, j))
    ensures forall k: Job :: IsCurriculum(k) ==>
      Expected(inputs, Curriculum(inputs, fit, j), k) == if k == j then 0 else Expected(inputs, fit, k)
  {
    assert Expected(inputs, fit, j) == 1;
    CurriculumWaited(inputs, fit, j);
    CurriculumValue(inputs, fit, j);
  }

  /** The rows of the curricula in the order of the serial fit, whatever order they came in. */
  lemma ExtraIsSerial(inputs: Inputs, fit: Fit)
    requires CurriculaValues(inputs, fit) && CurriculaIn(inputs, fit)
    ensures ExtraSoFar(inputs, fit) == inputs.ExtraRows()
  {
    KeyCount(fit.captured.Keys, |inputs.captured|);
    assert |fit.captured.Keys| == |fit.captured|;
    CapturedInOrder(inputs, fit, |inputs.captured|);
  }

  /** All but the curricula's own fields and the tasks they add. */
  ghost predicate SameKeys(a: Fit, b: Fit) {
    a.chains == b.chains && a.spans == b.spans && a.entries == b.entries && a.plans == b.plans && a.missing == b.missing
    && a.arrived == b.arrived && a.stores == b.stores && a.columns == b.columns && a.rejected == b.rejected
  }

  ghost predicate StartsChain(inputs: Inputs, came: Fit, k: Job) {
    CurriculaIn(inputs, came) && k.Chain? && k.key.split == TRAIN && k.key.profile in inputs.profiles
    && k.extra == Some(inputs.ExtraRows()) && k.tail == Some(inputs.TailRows())
  }

  lemma ExpectedThen(inputs: Inputs, fit: Fit, j: Job, came: Fit, next: Fit, k: Job)
    requires inputs.Trains() && !CurriculaIn(inputs, fit) && IsCurriculum(j) && !k.Featurise?
    requires k.Chain? ==> Linked(inputs, fit, k.key)
    requires came.chains == fit.chains && came.spans == fit.spans && next == came.(extra := next.extra)
    requires IsCurriculum(k) ==> Expected(inputs, came, k) == if k == j then 0 else Expected(inputs, fit, k)
    ensures Expected(inputs, next, k)
         == (if k == j then 0 else Expected(inputs, fit, k)) + if StartsChain(inputs, came, k) then 1 else 0
  {
    if k.Chain? {
      ChainThen(inputs, fit, came, next, k);
    } else {
      assert Expected(inputs, next, k) == Expected(inputs, came, k);
    }
  }

  lemma ChainThen(inputs: Inputs, fit: Fit, came: Fit, next: Fit, k: Job)
    requires inputs.Trains() && !CurriculaIn(inputs, fit) && k.Chain? && Linked(inputs, fit, k.key)
    requires next.chains == fit.chains && CurriculaIn(inputs, next) == CurriculaIn(inputs, came)
    ensures Expected(inputs, next, k) == Expected(inputs, fit, k) + if StartsChain(inputs, came, k) then 1 else 0
  {
    var arguments := inputs.ChainArguments(k.key);
    if k.key.split == TRAIN {
      assert Expected(inputs, fit, k) == 0;
    }
  }

  lemma RequestsThen(inputs: Inputs, came: Fit, k: Job)
    requires Proper(inputs) && CurriculaValues(inputs, came) && !k.Featurise?
    ensures Added(ExtraReady(inputs, came).1)[k] == if StartsChain(inputs, came, k) then 1 else 0
  {
    NothingAdded();
    if CurriculaIn(inputs, came) {
      ExtraIsSerial(inputs, came);
      TrainChains(inputs, inputs.profiles, inputs.ExtraRows(), inputs.TailRows(), k);
    }
  }

  lemma CurriculumTasks(inputs: Inputs, fit: Fit, out: multiset<Job>, j: Job, k: Job)
    requires Proper(inputs) && Values(inputs, fit) && Chained(inputs, fit) && Tasks(inputs, fit, out)
    requires IsCurriculum(j) && j in out && !k.Featurise?
    ensures var (next, requests) := ExtraReady(inputs, Curriculum(inputs, fit, j));
      (out - multiset{j} + Added(requests))[k] == Expected(inputs, next, k)
  {
    CurriculumComes(inputs, fit, out, j);
    var came := Curriculum(inputs, fit, j);
    if k.Chain? { assert Linked(inputs, fit, k.key); }
    ExpectedThen(inputs, fit, j, came, ExtraReady(inputs, came).0, k);
    RequestsThen(inputs, came, k);
  }

  lemma {:induction false} CurriculumFeatures(inputs: Inputs, fit: Fit, out: multiset<Job>, j: Job, came: Fit, next: Fit,
                                              after: multiset<Job>)
    requires Proper(inputs) && Featurised(inputs, fit, out) && IsCurriculum(j) && !CurriculaIn(inputs, fit)
    requires SameKeys(fit, next) && CurriculaIn(inputs, came) == CurriculaIn(inputs, next)
    requires after == out - multiset{j} + if CurriculaIn(inputs, came)
      then Added(TrainRequests(inputs, inputs.profiles, inputs.ExtraRows(), inputs.TailRows())) else multiset{}
    ensures Featurised(inputs, next, after)
  {
    if CurriculaIn(inputs, came) {
      TrainReleased(inputs, fit, next, out, after, j);
      forall k: Job ensures HoldsFrames(inputs, after, k) {
        assert HoldsFrames(inputs, out, k);
        if k in after && k !in out && k.Featurise? {
          TrainFeatures(inputs, inputs.profiles, inputs.ExtraRows(), inputs.TailRows(), k);
        }
      }
    } else {
      SameReleased(inputs, fit, next, out, after, j);
    }
  }

  lemma SameReleased(inputs: Inputs, fit: Fit, next: Fit, out: multiset<Job>, after: multiset<Job>, j: Job)
    requires Proper(inputs) && Featurised(inputs, fit, out) && after == out - multiset{j} && IsCurriculum(j)
    requires SameKeys(fit, next) && CurriculaIn(inputs, fit) == CurriculaIn(inputs, next)
    ensures Featurised(inputs, next, after)
  {
    hide Released, CurriculaIn, TaskOf;
    forall p, c | IsReleased(inputs, next, p, c)
      ensures c in next.arrived[p] || TaskOf(inputs, p, c) in after
    {
      ReleasedBefore(inputs, fit, next, p, c);
      TaskIsFeature(inputs, p, c);
    }
    forall k: Job ensures HoldsFrames(inputs, after, k) {
      assert HoldsFrames(inputs, out, k);
    }
  }

  lemma TaskIsFeature(inputs: Inputs, p: string, c: Chunk)
    ensures TaskOf(inputs, p, c).Featurise?
  {}

  lemma ReleasedBefore(inputs: Inputs, fit: Fit, next: Fit, p: string, c: Chunk)
    requires inputs.perTask > 0 && SameKeys(fit, next) && IsReleased(inputs, next, p, c)
    requires CurriculaIn(inputs, fit) == CurriculaIn(inputs, next) || (c.source != Source.Extra && c.source != Source.Tail)
    ensures IsReleased(inputs, fit, p, c)
  {}

  lemma {:induction false} TrainReleased(inputs: Inputs, fit: Fit, next: Fit, out: multiset<Job>, after: multiset<Job>, j: Job)
    requires Proper(inputs) && Featurised(inputs, fit, out) && IsCurriculum(j) && SameKeys(fit, next)
    requires after == out - multiset{j} + Added(TrainRequests(inputs, inputs.profiles, inputs.ExtraRows(), inputs.TailRows()))
    ensures forall p, c :: IsReleased(inputs, next, p, c) ==> c in next.arrived[p] || TaskOf(inputs, p, c) in after
  {
    hide Added, TrainRequests;
    forall p, c | IsReleased(inputs, next, p, c)
      ensures c in next.arrived[p] || TaskOf(inputs, p, c) in after
    {
      if c.source == Source.Extra || c.source == Source.Tail {
        TrainCovers(inputs, inputs.profiles, inputs.ExtraRows(), inputs.TailRows(), p, c.source, c.start);
      } else {
        ReleasedBefore(inputs, fit, next, p, c);
      }
    }
  }

  lemma {:induction false} ExtraValues(inputs: Inputs, came: Fit, next: Fit)
    requires inputs.perTask > 0 && CurriculaValues(inputs, came) && next == ExtraReady(inputs, came).0
    ensures Values(inputs, next)
    ensures ExtraReady(inputs, came).1 == if CurriculaIn(inputs, came)
      then TrainRequests(inputs, inputs.profiles, inputs.ExtraRows(), inputs.TailRows()) else []
  {
    if CurriculaIn(inputs, came) {
      ExtraIsSerial(inputs, came);
      assert next == came.(extra := inputs.ExtraRows());
    }
  }

  lemma CurriculumLinks(inputs: Inputs, fit: Fit, next: Fit)
    requires Chained(inputs, fit) && !CurriculaIn(inputs, fit) && next.chains == fit.chains && next.spans == fit.spans
    ensures Chained(inputs, next)
  {
    forall k ensures Linked(inputs, next, k) {
      assert Linked(inputs, fit, k);
    }
  }

  lemma {:induction false} CurriculumValues(inputs: Inputs, fit: Fit, out: multiset<Job>, j: Job, came: Fit, next: Fit)
    requires Proper(inputs) && Values(inputs, fit) && Chained(inputs, fit) && Tasks(inputs, fit, out) && IsCurriculum(j) && j in out
    requires came == Curriculum(inputs, fit, j) && next == ExtraReady(inputs, came).0
    ensures Values(inputs, next) && Chained(inputs, next)
    ensures ExtraReady(inputs, came).1 == if CurriculaIn(inputs, came)
      then TrainRequests(inputs, inputs.profiles, inputs.ExtraRows(), inputs.TailRows()) else []
  {
    hide Values, Chained, Tasks, CurriculaValues, CurriculaIn, Expected, TrainRequests;
    CurriculumComes(inputs, fit, out, j);
    ExtraValues(inputs, came, next);
    CurriculumLinks(inputs, fit, next);
  }

  lemma CurriculumAllTasks(inputs: Inputs, fit: Fit, out: multiset<Job>, j: Job, next: Fit, after: multiset<Job>)
    requires Proper(inputs) && Values(inputs, fit) && Chained(inputs, fit) && Tasks(inputs, fit, out) && IsCurriculum(j) && j in out
    requires next == ExtraReady(inputs, Curriculum(inputs, fit, j)).0
    requires after == out - multiset{j} + Added(ExtraReady(inputs, Curriculum(inputs, fit, j)).1)
    ensures Tasks(inputs, next, after)
  {
    forall k: Job | !k.Featurise?
      ensures after[k] == Expected(inputs, next, k)
    {
      CurriculumTasks(inputs, fit, out, j, k);
    }
  }

  lemma {:induction false} CurriculumRest(inputs: Inputs, fit: Fit, out: multiset<Job>, j: Job, came: Fit, next: Fit,
                                          after: multiset<Job>)
    requires Proper(inputs) && Featurised(inputs, fit, out) && Kept(inputs, fit) && Planning(inputs, fit, {})
    requires IsCurriculum(j) && !CurriculaIn(inputs, fit)
    requires came == Curriculum(inputs, fit, j) && next == ExtraReady(inputs, came).0
    requires after == out - multiset{j} + if CurriculaIn(inputs, came)
      then Added(TrainRequests(inputs, inputs.profiles, inputs.ExtraRows(), inputs.TailRows())) else multiset{}
    ensures Featurised(inputs, next, after) && Kept(inputs, next) && Planning(inputs, next, {})
    ensures next.rejected == fit.rejected
  {
    CurriculumFeatures(inputs, fit, out, j, came, next, after);
    SameElsewhere(inputs, fit, next);
  }

  /** A curriculum's callback; once all five are in, each TRAIN chain is added, once. */
  lemma CurriculumKeeps(inputs: Inputs, fit: Fit, out: multiset<Job>, j: Job, next: Fit, after: multiset<Job>)
    requires Proper(inputs) && Invariant(inputs, fit, out) && IsCurriculum(j) && j in out
    requires next == ExtraReady(inputs, Curriculum(inputs, fit, j)).0
    requires after == out - multiset{j} + Added(ExtraReady(inputs, Curriculum(inputs, fit, j)).1)
    ensures Invariant(inputs, next, after)
  {
    var came := Curriculum(inputs, fit, j);
    assert !CurriculaIn(inputs, fit) by { CurriculumComes(inputs, fit, out, j); }
    CurriculumValues(inputs, fit, out, j, came, next);
    CurriculumAllTasks(inputs, fit, out, j, next, after);
    NothingAdded();
    CurriculumRest(inputs, fit, out, j, came, next, after);
  }

  lemma SameElsewhere(inputs: Inputs, fit: Fit, next: Fit)
    requires inputs.perTask > 0 && SameKeys(fit, next) && fit.arrived.Keys == fit.stores.Keys
    requires Kept(inputs, fit) && Planning(inputs, fit, {})
    ensures Kept(inputs, next) && Planning(inputs, next, {})
  {
    forall k ensures KeyHolds(inputs, next, {}, k) {
      assert KeyHolds(inputs, fit, {}, k);
    }
    forall p, c ensures KeptChunk(inputs, next, p, c) {
      assert KeptChunk(inputs, fit, p, c);
    }
  }
}
