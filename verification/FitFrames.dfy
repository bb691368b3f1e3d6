/** A key's chain and spans come in, and the key is planned: each step keeps the invariant of a fit. */
module FitFrames {
  import opened FitPlan
  import opened FitState
  import opened FitInvariant
  import opened FitRequests
  import opened FitKeys

  /** A key's chain or spans came in; nothing else changed. */
  ghost predicate Came(inputs: Inputs, fit: Fit, came: Fit, key: Key) {
    && inputs.IsKey(key) && !IsFramed(fit, key) && (key.split == TRAIN ==> key !in fit.chains || CurriculaIn(inputs, fit))
    && came == fit.(chains := came.chains, spans := came.spans)
    && (key in came.chains || key in came.spans)
    && (forall k :: k != key ==> (k in came.chains <==> k in fit.chains) && (k in came.spans <==> k in fit.spans))
    && (IsFramed(came, key) ==> came.chains[key] == inputs.ChainRows(key) && came.spans[key] == inputs.SpanRows(key))
  }

  // ---- the chain or the spans come

  lemma ChainTask(inputs: Inputs, fit: Fit, out: multiset<Job>, j: Job, came: Fit, k: Job)
    requires j.Chain? && out[j] == Expected(inputs, fit, j) == 1 && out[k] == Expected(inputs, fit, k) && !k.Featurise?
    requires came == fit.(chains := fit.chains[j.key := inputs.chain(j.key, j.extra, j.tail)])
    ensures (out - multiset{j})[k] == Expected(inputs, came, k)
  {}

  lemma SpansTask(inputs: Inputs, fit: Fit, out: multiset<Job>, j: Job, came: Fit, k: Job)
    requires j.Spans? && out[j] == Expected(inputs, fit, j) == 1 && out[k] == Expected(inputs, fit, k) && !k.Featurise?
    requires came == fit.(spans := fit.spans[j.key := inputs.spans(j.key)])
    ensures (out - multiset{j})[k] == Expected(inputs, came, k)
  {}

  lemma ChainCame(inputs: Inputs, fit: Fit, out: multiset<Job>, j: Job, came: Fit)
    requires Chained(inputs, fit) && Tasks(inputs, fit, out) && j.Chain? && j in out
    requires came == fit.(chains := fit.chains[j.key := inputs.chain(j.key, j.extra, j.tail)])
    ensures Came(inputs, fit, came, j.key) && Chained(inputs, came) && Tasks(inputs, came, out - multiset{j})
  {
    assert Expected(inputs, fit, j) == 1;
    forall k: Job | !k.Featurise? ensures (out - multiset{j})[k] == Expected(inputs, came, k) {
      ChainTask(inputs, fit, out, j, came, k);
    }
    ChainLinks(inputs, fit, j, came);
  }

  lemma ChainLinks(inputs: Inputs, fit: Fit, j: Job, came: Fit)
    requires Chained(inputs, fit) && j.Chain? && Expected(inputs, fit, j) == 1
    requires came == fit.(chains := fit.chains[j.key := inputs.chain(j.key, j.extra, j.tail)])
    ensures Came(inputs, fit, came, j.key) && Chained(inputs, came)
  {
    assert Linked(inputs, fit, j.key);
    forall k ensures Linked(inputs, came, k) {
      assert Linked(inputs, fit, k);
    }
  }

  lemma SpansCame(inputs: Inputs, fit: Fit, out: multiset<Job>, j: Job, came: Fit)
    requires Chained(inputs, fit) && Tasks(inputs, fit, out) && j.Spans? && j in out
    requires came == fit.(spans := fit.spans[j.key := inputs.spans(j.key)])
    ensures Came(inputs, fit, came, j.key) && Chained(inputs, came) && Tasks(inputs, came, out - multiset{j})
  {
    assert Expected(inputs, fit, j) == 1;
    forall k: Job | !k.Featurise? ensures (out - multiset{j})[k] == Expected(inputs, came, k) {
      SpansTask(inputs, fit, out, j, came, k);
    }
    SpansLinks(inputs, fit, j, came);
  }

  lemma SpansLinks(inputs: Inputs, fit: Fit, j: Job, came: Fit)
    requires Chained(inputs, fit) && j.Spans? && Expected(inputs, fit, j) == 1
    requires came == fit.(spans := fit.spans[j.key := inputs.spans(j.key)])
    ensures Came(inputs, fit, came, j.key) && Chained(inputs, came)
  {
    assert Linked(inputs, fit, j.key);
    forall k ensures Linked(inputs, came, k) {
      assert Linked(inputs, fit, k);
    }
  }

  // ---- a key that still lacks one of them

  lemma StillWaiting(inputs: Inputs, fit: Fit, key: Key, came: Fit)
    requires inputs.perTask > 0 && Came(inputs, fit, came, key) && !IsFramed(came, key)
    requires fit.arrived.Keys == fit.stores.Keys && Kept(inputs, fit) && Planning(inputs, fit, {})
    ensures Kept(inputs, came) && Planning(inputs, came, {})
  {
    forall k ensures KeyHolds(inputs, came, {}, k) {
      assert KeyHolds(inputs, fit, {}, k);
    }
    forall p, c ensures KeptChunk(inputs, came, p, c) {
      assert KeptChunk(inputs, fit, p, c);
    }
  }

  lemma StillReleased(inputs: Inputs, fit: Fit, key: Key, came: Fit, p: string, c: Chunk)
    requires inputs.perTask > 0 && Came(inputs, fit, came, key) && !IsFramed(came, key)
    requires IsReleased(inputs, came, p, c)
    ensures IsReleased(inputs, fit, p, c)
  {}

  lemma StillFeaturised(inputs: Inputs, fit: Fit, out: multiset<Job>, j: Job, key: Key, came: Fit)
    requires inputs.perTask > 0 && Came(inputs, fit, came, key) && !IsFramed(came, key) && !j.Featurise?
    requires Featurised(inputs, fit, out)
    ensures Featurised(inputs, came, out - multiset{j})
  {
    forall p, c | IsReleased(inputs, came, p, c) ensures c in came.arrived[p] || TaskOf(inputs, p, c) in out - multiset{j} {
      StillReleased(inputs, fit, key, came, p, c);
    }
    forall k: Job ensures HoldsFrames(inputs, out - multiset{j}, k) {
      assert HoldsFrames(inputs, out, k);
    }
  }

  // ---- a key with both

  /** The plan is made from the frames the serial fit trains on, whatever was in before. */
  lemma {:induction false} PlanIs(inputs: Inputs, fit: Fit, came: Fit, key: Key)
    requires inputs.perTask > 0 && Came(inputs, fit, came, key) && IsFramed(came, key) && key.profile in came.arrived
    requires Values(inputs, came) && (key.split == TRAIN ==> CurriculaIn(inputs, came))
    ensures var (planned, requests) := PlanKey(inputs, came, key);
      && requests == ChunkRequests(inputs, Wanted, key.profile, Fresh, key.split, inputs.KeyPlan(key).late, 0)
      && planned == came.(
           chains := came.chains[key := []],
           entries := came.entries[key := inputs.FinalFrames(key)],
           plans := came.plans[key := inputs.KeyPlan(key).slots],
           missing := came.missing[key := inputs.Needed(key) - came.arrived[key.profile]])
  {
    assert Framed(inputs, came, key) == inputs.FinalFrames(key);
    assert AheadFor(inputs, came, key) == FramesAhead(inputs.NaturalOf(key), inputs.ExtraOf(key), inputs.TailOf(key));
    assert ChunksOf(inputs, key, inputs.KeyPlan(key).slots) == inputs.Needed(key);
  }

  ghost predicate PlannedFrom(inputs: Inputs, came: Fit, key: Key, planned: Fit)
    requires inputs.perTask > 0
  {
    key.profile in came.arrived && IsFramed(came, key)
    && planned == came.(
      chains := came.chains[key := []],
      entries := came.entries[key := inputs.FinalFrames(key)],
      plans := came.plans[key := inputs.KeyPlan(key).slots],
      missing := came.missing[key := inputs.Needed(key) - came.arrived[key.profile]])
  }

  lemma PlanCurricula(inputs: Inputs, came: Fit, key: Key, planned: Fit, before: multiset<Job>, after: multiset<Job>)
    requires inputs.perTask > 0 && PlannedFrom(inputs, came, key, planned)
    requires Values(inputs, came) && Chained(inputs, came) && Tasks(inputs, came, before)
    requires forall j: Job :: !j.Featurise? ==> after[j] == before[j]
    ensures Values(inputs, planned) && Chained(inputs, planned) && Tasks(inputs, planned, after)
  {
    hide Tasks, Expected;
    forall k ensures Linked(inputs, planned, k) {
      assert Linked(inputs, came, k);
    }
    PlanTasks(inputs, came, key, planned, before, after);
  }

  lemma PlanTasks(inputs: Inputs, came: Fit, key: Key, planned: Fit, before: multiset<Job>, after: multiset<Job>)
    requires inputs.perTask > 0 && PlannedFrom(inputs, came, key, planned) && Tasks(inputs, came, before)
    requires forall j: Job :: !j.Featurise? ==> after[j] == before[j]
    ensures Tasks(inputs, planned, after)
  {
    forall j: Job | !j.Featurise? ensures after[j] == Expected(inputs, planned, j) {
      assert before[j] == Expected(inputs, came, j);
    }
  }

  lemma PlanPlans(inputs: Inputs, fit: Fit, came: Fit, key: Key, planned: Fit, ready: set<Key>)
    requires inputs.perTask > 0 && Came(inputs, fit, came, key) && PlannedFrom(inputs, came, key, planned)
    requires fit.arrived.Keys == fit.stores.Keys && Kept(inputs, fit) && Planning(inputs, fit, {})
    requires ready == if planned.missing[key] == {} then {key} else {}
    ensures Kept(inputs, planned) && Planning(inputs, planned, ready)
  {
    hide Came, PlannedFrom, KeyHolds, Kept;
    forall k ensures KeyHolds(inputs, planned, ready, k) {
      assert KeyHolds(inputs, fit, {}, k);
      PlanHolds(inputs, fit, came, key, planned, ready, k);
    }
    PlanKeepsChunks(inputs, fit, came, key, planned);
  }

  lemma PlanHolds(inputs: Inputs, fit: Fit, came: Fit, key: Key, planned: Fit, ready: set<Key>, k: Key)
    requires inputs.perTask > 0 && Came(inputs, fit, came, key) && PlannedFrom(inputs, came, key, planned)
    requires fit.arrived.Keys == fit.stores.Keys && KeyHolds(inputs, fit, {}, k)
    requires ready == if planned.missing[key] == {} then {key} else {}
    ensures KeyHolds(inputs, planned, ready, k)
  {}

  lemma PlanKeepsChunks(inputs: Inputs, fit: Fit, came: Fit, key: Key, planned: Fit)
    requires inputs.perTask > 0 && Came(inputs, fit, came, key) && PlannedFrom(inputs, came, key, planned)
    requires fit.arrived.Keys == fit.stores.Keys && Kept(inputs, fit)
    ensures Kept(inputs, planned)
  {
    forall p, c ensures KeptChunk(inputs, planned, p, c) {
      assert KeptChunk(inputs, fit, p, c);
    }
  }

  function LateRequests(inputs: Inputs, key: Key): seq<Request>
    requires inputs.perTask > 0
  {
    ChunkRequests(inputs, Wanted, key.profile, Fresh, key.split, inputs.KeyPlan(key).late, 0)
  }

  lemma PlanReleases(inputs: Inputs, fit: Fit, out: multiset<Job>, came: Fit, key: Key, planned: Fit, after: multiset<Job>,
                     p: string, c: Chunk)
    requires inputs.perTask > 0 && Came(inputs, fit, came, key) && PlannedFrom(inputs, came, key, planned)
    requires IsReleased(inputs, planned, p, c) && p in fit.arrived && planned.arrived == fit.arrived
    requires IsReleased(inputs, fit, p, c) ==> c in fit.arrived[p] || TaskOf(inputs, p, c) in out
    requires TaskOf(inputs, p, c) in out || TaskOf(inputs, p, c) in Added(LateRequests(inputs, key)) ==> TaskOf(inputs, p, c) in after
    ensures c in planned.arrived[p] || TaskOf(inputs, p, c) in after
  {
    if c.source == Fresh && Key(p, c.split) == key {
      ChunkRequestsCover(inputs, Wanted, key.profile, Fresh, key.split, inputs.KeyPlan(key).late, 0, c.start);
    } else {
      assert IsReleased(inputs, fit, p, c);
    }
  }

  lemma LateTask(inputs: Inputs, key: Key, j: Job)
    requires inputs.perTask > 0 && inputs.IsKey(key) && j in Added(LateRequests(inputs, key))
    ensures j.Featurise? && j.profile in inputs.profiles && j == TaskOf(inputs, j.profile, j.chunk)
  {
    ChunkRequestsAdd(inputs, Wanted, key.profile, Fresh, key.split, inputs.KeyPlan(key).late, 0, j);
  }

  lemma PlanFeatures(inputs: Inputs, fit: Fit, out: multiset<Job>, j: Job, came: Fit, key: Key, planned: Fit,
                     after: multiset<Job>)
    requires inputs.perTask > 0 && Came(inputs, fit, came, key) && PlannedFrom(inputs, came, key, planned)
    requires Featurised(inputs, fit, out) && !j.Featurise?
    requires after == out - multiset{j} + Added(LateRequests(inputs, key))
    ensures Featurised(inputs, planned, after)
  {
    forall p, c | IsReleased(inputs, planned, p, c) ensures c in planned.arrived[p] || TaskOf(inputs, p, c) in after {
      PlanReleases(inputs, fit, out, came, key, planned, after, p, c);
    }
    forall k: Job ensures HoldsFrames(inputs, after, k) {
      assert HoldsFrames(inputs, out, k);
      if k in after && k !in out { LateTask(inputs, key, k); }
    }
  }

  lemma PlanAdds(inputs: Inputs, out: multiset<Job>, j: Job, key: Key, after: multiset<Job>)
    requires inputs.perTask > 0 && after == out - multiset{j} + Added(LateRequests(inputs, key))
    ensures forall k: Job :: !k.Featurise? ==> after[k] == (out - multiset{j})[k]
  {
    forall k: Job | !k.Featurise? ensures after[k] == (out - multiset{j})[k] {
      ChunksAreFeatures(inputs, Wanted, key.profile, Fresh, key.split, inputs.KeyPlan(key).late, k);
    }
  }

  /** What holds once a key is planned, before it may be assembled. */
  lemma PlannedKeeps(inputs: Inputs, fit: Fit, out: multiset<Job>, j: Job, came: Fit, key: Key, planned: Fit,
                     after: multiset<Job>, ready: set<Key>)
    requires Proper(inputs) && Values(inputs, fit) && !j.Featurise? && Came(inputs, fit, came, key)
    requires Featurised(inputs, fit, out) && Kept(inputs, fit) && Planning(inputs, fit, {})
    requires Chained(inputs, came) && Tasks(inputs, came, out - multiset{j})
    requires PlannedFrom(inputs, came, key, planned)
    requires after == out - multiset{j} + Added(LateRequests(inputs, key))
    requires ready == if planned.missing[key] == {} then {key} else {}
    ensures Values(inputs, planned) && Chained(inputs, planned) && Tasks(inputs, planned, after)
    ensures Featurised(inputs, planned, after) && Kept(inputs, planned) && Planning(inputs, planned, ready)
  {
    hide Chained, Tasks, Featurised, Kept, Planning, PlannedFrom;
    PlannedCurricula(inputs, out, j, came, key, planned, after);
    PlannedRest(inputs, fit, out, j, came, key, planned, after, ready);
  }

  lemma PlannedCurricula(inputs: Inputs, out: multiset<Job>, j: Job, came: Fit, key: Key, planned: Fit, after: multiset<Job>)
    requires Proper(inputs) && Values(inputs, came) && !j.Featurise? && Chained(inputs, came)
    requires Tasks(inputs, came, out - multiset{j}) && PlannedFrom(inputs, came, key, planned)
    requires after == out - multiset{j} + Added(LateRequests(inputs, key))
    ensures Values(inputs, planned) && Chained(inputs, planned) && Tasks(inputs, planned, after)
  {
    PlanAdds(inputs, out, j, key, after);
    PlanCurricula(inputs, came, key, planned, out - multiset{j}, after);
  }

  lemma PlannedRest(inputs: Inputs, fit: Fit, out: multiset<Job>, j: Job, came: Fit, key: Key, planned: Fit,
                    after: multiset<Job>, ready: set<Key>)
    requires Proper(inputs) && !j.Featurise? && Came(inputs, fit, came, key)
    requires Featurised(inputs, fit, out) && Kept(inputs, fit) && Planning(inputs, fit, {})
    requires PlannedFrom(inputs, came, key, planned) && after == out - multiset{j} + Added(LateRequests(inputs, key))
    requires ready == if planned.missing[key] == {} then {key} else {}
    ensures Featurised(inputs, planned, after) && Kept(inputs, planned) && Planning(inputs, planned, ready)
  {
    PlanPlans(inputs, fit, came, key, planned, ready);
    PlanFeatures(inputs, fit, out, j, came, key, planned, after);
  }

  /** `frames_ready` after a key's chain or spans came. */
  lemma FramesKeep(inputs: Inputs, fit: Fit, out: multiset<Job>, j: Job, came: Fit, key: Key, next: Fit, after: multiset<Job>)
    requires Proper(inputs) && Invariant(inputs, fit, out) && !j.Featurise? && Came(inputs, fit, came, key)
    requires Chained(inputs, came) && Tasks(inputs, came, out - multiset{j})
    requires key.profile in came.arrived && key.profile in came.stores
    requires next == FramesReady(inputs, came, key).0
    requires after == out - multiset{j} + Added(FramesReady(inputs, came, key).1)
    ensures if next.rejected then StoppedRightly(inputs) else Invariant(inputs, next, after)
  {
    if !IsFramed(came, key) {
      NothingAdded();
      assert after == out - multiset{j};
      StillWaiting(inputs, fit, key, came);
      StillFeaturised(inputs, fit, out, j, key, came);
    } else {
      FramedKeeps(inputs, fit, out, j, came, key, next, after);
    }
  }

  lemma FramedKeeps(inputs: Inputs, fit: Fit, out: multiset<Job>, j: Job, came: Fit, key: Key, next: Fit, after: multiset<Job>)
    requires Proper(inputs) && Invariant(inputs, fit, out) && !j.Featurise? && Came(inputs, fit, came, key)
    requires Chained(inputs, came) && Tasks(inputs, came, out - multiset{j}) && IsFramed(came, key)
    requires key.profile in came.arrived && key.profile in came.stores
    requires next == FramesReady(inputs, came, key).0
    requires after == out - multiset{j} + Added(FramesReady(inputs, came, key).1)
    ensures if next.rejected then StoppedRightly(inputs) else Invariant(inputs, next, after)
  {
    hide Values, Chained, Tasks, Featurised, Kept, Planning, Assemble, PlanKey;
    var planned := PlanKey(inputs, came, key).0;
    FramedPlan(inputs, fit, came, key, planned);
    PlannedKeeps(inputs, fit, out, j, came, key, planned, after, if planned.missing[key] == {} then {key} else {});
    FramedThen(inputs, planned, key, next, after);
  }

  lemma FramedThen(inputs: Inputs, planned: Fit, key: Key, next: Fit, after: multiset<Job>)
    requires inputs.perTask > 0 && Values(inputs, planned) && Chained(inputs, planned) && Tasks(inputs, planned, after)
    requires Featurised(inputs, planned, after) && Kept(inputs, planned) && key in planned.missing && !planned.rejected
    requires Planning(inputs, planned, if planned.missing[key] == {} then {key} else {}) && Planned(planned, {key})
    requires next == if planned.missing[key] == {} then Assemble(inputs, planned, {key}) else planned
    ensures if next.rejected then StoppedRightly(inputs) else Invariant(inputs, next, after)
  {
    if planned.missing[key] == {} {
      AssembledAtOnce(inputs, planned, key, next, after);
    }
  }

  lemma FramedPlan(inputs: Inputs, fit: Fit, came: Fit, key: Key, planned: Fit)
    requires inputs.perTask > 0 && Values(inputs, fit) && Chained(inputs, came) && Came(inputs, fit, came, key)
    requires IsFramed(came, key) && key.profile in came.arrived && planned == PlanKey(inputs, came, key).0
    ensures PlannedFrom(inputs, came, key, planned) && PlanKey(inputs, came, key).1 == LateRequests(inputs, key)
  {
    assert Linked(inputs, came, key);
    PlanIs(inputs, fit, came, key);
  }

  lemma AssembledAtOnce(inputs: Inputs, planned: Fit, key: Key, next: Fit, after: multiset<Job>)
    requires inputs.perTask > 0 && Values(inputs, planned) && Chained(inputs, planned) && Tasks(inputs, planned, after)
    requires Featurised(inputs, planned, after) && Kept(inputs, planned) && Planning(inputs, planned, {key})
    requires !planned.rejected && Planned(planned, {key}) && next == Assemble(inputs, planned, {key})
    ensures if next.rejected then StoppedRightly(inputs) else Invariant(inputs, next, after)
  {
    AssembleKeeps(inputs, planned, {key}, next);
    SameTasks(inputs, planned, next, after, after);
    SameFeatures(inputs, planned, next, after, after);
  }
}
