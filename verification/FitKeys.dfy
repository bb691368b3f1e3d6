/** A key from its chain and spans, through its plan, to its columns: each step keeps the invariant of a fit. */
module FitKeys {
  import opened FitPlan
  import opened FitState
  import opened FitInvariant

  // ---- assembling

  ghost predicate Ready(inputs: Inputs, fit: Fit, k: Key)
    requires inputs.perTask > 0
  {
    k in fit.plans && k in fit.entries && k.profile in fit.stores && k.profile in fit.arrived && k !in fit.columns
    && inputs.IsKey(k) && fit.plans[k] == inputs.KeyPlan(k).slots && fit.entries[k] == inputs.FinalFrames(k)
    && inputs.Needed(k) <= fit.arrived[k.profile]
  }

  /** A row read out of the store is the one the serial fit computes. */
  lemma StoredIsFinal(inputs: Inputs, fit: Fit, k: Key, i: nat)
    requires inputs.perTask > 0 && fit.arrived.Keys == fit.stores.Keys && Kept(inputs, fit) && Ready(inputs, fit, k)
    requires i < |fit.plans[k]|
    ensures StoredRow(inputs, fit.stores[k.profile], k, fit.plans[k][i])
         == inputs.FrameFeatures(k.profile, k.split, inputs.FinalFrames(k)[i])
  {
    var slot := fit.plans[k][i];
    assert slot in inputs.KeyPlan(k).slots;
    assert inputs.SlotChunk(k, slot) in inputs.Needed(k);
    assert !ProfileDone(inputs, fit.columns, k.profile);
    assert KeptChunk(inputs, fit, k.profile, inputs.SlotChunk(k, slot));
    inputs.SlotReads(k, i);
    inputs.SlotSplitIsOwn(k, i);
  }

  lemma AssembledIsFinal(inputs: Inputs, fit: Fit, k: Key)
    requires inputs.perTask > 0 && fit.arrived.Keys == fit.stores.Keys && Kept(inputs, fit) && Ready(inputs, fit, k)
    ensures Assembled(inputs, fit, k) == inputs.FinalColumns(k)
  {
    var a, b := Assembled(inputs, fit, k), inputs.FinalColumns(k);
    forall i | 0 <= i < |a| ensures a[i] == b[i] {
      StoredIsFinal(inputs, fit, k, i);
    }
  }

  lemma ReadyKeys(inputs: Inputs, fit: Fit, ready: set<Key>)
    requires inputs.perTask > 0 && fit.arrived.Keys == fit.stores.Keys && Chained(inputs, fit)
    requires Planning(inputs, fit, ready)
    ensures forall k :: k in ready ==> Ready(inputs, fit, k)
    ensures Planned(fit, ready)
  {
    forall k | k in ready ensures Ready(inputs, fit, k) {
      ReadyKey(inputs, fit, ready, k);
    }
  }

  lemma ReadyKey(inputs: Inputs, fit: Fit, ready: set<Key>, k: Key)
    requires inputs.perTask > 0 && fit.arrived.Keys == fit.stores.Keys && Linked(inputs, fit, k)
    requires KeyHolds(inputs, fit, ready, k) && k in ready
    ensures Ready(inputs, fit, k)
  {
    forall c | c in inputs.Needed(k) ensures c in fit.arrived[k.profile] {
      assert c !in fit.missing[k];
    }
  }

  /** The keys whose features are all in are assembled as the serial fit has them. */
  lemma AssembleColumns(inputs: Inputs, fit: Fit, ready: set<Key>, next: Fit)
    requires inputs.perTask > 0 && fit.arrived.Keys == fit.stores.Keys && Kept(inputs, fit)
    requires Planned(fit, ready) && forall k :: k in ready ==> Ready(inputs, fit, k)
    requires next == Assemble(inputs, fit, ready)
    ensures next.columns.Keys == fit.columns.Keys + ready
    ensures forall k :: k in next.columns ==>
      next.columns[k] == if k in ready then inputs.FinalColumns(k) else fit.columns[k]
    ensures next.rejected && !fit.rejected ==> StoppedRightly(inputs)
    ensures !next.rejected ==> forall k :: k in ready ==> inputs.Accepts(k.split, inputs.FinalFrames(k))
  {
    hide StoresWith, Rejects;
    AssembleRejects(inputs, fit, ready);
    forall k | k in ready ensures Assembled(inputs, fit, k) == inputs.FinalColumns(k) {
      AssembledIsFinal(inputs, fit, k);
    }
    hide Kept, Ready, Assembled;
  }

  lemma AssembleRejects(inputs: Inputs, fit: Fit, ready: set<Key>)
    requires inputs.perTask > 0 && Planned(fit, ready) && forall k :: k in ready ==> Ready(inputs, fit, k)
    ensures Rejects(inputs, fit, ready) ==> StoppedRightly(inputs)
    ensures !Rejects(inputs, fit, ready) ==> forall k :: k in ready ==> inputs.Accepts(k.split, inputs.FinalFrames(k))
  {}

  lemma AssembleStores(inputs: Inputs, fit: Fit, ready: set<Key>, next: Fit)
    requires inputs.perTask > 0 && fit.arrived.Keys == fit.stores.Keys && Kept(inputs, fit) && Planned(fit, ready)
    requires next == Assemble(inputs, fit, ready)
    ensures next.stores.Keys == fit.stores.Keys && next.arrived == fit.arrived && Kept(inputs, next)
  {
    forall p, c ensures KeptChunk(inputs, next, p, c) {
      AssembleChunk(inputs, fit, ready, next, p, c);
    }
  }

  lemma AssembleChunk(inputs: Inputs, fit: Fit, ready: set<Key>, next: Fit, p: string, c: Chunk)
    requires inputs.perTask > 0 && fit.arrived.Keys == fit.stores.Keys && KeptChunk(inputs, fit, p, c) && Planned(fit, ready)
    requires next == Assemble(inputs, fit, ready) && next.stores.Keys == fit.stores.Keys
    ensures KeptChunk(inputs, next, p, c)
  {
    assert ProfileDone(inputs, fit.columns, p) ==> ProfileDone(inputs, next.columns, p);
  }

  lemma AssembleKey(inputs: Inputs, fit: Fit, ready: set<Key>, next: Fit, k: Key)
    requires inputs.perTask > 0 && KeyHolds(inputs, fit, ready, k) && Planned(fit, ready)
    requires next == Assemble(inputs, fit, ready)
    requires k in next.columns ==> next.columns[k] == if k in ready then inputs.FinalColumns(k) else fit.columns[k]
    requires k in ready ==> inputs.Accepts(k.split, inputs.FinalFrames(k))
    ensures KeyHolds(inputs, next, {}, k)
  {}

  lemma AssembleKeeps(inputs: Inputs, fit: Fit, ready: set<Key>, next: Fit)
    requires inputs.perTask > 0 && fit.arrived.Keys == fit.stores.Keys && Kept(inputs, fit) && Chained(inputs, fit)
    requires Planning(inputs, fit, ready) && !fit.rejected && Planned(fit, ready)
    requires next == Assemble(inputs, fit, ready)
    ensures next.stores.Keys == fit.stores.Keys && Kept(inputs, next)
    ensures if next.rejected then StoppedRightly(inputs) else Planning(inputs, next, {})
  {
    ReadyKeys(inputs, fit, ready);
    AssembleColumns(inputs, fit, ready, next);
    AssembleStores(inputs, fit, ready, next);
    if !next.rejected {
      forall k ensures KeyHolds(inputs, next, {}, k) {
        AssembleKey(inputs, fit, ready, next, k);
      }
    }
  }

  /** Nothing but the features and plans. */
  ghost predicate SameCurricula(a: Fit, b: Fit) {
    a.historical == b.historical && a.captured == b.captured && a.capitals == b.capitals && a.english == b.english
    && a.tail == b.tail && a.extra == b.extra && a.chains == b.chains && a.spans == b.spans
  }

  lemma SameTasks(inputs: Inputs, fit: Fit, next: Fit, out: multiset<Job>, after: multiset<Job>)
    requires SameCurricula(fit, next) && Values(inputs, fit) && Chained(inputs, fit) && Tasks(inputs, fit, out)
    requires forall j: Job :: !j.Featurise? ==> after[j] == out[j]
    ensures Values(inputs, next) && Chained(inputs, next) && Tasks(inputs, next, after)
  {
    forall j: Job | !j.Featurise? ensures after[j] == Expected(inputs, next, j) {
      assert out[j] == Expected(inputs, fit, j);
    }
    forall k ensures Linked(inputs, next, k) {
      assert Linked(inputs, fit, k);
    }
  }

  lemma SameFeatures(inputs: Inputs, fit: Fit, next: Fit, out: multiset<Job>, after: multiset<Job>)
    requires inputs.perTask > 0 && SameCurricula(fit, next) && Featurised(inputs, fit, out) && after <= out
    requires next.arrived.Keys == next.stores.Keys == fit.arrived.Keys
    requires forall p, c :: p in fit.arrived && (c in fit.arrived[p] || TaskOf(inputs, p, c) in out) ==>
      c in next.arrived[p] || TaskOf(inputs, p, c) in after
    ensures Featurised(inputs, next, after)
  {
    forall p, c | IsReleased(inputs, next, p, c) ensures c in next.arrived[p] || TaskOf(inputs, p, c) in after {
      assert IsReleased(inputs, fit, p, c);
    }
    forall k: Job ensures HoldsFrames(inputs, after, k) {
      assert HoldsFrames(inputs, out, k);
    }
  }

  // ---- a chunk comes in

  lemma ChunkStored(inputs: Inputs, fit: Fit, profile: string, chunk: Chunk, came: Fit)
    requires inputs.perTask > 0 && fit.arrived.Keys == fit.stores.Keys && profile in fit.arrived
    requires Kept(inputs, fit) && Planning(inputs, fit, {})
    requires came == Stored(fit, profile, chunk, inputs.ChunkRows(profile, chunk))
    ensures came.arrived.Keys == came.stores.Keys == fit.arrived.Keys && Kept(inputs, came)
    ensures Planning(inputs, came, Completed(fit, profile, chunk))
  {
    forall k ensures KeyHolds(inputs, came, Completed(fit, profile, chunk), k) {
      assert KeyHolds(inputs, fit, {}, k);
    }
    forall p, c ensures KeptChunk(inputs, came, p, c) {
      assert KeptChunk(inputs, fit, p, c);
    }
  }

  lemma ChunkAssembles(inputs: Inputs, fit: Fit, profile: string, chunk: Chunk, came: Fit, next: Fit)
    requires inputs.perTask > 0 && fit.arrived.Keys == fit.stores.Keys && profile in fit.arrived && !fit.rejected
    requires Kept(inputs, fit) && Planning(inputs, fit, {}) && Chained(inputs, came)
    requires came == Stored(fit, profile, chunk, inputs.ChunkRows(profile, chunk))
    requires Planned(came, Completed(fit, profile, chunk)) && next == Assemble(inputs, came, Completed(fit, profile, chunk))
    ensures next.stores.Keys == fit.stores.Keys && next.arrived == came.arrived && Kept(inputs, next)
    ensures if next.rejected then StoppedRightly(inputs) else Planning(inputs, next, {})
  {
    ChunkStored(inputs, fit, profile, chunk, came);
    AssembleKeeps(inputs, came, Completed(fit, profile, chunk), next);
  }

  lemma ChunkOutstanding(inputs: Inputs, fit: Fit, out: multiset<Job>, j: Job, next: Fit, after: multiset<Job>)
    requires inputs.perTask > 0 && SameCurricula(fit, next) && Featurised(inputs, fit, out) && j in out && j.Featurise?
    requires after == out - multiset{j} && next.arrived.Keys == next.stores.Keys == fit.arrived.Keys
    requires j.profile in fit.arrived && next.arrived == fit.arrived[j.profile := fit.arrived[j.profile] + {j.chunk}]
    ensures Featurised(inputs, next, after)
  {
    forall p, c | p in fit.arrived && (c in fit.arrived[p] || TaskOf(inputs, p, c) in out)
      ensures c in next.arrived[p] || TaskOf(inputs, p, c) in after
    {}
    SameFeatures(inputs, fit, next, out, after);
  }

  /** `chunk_done`: assembled keys are the serial ones, or one the serial fit rejects stops the fit. */
  lemma ChunkKeeps(inputs: Inputs, fit: Fit, out: multiset<Job>, j: Job, next: Fit, after: multiset<Job>)
    requires Proper(inputs) && Invariant(inputs, fit, out) && j.Featurise? && j in out && CanFinish(fit, j)
    requires next == ChunkDone(inputs, fit, j.profile, j.chunk, inputs.FeaturesOf(j.profile, j.chunk.split, j.frames))
    requires after == out - multiset{j}
    ensures if next.rejected then StoppedRightly(inputs) else Invariant(inputs, next, after)
  {
    assert HoldsFrames(inputs, out, j);
    var came := Stored(fit, j.profile, j.chunk, inputs.ChunkRows(j.profile, j.chunk));
    assert Values(inputs, next) && Chained(inputs, next) && Tasks(inputs, next, after) && Chained(inputs, came) by {
      SameTasks(inputs, fit, came, out, after);
      SameTasks(inputs, fit, next, out, after);
    }
    ChunkAssembles(inputs, fit, j.profile, j.chunk, came, next);
    ChunkOutstanding(inputs, fit, out, j, next, after);
  }
}
