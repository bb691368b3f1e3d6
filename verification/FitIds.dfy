/**
 A fit's features by id: the vocabulary, each profile's store and the columns assembled so far, as every callback
 leaves them. Read back through the vocabulary they are what the fit sees by name, in every run and every order of
 arrival; so the order chunks come in changes the ids, and nothing else.
 */
module FitIds {
  import opened FitPlan
  import opened FitState
  import opened FitInvariant
  import opened FitKeys
  import opened FitFrames
  import opened FitRuns
  import opened FitOutcome
  import opened FeatureStore

  datatype Ids = Ids(names: seq<string>, stores: map<string, IdStore>, columns: map<Key, IdColumns>)

  function FirstIds(inputs: Inputs): Ids { Ids([], map p | p in inputs.profiles :: EMPTY_STORE, map[]) }

  // ---- what the ids stand for

  ghost predicate StoresRead(names: seq<string>, stores: map<string, IdStore>, named: map<string, map<Chunk, seq<Features>>>) {
    stores.Keys == named.Keys && forall p :: p in stores ==> stores[p].Stores(names, named[p])
  }

  ghost predicate ReadsAs(names: seq<string>, c: IdColumns, named: seq<Column>) { Shaped(names, c) && ReadColumns(names, c) == named }

  ghost predicate ColumnsReadBack(names: seq<string>, columns: map<Key, IdColumns>, named: map<Key, seq<Column>>) {
    columns.Keys == named.Keys && forall k :: k in columns ==> ReadsAs(names, columns[k], named[k])
  }

  /** Every profile's store and every assembled key, read back through the one vocabulary, is what the fit sees by name. */
  ghost predicate Reads(ids: Ids, fit: Fit) {
    StoresRead(ids.names, ids.stores, fit.stores) && ColumnsReadBack(ids.names, ids.columns, fit.columns)
  }

  lemma FirstReads(inputs: Inputs)
    ensures Reads(FirstIds(inputs), FirstFit(inputs))
  {
    forall p | p in inputs.profiles ensures EMPTY_STORE.Stores([], map[]) {
      EmptyStores([]);
    }
  }

  lemma EmptyStores(names: seq<string>)
    ensures EMPTY_STORE.Stores(names, map[])
  {}

  /** Columns and stores under a vocabulary still read the same once it has grown. */
  lemma ReadsMore(ids: Ids, fit: Fit, names: seq<string>)
    requires Reads(ids, fit) && ids.names <= names
    ensures Reads(ids.(names := names), fit)
  {
    forall p | p in ids.stores ensures ids.stores[p].Stores(names, fit.stores[p]) {
      ids.stores[p].GrowsWith(ids.names, names, fit.stores[p]);
    }
    forall k | k in ids.columns ensures ReadsAs(names, ids.columns[k], fit.columns[k]) {
      ColumnsGrow(ids.names, names, ids.columns[k]);
    }
  }

  // ---- a chunk joins its profile's store

  ghost predicate AddsChunk(before: Ids, after: Ids, profile: string, chunk: FeatureChunk, mapping: seq<nat>) {
    && WellFormed(chunk) && profile in before.stores && before.names <= after.names && GivesIds(after.names, chunk.names, mapping)
    && after.stores == before.stores[profile := before.stores[profile].With(chunk, mapping)] && after.columns == before.columns
  }

  lemma AddedReads(before: Ids, after: Ids, fit: Fit, profile: string, chunk: FeatureChunk, mapping: seq<nat>)
    requires Reads(before, fit) && AddsChunk(before, after, profile, chunk, mapping) && profile in fit.arrived
    ensures profile in fit.stores && Reads(after, Stored(fit, profile, chunk.at, ChunkNamed(chunk)))
  {
    ReadsMore(before, fit, after.names);
    before.stores[profile].StoresMore(after.names, fit.stores[profile], chunk, mapping);
  }

  // ---- keys are assembled

  /** The columns of the ready keys made out of the stores; a profile whose last split that was drops its store. */
  ghost predicate AssemblesIds(inputs: Inputs, fit: Fit, ready: set<Key>, before: Ids, after: Ids)
    requires inputs.perTask > 0 && Planned(fit, ready)
  {
    && after.names == before.names && fit.stores.Keys == before.stores.Keys
    && after.columns.Keys == before.columns.Keys + ready
    && (forall k :: k in before.columns && k !in ready ==> after.columns[k] == before.columns[k])
    && (forall k :: k in ready ==> MakesColumns(inputs, fit, before, k, after.columns[k]))
    && after.stores == StoresAfter(inputs, before.stores, ready, after.columns.Keys)
  }

  ghost predicate MakesColumns(inputs: Inputs, fit: Fit, ids: Ids, k: Key, c: IdColumns)
    requires inputs.perTask > 0 && Planned(fit, {k}) && k.profile in ids.stores
  {
    IsColumns(inputs, ids.names, ids.stores[k.profile], k, fit.plans[k], fit.entries[k], c)
  }

  ghost function StoresAfter(inputs: Inputs, stores: map<string, IdStore>, ready: set<Key>, assembled: set<Key>): map<string, IdStore> {
    map p | p in stores ::
      if (exists k :: k in ready && k.profile == p) && AllSplits(inputs, assembled, p) then EMPTY_STORE else stores[p]
  }

  predicate AllSplits(inputs: Inputs, assembled: set<Key>, profile: string) {
    forall s :: s in inputs.splits ==> Key(profile, s) in assembled
  }

  /** The store has the row of every slot of a key that is ready. */
  ghost predicate Serves(inputs: Inputs, fit: Fit, ready: set<Key>)
    requires inputs.perTask > 0 && Planned(fit, ready)
  {
    forall k :: k in ready ==> HasRows(inputs, fit.stores[k.profile], k, fit.plans[k])
  }

  lemma MadeReads(inputs: Inputs, fit: Fit, ids: Ids, k: Key, c: IdColumns)
    requires inputs.perTask > 0 && Planned(fit, {k}) && StoresRead(ids.names, ids.stores, fit.stores)
    requires HasRows(inputs, fit.stores[k.profile], k, fit.plans[k]) && MakesColumns(inputs, fit, ids, k, c)
    ensures ReadsAs(ids.names, c, Assembled(inputs, fit, k))
  {
    ColumnsRead(inputs, ids.names, ids.stores[k.profile], fit.stores[k.profile], k, fit.plans[k], fit.entries[k], c);
    assert Assembled(inputs, fit, k) == NamedColumns(inputs, fit.stores[k.profile], k, fit.plans[k], fit.entries[k]);
  }

  lemma AssembledColumnRead(inputs: Inputs, fit: Fit, ready: set<Key>, before: Ids, after: Ids, k: Key)
    requires inputs.perTask > 0 && Planned(fit, ready) && Serves(inputs, fit, ready) && Reads(before, fit)
    requires AssemblesIds(inputs, fit, ready, before, after) && k in after.columns
    ensures k in ColumnsWith(inputs, fit, ready) && ReadsAs(after.names, after.columns[k], ColumnsWith(inputs, fit, ready)[k])
  {
    hide ReadsAs, MakesColumns, StoresAfter, HasRows, Assembled;
    assert k in before.columns.Keys + ready;
    if k in ready {
      MadeReads(inputs, fit, before, k, after.columns[k]);
    } else {
      assert ReadsAs(before.names, before.columns[k], fit.columns[k]);
    }
  }

  lemma AssembledColumnsRead(inputs: Inputs, fit: Fit, ready: set<Key>, before: Ids, after: Ids)
    requires inputs.perTask > 0 && Planned(fit, ready) && Serves(inputs, fit, ready) && Reads(before, fit)
    requires AssemblesIds(inputs, fit, ready, before, after)
    ensures ColumnsReadBack(after.names, after.columns, ColumnsWith(inputs, fit, ready))
  {
    hide ReadsAs, MakesColumns, StoresAfter, HasRows, Assembled, StoresRead;
    ColumnsWithKeys(inputs, fit, ready);
    forall k | k in after.columns ensures ReadsAs(after.names, after.columns[k], ColumnsWith(inputs, fit, ready)[k]) {
      AssembledColumnRead(inputs, fit, ready, before, after, k);
    }
  }

  lemma AssembledStoresRead(inputs: Inputs, names: seq<string>, stores: map<string, IdStore>, fit: Fit, ready: set<Key>,
                            columns: map<Key, seq<Column>>)
    requires StoresRead(names, stores, fit.stores)
    ensures StoresRead(names, StoresAfter(inputs, stores, ready, columns.Keys), StoresWith(inputs, fit, ready, columns))
  {
    forall p | p in stores
      ensures StoresAfter(inputs, stores, ready, columns.Keys)[p].Stores(names, StoresWith(inputs, fit, ready, columns)[p])
    {
      EmptyStores(names);
      assert AllSplits(inputs, columns.Keys, p) == ProfileDone(inputs, columns, p);
    }
  }

  lemma AssembledReads(inputs: Inputs, fit: Fit, ready: set<Key>, before: Ids, after: Ids)
    requires inputs.perTask > 0 && Planned(fit, ready) && Serves(inputs, fit, ready) && Reads(before, fit)
    requires AssemblesIds(inputs, fit, ready, before, after)
    ensures Reads(after, Assemble(inputs, fit, ready))
  {
    hide StoresRead, ColumnsReadBack, MakesColumns, Serves, StoresAfter, StoresWith, ColumnsWith;
    var columns := ColumnsWith(inputs, fit, ready);
    AssembledColumnsRead(inputs, fit, ready, before, after);
    SameKeys(before.names, before.columns, fit.columns);
    ColumnsWithKeys(inputs, fit, ready);
    AssembledStoresRead(inputs, before.names, before.stores, fit, ready, columns);
  }

  lemma SameKeys(names: seq<string>, columns: map<Key, IdColumns>, named: map<Key, seq<Column>>)
    requires ColumnsReadBack(names, columns, named)
    ensures columns.Keys == named.Keys
  {}

  lemma ColumnsWithKeys(inputs: Inputs, fit: Fit, ready: set<Key>)
    requires inputs.perTask > 0 && Planned(fit, ready)
    ensures ColumnsWith(inputs, fit, ready).Keys == fit.columns.Keys + ready
  {}

  // ---- callbacks

  ghost predicate FramesIds(inputs: Inputs, fit: Fit, key: Key, before: Ids, after: Ids)
    requires inputs.perTask > 0 && key.profile in fit.arrived && key.profile in fit.stores
  {
    if IsFramed(fit, key) && PlanKey(inputs, fit, key).0.missing[key] == {}
    then AssemblesIds(inputs, PlanKey(inputs, fit, key).0, {key}, before, after)
    else after == before
  }

  /** A feature task's result, under whatever ids its own names have in it. */
  ghost predicate IsResult(inputs: Inputs, profile: string, chunk: Chunk, frames: seq<Frame>, c: FeatureChunk) {
    WellFormed(c) && c.at == chunk && ChunkNamed(c) == inputs.FeaturesOf(profile, chunk.split, frames)
  }

  ghost predicate ChunkIds(inputs: Inputs, fit: Fit, profile: string, chunk: Chunk, frames: seq<Frame>, before: Ids, after: Ids)
    requires inputs.perTask > 0 && profile in fit.arrived && profile in fit.stores && Planned(fit, Completed(fit, profile, chunk))
  {
    exists c: FeatureChunk, mapping: seq<nat>, between: Ids ::
      IsResult(inputs, profile, chunk, frames, c) && AddsChunk(before, between, profile, c, mapping)
      && AssemblesIds(inputs, StoredOf(inputs, fit, profile, chunk, frames), Completed(fit, profile, chunk), between, after)
  }

  ghost function StoredOf(inputs: Inputs, fit: Fit, profile: string, chunk: Chunk, frames: seq<Frame>): Fit
    requires profile in fit.arrived && profile in fit.stores
  {
    Stored(fit, profile, chunk, inputs.FeaturesOf(profile, chunk.split, frames))
  }

  /** What a finished task's callback does to the ids. */
  ghost predicate FinishIds(inputs: Inputs, fit: Fit, job: Job, before: Ids, after: Ids)
    requires inputs.perTask > 0 && CanFinish(fit, job)
  {
    match job
    case Chain(key, extra, tail) =>
      FramesIds(inputs, fit.(chains := fit.chains[key := inputs.chain(key, extra, tail)]), key, before, after)
    case Spans(key) => FramesIds(inputs, fit.(spans := fit.spans[key := inputs.spans(key)]), key, before, after)
    case Featurise(profile, chunk, frames) => ChunkIds(inputs, fit, profile, chunk, frames, before, after)
    case _ => after == before
  }

  // ---- every ready key finds its rows

  ghost predicate ServesFrames(inputs: Inputs, fit: Fit, key: Key)
    requires inputs.perTask > 0 && key.profile in fit.arrived && key.profile in fit.stores
  {
    IsFramed(fit, key) && PlanKey(inputs, fit, key).0.missing[key] == {} ==> Serves(inputs, PlanKey(inputs, fit, key).0, {key})
  }

  /** What a callback needs of the stores, as the invariant of a fit provides it. */
  ghost predicate CanServe(inputs: Inputs, fit: Fit, job: Job)
    requires inputs.perTask > 0 && CanFinish(fit, job)
  {
    match job
    case Chain(key, extra, tail) => ServesFrames(inputs, fit.(chains := fit.chains[key := inputs.chain(key, extra, tail)]), key)
    case Spans(key) => ServesFrames(inputs, fit.(spans := fit.spans[key := inputs.spans(key)]), key)
    case Featurise(profile, chunk, frames) =>
      Serves(inputs, StoredOf(inputs, fit, profile, chunk, frames), Completed(fit, profile, chunk))
    case _ => true
  }

  lemma ReadyHasRows(inputs: Inputs, fit: Fit, k: Key)
    requires inputs.perTask > 0 && fit.arrived.Keys == fit.stores.Keys && Kept(inputs, fit) && Ready(inputs, fit, k)
    ensures HasRows(inputs, fit.stores[k.profile], k, fit.plans[k])
  {
    forall i | 0 <= i < |fit.plans[k]| ensures HasRow(inputs, fit.stores[k.profile], k, fit.plans[k][i]) {
      var slot := fit.plans[k][i];
      assert slot in inputs.KeyPlan(k).slots;
      assert inputs.SlotChunk(k, slot) in inputs.Needed(k);
      assert !ProfileDone(inputs, fit.columns, k.profile);
      assert KeptChunk(inputs, fit, k.profile, inputs.SlotChunk(k, slot));
      inputs.SlotReads(k, i);
    }
  }

  lemma ReadyServes(inputs: Inputs, fit: Fit, ready: set<Key>)
    requires inputs.perTask > 0 && fit.arrived.Keys == fit.stores.Keys && Kept(inputs, fit) && Chained(inputs, fit)
    requires Planning(inputs, fit, ready)
    ensures Planned(fit, ready) && Serves(inputs, fit, ready)
  {
    ReadyKeys(inputs, fit, ready);
    forall k | k in ready ensures HasRows(inputs, fit.stores[k.profile], k, fit.plans[k]) {
      ReadyHasRows(inputs, fit, k);
    }
  }

  lemma FramesServed(inputs: Inputs, fit: Fit, out: multiset<Job>, j: Job, came: Fit, key: Key)
    requires Proper(inputs) && Invariant(inputs, fit, out) && !j.Featurise? && Came(inputs, fit, came, key)
    requires Chained(inputs, came) && Tasks(inputs, came, out - multiset{j})
    requires key.profile in came.arrived && key.profile in came.stores
    ensures ServesFrames(inputs, came, key)
  {
    if IsFramed(came, key) && PlanKey(inputs, came, key).0.missing[key] == {} {
      var planned := PlanKey(inputs, came, key).0;
      FramedPlan(inputs, fit, came, key, planned);
      PlannedKeeps(inputs, fit, out, j, came, key, planned, out - multiset{j} + Added(LateRequests(inputs, key)), {key});
      ReadyServes(inputs, planned, {key});
    }
  }

  lemma ChunkServed(inputs: Inputs, fit: Fit, out: multiset<Job>, j: Job)
    requires Proper(inputs) && Invariant(inputs, fit, out) && j.Featurise? && j in out && CanFinish(fit, j)
    ensures Serves(inputs, StoredOf(inputs, fit, j.profile, j.chunk, j.frames), Completed(fit, j.profile, j.chunk))
  {
    assert HoldsFrames(inputs, out, j);
    var came := Stored(fit, j.profile, j.chunk, inputs.ChunkRows(j.profile, j.chunk));
    SameTasks(inputs, fit, came, out, out);
    ChunkStored(inputs, fit, j.profile, j.chunk, came);
    ReadyServes(inputs, came, Completed(fit, j.profile, j.chunk));
  }

  lemma CanAlwaysServe(inputs: Inputs, fit: Fit, out: multiset<Job>, j: Job)
    requires Proper(inputs) && Invariant(inputs, fit, out) && j in out && CanFinish(fit, j)
    ensures CanServe(inputs, fit, j)
  {
    match j
    case Chain(key, extra, tail) =>
      var came := fit.(chains := fit.chains[key := inputs.chain(key, extra, tail)]);
      ChainCame(inputs, fit, out, j, came);
      FramesServed(inputs, fit, out, j, came, key);
    case Spans(key) =>
      var came := fit.(spans := fit.spans[key := inputs.spans(key)]);
      SpansCame(inputs, fit, out, j, came);
      FramesServed(inputs, fit, out, j, came, key);
    case Featurise(_, _, _) => ChunkServed(inputs, fit, out, j);
    case _ =>
  }

  // ---- every callback keeps the reading

  /** Planning changes nothing that is read back. */
  lemma PlannedReads(inputs: Inputs, fit: Fit, key: Key, ids: Ids)
    requires inputs.perTask > 0 && key.profile in fit.arrived && key.profile in fit.stores && IsFramed(fit, key) && Reads(ids, fit)
    ensures var planned := PlanKey(inputs, fit, key).0; key in planned.missing && Planned(planned, {key}) && Reads(ids, planned)
  {
    hide StoresRead, ColumnsReadBack;
  }

  lemma FramesRead(inputs: Inputs, fit: Fit, key: Key, before: Ids, after: Ids)
    requires inputs.perTask > 0 && key.profile in fit.arrived && key.profile in fit.stores
    requires Reads(before, fit) && ServesFrames(inputs, fit, key) && FramesIds(inputs, fit, key, before, after)
    ensures Reads(after, FramesReady(inputs, fit, key).0)
  {
    hide Reads, HasRows, AssemblesIds, Assemble, PlanKey;
    if IsFramed(fit, key) {
      PlannedReads(inputs, fit, key, before);
    }
    if IsFramed(fit, key) && PlanKey(inputs, fit, key).0.missing[key] == {} {
      AssembledReads(inputs, PlanKey(inputs, fit, key).0, {key}, before, after);
    }
  }

  lemma ChunkReads(inputs: Inputs, fit: Fit, profile: string, chunk: Chunk, frames: seq<Frame>, before: Ids, after: Ids)
    requires inputs.perTask > 0 && profile in fit.arrived && profile in fit.stores && Planned(fit, Completed(fit, profile, chunk))
    requires Serves(inputs, StoredOf(inputs, fit, profile, chunk, frames), Completed(fit, profile, chunk))
    requires Reads(before, fit) && ChunkIds(inputs, fit, profile, chunk, frames, before, after)
    ensures Reads(after, ChunkDone(inputs, fit, profile, chunk, inputs.FeaturesOf(profile, chunk.split, frames)))
  {
    var c: FeatureChunk, mapping: seq<nat>, between: Ids :|
      IsResult(inputs, profile, chunk, frames, c) && AddsChunk(before, between, profile, c, mapping)
      && AssemblesIds(inputs, StoredOf(inputs, fit, profile, chunk, frames), Completed(fit, profile, chunk), between, after);
    AddedReads(before, between, fit, profile, c, mapping);
    AssembledReads(inputs, StoredOf(inputs, fit, profile, chunk, frames), Completed(fit, profile, chunk), between, after);
  }

  lemma CurriculumStores(inputs: Inputs, fit: Fit, job: Job)
    requires inputs.perTask > 0
    ensures var next := FitState.ExtraReady(inputs, Curriculum(inputs, fit, job)).0;
      next.stores == fit.stores && next.columns == fit.columns
  {}

  lemma FinishReads(inputs: Inputs, fit: Fit, job: Job, before: Ids, after: Ids)
    requires inputs.perTask > 0 && CanFinish(fit, job) && CanServe(inputs, fit, job)
    requires Reads(before, fit) && FinishIds(inputs, fit, job, before, after)
    ensures Reads(after, Finish(inputs, fit, job).0)
  {
    hide StoresRead, ColumnsReadBack, FramesIds, ChunkIds, Serves, ServesFrames, StoredOf, Completed, Planned;
    hide FitState.FramesReady, FitState.ChunkDone, FitState.ExtraReady, Curriculum;
    match job
    case Chain(key, extra, tail) =>
      FramesRead(inputs, fit.(chains := fit.chains[key := inputs.chain(key, extra, tail)]), key, before, after);
    case Spans(key) => FramesRead(inputs, fit.(spans := fit.spans[key := inputs.spans(key)]), key, before, after);
    case Featurise(profile, chunk, frames) => ChunkReads(inputs, fit, profile, chunk, frames, before, after);
    case _ => CurriculumStores(inputs, fit, job);
  }

  // ---- every run

  /** A run with its ids: each callback changes them too. */
  ghost predicate IsIdRun(inputs: Inputs, capacity: nat, states: seq<System>, moves: seq<Move>, ids: seq<Ids>)
    requires inputs.perTask > 0
  {
    IsRun(inputs, capacity, states, moves) && |ids| == |states| && ids[0] == FirstIds(inputs)
    && forall i :: 0 <= i < |moves| ==> MovesIds(inputs, states[i], moves[i], ids[i], ids[i + 1])
  }

  ghost predicate MovesIds(inputs: Inputs, s: System, move: Move, before: Ids, after: Ids)
    requires inputs.perTask > 0
  {
    match move
    case Start(_) => after == before
    case Done(i) =>
      i < |s.running| && CanFinish(s.fit, s.running[i].request.job) && FinishIds(inputs, s.fit, s.running[i].request.job, before, after)
  }

  /** In every state of every run, whatever came in whatever order, the ids read back as what the fit sees by name. */
  lemma {:induction false} EveryStateReads(inputs: Inputs, capacity: nat, states: seq<System>, moves: seq<Move>, ids: seq<Ids>, at: nat)
    requires Proper(inputs) && IsIdRun(inputs, capacity, states, moves, ids) && at < |states|
    ensures Reads(ids[at], states[at].fit)
  {
    if at == 0 {
      FirstReads(inputs);
    } else {
      hide Reads, Holds, Finish, CanServe, FinishIds;
      EveryStateReads(inputs, capacity, states, moves, ids, at - 1);
      EveryStateHolds(inputs, capacity, states, moves, at - 1);
      var s := states[at - 1];
      assert Enabled(capacity, s, moves[at - 1]) && MovesIds(inputs, s, moves[at - 1], ids[at - 1], ids[at]);
      match moves[at - 1]
      case Start(_) =>
      case Done(i) =>
        InWithout(s.running, i);
        CanAlwaysServe(inputs, s.fit, Outstanding(s), s.running[i].request.job);
        FinishReads(inputs, s.fit, s.running[i].request.job, ids[at - 1], ids[at]);
    }
  }

  /** A run that drains has columns for every key, and their ids read back as the features of its final frames, in order. */
  lemma EveryRunReadsBack(inputs: Inputs, capacity: nat, states: seq<System>, moves: seq<Move>, ids: seq<Ids>)
    requires Proper(inputs) && IsIdRun(inputs, capacity, states, moves, ids)
    requires Drained(states[|states| - 1]) && !states[|states| - 1].fit.rejected
    ensures ColumnsReadBack(ids[|ids| - 1].names, ids[|ids| - 1].columns, SerialColumns(inputs))
  {
    EveryRunIsSerial(inputs, capacity, states, moves);
    EveryStateReads(inputs, capacity, states, moves, ids, |states| - 1);
  }

  /** Columns that are the same but for their ids, which name the same features. */
  ghost predicate SameButIds(names: seq<string>, a: IdColumns, others: seq<string>, b: IdColumns) {
    && a.counts == b.counts && a.values == b.values && a.labels == b.labels && a.importance == b.importance && a.weights == b.weights
    && |a.ids| == |b.ids| && forall e :: 0 <= e < |a.ids| ==>
      a.ids[e] < |names| && b.ids[e] < |others| && names[a.ids[e]] == others[b.ids[e]]
  }

  lemma SerialButIds(inputs: Inputs, names: seq<string>, columns: map<Key, IdColumns>, others: seq<string>, other: map<Key, IdColumns>, k: Key)
    requires ColumnsReadBack(names, columns, SerialColumns(inputs)) && ColumnsReadBack(others, other, SerialColumns(inputs))
    requires inputs.IsKey(k)
    ensures k in columns && k in other && SameButIds(names, columns[k], others, other[k])
  {
    assert k in SerialColumns(inputs);
    assert k in columns.Keys && k in other.Keys;
    SameReading(names, columns[k], others, other[k]);
  }

  /**
   Two drained runs of the same inputs, their tasks finishing in any two orders: for every key the columns have the same
   counts, values, labels, importance and weights, and ids that name the same features.
   */
  lemma OrderChangesOnlyIds(inputs: Inputs, k: Key,
                            capacity: nat, states: seq<System>, moves: seq<Move>, ids: seq<Ids>,
                            otherCapacity: nat, otherStates: seq<System>, otherMoves: seq<Move>, otherIds: seq<Ids>)
    requires Proper(inputs) && inputs.IsKey(k)
    requires IsIdRun(inputs, capacity, states, moves, ids) && IsIdRun(inputs, otherCapacity, otherStates, otherMoves, otherIds)
    requires Drained(states[|states| - 1]) && !states[|states| - 1].fit.rejected
    requires Drained(otherStates[|otherStates| - 1]) && !otherStates[|otherStates| - 1].fit.rejected
    ensures var a, b := ids[|ids| - 1], otherIds[|otherIds| - 1];
      k in a.columns && k in b.columns && SameButIds(a.names, a.columns[k], b.names, b.columns[k])
  {
    EveryRunReadsBack(inputs, capacity, states, moves, ids);
    EveryRunReadsBack(inputs, otherCapacity, otherStates, otherMoves, otherIds);
    var a, b := ids[|ids| - 1], otherIds[|otherIds| - 1];
    SerialButIds(inputs, a.names, a.columns, b.names, b.columns, k);
  }
}
