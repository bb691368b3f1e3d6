/** The scheduler and the build as the program writes them, with fields updated in place by each callback. */
module FitBuild {
  import opened Wrappers
  import opened FitPlan
  import opened FitState
  import opened FitInvariant
  import opened FitRequests
  import opened FitSteps
  import opened FitRuns
  import opened FitIds
  import opened FeatureStore

  /** The heap's entries and the number of the next. */
  datatype Queue = Queue(pending: seq<Entry>, counter: nat)

  /** A queue after these requests were added to one of before. */
  ghost predicate Queued(before: Queue, requests: seq<Request>, after: Queue) {
    after == Queue(before.pending + Entries(requests, before.counter), before.counter + |requests|)
  }

  lemma QueuedNone(queue: Queue)
    ensures Queued(queue, [], queue)
  {}

  lemma QueuedMore(first: Queue, a: seq<Request>, second: Queue, b: seq<Request>, third: Queue)
    requires Queued(first, a, second) && Queued(second, b, third)
    ensures Queued(first, a + b, third)
  {
    EntriesSplit(a, b, first.counter);
    hide Entries;
  }

  class Scheduler {
    var pending: seq<Entry>
    var running: seq<Entry>
    var counter: nat

    constructor ()
      ensures pending == [] && running == [] && counter == 0
    {
      pending, running, counter := [], [], 0;
    }

    function Held(): Queue
      reads this
    {
      Queue(pending, counter)
    }

    /** Whether just these requests were added since. */
    twostate predicate Took(requests: seq<Request>)
      reads this
    {
      Queued(old(Held()), requests, Held()) && running == old(running)
    }

    method Add(request: Request)
      modifies this
      ensures Took([request])
    {
      pending := pending + [Entry(request, counter)];
      counter := counter + 1;
    }

    twostate predicate LeastStarted(i: nat)
      requires i < |old(pending)|
      reads this
    {
      Least(old(pending), i) && pending == Without(old(pending), i) && running == old(running) + [old(pending)[i]]
    }

    /** Takes the least entry off the heap and starts it. */
    method StartLeast()
      requires pending != []
      requires forall a, b :: 0 <= a < b < |pending| ==> pending[a].sequence != pending[b].sequence
      modifies this
      ensures exists i: nat :: i < |old(pending)| && LeastStarted(i)
      ensures counter == old(counter)
    {
      var i := 0;
      var k := 1;
      while k < |pending|
        invariant i < k <= |pending|
        invariant Least(pending[..k], i)
      {
        if Before(pending[k], pending[i]) { i := k; }
        k := k + 1;
      }
      assert pending[..k] == pending;
      running := running + [pending[i]];
      pending := Without(pending, i);
      assert LeastStarted(i);
    }
  }

  lemma EntriesSplit(a: seq<Request>, b: seq<Request>, counter: nat)
    ensures Entries(a + b, counter) == Entries(a, counter) + Entries(b, counter + |a|)
  {}

  /** The keys whose spans are taken as they are: none. */
  function FrozenAt(inputs: Inputs, keys: seq<Key>): map<Key, seq<Frame>> {
    map k | k in keys && inputs.frozen && k.split == TRAIN :: []
  }

  lemma FinishesChain(inputs: Inputs, fit: Fit, key: Key, extra: Option<seq<Frame>>, tail: Option<seq<Frame>>)
    requires inputs.perTask > 0 && CanFinish(fit, Chain(key, extra, tail))
    ensures Finish(inputs, fit, Chain(key, extra, tail))
         == FramesReady(inputs, fit.(chains := fit.chains[key := inputs.chain(key, extra, tail)]), key)
  {}

  lemma FinishesSpans(inputs: Inputs, fit: Fit, key: Key)
    requires inputs.perTask > 0 && CanFinish(fit, Job.Spans(key))
    ensures Finish(inputs, fit, Job.Spans(key)) == FramesReady(inputs, fit.(spans := fit.spans[key := inputs.spans(key)]), key)
  {}

  lemma FinishesChunk(inputs: Inputs, fit: Fit, profile: string, chunk: Chunk, frames: seq<Frame>)
    requires inputs.perTask > 0 && CanFinish(fit, Featurise(profile, chunk, frames))
    ensures Finish(inputs, fit, Featurise(profile, chunk, frames))
         == (ChunkDone(inputs, fit, profile, chunk, inputs.FeaturesOf(profile, chunk.split, frames)), [])
  {}

  lemma FinishesCurriculum(inputs: Inputs, fit: Fit, job: Job)
    requires inputs.perTask > 0 && IsCurriculum(job) && CanFinish(fit, job)
    ensures Finish(inputs, fit, job) == ExtraReady(inputs, Curriculum(inputs, fit, job))
  {}

  lemma FirstIsUnbuilt(inputs: Inputs)
    ensures FirstFit(inputs).(spans := map[])
         == if inputs.BuildsCurricula() then Empty(inputs)
            else Empty(inputs).(historical := Some([]), capitals := Some([]), english := Some([]),
                                captured := NothingCaptured(|inputs.captured|),
                                tail := if TRAIN in inputs.splits then None else Some([]))
  {}

  lemma FrozenMore(inputs: Inputs, keys: seq<Key>, i: nat)
    requires i < |keys|
    ensures FrozenAt(inputs, keys[..i + 1])
         == if inputs.frozen && keys[i].split == TRAIN then FrozenAt(inputs, keys[..i])[keys[i] := []] else FrozenAt(inputs, keys[..i])
  {
    assert keys[..i + 1] == keys[..i] + [keys[i]];
  }

  lemma FrozenSpans(inputs: Inputs, keys: seq<Key>)
    requires Proper(inputs) && keys == KeyList(inputs.profiles, inputs.splits)
    ensures FirstFit(inputs).spans == FrozenAt(inputs, keys)
  {
    KeyListIs(inputs.profiles, inputs.splits);
  }

  lemma NextChunk(inputs: Inputs, priority: Priority, profile: string, source: Source, split: string, frames: seq<Frame>, start: nat)
    requires inputs.perTask > 0 && start < |frames|
    ensures ChunkRequests(inputs, priority, profile, source, split, frames, start)
         == [Request(priority, Featurise(profile, Chunk(source, split, start), inputs.Share(frames, start)))]
            + ChunkRequests(inputs, priority, profile, source, split, frames, start + inputs.perTask)
  {}

  lemma {:induction false} NoChunk(inputs: Inputs, priority: Priority, profile: string, source: Source, split: string,
                                   frames: seq<Frame>, start: nat)
    requires inputs.perTask > 0 && start >= |frames|
    ensures ChunkRequests(inputs, priority, profile, source, split, frames, start) == []
  {}

  lemma Regroup(a: seq<Request>, r: Request, b: seq<Request>)
    ensures a + ([r] + b) == (a + [r]) + b
  {}

  /** `{row.identifier: number for number, row in enumerate(frames)}`. */
  method IdentifiersOf(frames: seq<Frame>) returns (at: map<string, nat>)
    ensures forall id :: LastAt(frames, id) == if id in at then Some(at[id]) else None
  {
    at := map[];
    for k := 0 to |frames|
      invariant forall id :: LastAt(frames[..k], id) == if id in at then Some(at[id]) else None
    {
      assert frames[..k + 1][..k] == frames[..k];
      if frames[k].ActionRow? {
        at := at[frames[k].identifier := k];
      }
    }
    assert frames[..|frames|] == frames;
  }

  method Place(frames: seq<Frame>, at: map<string, nat>, frame: Frame) returns (r: Option<nat>)
    requires forall id :: LastAt(frames, id) == if id in at then Some(at[id]) else None
    ensures r == PlaceOf(frames, frame)
  {
    if frame.ActionRow? && frame.identifier in at && frames[at[frame.identifier]] == frame {
      return Some(at[frame.identifier]);
    }
    return None;
  }

  lemma {:induction false} PlanStep(ahead: FramesAhead, frames: seq<Frame>, k: nat)
    requires k < |frames|
    ensures var before, slot := PlanOf(ahead, frames[..k]), SlotOf(ahead, frames[k], |PlanOf(ahead, frames[..k]).late|);
      PlanOf(ahead, frames[..k + 1])
      == Plan(before.slots + [slot], if slot.source == Fresh then before.late + [frames[k]] else before.late)
  {
    assert frames[..k + 1][..k] == frames[..k];
  }

  /** Each final frame: one featurised ahead, or a fresh one. */
  method PlanFrames(ahead: FramesAhead, frames: seq<Frame>) returns (plan: seq<Slot>, fresh_: seq<Frame>)
    ensures Plan(plan, fresh_) == PlanOf(ahead, frames)
  {
    var naturalAt := IdentifiersOf(ahead.natural);
    var extraAt := IdentifiersOf(ahead.extra);
    var tailAt := IdentifiersOf(ahead.tail);
    plan, fresh_ := [], [];
    for k := 0 to |frames|
      invariant Plan(plan, fresh_) == PlanOf(ahead, frames[..k])
    {
      var frame := frames[k];
      PlanStep(ahead, frames, k);
      var number := Place(ahead.natural, naturalAt, frame);
      if number.Some? {
        plan := plan + [Slot(Natural, number.value)];
        continue;
      }
      number := Place(ahead.extra, extraAt, frame);
      if number.Some? {
        plan := plan + [Slot(Source.Extra, number.value)];
        continue;
      }
      number := Place(ahead.tail, tailAt, frame);
      if number.Some? {
        plan := plan + [Slot(Source.Tail, number.value)];
        continue;
      }
      plan := plan + [Slot(Fresh, |fresh_|)];
      fresh_ := fresh_ + [frame];
    }
    assert frames[..|frames|] == frames;
  }

  /** The state before `run` sets in what is not built. */
  function Empty(inputs: Inputs): Fit {
    Fit(None, map[], None, None, None, [], map[], map[], map[], map[], map[],
        map p | p in inputs.profiles :: {}, map p | p in inputs.profiles :: map[], map[], false)
  }

  /** No two profiles have one store. */
  ghost predicate AreApart(stores: map<string, ProfileStore>) {
    forall p, q :: p in stores && q in stores && p != q ==> stores[p] != stores[q]
  }

  /** One profile at most has another store. */
  ghost predicate Differs(before: map<string, ProfileStore>, profile: string, after: map<string, ProfileStore>) {
    forall p :: p in after && p != profile ==> p in before && after[p] == before[p]
  }

  lemma DiffersNowhere(a: map<string, ProfileStore>, profile: string)
    ensures Differs(a, profile, a)
  {}

  lemma DiffersFurther(a: map<string, ProfileStore>, b: map<string, ProfileStore>, c: map<string, ProfileStore>, profile: string)
    requires Differs(a, profile, b) && Differs(b, profile, c)
    ensures Differs(a, profile, c)
  {}

  /** `{profile: ProfileStore() for profile in profiles}`. */
  method EmptyStoreFor(profiles: seq<string>) returns (stores: map<string, ProfileStore>)
    ensures stores.Keys == (set p | p in profiles) && forall p :: p in stores ==> fresh(stores[p])
    ensures (map p | p in stores :: stores[p].Contents()) == map p | p in profiles :: EMPTY_STORE
    ensures AreApart(stores)
  {
    stores := map[];
    for k := 0 to |profiles|
      invariant stores.Keys == (set p | p in profiles[..k]) && forall p :: p in stores ==> fresh(stores[p])
      invariant forall p :: p in stores ==> stores[p].Contents() == EMPTY_STORE
      invariant AreApart(stores)
    {
      assert profiles[..k + 1] == profiles[..k] + [profiles[k]];
      var store := new ProfileStore();
      stores := stores[profiles[k] := store];
    }
    assert profiles[..|profiles|] == profiles;
  }

  lemma AllEmpty(profiles: seq<string>)
    ensures StoresRead([], map p | p in profiles :: EMPTY_STORE, map p | p in profiles :: map[])
    ensures ColumnsReadBack([], map[], map[])
  {
    EmptyStores([]);
  }

  lemma StoreDropped(names: seq<string>, stores: map<string, IdStore>, named: map<string, map<Chunk, seq<Features>>>, profile: string)
    requires StoresRead(names, stores, named)
    ensures StoresRead(names, stores[profile := EMPTY_STORE], named[profile := map[]])
  {
    EmptyStores(names);
  }

  lemma KeyReads(names: seq<string>, columns: map<Key, IdColumns>, named: map<Key, seq<Column>>, key: Key, made: IdColumns, says: seq<Column>)
    requires ColumnsReadBack(names, columns, named) && ReadsAs(names, made, says)
    ensures ColumnsReadBack(names, columns[key := made], named[key := says])
  {}

  lemma SameProfiles(names: seq<string>, stores: map<string, IdStore>, named: map<string, map<Chunk, seq<Features>>>)
    requires StoresRead(names, stores, named)
    ensures stores.Keys == named.Keys
  {}

  lemma SplitsAreDone(inputs: Inputs, names: seq<string>, columns: map<Key, IdColumns>, named: map<Key, seq<Column>>, profile: string)
    requires ColumnsReadBack(names, columns, named)
    ensures AllSplits(inputs, columns.Keys, profile) == ProfileDone(inputs, named, profile)
  {}

  class Build {
    const inputs: Inputs
    const scheduler: Scheduler
    const vocabulary: Vocabulary
    var historical: Option<seq<Frame>>
    var captured: map<nat, seq<Frame>>
    var capitals: Option<seq<Frame>>
    var english: Option<seq<Frame>>
    var tail: Option<seq<Frame>>
    var extra: seq<Frame>
    var chains: map<Key, seq<Frame>>
    var spans: map<Key, seq<Frame>>
    var entries: map<Key, seq<Frame>>
    var plans: map<Key, seq<Slot>>
    var missing: map<Key, set<Chunk>>
    var arrived: map<string, set<Chunk>>
    var stores: map<string, ProfileStore>
    var columns: map<Key, IdColumns>
    var rejected: bool
    ghost var named: map<string, map<Chunk, seq<Features>>>   // what the stores hold, by name
    ghost var namedColumns: map<Key, seq<Column>>             // what the columns say, by name

    /** The fit as it is seen by name. */
    ghost function State(): Fit
      reads this
    {
      Fit(historical, captured, capitals, english, tail, extra, chains, spans, entries, plans, missing, arrived, named,
          namedColumns, rejected)
    }

    ghost function IdStores(): map<string, IdStore>
      reads this`stores, stores.Values
    {
      map p | p in stores :: stores[p].Contents()
    }

    /** The vocabulary, the stores and the columns as they are, by id. */
    ghost function IdState(): Ids
      reads this`stores, this`columns, vocabulary, stores.Values
    {
      Ids(vocabulary.names, IdStores(), columns)
    }

    /** Read back through the vocabulary, the stores and columns are what the fit sees by name. */
    ghost predicate ReadsBack()
      reads this`stores, this`columns, this`named, this`namedColumns, vocabulary, stores.Values
    {
      && vocabulary.Valid() && AreApart(stores)
      && StoresRead(vocabulary.names, IdStores(), named) && ColumnsReadBack(vocabulary.names, columns, namedColumns)
    }

    constructor (inputs: Inputs)
      ensures this.inputs == inputs && fresh(scheduler)
      ensures scheduler.pending == [] && scheduler.running == [] && scheduler.counter == 0
      ensures fresh(vocabulary) && fresh(stores.Values) && State() == Empty(inputs) && ReadsBack()
    {
      this.inputs := inputs;
      scheduler := new Scheduler();
      vocabulary := new Vocabulary();
      historical, capitals, english, tail, captured, extra := None, None, None, None, map[], [];
      chains, spans, entries, plans, missing, columns, rejected := map[], map[], map[], map[], map[], map[], false;
      arrived := map p | p in inputs.profiles :: {};
      named, namedColumns := map p | p in inputs.profiles :: map[], map[];
      var empty := EmptyStoreFor(inputs.profiles);
      stores := empty;
      new;
      AllEmpty(inputs.profiles);
      hide StoresRead, ColumnsReadBack, AreApart;
      assert IdStores() == map p | p in inputs.profiles :: EMPTY_STORE;
    }

    /** One feature task per share of the frames: the loops over `range(0, len(frames), per task)`. */
    method AddChunks(priority: Priority, profile: string, source: Source, split: string, frames: seq<Frame>)
      requires inputs.perTask > 0
      modifies scheduler
      ensures scheduler.Took(ChunkRequests(inputs, priority, profile, source, split, frames, 0))
    {
      ghost var added: seq<Request> := [];
      ghost var first := scheduler.Held();
      var start := 0;
      QueuedNone(first);
      hide Queued, ChunkRequests;
      while start < |frames|
        invariant ChunkRequests(inputs, priority, profile, source, split, frames, 0)
               == added + ChunkRequests(inputs, priority, profile, source, split, frames, start)
        invariant Queued(first, added, scheduler.Held()) && scheduler.running == old(scheduler.running)
        decreases |frames| - start
      {
        ghost var second := scheduler.Held();
        var request := Request(priority, Featurise(profile, Chunk(source, split, start), inputs.Share(frames, start)));
        scheduler.Add(request);
        QueuedMore(first, added, second, [request], scheduler.Held());
        NextChunk(inputs, priority, profile, source, split, frames, start);
        Regroup(added, request, ChunkRequests(inputs, priority, profile, source, split, frames, start + inputs.perTask));
        added := added + [request];
        start := start + inputs.perTask;
      }
      NoChunk(inputs, priority, profile, source, split, frames, start);
    }

    /** The captured rows in the order of their sources. */
    method CapturedInOrder() returns (rows: seq<Frame>)
      ensures rows == CapturedSoFar(State(), |inputs.captured|)
    {
      rows := [];
      for index := 0 to |inputs.captured|
        invariant rows == CapturedSoFar(State(), index)
      {
        if index in captured { rows := rows + captured[index]; }
      }
    }

    method AddTrain(profile: string, tailRows: seq<Frame>)
      requires inputs.perTask > 0
      modifies scheduler
      ensures scheduler.Took(ProfileRequests(inputs, profile, extra, tailRows))
    {
      ghost var chain := [Request(Critical, Chain(Key(profile, TRAIN), Some(extra), Some(tailRows)))];
      ghost var extras := ChunkRequests(inputs, Ahead, profile, Source.Extra, TRAIN, extra, 0);
      ghost var tails := ChunkRequests(inputs, Ahead, profile, Source.Tail, TRAIN, tailRows, 0);
      assert ProfileRequests(inputs, profile, extra, tailRows) == chain + if inputs.heads then [] else extras + tails;
      hide Queued, ChunkRequests, ProfileRequests;
      ghost var first := scheduler.Held();
      scheduler.Add(Request(Critical, Chain(Key(profile, TRAIN), Some(extra), Some(tailRows))));
      if !inputs.heads {
        ghost var second := scheduler.Held();
        AddChunks(Ahead, profile, Source.Extra, TRAIN, extra);
        ghost var third := scheduler.Held();
        AddChunks(Ahead, profile, Source.Tail, TRAIN, tailRows);
        QueuedMore(second, extras, third, tails, scheduler.Held());
        QueuedMore(first, chain, second, extras + tails, scheduler.Held());
      }
    }

    /** The TRAIN chain of every profile, and the features ahead of it. */
    method AddTrainChains(tailRows: seq<Frame>)
      requires inputs.perTask > 0
      modifies scheduler
      ensures scheduler.Took(TrainRequests(inputs, inputs.profiles, extra, tailRows))
    {
      ghost var first := scheduler.Held();
      QueuedNone(first);
      hide Queued, ProfileRequests;
      for k := 0 to |inputs.profiles|
        invariant Queued(first, TrainRequests(inputs, inputs.profiles[..k], extra, tailRows), scheduler.Held())
        invariant scheduler.running == old(scheduler.running)
      {
        assert inputs.profiles[..k + 1][..k] == inputs.profiles[..k];
        ghost var second := scheduler.Held();
        AddTrain(inputs.profiles[k], tailRows);
        QueuedMore(first, TrainRequests(inputs, inputs.profiles[..k], extra, tailRows), second,
                   ProfileRequests(inputs, inputs.profiles[k], extra, tailRows), scheduler.Held());
      }
      assert inputs.profiles[..|inputs.profiles|] == inputs.profiles;
    }

    /** Once the historical, captured, capital, English-capital and tail curricula are in, the TRAIN chains can start. */
    method ExtraReady()
      requires inputs.perTask > 0
      modifies `extra, scheduler
      ensures State() == FitState.ExtraReady(inputs, old(State())).0
      ensures scheduler.Took(FitState.ExtraReady(inputs, old(State())).1)
    {
      if historical.None? || capitals.None? || english.None? || tail.None? || |captured| < |inputs.captured| {
        QueuedNone(scheduler.Held());
        return;
      }
      var rows := CapturedInOrder();
      extra := historical.value + rows + capitals.value + english.value;
      AddTrainChains(tail.value);
    }

    /** A planned key's columns out of its profile's store. */
    method MakeColumns(key: Key) returns (made: IdColumns)
      requires inputs.perTask > 0 && Planned(State(), {key}) && ReadsBack() && HasRows(inputs, named[key.profile], key, plans[key])
      ensures ReadsAs(vocabulary.names, made, Assembled(inputs, State(), key))
    {
      hide ReadsAs, ColumnsReadBack, HasRows;
      made := AssembleIds(inputs, stores[key.profile], key, plans[key], entries[key], vocabulary.names, named[key.profile]);
      MadeReads(inputs, State(), IdState(), key, made);
    }

    /** Since then no store was replaced, but for the profile's by a new one. */
    twostate predicate OnlyDrops(profile: string)
      reads this`stores
    {
      && Differs(old(stores), profile, stores)
      && (profile in stores ==> profile in old(stores) && (stores[profile] == old(stores)[profile] || fresh(stores[profile])))
    }

    twostate lemma DropsAreNew(profile: string)
      requires OnlyDrops(profile)
      ensures fresh(stores.Values - old(stores.Values))
    {}

    /** A profile whose last split is assembled drops its store. */
    method DropStore(profile: string)
      requires profile in stores && ReadsBack()
      modifies `stores, `named
      ensures named == old(named)[profile := map[]] && ReadsBack() && OnlyDrops(profile)
    {
      hide StoresRead, ColumnsReadBack;
      StoreDropped(vocabulary.names, IdStores(), named, profile);
      ghost var before := IdStores();
      var store := new ProfileStore();
      stores, named := stores[profile := store], named[profile := map[]];
      assert IdStores() == before[profile := EMPTY_STORE];
    }

    /** Puts the frames of a planned key, whose features all arrived, into their final order. */
    method AssembleKey(key: Key)
      requires inputs.perTask > 0 && key in missing && Planned(State(), {key}) && !rejected
      requires ReadsBack() && HasRows(inputs, named[key.profile], key, plans[key])
      modifies `missing, `columns, `entries, `plans, `stores, `rejected, `named, `namedColumns
      ensures rejected == !inputs.Accepts(key.split, old(entries[key]))
      ensures !rejected ==> State() == OneMore(inputs, old(State()), key, Assembled(inputs, old(State()), key)) && ReadsBack()
      ensures OnlyDrops(key.profile)
    {
      ghost var before := State();
      hide StoresRead, ColumnsReadBack, ReadsAs, HasRows, Assembled, ProfileDone, ReadsBack, OneMore, Differs;
      DiffersNowhere(stores, key.profile);
      var frames := entries[key];
      var made := MakeColumns(key);
      ghost var says := Assembled(inputs, State(), key);
      missing := missing - {key};
      if !inputs.Accepts(key.split, frames) {
        rejected := true;
        return;
      }
      RecordColumns(key, made, says, before);
    }

    /** An accepted key's columns are kept, and what was only needed to make them is dropped. */
    method RecordColumns(key: Key, made: IdColumns, ghost says: seq<Column>, ghost before: Fit)
      requires ReadsBack() && ReadsAs(vocabulary.names, made, says) && key.profile in named
      requires State() == before.(missing := before.missing - {key})
      modifies `columns, `entries, `plans, `stores, `named, `namedColumns
      ensures State() == OneMore(inputs, before, key, says) && ReadsBack() && OnlyDrops(key.profile)
    {
      hide ReadsAs, ProfileDone, ReadsBack, OneMore, Differs;
      entries, plans := entries - {key}, plans - {key};
      PutColumns(key, made, says);
      IsOneMore(inputs, before, key, says, State());
    }

    /** A key's columns; the last key of its profile drops the store. */
    method PutColumns(key: Key, made: IdColumns, ghost says: seq<Column>)
      requires ReadsBack() && ReadsAs(vocabulary.names, made, says) && key.profile in named
      modifies `columns, `namedColumns, `stores, `named
      ensures State() == old(State()).(columns := namedColumns, stores := named)
      ensures namedColumns == old(namedColumns)[key := says] && ReadsBack() && OnlyDrops(key.profile)
      ensures named == if ProfileDone(inputs, namedColumns, key.profile) then old(named)[key.profile := map[]] else old(named)
    {
      hide ReadsAs, AllSplits, ProfileDone, ReadsBack;
      KeepColumns(key, made, says);
      if AllSplits(inputs, columns.Keys, key.profile) { DropStore(key.profile); }
    }

    method KeepColumns(key: Key, made: IdColumns, ghost says: seq<Column>)
      requires ReadsBack() && ReadsAs(vocabulary.names, made, says)
      modifies `columns, `namedColumns
      ensures columns == old(columns)[key := made] && namedColumns == old(namedColumns)[key := says] && ReadsBack()
      ensures AllSplits(inputs, columns.Keys, key.profile) == ProfileDone(inputs, namedColumns, key.profile)
      ensures stores.Keys == named.Keys
    {
      hide StoresRead, ColumnsReadBack, ReadsAs;
      KeyReads(vocabulary.names, columns, namedColumns, key, made, says);
      SameProfiles(vocabulary.names, IdStores(), named);
      columns, namedColumns := columns[key := made], namedColumns[key := says];
      SplitsAreDone(inputs, vocabulary.names, columns, namedColumns, key.profile);
    }

    /** The final frames of a key whose chain and spans are in, and where each one's features are found. */
    method MakePlan(key: Key) returns (frames: seq<Frame>, plan: seq<Slot>, late: seq<Frame>)
      requires key in chains && key in spans
      ensures frames == Framed(inputs, State(), key)
      ensures Plan(plan, late) == PlanOf(AheadFor(inputs, State(), key), frames)
    {
      frames := inputs.prepared(chains[key], spans[key], key.split);
      if inputs.Selects(key) { frames := inputs.OnlyHeads(frames); }
      var own := key.split == TRAIN && !inputs.Selects(key);
      var ahead := FramesAhead(
        inputs.NaturalOf(key), if own then extra else [], if own && tail.Some? then tail.value else []);
      plan, late := PlanFrames(ahead, frames);
    }

    method RecordPlan(key: Key, frames: seq<Frame>, plan: seq<Slot>)
      requires inputs.perTask > 0 && key.profile in arrived
      modifies `chains, `entries, `plans, `missing
      ensures State() == PlannedAs(inputs, old(State()), key, frames, plan)
    {
      var needed := ChunksOf(inputs, key, plan);
      chains, entries, plans := chains[key := []], entries[key := frames], plans[key := plan];
      missing := missing[key := needed - arrived[key.profile]];
    }

    /** Plans a key whose chain and spans are in, and adds the tasks of its fresh frames. */
    method PlanTheKey(key: Key)
      requires inputs.perTask > 0 && key in chains && key in spans && key.profile in arrived
      modifies `chains, `entries, `plans, `missing, scheduler
      ensures State() == PlanKey(inputs, old(State()), key).0
      ensures scheduler.Took(PlanKey(inputs, old(State()), key).1)
    {
      var frames, plan, late := MakePlan(key);
      RecordPlan(key, frames, plan);
      AddChunks(Wanted, key.profile, Fresh, key.split, late);
    }

    /** With its chain and spans in, a key is planned, and assembled at once if nothing is missing. */
    method FramesReady(key: Key)
      requires inputs.perTask > 0 && key.profile in arrived && key.profile in named && !rejected
      requires ReadsBack() && ServesFrames(inputs, State(), key)
      modifies `chains, `missing, `columns, `entries, `plans, `stores, `rejected, `named, `namedColumns, scheduler
      ensures rejected == FitState.FramesReady(inputs, old(State()), key).0.rejected
      ensures !rejected ==> State() == FitState.FramesReady(inputs, old(State()), key).0 && ReadsBack()
      ensures scheduler.Took(FitState.FramesReady(inputs, old(State()), key).1)
      ensures OnlyDrops(key.profile)
    {
      hide StoresRead, ColumnsReadBack, HasRows, Assembled, OneMore, Queued, Differs, ReadsBack;
      QueuedNone(scheduler.Held());
      DiffersNowhere(stores, key.profile);
      if key in chains && key in spans {
        PlanTheKey(key);
        if missing[key] == {} {
          OneAssembled(inputs, State(), key);
          AssembleKey(key);
        }
      }
    }

    /** One thing less missing for a key; with nothing missing it is assembled. */
    method DiscardFor(key: Key, profile: string, chunk: Chunk, ghost then_: Fit)
      requires Turns(inputs, State(), profile, chunk, key, then_) && Served(inputs, State(), profile, chunk, key)
      requires !rejected && ReadsBack()
      modifies `missing, `columns, `entries, `plans, `stores, `rejected, `named, `namedColumns
      ensures rejected == then_.rejected == State().rejected
      ensures !rejected ==> State() == then_ && ReadsBack()
      ensures OnlyDrops(profile)
    {
      hide StoresRead, ColumnsReadBack, HasRows, Assembled, OneMore;
      if key.profile == profile && chunk in missing[key] {
        missing := missing[key := missing[key] - {chunk}];
        if missing[key] == {} {
          AssembleKey(key);
        }
      }
    }

    /** A chunk's features come in; the keys they complete are assembled one after another, in any order. */
    method ChunkDone(profile: string, chunk: FeatureChunk)
      requires WellFormed(chunk) && CanStore(inputs, State(), profile, chunk.at) && ReadsBack()
      requires Serves(inputs, Stored(State(), profile, chunk.at, ChunkNamed(chunk)), Completed(State(), profile, chunk.at))
      modifies `arrived, `missing, `columns, `entries, `plans, `stores, `rejected, `named, `namedColumns, vocabulary, stores.Values
      ensures rejected == FitState.ChunkDone(inputs, old(State()), profile, chunk.at, ChunkNamed(chunk)).rejected
      ensures !rejected ==> State() == FitState.ChunkDone(inputs, old(State()), profile, chunk.at, ChunkNamed(chunk)) && ReadsBack()
      ensures fresh(stores.Values - old(stores.Values))
    {
      hide StoresRead, ColumnsReadBack, HasRows, Serves, FitState.ChunkDone, ReadsBack, ChunkNamed;
      ghost var soFar, stops := EachTurn(inputs, State(), profile, chunk.at, ChunkNamed(chunk));
      hide CanStore, Stored, Completed, EachTurns;
      StoreRows(profile, chunk);
      DiscardAll(missing.Keys, profile, chunk.at, soFar, stops);
      DropsAreNew(profile);
    }

    /** The chunk's rows in the profile's own store; the other stores stay as they are. */
    method AddChunk(profile: string, chunk: FeatureChunk) returns (ghost mapping: seq<nat>)
      requires WellFormed(chunk) && profile in stores && ReadsBack()
      modifies vocabulary, stores.Values
      ensures vocabulary.Valid() && AddsChunk(old(IdState()), IdState(), profile, chunk, mapping)
    {
      hide StoresRead, ColumnsReadBack;
      ghost var before := IdStores();
      mapping := stores[profile].Add(chunk, vocabulary);
      assert IdStores() == before[profile := before[profile].With(chunk, mapping)];
    }

    method StoreRows(profile: string, chunk: FeatureChunk)
      requires WellFormed(chunk) && profile in arrived && profile in named && ReadsBack()
      modifies `arrived, `named, vocabulary, stores.Values
      ensures State() == Stored(old(State()), profile, chunk.at, ChunkNamed(chunk)).(missing := old(missing))
      ensures ReadsBack()
    {
      hide StoresRead, ColumnsReadBack, AddsChunk, ChunkNamed, AreApart, WellFormed;
      SameProfiles(vocabulary.names, IdStores(), named);
      ghost var mapping := AddChunk(profile, chunk);
      AddedReads(old(IdState()), IdState(), old(State()), profile, chunk, mapping);
      NameRows(profile, chunk);
    }

    /** Records which chunk came in, and what the store holds of it by name. */
    method NameRows(profile: string, chunk: FeatureChunk)
      requires WellFormed(chunk) && profile in arrived && profile in named
      modifies `arrived, `named
      ensures State() == Stored(old(State()), profile, chunk.at, ChunkNamed(chunk)).(missing := missing)
      ensures named == old(named)[profile := old(named)[profile][chunk.at := ChunkNamed(chunk)]]
      ensures IdState() == old(IdState()) && vocabulary.Valid() == old(vocabulary.Valid())
    {
      hide ChunkNamed, WellFormed;
      arrived := arrived[profile := arrived[profile] + {chunk.at}];
      named := named[profile := named[profile][chunk.at := ChunkNamed(chunk)]];
    }

    /** One turn of the loop over the keys. */
    method DiscardNext(keys: set<Key>, left: set<Key>, key: Key, profile: string, chunk: Chunk, ghost soFar: set<Key> -> Fit,
                       ghost stops: bool)
      requires left <= keys && key in left && EachTurns(inputs, soFar, keys, profile, chunk, stops)
      requires !rejected && ReadsBack() && State() == soFar(keys - left)
      modifies `missing, `columns, `entries, `plans, `stores, `rejected, `named, `namedColumns
      ensures rejected ==> stops
      ensures !rejected ==> State() == soFar(keys - (left - {key})) && ReadsBack()
      ensures OnlyDrops(profile)
    {
      TurnOf(inputs, soFar, keys, profile, chunk, stops, left, key);
      hide StoresRead, ColumnsReadBack, Turns, Served, ReadsBack, EachTurns, Differs;
      DiscardFor(key, profile, chunk, soFar(keys - (left - {key})));
    }

    /** The loop over the keys, each turn taking the state one key further. */
    method DiscardAll(keys: set<Key>, profile: string, chunk: Chunk, ghost soFar: set<Key> -> Fit, ghost stops: bool)
      requires !rejected && State() == soFar({}) && EachTurns(inputs, soFar, keys, profile, chunk, stops) && ReadsBack()
      modifies `missing, `columns, `entries, `plans, `stores, `rejected, `named, `namedColumns
      ensures rejected ==> stops
      ensures !rejected ==> State() == soFar(keys) && ReadsBack()
      ensures OnlyDrops(profile)
    {
      hide StoresRead, ColumnsReadBack, ReadsBack, EachTurns, Differs, State;
      DiffersNowhere(stores, profile);
      assert keys - keys == {};
      var left := keys;
      while left != {}
        invariant left <= keys && !rejected && State() == soFar(keys - left) && ReadsBack()
        invariant OnlyDrops(profile)
        decreases left
      {
        var key :| key in left;
        ghost var mid := stores;
        DiscardNext(keys, left, key, profile, chunk, soFar, stops);
        DiffersFurther(old(stores), mid, stores, profile);
        if rejected { return; }
        left := left - {key};
      }
      assert keys - {} == keys;
    }

    method AddCaptured()
      modifies scheduler
      ensures scheduler.Took(CapturedRequests(|inputs.captured|))
    {
      ghost var first := scheduler.Held();
      QueuedNone(first);
      hide Queued;
      for index := 0 to |inputs.captured|
        invariant Queued(first, CapturedRequests(index), scheduler.Held()) && scheduler.running == old(scheduler.running)
      {
        ghost var second := scheduler.Held();
        scheduler.Add(Request(Critical, Captured(index)));
        QueuedMore(first, CapturedRequests(index), second, [Request(Critical, Captured(index))], scheduler.Held());
      }
    }

    method AddBuilt()
      modifies scheduler
      ensures scheduler.Took(BuiltRequests(inputs))
    {
      ghost var first, captured := [Request(Critical, Historical)], CapturedRequests(|inputs.captured|);
      ghost var a, b := [Request(Critical, Capitals)], [Request(Critical, English)];
      hide Queued, CapturedRequests;
      ghost var q := scheduler.Held();
      scheduler.Add(Request(Critical, Historical));
      ghost var next := scheduler.Held();
      AddCaptured();
      QueuedMore(q, first, next, captured, scheduler.Held());
      next := scheduler.Held();
      scheduler.Add(Request(Critical, Capitals));
      QueuedMore(q, first + captured, next, a, scheduler.Held());
      next := scheduler.Held();
      scheduler.Add(Request(Critical, English));
      QueuedMore(q, first + captured + a, next, b, scheduler.Held());
      assert BuiltRequests(inputs) == first + captured + a + b;
    }

    /** What is not built is empty and in. */
    method SetUnbuilt()
      requires State() == Empty(inputs)
      modifies `historical, `captured, `capitals, `english, `tail
      ensures State() == FirstFit(inputs).(spans := map[])
    {
      FirstIsUnbuilt(inputs);
      hide FirstFit;
      if !inputs.BuildsCurricula() {
        historical, capitals, english := Some([]), Some([]), Some([]);
        captured := NothingCaptured(|inputs.captured|);
        if TRAIN !in inputs.splits { tail := Some([]); }
      }
    }

    /** The curricula tasks. */
    method AddCurricula()
      modifies scheduler
      ensures scheduler.Took(CurriculaRequests(inputs))
    {
      ghost var built := if inputs.BuildsCurricula() then BuiltRequests(inputs) else [];
      ghost var first := scheduler.Held();
      QueuedNone(first);
      hide Queued, BuiltRequests;
      if inputs.BuildsCurricula() { AddBuilt(); }
      if TRAIN in inputs.splits {
        ghost var second := scheduler.Held();
        scheduler.Add(Request(Critical, TailTask));
        QueuedMore(first, built, second, [Request(Critical, TailTask)], scheduler.Held());
      }
      assert CurriculaRequests(inputs) == built + if inputs.Trains() then [Request(Critical, TailTask)] else [];
    }

    method AddForKey(key: Key)
      modifies this`spans, scheduler
      ensures spans == if inputs.frozen && key.split == TRAIN then old(spans)[key := []] else old(spans)
      ensures scheduler.Took(KeyRequests(inputs, key))
    {
      ghost var first := scheduler.Held();
      ghost var asked := if key.split != TRAIN then [Request(Curricula, Chain(key, None, None))] else [];
      QueuedNone(first);
      hide Queued;
      if key.split != TRAIN {
        scheduler.Add(Request(Curricula, Chain(key, None, None)));
      }
      if inputs.frozen && key.split == TRAIN {
        spans := spans[key := []];
      } else {
        ghost var second := scheduler.Held();
        scheduler.Add(Request(Curricula, Job.Spans(key)));
        QueuedMore(first, asked, second, [Request(Curricula, Job.Spans(key))], scheduler.Held());
      }
    }

    /** The curricula of each key that need not wait. */
    method AddKeys(keys: seq<Key>)
      requires spans == map[]
      modifies this`spans, scheduler
      ensures spans == FrozenAt(inputs, keys)
      ensures scheduler.Took(AllKeyRequests(inputs, keys))
    {
      ghost var first := scheduler.Held();
      QueuedNone(first);
      assert spans == FrozenAt(inputs, keys[..0]);
      hide Queued, KeyRequests, FrozenAt;
      for i := 0 to |keys|
        invariant spans == FrozenAt(inputs, keys[..i])
        invariant Queued(first, AllKeyRequests(inputs, keys[..i]), scheduler.Held()) && scheduler.running == old(scheduler.running)
      {
        assert keys[..i + 1][..i] == keys[..i];
        FrozenMore(inputs, keys, i);
        ghost var second := scheduler.Held();
        AddForKey(keys[i]);
        QueuedMore(first, AllKeyRequests(inputs, keys[..i]), second, KeyRequests(inputs, keys[i]), scheduler.Held());
      }
      assert keys[..|keys|] == keys;
    }

    /** The natural frames of each key, featurised ahead of their curricula. */
    method AddNatural(keys: seq<Key>)
      requires inputs.perTask > 0
      modifies scheduler
      ensures scheduler.Took(NaturalRequests(inputs, keys))
    {
      ghost var first := scheduler.Held();
      QueuedNone(first);
      hide Queued, KeyNatural;
      for i := 0 to |keys|
        invariant Queued(first, NaturalRequests(inputs, keys[..i]), scheduler.Held()) && scheduler.running == old(scheduler.running)
      {
        assert keys[..i + 1][..i] == keys[..i];
        ghost var second := scheduler.Held();
        AddKeyNatural(keys[i]);
        QueuedMore(first, NaturalRequests(inputs, keys[..i]), second, KeyNatural(inputs, keys[i]), scheduler.Held());
      }
      assert keys[..|keys|] == keys;
    }

    method AddKeyNatural(key: Key)
      requires inputs.perTask > 0
      modifies scheduler
      ensures scheduler.Took(KeyNatural(inputs, key))
    {
      QueuedNone(scheduler.Held());
      hide Queued, ChunkRequests;
      if !((inputs.frozen || inputs.heads) && key.split == TRAIN) {
        AddChunks(Ahead, key.profile, Natural, key.split, inputs.natural(key.split));
      }
    }

    method AddFirst(keys: seq<Key>)
      requires inputs.perTask > 0 && keys == KeyList(inputs.profiles, inputs.splits) && spans == map[]
      modifies this`spans, scheduler
      ensures spans == FrozenAt(inputs, keys)
      ensures scheduler.Took(FirstRequests(inputs))
    {
      ghost var a, b := CurriculaRequests(inputs) + AllKeyRequests(inputs, keys), NaturalRequests(inputs, keys);
      assert FirstRequests(inputs) == a + b;
      hide Queued, FirstRequests, CurriculaRequests, AllKeyRequests, NaturalRequests;
      ghost var first := scheduler.Held();
      AddFrames(keys);
      ghost var second := scheduler.Held();
      AddNatural(keys);
      QueuedMore(first, a, second, b, scheduler.Held());
    }

    method AddFrames(keys: seq<Key>)
      requires spans == map[]
      modifies this`spans, scheduler
      ensures spans == FrozenAt(inputs, keys)
      ensures scheduler.Took(CurriculaRequests(inputs) + AllKeyRequests(inputs, keys))
    {
      hide Queued, CurriculaRequests, AllKeyRequests;
      ghost var first := scheduler.Held();
      AddCurricula();
      ghost var second := scheduler.Held();
      AddKeys(keys);
      QueuedMore(first, CurriculaRequests(inputs), second, AllKeyRequests(inputs, keys), scheduler.Held());
    }

    /** What `run` does before it starts the scheduler. */
    method Prepare()
      requires Proper(inputs) && State() == Empty(inputs)
      modifies `historical, `captured, `capitals, `english, `tail, `spans, scheduler
      ensures State() == FirstFit(inputs)
      ensures scheduler.Took(FirstRequests(inputs))
    {
      var keys := KeyList(inputs.profiles, inputs.splits);
      FrozenSpans(inputs, keys);
      SetUnbuilt();
      AddFirst(keys);
    }

    /** The callbacks of the five curricula. */
    method CurriculumDone(job: Job)
      requires inputs.perTask > 0 && IsCurriculum(job)
      modifies `historical, `captured, `capitals, `english, `tail, `extra, scheduler
      ensures State() == FitState.ExtraReady(inputs, Curriculum(inputs, old(State()), job)).0
      ensures scheduler.Took(FitState.ExtraReady(inputs, Curriculum(inputs, old(State()), job)).1)
    {
      match job {
        case Historical => historical := Some(inputs.historical);
        case Captured(i) => captured := captured[i := if i < |inputs.captured| then inputs.captured[i] else []];
        case Capitals => capitals := Some(inputs.capitals);
        case English => english := Some(inputs.english);
        case TailTask => tail := Some(inputs.tail);
      }
      assert State() == Curriculum(inputs, old(State()), job);
      ExtraReady();
    }

    method ChainDone(key: Key, rows: seq<Frame>)
      requires inputs.perTask > 0 && key.profile in arrived && key.profile in named && !rejected
      requires ReadsBack() && ServesFrames(inputs, State().(chains := chains[key := rows]), key)
      modifies `chains, `missing, `columns, `entries, `plans, `stores, `rejected, `named, `namedColumns, scheduler
      ensures var fit := old(State()).(chains := old(chains)[key := rows]);
        rejected == FitState.FramesReady(inputs, fit, key).0.rejected
        && (!rejected ==> State() == FitState.FramesReady(inputs, fit, key).0 && ReadsBack())
        && scheduler.Took(FitState.FramesReady(inputs, fit, key).1)
      ensures fresh(stores.Values - old(stores.Values))
    {
      hide StoresRead, ColumnsReadBack, ServesFrames, FitState.FramesReady;
      chains := chains[key := rows];
      FramesReady(key);
      DropsAreNew(key.profile);
    }

    method SpansDone(key: Key, rows: seq<Frame>)
      requires inputs.perTask > 0 && key.profile in arrived && key.profile in named && !rejected
      requires ReadsBack() && ServesFrames(inputs, State().(spans := spans[key := rows]), key)
      modifies `chains, `spans, `missing, `columns, `entries, `plans, `stores, `rejected, `named, `namedColumns, scheduler
      ensures var fit := old(State()).(spans := old(spans)[key := rows]);
        rejected == FitState.FramesReady(inputs, fit, key).0.rejected
        && (!rejected ==> State() == FitState.FramesReady(inputs, fit, key).0 && ReadsBack())
        && scheduler.Took(FitState.FramesReady(inputs, fit, key).1)
      ensures fresh(stores.Values - old(stores.Values))
    {
      hide StoresRead, ColumnsReadBack, ServesFrames, FitState.FramesReady;
      spans := spans[key := rows];
      FramesReady(key);
      DropsAreNew(key.profile);
    }

    /** A feature task's result comes in. */
    method FeaturesDone(profile: string, chunk: Chunk, frames: seq<Frame>)
      requires CanStore(inputs, State(), profile, chunk) && ReadsBack()
      requires Serves(inputs, StoredOf(inputs, State(), profile, chunk, frames), Completed(State(), profile, chunk))
      modifies `arrived, `missing, `columns, `entries, `plans, `stores, `rejected, `named, `namedColumns, vocabulary, stores.Values
      ensures var rows := inputs.FeaturesOf(profile, chunk.split, frames);
        rejected == FitState.ChunkDone(inputs, old(State()), profile, chunk, rows).rejected
        && (!rejected ==> State() == FitState.ChunkDone(inputs, old(State()), profile, chunk, rows) && ReadsBack())
      ensures fresh(stores.Values - old(stores.Values))
    {
      hide StoresRead, ColumnsReadBack, Serves, FitState.ChunkDone, ChunkNamed;
      var result := FeaturesTask(inputs, profile, chunk, frames);
      ChunkDone(profile, result);
    }

    /** A finished task's result goes to its callback. */
    method Finished(job: Job)
      requires inputs.perTask > 0 && !rejected && CanFinish(State(), job)
      requires job.Featurise? ==> CanStore(inputs, State(), job.profile, job.chunk)
      requires ReadsBack() && CanServe(inputs, State(), job)
      modifies this, scheduler, vocabulary, stores.Values
      ensures rejected == Finish(inputs, old(State()), job).0.rejected
      ensures !rejected ==> State() == Finish(inputs, old(State()), job).0 && ReadsBack()
      ensures !rejected ==> scheduler.Took(Finish(inputs, old(State()), job).1)
      ensures fresh(stores.Values - old(stores.Values))
    {
      hide StoresRead, ColumnsReadBack, ServesFrames, Serves, FitState.FramesReady, FitState.ChunkDone, FitState.ExtraReady, Curriculum;
      hide StoredOf, Completed, ReadsBack, Queued, CanStore, Finish, IdStores, Stored;
      match job
      case Chain(key, chainExtra, chainTail) =>
        FinishesChain(inputs, State(), key, chainExtra, chainTail);
        ChainDone(key, inputs.chain(key, chainExtra, chainTail));
      case Spans(key) =>
        FinishesSpans(inputs, State(), key);
        SpansDone(key, inputs.spans(key));
      case Featurise(profile, chunk, frames) =>
        FinishesChunk(inputs, State(), profile, chunk, frames);
        QueuedNone(scheduler.Held());
        FeaturesDone(profile, chunk, frames);
      case _ =>
        FinishesCurriculum(inputs, State(), job);
        CurriculumDone(job);
    }
  }

  lemma CanAlwaysStore(inputs: Inputs, fit: Fit, out: multiset<Job>, j: Job)
    requires Proper(inputs) && Invariant(inputs, fit, out) && j in out && j.Featurise?
    ensures CanStore(inputs, fit, j.profile, j.chunk)
  {
    assert HoldsFrames(inputs, out, j);
    forall k | k in fit.missing
      ensures k in fit.plans && k in fit.entries && k.profile in fit.stores && |fit.plans[k]| == |fit.entries[k]|
      ensures inputs.IsKey(k) && k !in fit.columns
    {
      assert KeyHolds(inputs, fit, {}, k) && Linked(inputs, fit, k);
    }
  }

  ghost predicate TurnsAt(inputs: Inputs, soFar: set<Key> -> Fit, keys: set<Key>, profile: string, chunk: Chunk, stops: bool,
                          done: set<Key>, key: Key) {
    done <= keys && key in keys && key !in done && !soFar(done).rejected
    ==> Turns(inputs, soFar(done), profile, chunk, key, soFar(done + {key})) && Served(inputs, soFar(done), profile, chunk, key)
        && (soFar(done + {key}).rejected ==> stops)
  }

  ghost predicate EachTurns(inputs: Inputs, soFar: set<Key> -> Fit, keys: set<Key>, profile: string, chunk: Chunk, stops: bool) {
    forall done, key :: TurnsAt(inputs, soFar, keys, profile, chunk, stops, done, key)
  }

  lemma TurnOf(inputs: Inputs, soFar: set<Key> -> Fit, keys: set<Key>, profile: string, chunk: Chunk, stops: bool, left: set<Key>, key: Key)
    requires EachTurns(inputs, soFar, keys, profile, chunk, stops) && left <= keys && key in left && !soFar(keys - left).rejected
    ensures var s, t := soFar(keys - left), soFar(keys - (left - {key}));
      Turns(inputs, s, profile, chunk, key, t) && Served(inputs, s, profile, chunk, key) && (t.rejected ==> stops)
  {
    assert TurnsAt(inputs, soFar, keys, profile, chunk, stops, keys - left, key);
    assert keys - (left - {key}) == (keys - left) + {key};
    hide Turns, Served;
  }

  /** The states the loop over the keys goes through, by the keys it has done. */
  lemma EachTurn(inputs: Inputs, fit: Fit, profile: string, chunk: Chunk, rows: seq<Features>)
    returns (soFar: set<Key> -> Fit, stops: bool)
    requires CanStore(inputs, fit, profile, chunk) && Serves(inputs, Stored(fit, profile, chunk, rows), Completed(fit, profile, chunk))
    ensures EachTurns(inputs, soFar, fit.missing.Keys, profile, chunk, stops)
    ensures soFar({}) == Stored(fit, profile, chunk, rows).(missing := fit.missing)
    ensures soFar(fit.missing.Keys) == ChunkDone(inputs, fit, profile, chunk, rows)
    ensures stops == ChunkDone(inputs, fit, profile, chunk, rows).rejected
  {
    soFar := d => SoFar(inputs, fit, profile, chunk, rows, d);
    stops := Rejects(inputs, fit, Completed(fit, profile, chunk));
    hide Partly, EachTurns, Rejects, Serves, ChunkDone;
    NoneYet(inputs, fit, profile, chunk, rows);
    AllDone(inputs, fit, profile, chunk, rows);
    ChunkRejects(inputs, fit, profile, chunk, rows);
    hide SoFar;
    SoFarTurns(inputs, fit, profile, chunk, rows, soFar, stops);
  }

  lemma SoFarTurns(inputs: Inputs, fit: Fit, profile: string, chunk: Chunk, rows: seq<Features>, soFar: set<Key> -> Fit, stops: bool)
    requires CanStore(inputs, fit, profile, chunk)
    requires forall d :: soFar(d) == SoFar(inputs, fit, profile, chunk, rows, d)
    requires stops == Rejects(inputs, fit, Completed(fit, profile, chunk))
    requires Serves(inputs, Stored(fit, profile, chunk, rows), Completed(fit, profile, chunk))
    ensures EachTurns(inputs, soFar, fit.missing.Keys, profile, chunk, stops)
  {
    forall done, key ensures TurnsAt(inputs, soFar, fit.missing.Keys, profile, chunk, stops, done, key) {
      assert soFar(done) == SoFar(inputs, fit, profile, chunk, rows, done);
      assert soFar(done + {key}) == SoFar(inputs, fit, profile, chunk, rows, done + {key});
      SoFarTurnsAt(inputs, fit, profile, chunk, rows, soFar, stops, done, key);
    }
  }

  lemma SoFarTurnsAt(inputs: Inputs, fit: Fit, profile: string, chunk: Chunk, rows: seq<Features>, soFar: set<Key> -> Fit, stops: bool,
                     done: set<Key>, key: Key)
    requires CanStore(inputs, fit, profile, chunk)
    requires soFar(done) == SoFar(inputs, fit, profile, chunk, rows, done)
    requires soFar(done + {key}) == SoFar(inputs, fit, profile, chunk, rows, done + {key})
    requires stops == Rejects(inputs, fit, Completed(fit, profile, chunk))
    requires Serves(inputs, Stored(fit, profile, chunk, rows), Completed(fit, profile, chunk))
    ensures TurnsAt(inputs, soFar, fit.missing.Keys, profile, chunk, stops, done, key)
  {
    if done <= fit.missing.Keys && key in fit.missing && key !in done && !soFar(done).rejected {
      TurnIs(inputs, fit, profile, chunk, rows, soFar(done), soFar(done + {key}), done, key, stops);
      RowsStay(inputs, fit, profile, chunk, rows, soFar(done), done, key);
    }
  }

  /** A key the chunk completes finds its rows, whichever keys of the profile were assembled before it. */
  ghost predicate Served(inputs: Inputs, s: Fit, profile: string, chunk: Chunk, key: Key) {
    inputs.perTask > 0 && key in s.missing && Matches(s, profile, chunk, key) && s.missing[key] - {chunk} == {}
    ==> key in s.plans && profile in s.stores && HasRows(inputs, s.stores[profile], key, s.plans[key])
  }

  lemma RowsStay(inputs: Inputs, fit: Fit, profile: string, chunk: Chunk, rows: seq<Features>, s: Fit, done: set<Key>, key: Key)
    requires CanStore(inputs, fit, profile, chunk) && key in fit.missing && key !in done
    requires s == SoFar(inputs, fit, profile, chunk, rows, done)
    requires Serves(inputs, Stored(fit, profile, chunk, rows), Completed(fit, profile, chunk))
    ensures Served(inputs, s, profile, chunk, key)
  {
    if key in s.missing && Matches(s, profile, chunk, key) && s.missing[key] - {chunk} == {} {
      assert key in Completed(fit, profile, chunk);
      var p, ready := Partly(fit, profile, chunk, rows, done), Completed(fit, profile, chunk) * done;
      PartlyFacts(inputs, fit, profile, chunk, rows, done, key, p, ready);
      StoreStays(inputs, p, ready, key);
      assert p.stores == Stored(fit, profile, chunk, rows).stores && p.plans == fit.plans;
      hide Partly, Assemble, Stored, HasRows, Completed;
    }
  }

  /** A profile with a key that is not assembled keeps its store. */
  lemma StoreStays(inputs: Inputs, p: Fit, ready: set<Key>, key: Key)
    requires inputs.perTask > 0 && Planned(p, ready) && inputs.IsKey(key) && key !in ready && key !in p.columns && key.profile in p.stores
    ensures var s := Assemble(inputs, p, ready);
      key.profile in s.stores && s.stores[key.profile] == p.stores[key.profile] && (key in s.plans ==> s.plans[key] == p.plans[key])
  {
    assert key == Key(key.profile, key.split);
    assert !ProfileDone(inputs, ColumnsWith(inputs, p, ready), key.profile);
  }

  lemma TurnIs(inputs: Inputs, fit: Fit, profile: string, chunk: Chunk, rows: seq<Features>, s: Fit, t: Fit, done: set<Key>,
               key: Key, stops: bool)
    requires CanStore(inputs, fit, profile, chunk) && done <= fit.missing.Keys && key in fit.missing && key !in done
    requires s == SoFar(inputs, fit, profile, chunk, rows, done) && t == SoFar(inputs, fit, profile, chunk, rows, done + {key})
    requires !s.rejected && stops == Rejects(inputs, fit, Completed(fit, profile, chunk))
    ensures Turns(inputs, s, profile, chunk, key, t) && (t.rejected ==> stops)
  {
    KeyStep(inputs, fit, profile, chunk, rows, done, key, s, t);
    if t.rejected {
      RejectedStays(inputs, fit, profile, chunk, rows, done + {key});
    }
  }

  // ---- assembling one key after another

  /** The chunk stored, and no longer missing for the keys in `done`. */
  ghost function Partly(fit: Fit, profile: string, chunk: Chunk, rows: seq<Features>, done: set<Key>): Fit
    requires profile in fit.arrived && profile in fit.stores
  {
    Stored(fit, profile, chunk, rows).(missing := map k | k in fit.missing ::
      if k.profile == profile && k in done then fit.missing[k] - {chunk} else fit.missing[k])
  }

  /** What `chunk_done` needs of the state, as the invariant of a fit provides it. */
  ghost predicate CanStore(inputs: Inputs, fit: Fit, profile: string, chunk: Chunk) {
    inputs.perTask > 0 && profile in fit.arrived && profile in fit.stores && !fit.rejected
    && Planned(fit, fit.missing.Keys)
    && forall k :: k in fit.missing ==> inputs.IsKey(k) && k !in fit.columns
  }

  ghost function SoFar(inputs: Inputs, fit: Fit, profile: string, chunk: Chunk, rows: seq<Features>, done: set<Key>): Fit
    requires CanStore(inputs, fit, profile, chunk)
  {
    Assemble(inputs, Partly(fit, profile, chunk, rows, done), Completed(fit, profile, chunk) * done)
  }

  lemma NothingAssembled(inputs: Inputs, fit: Fit)
    requires inputs.perTask > 0 && Planned(fit, {})
    ensures Assemble(inputs, fit, {}) == fit
  {
    assert ColumnsWith(inputs, fit, {}) == fit.columns;
    assert StoresWith(inputs, fit, {}, fit.columns) == fit.stores;
    assert fit.missing - {} == fit.missing && fit.entries - {} == fit.entries && fit.plans - {} == fit.plans;
  }

  lemma NoneYet(inputs: Inputs, fit: Fit, profile: string, chunk: Chunk, rows: seq<Features>)
    requires CanStore(inputs, fit, profile, chunk)
    ensures SoFar(inputs, fit, profile, chunk, rows, {}) == Stored(fit, profile, chunk, rows).(missing := fit.missing)
  {
    PartlyNone(fit, profile, chunk, rows);
    assert Completed(fit, profile, chunk) * {} == {};
    hide Partly, Completed, Assemble, Stored;
    NothingAssembled(inputs, Partly(fit, profile, chunk, rows, {}));
  }

  lemma PartlyNone(fit: Fit, profile: string, chunk: Chunk, rows: seq<Features>)
    requires profile in fit.arrived && profile in fit.stores
    ensures Partly(fit, profile, chunk, rows, {}) == Stored(fit, profile, chunk, rows).(missing := fit.missing)
  {
    assert Partly(fit, profile, chunk, rows, {}).missing == fit.missing;
  }

  lemma PartlyAll(fit: Fit, profile: string, chunk: Chunk, rows: seq<Features>)
    requires profile in fit.arrived && profile in fit.stores
    ensures Partly(fit, profile, chunk, rows, fit.missing.Keys) == Stored(fit, profile, chunk, rows)
  {
    assert Partly(fit, profile, chunk, rows, fit.missing.Keys).missing == Stored(fit, profile, chunk, rows).missing;
  }

  lemma ChunkRejects(inputs: Inputs, fit: Fit, profile: string, chunk: Chunk, rows: seq<Features>)
    requires CanStore(inputs, fit, profile, chunk)
    ensures Rejects(inputs, fit, Completed(fit, profile, chunk)) == ChunkDone(inputs, fit, profile, chunk, rows).rejected
  {}

  lemma AllDone(inputs: Inputs, fit: Fit, profile: string, chunk: Chunk, rows: seq<Features>)
    requires CanStore(inputs, fit, profile, chunk)
    ensures SoFar(inputs, fit, profile, chunk, rows, fit.missing.Keys) == ChunkDone(inputs, fit, profile, chunk, rows)
  {
    var all := fit.missing.Keys;
    assert Completed(fit, profile, chunk) * all == Completed(fit, profile, chunk);
    PartlyAll(fit, profile, chunk, rows);
    hide Partly, Stored, Completed, Assemble;
  }

  ghost predicate Matches(fit: Fit, profile: string, chunk: Chunk, key: Key)
    requires key in fit.missing
  {
    key.profile == profile && chunk in fit.missing[key]
  }

  ghost predicate FailsAt(inputs: Inputs, fit: Fit, profile: string, chunk: Chunk, key: Key)
    requires key in fit.missing && key in fit.entries
  {
    Matches(fit, profile, chunk, key) && fit.missing[key] - {chunk} == {} && !inputs.Accepts(key.split, fit.entries[key])
  }

  ghost function Discarded(inputs: Inputs, fit: Fit, profile: string, chunk: Chunk, key: Key): Fit
    requires inputs.perTask > 0 && key in fit.missing && Planned(fit, {key})
  {
    if !Matches(fit, profile, chunk, key) then fit
    else
      var less := fit.(missing := fit.missing[key := fit.missing[key] - {chunk}]);
      if less.missing[key] == {} then OneMore(inputs, less, key, Assembled(inputs, less, key)) else less
  }

  lemma RejectedStays(inputs: Inputs, fit: Fit, profile: string, chunk: Chunk, rows: seq<Features>, done: set<Key>)
    requires CanStore(inputs, fit, profile, chunk) && SoFar(inputs, fit, profile, chunk, rows, done).rejected
    ensures Rejects(inputs, fit, Completed(fit, profile, chunk))
  {
    var k :| k in Completed(fit, profile, chunk) * done && !inputs.Accepts(k.split, fit.entries[k]);
    assert k in Completed(fit, profile, chunk);
  }

  /** Assembling some keys and then one more of the same profile is assembling them together. */
  lemma OneAfterOthers(inputs: Inputs, fit: Fit, ready: set<Key>, key: Key)
    requires inputs.perTask > 0 && Planned(fit, ready + {key}) && key !in ready && key !in fit.columns && inputs.IsKey(key)
    requires forall k :: k in ready ==> k.profile == key.profile
    requires key in fit.missing && !fit.rejected && !Rejects(inputs, fit, ready)
    ensures var some := Assemble(inputs, fit, ready);
      key in some.missing && Planned(some, {key})
      && Assemble(inputs, fit, ready + {key}).rejected == !inputs.Accepts(key.split, fit.entries[key])
      && (inputs.Accepts(key.split, fit.entries[key]) ==>
            OneMore(inputs, some, key, Assembled(inputs, some, key)) == Assemble(inputs, fit, ready + {key}))
  {
    var some := Assemble(inputs, fit, ready);
    assert key !in some.columns;
    assert !ProfileDone(inputs, some.columns, key.profile);
    assert some.stores == fit.stores;
    assert Assembled(inputs, some, key) == Assembled(inputs, fit, key);
    MoreColumns(inputs, fit, ready, key);
    MoreStores(inputs, fit, ready, key, ColumnsWith(inputs, fit, ready + {key}));
    MoreRejects(inputs, fit, ready, key);
    hide ColumnsWith, StoresWith, Assembled, ProfileDone, Rejects;
    WithoutBoth(fit.missing, ready, key);
    WithoutBoth(fit.entries, ready, key);
    WithoutBoth(fit.plans, ready, key);
  }

  lemma WithoutBoth<T>(m: map<Key, T>, some: set<Key>, key: Key)
    ensures m - some - {key} == m - (some + {key})
  {}

  lemma PartlyMore(fit: Fit, profile: string, chunk: Chunk, rows: seq<Features>, done: set<Key>, key: Key)
    requires profile in fit.arrived && profile in fit.stores && key in fit.missing && key !in done
    ensures var p := Partly(fit, profile, chunk, rows, done);
      Partly(fit, profile, chunk, rows, done + {key})
      == if key.profile == profile then p.(missing := p.missing[key := fit.missing[key] - {chunk}]) else p
  {
    var p := Partly(fit, profile, chunk, rows, done);
    assert Partly(fit, profile, chunk, rows, done + {key}).missing
        == if key.profile == profile then p.missing[key := fit.missing[key] - {chunk}] else p.missing;
  }

  /** Discarding a chunk for a key not yet assembled, before or after assembling others. */
  lemma DiscardInside(inputs: Inputs, p: Fit, q: Fit, key: Key, left: set<Chunk>, ready: set<Key>)
    requires inputs.perTask > 0 && Planned(p, ready) && key in p.missing && key !in ready
    requires q == p.(missing := p.missing[key := left])
    ensures var s := Assemble(inputs, p, ready);
      s.missing == p.missing - ready
      && Assemble(inputs, q, ready) == s.(missing := s.missing[key := left]) && (!s.rejected ==> !Rejects(inputs, q, ready))
  {
    assert p.missing[key := left] - ready == (p.missing - ready)[key := left];
    SameAssembled(inputs, p, q, ready);
  }

  lemma SameColumns(inputs: Inputs, p: Fit, q: Fit, ready: set<Key>)
    requires inputs.perTask > 0 && Planned(p, ready) && q == p.(missing := q.missing)
    ensures Planned(q, ready) && ColumnsWith(inputs, p, ready) == ColumnsWith(inputs, q, ready)
    ensures Rejects(inputs, p, ready) == Rejects(inputs, q, ready)
  {
    forall k | k in ready ensures Assembled(inputs, p, k) == Assembled(inputs, q, k) {}
  }

  lemma SameAssembled(inputs: Inputs, p: Fit, q: Fit, ready: set<Key>)
    requires inputs.perTask > 0 && Planned(p, ready) && q == p.(missing := q.missing)
    ensures Planned(q, ready)
    ensures Assemble(inputs, q, ready) == Assemble(inputs, p, ready).(missing := q.missing - ready)
  {
    SameColumns(inputs, p, q, ready);
    assert StoresWith(inputs, p, ready, ColumnsWith(inputs, p, ready)) == StoresWith(inputs, q, ready, ColumnsWith(inputs, q, ready));
  }

  lemma KeyUnmatched(inputs: Inputs, fit: Fit, profile: string, chunk: Chunk, rows: seq<Features>, done: set<Key>, key: Key)
    requires CanStore(inputs, fit, profile, chunk) && key in fit.missing && key !in done && !Matches(fit, profile, chunk, key)
    ensures SoFar(inputs, fit, profile, chunk, rows, done + {key}) == SoFar(inputs, fit, profile, chunk, rows, done)
  {
    assert Completed(fit, profile, chunk) * (done + {key}) == Completed(fit, profile, chunk) * done;
    PartlyMore(fit, profile, chunk, rows, done, key);
    var p := Partly(fit, profile, chunk, rows, done);
    hide Assemble, Stored, Completed;
    if key.profile == profile {
      assert fit.missing[key] - {chunk} == fit.missing[key];
      assert p.missing[key := fit.missing[key]] == p.missing;
    }
  }

  /** One turn of the loop takes `s` to `t`, unless the key it completes is rejected. */
  ghost predicate Turns(inputs: Inputs, s: Fit, profile: string, chunk: Chunk, key: Key, t: Fit) {
    inputs.perTask > 0 && key in s.missing && Planned(s, {key}) && (FailsAt(inputs, s, profile, chunk, key) <==> t.rejected)
    && (!FailsAt(inputs, s, profile, chunk, key) ==> Discarded(inputs, s, profile, chunk, key) == t)
  }

  lemma KeyMatched(inputs: Inputs, p: Fit, q: Fit, left: set<Chunk>, key: Key, ready: set<Key>, profile: string, chunk: Chunk,
                   s: Fit, t: Fit)
    requires inputs.perTask > 0 && Planned(p, ready + {key}) && key in p.missing && key !in ready && key !in p.columns
    requires inputs.IsKey(key) && key.profile == profile && forall k :: k in ready ==> k.profile == profile
    requires q == p.(missing := p.missing[key := left]) && !p.rejected
    requires chunk in p.missing[key] && left == p.missing[key] - {chunk}
    requires s == Assemble(inputs, p, ready) && t == Assemble(inputs, q, if left == {} then ready + {key} else ready) && !s.rejected
    ensures Turns(inputs, s, profile, chunk, key, t)
  {
    hide Turns, OneMore, Assembled, Assemble, Rejects;
    StillPlanned(inputs, p, ready, key);
    DiscardInside(inputs, p, q, key, left, ready);
    if left == {} {
      OneAfterOthers(inputs, q, ready, key);
      TurnsDone(inputs, s, Assemble(inputs, q, ready), profile, chunk, key, t);
    } else {
      TurnsLess(inputs, s, profile, chunk, key, t);
    }
  }

  lemma TurnsLess(inputs: Inputs, s: Fit, profile: string, chunk: Chunk, key: Key, t: Fit)
    requires inputs.perTask > 0 && key in s.missing && Planned(s, {key}) && Matches(s, profile, chunk, key) && !s.rejected
    requires s.missing[key] - {chunk} != {} && t == s.(missing := s.missing[key := s.missing[key] - {chunk}])
    ensures Turns(inputs, s, profile, chunk, key, t)
  {}

  lemma TurnsDone(inputs: Inputs, s: Fit, less: Fit, profile: string, chunk: Chunk, key: Key, t: Fit)
    requires inputs.perTask > 0 && key in s.missing && Planned(s, {key}) && Matches(s, profile, chunk, key)
    requires s.missing[key] - {chunk} == {} && less == s.(missing := s.missing[key := s.missing[key] - {chunk}])
    requires t.rejected == !inputs.Accepts(key.split, s.entries[key])
    requires inputs.Accepts(key.split, s.entries[key]) ==> OneMore(inputs, less, key, Assembled(inputs, less, key)) == t
    ensures Turns(inputs, s, profile, chunk, key, t)
  {
    hide OneMore, Assembled;
  }

  lemma StillPlanned(inputs: Inputs, p: Fit, ready: set<Key>, key: Key)
    requires inputs.perTask > 0 && Planned(p, ready + {key}) && key in p.missing && key !in ready
    ensures var s := Assemble(inputs, p, ready);
      key in s.missing && s.missing[key] == p.missing[key] && Planned(s, {key}) && s.entries[key] == p.entries[key]
  {}

  /** One turn of the loop over the keys. */
  lemma KeyStep(inputs: Inputs, fit: Fit, profile: string, chunk: Chunk, rows: seq<Features>, done: set<Key>, key: Key, s: Fit, t: Fit)
    requires CanStore(inputs, fit, profile, chunk) && done <= fit.missing.Keys && key in fit.missing && key !in done
    requires s == SoFar(inputs, fit, profile, chunk, rows, done) && t == SoFar(inputs, fit, profile, chunk, rows, done + {key})
    requires !s.rejected
    ensures Turns(inputs, s, profile, chunk, key, t)
  {
    var p, q := Partly(fit, profile, chunk, rows, done), Partly(fit, profile, chunk, rows, done + {key});
    var ready := Completed(fit, profile, chunk) * done;
    PartlyFacts(inputs, fit, profile, chunk, rows, done, key, p, ready);
    if Matches(fit, profile, chunk, key) {
      PartlyMore(fit, profile, chunk, rows, done, key);
      CompletedMore(fit, profile, chunk, done, key, fit.missing[key] - {chunk});
      KeyMatched(inputs, p, q, fit.missing[key] - {chunk}, key, ready, profile, chunk, s, t);
    } else {
      KeyUnmatched(inputs, fit, profile, chunk, rows, done, key);
      StillPlanned(inputs, p, ready, key);
    }
  }

  lemma PartlyFacts(inputs: Inputs, fit: Fit, profile: string, chunk: Chunk, rows: seq<Features>, done: set<Key>, key: Key,
                    p: Fit, ready: set<Key>)
    requires CanStore(inputs, fit, profile, chunk) && key in fit.missing && key !in done
    requires p == Partly(fit, profile, chunk, rows, done) && ready == Completed(fit, profile, chunk) * done
    ensures Planned(p, ready + {key}) && key in p.missing && p.missing[key] == fit.missing[key] && key !in p.columns
    ensures key !in ready && !p.rejected && inputs.IsKey(key) && forall k :: k in ready ==> k.profile == profile
  {}

  lemma CompletedMore(fit: Fit, profile: string, chunk: Chunk, done: set<Key>, key: Key, left: set<Chunk>)
    requires key in fit.missing && key !in done && Matches(fit, profile, chunk, key) && left == fit.missing[key] - {chunk}
    ensures var ready := Completed(fit, profile, chunk) * done;
      Completed(fit, profile, chunk) * (done + {key}) == if left == {} then ready + {key} else ready
  {
    if left == {} { assert key in Completed(fit, profile, chunk); }
  }

  lemma MoreColumns(inputs: Inputs, fit: Fit, ready: set<Key>, key: Key)
    requires inputs.perTask > 0 && Planned(fit, ready + {key}) && key !in ready
    ensures Planned(fit, ready)
    ensures ColumnsWith(inputs, fit, ready)[key := Assembled(inputs, fit, key)] == ColumnsWith(inputs, fit, ready + {key})
  {}

  lemma MoreStores(inputs: Inputs, fit: Fit, ready: set<Key>, key: Key, columns: map<Key, seq<Column>>)
    requires key.profile in fit.stores && forall k :: k in ready ==> k.profile == key.profile
    ensures StoresWith(inputs, fit, ready + {key}, columns)
         == if ProfileDone(inputs, columns, key.profile) then fit.stores[key.profile := map[]] else fit.stores
  {
    assert key in ready + {key};
  }

  lemma MoreRejects(inputs: Inputs, fit: Fit, ready: set<Key>, key: Key)
    requires forall k :: k in ready + {key} ==> k in fit.entries
    ensures Rejects(inputs, fit, ready + {key}) == (Rejects(inputs, fit, ready) || !inputs.Accepts(key.split, fit.entries[key]))
  {
    if !inputs.Accepts(key.split, fit.entries[key]) { assert key in ready + {key}; }
    if Rejects(inputs, fit, ready) {
      var k :| k in ready && !inputs.Accepts(k.split, fit.entries[k]);
      assert k in ready + {key};
    }
  }

  ghost function OneMore(inputs: Inputs, before: Fit, key: Key, made: seq<Column>): Fit {
    var columns := before.columns[key := made];
    before.(
      missing := before.missing - {key}, columns := columns, entries := before.entries - {key}, plans := before.plans - {key},
      stores := if ProfileDone(inputs, columns, key.profile) then before.stores[key.profile := map[]] else before.stores)
  }

  lemma IsOneMore(inputs: Inputs, before: Fit, key: Key, made: seq<Column>, after: Fit)
    requires after == before.(missing := after.missing, columns := after.columns, entries := after.entries, plans := after.plans,
                              stores := after.stores)
    requires after.missing == before.missing - {key} && after.entries == before.entries - {key} && after.plans == before.plans - {key}
    requires after.columns == before.columns[key := made]
    requires after.stores == if ProfileDone(inputs, after.columns, key.profile) then before.stores[key.profile := map[]] else before.stores
    ensures after == OneMore(inputs, before, key, made)
  {}

  lemma OneAssembled(inputs: Inputs, before: Fit, key: Key)
    requires inputs.perTask > 0 && Planned(before, {key}) && !before.rejected && key in before.missing
    ensures Assemble(inputs, before, {key}).rejected == !inputs.Accepts(key.split, before.entries[key])
    ensures !Assemble(inputs, before, {key}).rejected ==>
      Assemble(inputs, before, {key}) == OneMore(inputs, before, key, Assembled(inputs, before, key))
  {
    OneRejected(inputs, before, key);
    OneColumn(inputs, before, key);
    OneStore(inputs, before, key, before.columns[key := Assembled(inputs, before, key)]);
  }

  lemma OneRejected(inputs: Inputs, before: Fit, key: Key)
    requires key in before.entries
    ensures Rejects(inputs, before, {key}) == !inputs.Accepts(key.split, before.entries[key])
  {
    assert key in {key};
  }

  lemma OneColumn(inputs: Inputs, before: Fit, key: Key)
    requires inputs.perTask > 0 && Planned(before, {key})
    ensures ColumnsWith(inputs, before, {key}) == before.columns[key := Assembled(inputs, before, key)]
  {
    assert key in {key};
  }

  lemma OneStore(inputs: Inputs, before: Fit, key: Key, columns: map<Key, seq<Column>>)
    requires key.profile in before.stores
    ensures StoresWith(inputs, before, {key}, columns)
         == if ProfileDone(inputs, columns, key.profile) then before.stores[key.profile := map[]] else before.stores
  {
    assert key in {key};
  }
}
