/**
 The state of a fit's curricula and features (`Build`), and what each finished task does to it. A callback
 returns the tasks it adds. The feature store is seen by names: ids and their order of arrival do not appear.
 */
module FitState {
  import opened Wrappers
  import opened FitPlan

  datatype Job =
    | Historical
    | Captured(index: nat)
    | Capitals
    | English
    | TailTask
    | Chain(key: Key, extra: Option<seq<Frame>>, tail: Option<seq<Frame>>)
    | Spans(key: Key)
    | Featurise(profile: string, chunk: Chunk, frames: seq<Frame>)

  datatype Priority = Critical | Curricula | Wanted | Ahead

  datatype Request = Request(priority: Priority, job: Job)

  datatype Fit = Fit(
    historical: Option<seq<Frame>>,
    captured: map<nat, seq<Frame>>,
    capitals: Option<seq<Frame>>,
    english: Option<seq<Frame>>,
    tail: Option<seq<Frame>>,
    extra: seq<Frame>,
    chains: map<Key, seq<Frame>>,
    spans: map<Key, seq<Frame>>,
    entries: map<Key, seq<Frame>>,
    plans: map<Key, seq<Slot>>,
    missing: map<Key, set<Chunk>>,
    arrived: map<string, set<Chunk>>,
    stores: map<string, map<Chunk, seq<Features>>>,
    columns: map<Key, seq<Column>>,
    rejected: bool)

  // ---- the tasks

  /** One feature task per `perTask` frames, from `start` on. */
  function ChunkRequests(inputs: Inputs, priority: Priority, profile: string, source: Source, split: string,
                         frames: seq<Frame>, start: nat): seq<Request>
    requires inputs.perTask > 0
    decreases if start < |frames| then |frames| - start else 0
  {
    if start >= |frames| then []
    else [Request(priority, Featurise(profile, Chunk(source, split, start), inputs.Share(frames, start)))]
         + ChunkRequests(inputs, priority, profile, source, split, frames, start + inputs.perTask)
  }

  /** The keys, profile by profile. */
  function KeysOf(profile: string, splits: seq<string>): seq<Key> {
    if splits == [] then [] else KeysOf(profile, splits[..|splits| - 1]) + [Key(profile, splits[|splits| - 1])]
  }

  function KeyList(profiles: seq<string>, splits: seq<string>): seq<Key> {
    if profiles == [] then []
    else KeyList(profiles[..|profiles| - 1], splits) + KeysOf(profiles[|profiles| - 1], splits)
  }

  function CapturedRequests(count: nat): seq<Request> {
    if count == 0 then [] else CapturedRequests(count - 1) + [Request(Critical, Captured(count - 1))]
  }

  /** The curricula of one key that need not wait. */
  function KeyRequests(inputs: Inputs, key: Key): seq<Request> {
    (if key.split != TRAIN then [Request(Curricula, Chain(key, None, None))] else [])
    + (if inputs.frozen && key.split == TRAIN then [] else [Request(Curricula, Spans(key))])
  }

  function AllKeyRequests(inputs: Inputs, keys: seq<Key>): seq<Request> {
    if keys == [] then []
    else AllKeyRequests(inputs, keys[..|keys| - 1]) + KeyRequests(inputs, keys[|keys| - 1])
  }

  /** The natural frames, featurised ahead of their curricula unless TRAIN is framed for the heads or the tail alone. */
  function KeyNatural(inputs: Inputs, key: Key): seq<Request>
    requires inputs.perTask > 0
  {
    if (inputs.frozen || inputs.heads) && key.split == TRAIN then []
    else ChunkRequests(inputs, Ahead, key.profile, Natural, key.split, inputs.natural(key.split), 0)
  }

  function NaturalRequests(inputs: Inputs, keys: seq<Key>): seq<Request>
    requires inputs.perTask > 0
  {
    if keys == [] then []
    else NaturalRequests(inputs, keys[..|keys| - 1]) + KeyNatural(inputs, keys[|keys| - 1])
  }

  function BuiltRequests(inputs: Inputs): seq<Request> {
    [Request(Critical, Historical)] + CapturedRequests(|inputs.captured|) + [Request(Critical, Capitals), Request(Critical, English)]
  }

  function CurriculaRequests(inputs: Inputs): seq<Request> {
    (if inputs.BuildsCurricula() then BuiltRequests(inputs) else [])
    + if inputs.Trains() then [Request(Critical, TailTask)] else []
  }

  /** What `run` adds before the scheduler starts. */
  function FirstRequests(inputs: Inputs): seq<Request>
    requires inputs.perTask > 0
  {
    var keys := KeyList(inputs.profiles, inputs.splits);
    CurriculaRequests(inputs) + AllKeyRequests(inputs, keys) + NaturalRequests(inputs, keys)
  }

  function NothingCaptured(count: nat): (r: map<nat, seq<Frame>>)
    ensures forall i: nat :: i in r <==> i < count
    ensures forall i :: i in r ==> r[i] == []
  {
    if count == 0 then map[] else NothingCaptured(count - 1)[count - 1 := []]
  }

  /** The state `run` starts from: what is not built is empty and in. */
  function FirstFit(inputs: Inputs): Fit {
    var unbuilt := !inputs.BuildsCurricula();
    var nothing: Option<seq<Frame>> := if unbuilt then Some([]) else None;
    Fit(
      historical := nothing,
      captured := if unbuilt then NothingCaptured(|inputs.captured|) else map[],
      capitals := nothing,
      english := nothing,
      tail := if inputs.Trains() then None else Some([]),
      extra := [],
      chains := map[],
      spans := if inputs.frozen then map k | k in inputs.Keys() && k.split == TRAIN :: [] else map[],
      entries := map[],
      plans := map[],
      missing := map[],
      arrived := map p | p in inputs.profiles :: {},
      stores := map p | p in inputs.profiles :: map[],
      columns := map[],
      rejected := false)
  }

  // ---- callbacks

  predicate CurriculaIn(inputs: Inputs, fit: Fit) {
    fit.historical.Some? && fit.capitals.Some? && fit.english.Some? && fit.tail.Some?
    && |fit.captured| >= |inputs.captured|
  }

  function CapturedSoFar(fit: Fit, count: nat): seq<Frame> {
    if count == 0 then []
    else CapturedSoFar(fit, count - 1) + if count - 1 in fit.captured then fit.captured[count - 1] else []
  }

  function ExtraSoFar(inputs: Inputs, fit: Fit): seq<Frame>
    requires CurriculaIn(inputs, fit)
  {
    fit.historical.value + CapturedSoFar(fit, |inputs.captured|) + fit.capitals.value + fit.english.value
  }

  /** One profile's TRAIN chain, and the features of its frames ahead of it. */
  function ProfileRequests(inputs: Inputs, profile: string, extra: seq<Frame>, tail: seq<Frame>): seq<Request>
    requires inputs.perTask > 0
  {
    [Request(Critical, Chain(Key(profile, TRAIN), Some(extra), Some(tail)))]
    + if inputs.heads then []
      else ChunkRequests(inputs, Ahead, profile, Source.Extra, TRAIN, extra, 0)
           + ChunkRequests(inputs, Ahead, profile, Source.Tail, TRAIN, tail, 0)
  }

  function TrainRequests(inputs: Inputs, profiles: seq<string>, extra: seq<Frame>, tail: seq<Frame>): seq<Request>
    requires inputs.perTask > 0
  {
    if profiles == [] then []
    else TrainRequests(inputs, profiles[..|profiles| - 1], extra, tail)
         + ProfileRequests(inputs, profiles[|profiles| - 1], extra, tail)
  }

  /** `extra_ready`: once the five curricula are in, the TRAIN chains start. */
  function ExtraReady(inputs: Inputs, fit: Fit): (Fit, seq<Request>)
    requires inputs.perTask > 0
  {
    if !CurriculaIn(inputs, fit) then (fit, [])
    else
      var extra := ExtraSoFar(inputs, fit);
      (fit.(extra := extra), TrainRequests(inputs, inputs.profiles, extra, fit.tail.value))
  }

  /** A slot's features in the store. */
  function StoredRow(inputs: Inputs, store: map<Chunk, seq<Features>>, key: Key, slot: Slot): Features
    requires inputs.perTask > 0
  {
    var chunk := inputs.SlotChunk(key, slot);
    if chunk in store && slot.number % inputs.perTask < |store[chunk]| then store[chunk][slot.number % inputs.perTask] else []
  }

  /** The columns of a planned key, read out of its profile's store in the order of its frames. */
  function Assembled(inputs: Inputs, fit: Fit, key: Key): (r: seq<Column>)
    requires inputs.perTask > 0 && key in fit.plans && key in fit.entries && key.profile in fit.stores
    requires |fit.plans[key]| == |fit.entries[key]|
  {
    seq(|fit.plans[key]|, i requires 0 <= i < |fit.plans[key]| =>
      inputs.ColumnOf(StoredRow(inputs, fit.stores[key.profile], key, fit.plans[key][i]), fit.entries[key][i]))
  }

  ghost predicate Planned(fit: Fit, keys: set<Key>) {
    forall k :: k in keys ==>
      k in fit.plans && k in fit.entries && k.profile in fit.stores && |fit.plans[k]| == |fit.entries[k]|
  }

  predicate ProfileDone(inputs: Inputs, columns: map<Key, seq<Column>>, profile: string) {
    forall s :: s in inputs.splits ==> Key(profile, s) in columns
  }

  function ColumnsWith(inputs: Inputs, fit: Fit, ready: set<Key>): map<Key, seq<Column>>
    requires inputs.perTask > 0
    requires forall k :: k in ready ==> k in fit.plans && k in fit.entries && k.profile in fit.stores && |fit.plans[k]| == |fit.entries[k]|
  {
    fit.columns + map k | k in ready :: Assembled(inputs, fit, k)
  }

  /** A profile whose last split is assembled drops its store. */
  ghost function StoresWith(inputs: Inputs, fit: Fit, ready: set<Key>, columns: map<Key, seq<Column>>)
    : map<string, map<Chunk, seq<Features>>>
  {
    map p | p in fit.stores ::
      if (exists k :: k in ready && k.profile == p) && ProfileDone(inputs, columns, p) then map[] else fit.stores[p]
  }

  ghost predicate Rejects(inputs: Inputs, fit: Fit, ready: set<Key>)
    requires forall k :: k in ready ==> k in fit.entries
  {
    exists k :: k in ready && !inputs.Accepts(k.split, fit.entries[k])
  }

  /** `assemble` for the keys whose features are all in; a profile with every split done drops its store. */
  ghost function Assemble(inputs: Inputs, fit: Fit, ready: set<Key>): Fit
    requires inputs.perTask > 0 && Planned(fit, ready)
  {
    fit.(
      missing := fit.missing - ready,
      columns := ColumnsWith(inputs, fit, ready),
      entries := fit.entries - ready,
      plans := fit.plans - ready,
      stores := StoresWith(inputs, fit, ready, ColumnsWith(inputs, fit, ready)),
      rejected := fit.rejected || Rejects(inputs, fit, ready))
  }

  /** The frames featurised ahead for a key, as the state holds them. */
  function AheadFor(inputs: Inputs, fit: Fit, key: Key): FramesAhead {
    var own := key.split == TRAIN && !inputs.Selects(key);
    FramesAhead(
      inputs.NaturalOf(key),
      if own then fit.extra else [],
      if own && fit.tail.Some? then fit.tail.value else [])
  }

  function Framed(inputs: Inputs, fit: Fit, key: Key): seq<Frame>
    requires key in fit.chains && key in fit.spans
  {
    var frames := inputs.prepared(fit.chains[key], fit.spans[key], key.split);
    if inputs.Selects(key) then inputs.OnlyHeads(frames) else frames
  }

  function ChunksOf(inputs: Inputs, key: Key, slots: seq<Slot>): (r: set<Chunk>)
    requires inputs.perTask > 0
  {
    set slot | slot in slots :: inputs.SlotChunk(key, slot)
  }

  /** The state with a key's final frames and slots: it waits for the chunks that are not in. */
  function PlannedAs(inputs: Inputs, fit: Fit, key: Key, frames: seq<Frame>, slots: seq<Slot>): Fit
    requires inputs.perTask > 0 && key.profile in fit.arrived
  {
    fit.(
      chains := fit.chains[key := []],
      entries := fit.entries[key := frames],
      plans := fit.plans[key := slots],
      missing := fit.missing[key := ChunksOf(inputs, key, slots) - fit.arrived[key.profile]])
  }

  /** The state once a key is planned, before it may be assembled at once. */
  function PlanKey(inputs: Inputs, fit: Fit, key: Key): (Fit, seq<Request>)
    requires inputs.perTask > 0 && key in fit.chains && key in fit.spans && key.profile in fit.arrived
  {
    var entries := Framed(inputs, fit, key);
    var plan := PlanOf(AheadFor(inputs, fit, key), entries);
    (PlannedAs(inputs, fit, key, entries, plan.slots),
     ChunkRequests(inputs, Wanted, key.profile, Fresh, key.split, plan.late, 0))
  }

  /** `frames_ready`: with its chain and its spans in, a key is planned, and assembled if nothing is missing. */
  ghost function FramesReady(inputs: Inputs, fit: Fit, key: Key): (Fit, seq<Request>)
    requires inputs.perTask > 0 && key.profile in fit.arrived && key.profile in fit.stores
  {
    if key !in fit.chains || key !in fit.spans then (fit, [])
    else
      var (planned, requests) := PlanKey(inputs, fit, key);
      (if planned.missing[key] == {} then Assemble(inputs, planned, {key}) else planned, requests)
  }

  /** The keys a chunk completes. */
  function Completed(fit: Fit, profile: string, chunk: Chunk): set<Key> {
    set k | k in fit.missing && k.profile == profile && chunk in fit.missing[k] && fit.missing[k] - {chunk} == {}
  }

  /** A chunk's features in the store, and one thing less missing for the profile's keys. */
  function Stored(fit: Fit, profile: string, chunk: Chunk, rows: seq<Features>): Fit
    requires profile in fit.arrived && profile in fit.stores
  {
    fit.(
      stores := fit.stores[profile := fit.stores[profile][chunk := rows]],
      arrived := fit.arrived[profile := fit.arrived[profile] + {chunk}],
      missing := map k | k in fit.missing :: if k.profile == profile then fit.missing[k] - {chunk} else fit.missing[k])
  }

  /** `chunk_done`. */
  ghost function ChunkDone(inputs: Inputs, fit: Fit, profile: string, chunk: Chunk, rows: seq<Features>): Fit
    requires inputs.perTask > 0 && profile in fit.arrived && profile in fit.stores
    requires Planned(fit, Completed(fit, profile, chunk))
  {
    Assemble(inputs, Stored(fit, profile, chunk, rows), Completed(fit, profile, chunk))
  }

  /** Whether a callback can run: what the invariant of a fit provides. */
  ghost predicate CanFinish(fit: Fit, job: Job) {
    match job
    case Chain(key, _, _) => key.profile in fit.arrived && key.profile in fit.stores
    case Spans(key) => key.profile in fit.arrived && key.profile in fit.stores
    case Featurise(profile, chunk, _) =>
      profile in fit.arrived && profile in fit.stores && Planned(fit, Completed(fit, profile, chunk))
    case _ => true
  }

  /** A curriculum's rows in the state. */
  function Curriculum(inputs: Inputs, fit: Fit, job: Job): Fit {
    match job
    case Historical => fit.(historical := Some(inputs.historical))
    case Captured(i) => fit.(captured := fit.captured[i := if i < |inputs.captured| then inputs.captured[i] else []])
    case Capitals => fit.(capitals := Some(inputs.capitals))
    case English => fit.(english := Some(inputs.english))
    case TailTask => fit.(tail := Some(inputs.tail))
    case _ => fit
  }

  /** A finished task's callback with the task's result. */
  ghost function Finish(inputs: Inputs, fit: Fit, job: Job): (Fit, seq<Request>)
    requires inputs.perTask > 0 && CanFinish(fit, job)
  {
    match job
    case Chain(key, extra, tail) =>
      FramesReady(inputs, fit.(chains := fit.chains[key := inputs.chain(key, extra, tail)]), key)
    case Spans(key) => FramesReady(inputs, fit.(spans := fit.spans[key := inputs.spans(key)]), key)
    case Featurise(profile, chunk, frames) =>
      (ChunkDone(inputs, fit, profile, chunk, inputs.FeaturesOf(profile, chunk.split, frames)), [])
    case _ => ExtraReady(inputs, Curriculum(inputs, fit, job))
  }
}
