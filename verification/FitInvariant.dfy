/** What every state of a fit keeps, whatever order its tasks finish in. */
module FitInvariant {
  import opened FitPlan
  import opened FitState

  /** Names are used once, tasks hold at least one frame. */
  ghost predicate Proper(inputs: Inputs) {
    && inputs.perTask > 0
    && (forall i, j :: 0 <= i < j < |inputs.profiles| ==> inputs.profiles[i] != inputs.profiles[j])
    && (forall i, j :: 0 <= i < j < |inputs.splits| ==> inputs.splits[i] != inputs.splits[j])
  }

  // ---- curricula

  ghost predicate Values(inputs: Inputs, fit: Fit) {
    && (fit.historical.Some? ==> fit.historical.value == inputs.HistoricalRows())
    && (fit.capitals.Some? ==> fit.capitals.value == inputs.CapitalsRows())
    && (fit.english.Some? ==> fit.english.value == inputs.EnglishRows())
    && (fit.tail.Some? ==> fit.tail.value == inputs.TailRows())
    && (forall i :: i in fit.captured ==> i < |inputs.captured| && fit.captured[i] == inputs.CapturedRows(i))
    && (CurriculaIn(inputs, fit) && inputs.Trains() ==> fit.extra == inputs.ExtraRows())
  }

  ghost predicate Chained(inputs: Inputs, fit: Fit) { forall k: Key :: Linked(inputs, fit, k) }

  ghost predicate Linked(inputs: Inputs, fit: Fit, k: Key) {
    && (k in fit.chains ==> inputs.IsKey(k) && (k.split == TRAIN ==> CurriculaIn(inputs, fit)))
    && (k in fit.spans ==> inputs.IsKey(k) && fit.spans[k] == inputs.SpanRows(k))
    && (k in fit.chains && k !in fit.spans ==> fit.chains[k] == inputs.ChainRows(k))
  }

  /** How often a curriculum task is outstanding: once from when it may start until its result is in. */
  ghost function Expected(inputs: Inputs, fit: Fit, job: Job): nat {
    match job
    case Historical => if inputs.BuildsCurricula() && fit.historical.None? then 1 else 0
    case Captured(i) => if inputs.BuildsCurricula() && i < |inputs.captured| && i !in fit.captured then 1 else 0
    case Capitals => if inputs.BuildsCurricula() && fit.capitals.None? then 1 else 0
    case English => if inputs.BuildsCurricula() && fit.english.None? then 1 else 0
    case TailTask => if inputs.Trains() && fit.tail.None? then 1 else 0
    case Chain(key, extra, tail) =>
      if inputs.IsKey(key) && key !in fit.chains && (extra, tail) == inputs.ChainArguments(key)
         && (key.split == TRAIN ==> CurriculaIn(inputs, fit)) then 1 else 0
    case Spans(key) =>
      if inputs.IsKey(key) && key !in fit.spans && !(inputs.frozen && key.split == TRAIN) then 1 else 0
    case Featurise(_, _, _) => 0
  }

  ghost predicate Tasks(inputs: Inputs, fit: Fit, out: multiset<Job>) {
    forall j: Job {:trigger Expected(inputs, fit, j)} :: !j.Featurise? ==> out[j] == Expected(inputs, fit, j)
  }

  // ---- features

  /** The frames of a source whose feature tasks have been added. */
  ghost function Released(inputs: Inputs, fit: Fit, profile: string, source: Source, split: string): seq<Frame> {
    var train := split == TRAIN && inputs.Trains() && CurriculaIn(inputs, fit) && !inputs.heads;
    match source
    case Natural =>
      if split in inputs.splits && !((inputs.frozen || inputs.heads) && split == TRAIN) then inputs.natural(split) else []
    case Extra => if train then inputs.ExtraRows() else []
    case Tail => if train then inputs.TailRows() else []
    case Fresh =>
      var key := Key(profile, split);
      if key in fit.chains && key in fit.spans then inputs.KeyPlan(key).late else []
  }

  ghost predicate IsReleased(inputs: Inputs, fit: Fit, profile: string, chunk: Chunk)
    requires inputs.perTask > 0
  {
    profile in inputs.profiles && chunk.start % inputs.perTask == 0
    && chunk.start < |Released(inputs, fit, profile, chunk.source, chunk.split)|
  }

  ghost function TaskOf(inputs: Inputs, profile: string, chunk: Chunk): Job {
    Featurise(profile, chunk, inputs.ChunkFrames(profile, chunk))
  }

  /** An outstanding feature task holds its chunk's own frames. */
  ghost predicate HoldsFrames(inputs: Inputs, out: multiset<Job>, j: Job) {
    j in out && j.Featurise? ==> j.profile in inputs.profiles && j == TaskOf(inputs, j.profile, j.chunk)
  }

  /** Every chunk whose task has been added is in or still outstanding. */
  ghost predicate Featurised(inputs: Inputs, fit: Fit, out: multiset<Job>)
    requires inputs.perTask > 0
  {
    && fit.arrived.Keys == fit.stores.Keys == (set p | p in inputs.profiles)
    && (forall p, c {:trigger IsReleased(inputs, fit, p, c)} :: IsReleased(inputs, fit, p, c) ==> c in fit.arrived[p] || TaskOf(inputs, p, c) in out)
    && (forall j: Job :: HoldsFrames(inputs, out, j))
  }

  /** A store keeps every chunk that came until its profile is done. */
  ghost predicate Kept(inputs: Inputs, fit: Fit)
    requires fit.arrived.Keys == fit.stores.Keys
  {
    forall p, c :: KeptChunk(inputs, fit, p, c)
  }

  ghost predicate KeptChunk(inputs: Inputs, fit: Fit, p: string, c: Chunk)
    requires fit.arrived.Keys == fit.stores.Keys
  {
    p in fit.arrived && c in fit.arrived[p] && !ProfileDone(inputs, fit.columns, p)
    ==> c in fit.stores[p] && fit.stores[p][c] == inputs.ChunkRows(p, c)
  }

  // ---- keys

  ghost predicate IsFramed(fit: Fit, key: Key) { key in fit.chains && key in fit.spans }

  /**
   A framed key is either planned, waiting for exactly the chunks that are not in, or assembled as the serial
   fit has it. Only the keys in `ready` wait for nothing.
   */
  ghost predicate Planning(inputs: Inputs, fit: Fit, ready: set<Key>)
    requires inputs.perTask > 0
  {
    forall k: Key :: KeyHolds(inputs, fit, ready, k)
  }

  ghost predicate KeyHolds(inputs: Inputs, fit: Fit, ready: set<Key>, k: Key)
    requires inputs.perTask > 0
  {
    && (k in fit.missing || k in fit.columns <==> IsFramed(fit, k))
    && !(k in fit.missing && k in fit.columns)
    && (k in fit.plans <==> k in fit.missing) && (k in fit.entries <==> k in fit.missing)
    && (k in ready ==> k in fit.missing)
    && (k in fit.missing ==> k.profile in fit.arrived && WaitsFor(inputs, fit, ready, k))
    && (k in fit.columns ==> fit.columns[k] == inputs.FinalColumns(k) && inputs.Accepts(k.split, inputs.FinalFrames(k)))
  }

  ghost predicate WaitsFor(inputs: Inputs, fit: Fit, ready: set<Key>, k: Key)
    requires inputs.perTask > 0 && k in fit.missing && k in fit.plans && k in fit.entries && k.profile in fit.arrived
  {
    && fit.plans[k] == inputs.KeyPlan(k).slots && fit.entries[k] == inputs.FinalFrames(k)
    && fit.missing[k] == inputs.Needed(k) - fit.arrived[k.profile]
    && (fit.missing[k] == {} <==> k in ready)
  }

  ghost predicate Invariant(inputs: Inputs, fit: Fit, out: multiset<Job>)
    requires inputs.perTask > 0
  {
    && Values(inputs, fit) && Chained(inputs, fit) && Tasks(inputs, fit, out)
    && Featurised(inputs, fit, out) && Kept(inputs, fit) && Planning(inputs, fit, {}) && !fit.rejected
  }

  /** A fit stops only for a key whose frames the serial fit rejects too. */
  ghost predicate StoppedRightly(inputs: Inputs) {
    exists k :: inputs.IsKey(k) && !inputs.Accepts(k.split, inputs.FinalFrames(k))
  }

  // ---- what a request list adds

  function JobsOf(requests: seq<Request>): (r: seq<Job>)
    ensures |r| == |requests| && forall i :: 0 <= i < |r| ==> r[i] == requests[i].job
  {
    seq(|requests|, i requires 0 <= i < |requests| => requests[i].job)
  }

  ghost function Added(requests: seq<Request>): multiset<Job> { multiset(JobsOf(requests)) }

  lemma AddedSplits(a: seq<Request>, b: seq<Request>)
    ensures Added(a + b) == Added(a) + Added(b)
  {
    assert JobsOf(a + b) == JobsOf(a) + JobsOf(b);
  }

  lemma NothingAdded()
    ensures Added([]) == multiset{}
  {
    assert JobsOf([]) == [];
  }

  lemma AddedOne(r: Request)
    ensures Added([r]) == multiset{r.job}
  {
    assert JobsOf([r]) == [r.job];
  }

  /** Only feature tasks, each of the chunk's own frames. */
  lemma {:induction false} ChunkRequestsAdd(inputs: Inputs, priority: Priority, profile: string, source: Source, split: string,
                                            frames: seq<Frame>, start: nat, j: Job)
    requires inputs.perTask > 0 && j in Added(ChunkRequests(inputs, priority, profile, source, split, frames, start))
    ensures j.Featurise? && j.profile == profile && j.chunk == Chunk(source, split, j.chunk.start)
    ensures j.frames == inputs.Share(frames, j.chunk.start)
    decreases if start < |frames| then |frames| - start else 0
  {
    if start < |frames| {
      var first := Request(priority, Featurise(profile, Chunk(source, split, start), inputs.Share(frames, start)));
      AddedSplits([first], ChunkRequests(inputs, priority, profile, source, split, frames, start + inputs.perTask));
      AddedOne(first);
      if j != first.job {
        ChunkRequestsAdd(inputs, priority, profile, source, split, frames, start + inputs.perTask, j);
      }
    }
  }

  lemma Multiples(d: int, n: nat)
    ensures d >= 1 ==> d * n >= n
    ensures d <= -1 ==> d * n + n <= 0
  {
    if d >= 1 {
      assert d * n == (d - 1) * n + n;
    } else if d <= -1 {
      assert d * n == (d + 1) * n - n;
    }
  }

  lemma Euclid(x: nat, q: nat, r: nat, n: nat)
    requires n > 0 && r < n && x == q * n + r
    ensures x % n == r
  {
    Multiples(x / n - q, n);
    assert (x / n - q) * n == x / n * n - q * n;
  }

  lemma ModStep(s: nat, n: nat)
    requires n > 0
    ensures (s + n) % n == s % n
  {
    assert (s / n + 1) * n == s / n * n + n;
    Euclid(s + n, s / n + 1, s % n, n);
  }

  /** Multiples of n at least n apart. */
  lemma NextMultiple(a: nat, b: nat, n: nat)
    requires n > 0 && a % n == 0 && b % n == 0 && a < b
    ensures a + n <= b
  {
    Distance(a / n, b / n, n);
  }

  lemma Distance(p: nat, q: nat, n: nat)
    requires p * n < q * n
    ensures p * n + n <= q * n
  {
    Multiples(q - p, n);
    assert (q - p) * n == q * n - p * n;
  }

  /** Every chunk from `start` on is added. */
  lemma {:induction false} ChunkRequestsCover(inputs: Inputs, priority: Priority, profile: string, source: Source, split: string,
                                              frames: seq<Frame>, start: nat, at: nat)
    requires inputs.perTask > 0 && start % inputs.perTask == 0 && at % inputs.perTask == 0 && start <= at < |frames|
    ensures Featurise(profile, Chunk(source, split, at), inputs.Share(frames, at))
         in Added(ChunkRequests(inputs, priority, profile, source, split, frames, start))
    decreases at - start
  {
    var first := Request(priority, Featurise(profile, Chunk(source, split, start), inputs.Share(frames, start)));
    assert ChunkRequests(inputs, priority, profile, source, split, frames, start)
        == [first] + ChunkRequests(inputs, priority, profile, source, split, frames, start + inputs.perTask);
    hide ChunkRequests, Added;
    AddedSplits([first], ChunkRequests(inputs, priority, profile, source, split, frames, start + inputs.perTask));
    AddedOne(first);
    if start < at {
      NextMultiple(start, at, inputs.perTask);
      ModStep(start, inputs.perTask);
      ChunkRequestsCover(inputs, priority, profile, source, split, frames, start + inputs.perTask, at);
    }
  }
}
