/**
 Every run of a fit: the scheduler starts the least pending task while fewer than `capacity` run, and running
 tasks finish in any order. Whatever that order is, the columns are the serial fit's.
 */
module FitRuns {
  import opened FitPlan
  import opened FitState
  import opened FitInvariant
  import opened FitRequests
  import opened FitSteps
  import opened FitKeys
  import opened FitFrames

  // ---- one callback

  lemma CanAlwaysFinish(inputs: Inputs, fit: Fit, out: multiset<Job>, j: Job)
    requires Proper(inputs) && Invariant(inputs, fit, out) && j in out
    ensures CanFinish(fit, j)
  {
    match j
    case Chain(_, _, _) => assert Expected(inputs, fit, j) == 1;
    case Spans(_) => assert Expected(inputs, fit, j) == 1;
    case Featurise(profile, chunk, _) =>
      assert HoldsFrames(inputs, out, j);
      forall k | k in Completed(fit, profile, chunk)
        ensures k in fit.plans && k in fit.entries && k.profile in fit.stores && |fit.plans[k]| == |fit.entries[k]|
      {
        assert KeyHolds(inputs, fit, {}, k);
      }
    case _ =>
  }

  /** Whichever outstanding task finishes next, its callback keeps the invariant, or stops on a key the serial fit rejects. */
  lemma FinishKeeps(inputs: Inputs, fit: Fit, out: multiset<Job>, j: Job, next: Fit, after: multiset<Job>)
    requires Proper(inputs) && Invariant(inputs, fit, out) && j in out && CanFinish(fit, j)
    requires next == Finish(inputs, fit, j).0 && after == out - multiset{j} + Added(Finish(inputs, fit, j).1)
    ensures if next.rejected then StoppedRightly(inputs) else Invariant(inputs, next, after)
  {
    match j
    case Chain(key, extra, tail) =>
      var came := fit.(chains := fit.chains[key := inputs.chain(key, extra, tail)]);
      ChainCame(inputs, fit, out, j, came);
      FramesKeep(inputs, fit, out, j, came, key, next, after);
    case Spans(key) =>
      var came := fit.(spans := fit.spans[key := inputs.spans(key)]);
      SpansCame(inputs, fit, out, j, came);
      FramesKeep(inputs, fit, out, j, came, key, next, after);
    case Featurise(_, _, _) =>
      NothingAdded();
      assert after == out - multiset{j};
      ChunkKeeps(inputs, fit, out, j, next, after);
    case _ =>
      CurriculumKeeps(inputs, fit, out, j, next, after);
  }

  /** What is not built is in from the start. */
  ghost predicate Unbuilt(inputs: Inputs, fit: Fit) {
    && (!inputs.BuildsCurricula() ==>
          fit.historical.Some? && fit.capitals.Some? && fit.english.Some? && |fit.captured| >= |inputs.captured|)
    && (!inputs.Trains() ==> fit.tail.Some?)
    && (forall k :: inputs.IsKey(k) && inputs.frozen && k.split == TRAIN ==> k in fit.spans)
  }

  lemma FirstUnbuilt(inputs: Inputs)
    ensures Unbuilt(inputs, FirstFit(inputs))
  {
    NothingCapturedSize(|inputs.captured|);
  }

  lemma Grown<K, V>(m: map<K, V>, i: K, v: V)
    ensures |m[i := v]| == |m| + if i in m then 0 else 1
  {
    assert m[i := v].Keys == m.Keys + {i};
    assert |m.Keys| == |m| && |m[i := v].Keys| == |m[i := v]|;
  }

  /** Results stay in. */
  ghost predicate Keeps(a: Fit, b: Fit) {
    && (a.historical.Some? ==> b.historical.Some?) && (a.capitals.Some? ==> b.capitals.Some?)
    && (a.english.Some? ==> b.english.Some?) && (a.tail.Some? ==> b.tail.Some?)
    && |a.captured| <= |b.captured| && a.spans.Keys <= b.spans.Keys
  }

  lemma FramesKeepResults(inputs: Inputs, fit: Fit, key: Key)
    requires inputs.perTask > 0 && key.profile in fit.arrived && key.profile in fit.stores
    ensures Keeps(fit, FramesReady(inputs, fit, key).0)
  {}

  lemma CurriculumKeepsResults(inputs: Inputs, fit: Fit, j: Job)
    requires inputs.perTask > 0
    ensures Keeps(fit, ExtraReady(inputs, Curriculum(inputs, fit, j)).0)
  {
    CurriculumPutIn(inputs, fit, j);
    ExtraKeepsResults(inputs, Curriculum(inputs, fit, j));
  }

  lemma CurriculumPutIn(inputs: Inputs, fit: Fit, j: Job)
    ensures Keeps(fit, Curriculum(inputs, fit, j))
  {
    match j
    case Captured(i) => CapturedPutIn(fit, i, if i < |inputs.captured| then inputs.captured[i] else []);
    case _ =>
  }

  lemma CapturedPutIn(fit: Fit, i: nat, rows: seq<Frame>)
    ensures Keeps(fit, fit.(captured := fit.captured[i := rows]))
  {
    Grown(fit.captured, i, rows);
  }

  lemma ExtraKeepsResults(inputs: Inputs, came: Fit)
    requires inputs.perTask > 0
    ensures Keeps(came, ExtraReady(inputs, came).0)
  {
    var next := ExtraReady(inputs, came).0;
    if !CurriculaIn(inputs, came) {
      assert next == came;
    } else {
      assert next == came.(extra := ExtraSoFar(inputs, came));
    }
    KeepsAllBut(came, next, next.extra);
  }

  lemma KeepsAllBut(a: Fit, b: Fit, extra: seq<Frame>)
    requires b == a.(extra := extra)
    ensures Keeps(a, b)
  {}

  lemma FinishKeepsResults(inputs: Inputs, fit: Fit, j: Job)
    requires inputs.perTask > 0 && CanFinish(fit, j)
    ensures Keeps(fit, Finish(inputs, fit, j).0)
  {
    match j
    case Chain(key, extra, tail) =>
      FramesKeepResults(inputs, fit.(chains := fit.chains[key := inputs.chain(key, extra, tail)]), key);
    case Spans(key) => FramesKeepResults(inputs, fit.(spans := fit.spans[key := inputs.spans(key)]), key);
    case Featurise(_, _, _) =>
    case _ => CurriculumKeepsResults(inputs, fit, j);
  }

  lemma UnbuiltStays(inputs: Inputs, fit: Fit, j: Job)
    requires inputs.perTask > 0 && CanFinish(fit, j) && Unbuilt(inputs, fit)
    ensures Unbuilt(inputs, Finish(inputs, fit, j).0)
  {
    FinishKeepsResults(inputs, fit, j);
  }

  // ---- the scheduler

  datatype Entry = Entry(request: Request, sequence: nat)

  /** `started`, `finished` and `asked` only record the run: numbers started, numbers called back, tasks added. */
  datatype System = System(
    fit: Fit,
    pending: seq<Entry>,
    running: seq<Entry>,
    counter: nat,
    started: seq<nat>,
    finished: seq<nat>,
    asked: seq<Request>)

  datatype Move = Start(place: nat) | Done(place: nat)

  function Rank(p: Priority): nat {
    match p
    case Critical => 1
    case Curricula => 2
    case Wanted => 3
    case Ahead => 4
  }

  predicate Before(a: Entry, b: Entry) {
    var (x, y) := (Rank(a.request.priority), Rank(b.request.priority));
    x < y || (x == y && a.sequence < b.sequence)
  }

  /** No task of the same priority was added before the one the heap gives, and none of a more urgent one is pending. */
  lemma LeastIsMostUrgent(pending: seq<Entry>, i: nat, k: nat)
    requires i < |pending| && k < |pending| && k != i && Least(pending, i)
    ensures pending[k].request.priority == pending[i].request.priority ==> pending[i].sequence < pending[k].sequence
    ensures pending[k].request.priority == Critical ==> pending[i].request.priority == Critical
    ensures pending[k].request.priority == Curricula ==> pending[i].request.priority in {Critical, Curricula}
    ensures pending[k].request.priority == Wanted ==> pending[i].request.priority in {Critical, Curricula, Wanted}
  {
    assert Before(pending[i], pending[k]);
  }

  /** The entry the heap gives next: the first in priority, then in the order added. */
  predicate Least(pending: seq<Entry>, i: nat)
    requires i < |pending|
  {
    forall k :: 0 <= k < |pending| && k != i ==> Before(pending[i], pending[k])
  }

  function Without(entries: seq<Entry>, i: nat): seq<Entry>
    requires i < |entries|
  {
    entries[..i] + entries[i + 1..]
  }

  function Entries(requests: seq<Request>, counter: nat): (r: seq<Entry>)
    ensures |r| == |requests|
  {
    seq(|requests|, k requires 0 <= k < |requests| => Entry(requests[k], counter + k))
  }

  ghost predicate Enabled(capacity: nat, s: System, move: Move) {
    !s.fit.rejected
    && match move
       case Start(i) => i < |s.pending| && |s.running| < capacity && Least(s.pending, i)
       case Done(i) => i < |s.running| && CanFinish(s.fit, s.running[i].request.job)
  }

  ghost function Next(inputs: Inputs, capacity: nat, s: System, move: Move): System
    requires inputs.perTask > 0 && Enabled(capacity, s, move)
  {
    match move
    case Start(i) =>
      s.(pending := Without(s.pending, i), running := s.running + [s.pending[i]], started := s.started + [s.pending[i].sequence])
    case Done(i) =>
      var (fit, requests) := Finish(inputs, s.fit, s.running[i].request.job);
      s.(fit := fit, running := Without(s.running, i), pending := s.pending + Entries(requests, s.counter),
         counter := s.counter + |requests|, finished := s.finished + [s.running[i].sequence], asked := s.asked + requests)
  }

  function First(inputs: Inputs): System
    requires inputs.perTask > 0
  {
    System(FirstFit(inputs), Entries(FirstRequests(inputs), 0), [], |FirstRequests(inputs)|, [], [], FirstRequests(inputs))
  }

  /** A run so far: any enabled moves, in any order. */
  ghost predicate IsRun(inputs: Inputs, capacity: nat, states: seq<System>, moves: seq<Move>)
    requires inputs.perTask > 0
  {
    |states| == |moves| + 1 && states[0] == First(inputs)
    && forall i :: 0 <= i < |moves| ==>
      Enabled(capacity, states[i], moves[i]) && states[i + 1] == Next(inputs, capacity, states[i], moves[i])
  }

  lemma RunStep(inputs: Inputs, capacity: nat, states: seq<System>, moves: seq<Move>, i: nat)
    requires inputs.perTask > 0 && IsRun(inputs, capacity, states, moves) && i + 1 < |states|
    ensures i < |moves| && Enabled(capacity, states[i], moves[i]) && states[i + 1] == Next(inputs, capacity, states[i], moves[i])
  {}

  predicate Drained(s: System) { s.pending == [] && s.running == [] }

  // ---- what is outstanding

  ghost function JobsIn(entries: seq<Entry>): multiset<Job> {
    multiset(seq(|entries|, k requires 0 <= k < |entries| => entries[k].request.job))
  }

  ghost function NumbersIn(entries: seq<Entry>): multiset<nat> {
    multiset(seq(|entries|, k requires 0 <= k < |entries| => entries[k].sequence))
  }

  ghost function Outstanding(s: System): multiset<Job> { JobsIn(s.pending) + JobsIn(s.running) }

  lemma InSplits(a: seq<Entry>, b: seq<Entry>)
    ensures JobsIn(a + b) == JobsIn(a) + JobsIn(b)
    ensures NumbersIn(a + b) == NumbersIn(a) + NumbersIn(b)
  {
    var f := (e: seq<Entry>) => seq(|e|, k requires 0 <= k < |e| => e[k].request.job);
    var g := (e: seq<Entry>) => seq(|e|, k requires 0 <= k < |e| => e[k].sequence);
    assert f(a + b) == f(a) + f(b);
    assert g(a + b) == g(a) + g(b);
  }

  lemma InOne(e: Entry)
    ensures JobsIn([e]) == multiset{e.request.job} && NumbersIn([e]) == multiset{e.sequence}
  {
    assert seq(1, k requires 0 <= k < 1 => [e][k].request.job) == [e.request.job];
    assert seq(1, k requires 0 <= k < 1 => [e][k].sequence) == [e.sequence];
  }

  lemma InWithout(entries: seq<Entry>, i: nat)
    requires i < |entries|
    ensures JobsIn(entries) == JobsIn(Without(entries, i)) + multiset{entries[i].request.job}
    ensures NumbersIn(entries) == NumbersIn(Without(entries, i)) + multiset{entries[i].sequence}
  {
    assert entries == entries[..i] + ([entries[i]] + entries[i + 1..]);
    InSplits(entries[..i], [entries[i]] + entries[i + 1..]);
    InSplits([entries[i]], entries[i + 1..]);
    InSplits(entries[..i], entries[i + 1..]);
    InOne(entries[i]);
  }

  lemma {:induction false} EntriesIn(requests: seq<Request>, counter: nat)
    ensures JobsIn(Entries(requests, counter)) == Added(requests)
    ensures forall n :: NumbersIn(Entries(requests, counter))[n] == if counter <= n < counter + |requests| then 1 else 0
  {
    var entries := Entries(requests, counter);
    assert seq(|entries|, k requires 0 <= k < |entries| => entries[k].request.job) == JobsOf(requests);
    if requests != [] {
      var last := |requests| - 1;
      EntriesIn(requests[..last], counter);
      assert entries == Entries(requests[..last], counter) + [entries[last]];
      InSplits(Entries(requests[..last], counter), [entries[last]]);
      InOne(entries[last]);
    }
  }

  // ---- what every state keeps

  /** A sequence number is pending or was started once; started, it runs or was finished once. */
  ghost predicate Once(s: System, n: nat) {
    && NumbersIn(s.pending)[n] + multiset(s.started)[n] == (if n < s.counter then 1 else 0)
    && NumbersIn(s.running)[n] + multiset(s.finished)[n] == multiset(s.started)[n]
  }

  ghost predicate Holds(inputs: Inputs, capacity: nat, s: System)
    requires inputs.perTask > 0
  {
    && |s.running| <= capacity
    && (forall n: nat :: Once(s, n))
    && if s.fit.rejected then StoppedRightly(inputs) else Invariant(inputs, s.fit, Outstanding(s)) && Unbuilt(inputs, s.fit)
  }

  lemma FirstHolds(inputs: Inputs, capacity: nat)
    requires Proper(inputs)
    ensures Holds(inputs, capacity, First(inputs))
  {
    var s := First(inputs);
    EntriesIn(FirstRequests(inputs), 0);
    hide FirstRequests, FirstFit, Invariant, Unbuilt, Added;
    assert Outstanding(s) == Added(FirstRequests(inputs));
    StartHolds(inputs, s.fit, Outstanding(s));
    FirstUnbuilt(inputs);
    forall n: nat ensures Once(s, n) {}
  }

  lemma StartKeeps(inputs: Inputs, capacity: nat, s: System, i: nat, t: System)
    requires Proper(inputs) && Holds(inputs, capacity, s) && Enabled(capacity, s, Start(i)) && t == Next(inputs, capacity, s, Start(i))
    ensures Holds(inputs, capacity, t) && Outstanding(t) == Outstanding(s)
  {
    InWithout(s.pending, i);
    InSplits(s.running, [s.pending[i]]);
    InOne(s.pending[i]);
    forall n: nat ensures Once(t, n) {
      assert Once(s, n);
    }
    assert Outstanding(t) == Outstanding(s);
  }

  lemma DoneOutstanding(inputs: Inputs, capacity: nat, s: System, i: nat, t: System)
    requires inputs.perTask > 0 && Enabled(capacity, s, Done(i)) && t == Next(inputs, capacity, s, Done(i))
    ensures var j := s.running[i].request.job;
      j in Outstanding(s) && Outstanding(t) == Outstanding(s) - multiset{j} + Added(Finish(inputs, s.fit, j).1)
  {
    var requests := Finish(inputs, s.fit, s.running[i].request.job).1;
    InWithout(s.running, i);
    InSplits(s.pending, Entries(requests, s.counter));
    EntriesIn(requests, s.counter);
  }

  lemma DoneOnce(inputs: Inputs, capacity: nat, s: System, i: nat, t: System)
    requires inputs.perTask > 0 && Enabled(capacity, s, Done(i)) && t == Next(inputs, capacity, s, Done(i))
    requires forall n: nat :: Once(s, n)
    ensures forall n: nat :: Once(t, n)
  {
    var requests := Finish(inputs, s.fit, s.running[i].request.job).1;
    InWithout(s.running, i);
    InSplits(s.pending, Entries(requests, s.counter));
    EntriesIn(requests, s.counter);
    forall n: nat ensures Once(t, n) {
      assert Once(s, n);
    }
  }

  lemma DoneKeeps(inputs: Inputs, capacity: nat, s: System, i: nat, t: System)
    requires Proper(inputs) && Holds(inputs, capacity, s) && Enabled(capacity, s, Done(i)) && t == Next(inputs, capacity, s, Done(i))
    ensures Holds(inputs, capacity, t)
  {
    var j := s.running[i].request.job;
    DoneOnce(inputs, capacity, s, i, t);
    DoneOutstanding(inputs, capacity, s, i, t);
    UnbuiltStays(inputs, s.fit, j);
    FinishKeeps(inputs, s.fit, Outstanding(s), j, t.fit, Outstanding(t));
  }

  /** Every state of every run keeps the invariant: at most `capacity` tasks run, and each starts and calls back once. */
  lemma {:induction false} EveryStateHolds(inputs: Inputs, capacity: nat, states: seq<System>, moves: seq<Move>, at: nat)
    requires Proper(inputs) && IsRun(inputs, capacity, states, moves) && at < |states|
    ensures Holds(inputs, capacity, states[at])
  {
    if at == 0 {
      FirstHolds(inputs, capacity);
    } else {
      EveryStateHolds(inputs, capacity, states, moves, at - 1);
      match moves[at - 1]
      case Start(i) => StartKeeps(inputs, capacity, states[at - 1], i, states[at]);
      case Done(i) => DoneKeeps(inputs, capacity, states[at - 1], i, states[at]);
    }
  }
}
