/**
 Rows scored by forked workers in contiguous ranges, and their recorded model calls replayed in row order: the parent's
 prediction cache, its hit counter and the rows are those of a sequential run.
 */
module PredictionReplay {
  import opened Wrappers

  /** The part of a model call that an answer depends on, and the rest of it. */
  datatype Neutral = Neutral(original: string, alternative: string, sourceGroup: nat, targetGroup: nat, trigger: string,
                             sourceScore: real, targetScore: real)

  datatype Item = Item(neutral: Neutral, context: string)

  datatype Prediction = Prediction(logit: real, probability: real)

  datatype PolicyRow = PolicyRow(fallback: bool, ensemble: bool, modelEvaluated: bool, contextDelta: real)

  /**
   A row's decision, in terms of the answers so far: what it asks the model next, if anything, and its row once it asks
   no more. It asks at most `bound` times.
   */
  datatype Decision = Decision(bound: nat, ask: seq<Prediction> -> Option<Item>, row: seq<Prediction> -> PolicyRow) {
    predicate Asks(answers: seq<Prediction>) { |answers| < bound && ask(answers).Some? }
  }

  datatype Call = Call(neutral: Neutral, prediction: Prediction)

  /** What the context-invariant model holds: its cache and its counter. */
  datatype Cache = Cache(known: map<Neutral, Prediction>, hits: nat)

  type Delegate = Neutral -> Prediction

  // ---- the cache

  function Answer(model: Delegate, c: Cache, n: Neutral): Prediction { if n in c.known then c.known[n] else model(n) }

  /** The cache after a call: a hit is counted, anything else is kept. */
  function After(c: Cache, n: Neutral, p: Prediction): Cache {
    if n in c.known then c.(hits := c.hits + 1) else c.(known := c.known[n := p])
  }

  class ContextInvariantModel {
    const model: Delegate
    var cache: map<Neutral, Prediction>
    var cacheHits: nat

    constructor (model: Delegate)
      ensures this.model == model && State() == Cache(map[], 0)
    {
      this.model := model;
      cache, cacheHits := map[], 0;
    }

    /** A worker's copy of the parent's model. */
    constructor Forked (model: Delegate, parent: Cache)
      ensures this.model == model && State() == parent
    {
      this.model := model;
      cache, cacheHits := parent.known, parent.hits;
    }

    function State(): Cache
      reads this
    {
      Cache(cache, cacheHits)
    }

    method Predict(item: Item) returns (p: Prediction)
      modifies this
      ensures p == Answer(model, old(State()), item.neutral)
      ensures State() == After(old(State()), item.neutral, p)
    {
      var neutral := item.neutral;
      if neutral in cache {
        cacheHits := cacheHits + 1;
        return cache[neutral];
      }
      p := model(neutral);
      cache := cache[neutral := p];
    }

    /** Accounts for a call made elsewhere. */
    method Replay(neutral: Neutral, prediction: Prediction)
      modifies this
      ensures State() == After(old(State()), neutral, prediction)
    {
      if neutral in cache {
        cacheHits := cacheHits + 1;
      } else {
        cache := cache[neutral := prediction];
      }
    }
  }

  // ---- a row

  datatype Scored = Scored(row: PolicyRow, calls: seq<Call>)

  /** A decision's row and its further calls after some answers, with this cache to go on from. */
  function Decide(model: Delegate, c: Cache, d: Decision, answers: seq<Prediction>): Scored
    decreases if |answers| <= d.bound then d.bound - |answers| else 0
  {
    if !d.Asks(answers) then Scored(d.row(answers), [])
    else
      var n := d.ask(answers).value.neutral;
      var p := Answer(model, c, n);
      var rest := Decide(model, After(c, n, p), d, answers + [p]);
      Scored(rest.row, [Call(n, p)] + rest.calls)
  }

  function Replayed(c: Cache, calls: seq<Call>): Cache
    decreases |calls|
  {
    if calls == [] then c else Replayed(After(c, calls[0].neutral, calls[0].prediction), calls[1..])
  }

  /** A decision run against the recording model. */
  class RecordingModel {
    const delegate: ContextInvariantModel
    var calls: seq<Call>

    constructor (delegate: ContextInvariantModel)
      ensures this.delegate == delegate && calls == []
    {
      this.delegate := delegate;
      calls := [];
    }

    method Predict(item: Item) returns (p: Prediction)
      modifies this, delegate
      ensures p == Answer(delegate.model, old(delegate.State()), item.neutral)
      ensures delegate.State() == After(old(delegate.State()), item.neutral, p)
      ensures calls == old(calls) + [Call(item.neutral, p)]
    {
      p := delegate.Predict(item);
      calls := calls + [Call(item.neutral, p)];
    }
  }

  /** Running a decision leaves the model's cache as replaying its recorded calls does. */
  method RunDecision(m: RecordingModel, d: Decision) returns (scored: Scored)
    modifies m, m.delegate
    ensures scored == Decide(m.delegate.model, old(m.delegate.State()), d, [])
    ensures m.delegate.State() == Replayed(old(m.delegate.State()), scored.calls)
  {
    m.calls := [];
    var answers: seq<Prediction> := [];
    while d.Asks(answers)
      invariant Decide(m.delegate.model, old(m.delegate.State()), d, [])
             == Continued(m.calls, Decide(m.delegate.model, m.delegate.State(), d, answers))
      invariant m.delegate.State() == Replayed(old(m.delegate.State()), m.calls)
      decreases d.bound - |answers|
    {
      ghost var before, calls := m.delegate.State(), m.calls;
      var item := d.ask(answers).value;
      var p := m.Predict(item);
      CallReplays(old(m.delegate.State()), calls, Call(item.neutral, p));
      Continues(calls, Call(item.neutral, p), Decide(m.delegate.model, m.delegate.State(), d, answers + [p]));
      answers := answers + [p];
    }
    scored := Scored(d.row(answers), m.calls);
  }

  function Continued(calls: seq<Call>, rest: Scored): Scored { Scored(rest.row, calls + rest.calls) }

  lemma Continues(calls: seq<Call>, call: Call, rest: Scored)
    ensures Continued(calls, Scored(rest.row, [call] + rest.calls)) == Continued(calls + [call], rest)
  {
    assert calls + ([call] + rest.calls) == (calls + [call]) + rest.calls;
  }

  lemma {:induction false} CallReplays(c: Cache, calls: seq<Call>, call: Call)
    ensures Replayed(c, calls + [call]) == After(Replayed(c, calls), call.neutral, call.prediction)
  {
    ReplaySplits(c, calls, [call]);
    var last := Replayed(c, calls);
    assert Replayed(last, [call]) == Replayed(After(last, call.neutral, call.prediction), [call][1..]);
  }

  // ---- what the cache counts

  ghost function Asked(calls: seq<Call>): set<Neutral> { set i | 0 <= i < |calls| :: calls[i].neutral }

  /** Every call is a hit or adds its question, which stays; so the model itself is asked each question at most once. */
  lemma {:induction false} CallsAreCounted(c: Cache, calls: seq<Call>)
    ensures var after := Replayed(c, calls);
      && after.known.Keys == c.known.Keys + Asked(calls)
      && after.hits + |after.known| == c.hits + |c.known| + |calls|
      && forall n :: n in c.known ==> after.known[n] == c.known[n]
    decreases |calls|
  {
    if calls != [] {
      CallsAreCounted(After(c, calls[0].neutral, calls[0].prediction), calls[1..]);
      AskedMore(calls);
    }
  }

  lemma AskedMore(calls: seq<Call>)
    requires calls != []
    ensures Asked(calls) == {calls[0].neutral} + Asked(calls[1..])
  {
    forall i | 0 <= i < |calls| - 1 ensures calls[1..][i] == calls[i + 1] {}
    forall n | n in Asked(calls) ensures n in {calls[0].neutral} + Asked(calls[1..]) {
      var i :| 0 <= i < |calls| && calls[i].neutral == n;
      if i > 0 { assert calls[1..][i - 1].neutral == n; }
    }
  }

  // ---- one decision in two caches

  /** What a cache has beyond another is what the model itself answers. */
  ghost predicate Extends(model: Delegate, start: Cache, c: Cache) {
    && (forall n :: n in start.known ==> n in c.known && c.known[n] == start.known[n])
    && (forall n :: n in c.known && n !in start.known ==> c.known[n] == model(n))
  }

  lemma AnswerExtends(model: Delegate, start: Cache, c: Cache, n: Neutral)
    requires Extends(model, start, c)
    ensures Answer(model, c, n) == Answer(model, start, n)
    ensures Extends(model, start, After(c, n, Answer(model, c, n)))
  {}

  /** A row's decision and its calls do not depend on what earlier rows left in the cache. */
  lemma {:induction false} DecisionIsItsOwn(model: Delegate, start: Cache, c: Cache, d: Decision, answers: seq<Prediction>)
    requires Extends(model, start, c)
    ensures Decide(model, c, d, answers) == Decide(model, start, d, answers)
    ensures Extends(model, start, Replayed(c, Decide(model, c, d, answers).calls))
    decreases if |answers| <= d.bound then d.bound - |answers| else 0
  {
    if d.Asks(answers) {
      var n := d.ask(answers).value.neutral;
      var p := Answer(model, c, n);
      AnswerExtends(model, start, c, n);
      AnswerExtends(model, start, start, n);
      DecisionIsItsOwn(model, start, After(c, n, p), d, answers + [p]);
      DecisionIsItsOwn(model, start, After(start, n, p), d, answers + [p]);
      assert Decide(model, c, d, answers).calls[1..] == Decide(model, After(c, n, p), d, answers + [p]).calls;
    }
  }

  // ---- all rows, one after another

  datatype Run = Run(scored: seq<Scored>, cache: Cache)

  /** The sequential run. */
  function Sequential(model: Delegate, c: Cache, rows: seq<Decision>): Run {
    if rows == [] then Run([], c)
    else
      var before := Sequential(model, c, rows[..|rows| - 1]);
      var last := Decide(model, before.cache, rows[|rows| - 1], []);
      Run(before.scored + [last], Replayed(before.cache, last.calls))
  }

  /** Each row scored by itself, from the cache at the start. */
  function Alone(model: Delegate, start: Cache, rows: seq<Decision>): (r: seq<Scored>)
    ensures |r| == |rows|
  {
    seq(|rows|, k requires 0 <= k < |rows| => Decide(model, start, rows[k], []))
  }

  function AllCalls(scored: seq<Scored>): seq<Call> {
    if scored == [] then [] else AllCalls(scored[..|scored| - 1]) + scored[|scored| - 1].calls
  }

  lemma {:induction false} ReplaySplits(c: Cache, a: seq<Call>, b: seq<Call>)
    ensures Replayed(c, a + b) == Replayed(Replayed(c, a), b)
    decreases |a|
  {
    if a == [] {
      assert a + b == b;
    } else {
      assert (a + b)[1..] == a[1..] + b;
      ReplaySplits(After(c, a[0].neutral, a[0].prediction), a[1..], b);
    }
  }

  /** From any cache that extends the start, a sequential run scores each row as from the start itself. */
  lemma {:induction false} SequentialIsAlone(model: Delegate, start: Cache, c: Cache, rows: seq<Decision>)
    requires Extends(model, start, c)
    ensures Sequential(model, c, rows).scored == Alone(model, start, rows)
    ensures Sequential(model, c, rows).cache == Replayed(c, AllCalls(Alone(model, start, rows)))
    ensures Extends(model, start, Sequential(model, c, rows).cache)
    decreases |rows|
  {
    if rows != [] {
      var last := |rows| - 1;
      var before := Sequential(model, c, rows[..last]);
      var own := Decide(model, start, rows[last], []);
      hide Decide, Extends, Alone, AllCalls, Replayed;
      SequentialIsAlone(model, start, c, rows[..last]);
      DecisionIsItsOwn(model, start, before.cache, rows[last], []);
      OneMoreAlone(model, start, rows);
      CallsOfOneMore(Alone(model, start, rows[..last]), own);
      ReplaySplits(c, AllCalls(Alone(model, start, rows[..last])), own.calls);
    }
  }

  lemma {:induction false} OneMoreAlone(model: Delegate, start: Cache, rows: seq<Decision>)
    requires rows != []
    ensures Alone(model, start, rows) == Alone(model, start, rows[..|rows| - 1]) + [Decide(model, start, rows[|rows| - 1], [])]
  {
    hide Decide;
  }

  lemma {:induction false} CallsOfOneMore(scored: seq<Scored>, one: Scored)
    ensures AllCalls(scored + [one]) == AllCalls(scored) + one.calls
  {
    assert (scored + [one])[..|scored|] == scored;
  }

  // ---- contiguous ranges

  datatype Bounds = Bounds(start: nat, stop: nat)

  /** The ranges lie end to end from the first row to the last. */
  ghost predicate Covers(ranges: seq<Bounds>, length: nat) {
    if ranges == [] then length == 0
    else
      var last := ranges[|ranges| - 1];
      last.stop == length && last.start <= last.stop && Covers(ranges[..|ranges| - 1], last.start)
  }

  lemma RemainderShare(length: nat, chunks: nat, index: nat)
    requires chunks > 0 && index <= chunks
    ensures length / chunks * index + (if index < length % chunks then index else length % chunks) <= length
    ensures index == chunks ==> length / chunks * index + length % chunks == length
  {
    Multiply(length / chunks, index, chunks);
    assert length == length / chunks * chunks + length % chunks;
  }

  lemma Multiply(a: nat, b: nat, c: nat)
    requires b <= c
    ensures a * b <= a * c
  {
    assert a * c == a * b + a * (c - b);
  }

  lemma MultiplyStep(a: nat, b: nat)
    ensures a * (b + 1) == a * b + a
  {}

  datatype RangeError = InvalidDimensions

  /** Splits the rows into as many ranges as workers, no two longer than each other by more than a row. */
  method BalancedRanges(length: int, chunks: int) returns (r: Result<seq<Bounds>, RangeError>)
    ensures r.Err? <==> length < 0 || chunks < 1
    ensures r.Ok? ==> Covers(r.value, length) && |r.value| == if chunks <= length then chunks else length
    ensures r.Ok? ==> forall b :: b in r.value ==>
      length / |r.value| <= b.stop - b.start <= length / |r.value| + 1 && b.start < b.stop
  {
    if length < 0 || chunks < 1 { return Err(InvalidDimensions); }
    if length == 0 { return Ok([]); }
    var actual := if length < chunks then length else chunks;
    var width, remainder := length / actual, length % actual;
    Multiply(1, actual, length);
    assert width >= 1 by { DivideAtLeastOne(length, actual); }
    var start: nat := 0;
    var result: seq<Bounds> := [];
    for index := 0 to actual
      invariant start == width * index + if index < remainder then index else remainder
      invariant |result| == index && Covers(result, start)
      invariant forall b :: b in result ==> width <= b.stop - b.start <= width + 1 && b.start < b.stop
    {
      MultiplyStep(width, index);
      var stop := start + width + if index < remainder then 1 else 0;
      assert (result + [Bounds(start, stop)])[..|result|] == result;
      result := result + [Bounds(start, stop)];
      start := stop;
    }
    RemainderShare(length, actual, actual);
    return Ok(result);
  }

  lemma DivideAtLeastOne(a: nat, b: nat)
    requires 0 < b <= a
    ensures a / b >= 1
  {}

  // ---- the parallel run

  /** A worker's range, scored in turn from whatever its cache holds then. */
  function Chunk(model: Delegate, worker: Cache, rows: seq<Decision>, b: Bounds): seq<Scored>
    requires b.start <= b.stop <= |rows|
  {
    Sequential(model, worker, rows[b.start..b.stop]).scored
  }

  /** The chunks in the order of their ranges; `workers[k]` is the cache the k-th range found. */
  function Chunks(model: Delegate, workers: seq<Cache>, rows: seq<Decision>, ranges: seq<Bounds>): seq<Scored>
    requires |workers| == |ranges| && forall k :: 0 <= k < |ranges| ==> ranges[k].start <= ranges[k].stop <= |rows|
  {
    if ranges == [] then []
    else
      var last := |ranges| - 1;
      Chunks(model, workers[..last], rows, ranges[..last]) + Chunk(model, workers[last], rows, ranges[last])
  }

  lemma {:induction false} CoversInside(ranges: seq<Bounds>, length: nat, k: nat)
    requires Covers(ranges, length) && k < |ranges|
    ensures ranges[k].start <= ranges[k].stop <= length
  {
    var last := |ranges| - 1;
    if k < last { CoversInside(ranges[..last], ranges[last].start, k); }
  }

  lemma {:induction false} ChunksAreAlone(model: Delegate, start: Cache, workers: seq<Cache>, rows: seq<Decision>, ranges: seq<Bounds>, length: nat)
    requires Covers(ranges, length) && length <= |rows| && |workers| == |ranges|
    requires forall k :: 0 <= k < |workers| ==> Extends(model, start, workers[k])
    ensures forall k :: 0 <= k < |ranges| ==> ranges[k].start <= ranges[k].stop <= |rows|
    ensures Chunks(model, workers, rows, ranges) == Alone(model, start, rows[..length])
    decreases |ranges|
  {
    forall k: nat | k < |ranges| ensures ranges[k].start <= ranges[k].stop <= |rows| {
      CoversInside(ranges, length, k);
    }
    if ranges != [] {
      var last := |ranges| - 1;
      var b := ranges[last];
      ChunksAreAlone(model, start, workers[..last], rows, ranges[..last], b.start);
      SequentialIsAlone(model, start, workers[last], rows[b.start..b.stop]);
      AloneSplits(model, start, rows, b.start, length);
    }
  }

  lemma AloneSplits(model: Delegate, start: Cache, rows: seq<Decision>, middle: nat, length: nat)
    requires middle <= length <= |rows|
    ensures Alone(model, start, rows[..length]) == Alone(model, start, rows[..middle]) + Alone(model, start, rows[middle..length])
  {
    assert rows[..length] == rows[..middle] + rows[middle..length];
    hide Decide;
  }

  /** The parent's run: the chunks' rows, and their calls replayed in row order. */
  function Parallel(model: Delegate, start: Cache, scored: seq<Scored>): Run { Run(scored, Replayed(start, AllCalls(scored))) }

  lemma {:induction false} CoveredIsSequential(model: Delegate, start: Cache, workers: seq<Cache>, rows: seq<Decision>,
                                               ranges: seq<Bounds>)
    requires Covers(ranges, |rows|) && |workers| == |ranges|
    requires forall k :: 0 <= k < |workers| ==> Extends(model, start, workers[k])
    ensures forall k :: 0 <= k < |ranges| ==> ranges[k].start <= ranges[k].stop <= |rows|
    ensures Parallel(model, start, Chunks(model, workers, rows, ranges)) == Sequential(model, start, rows)
  {
    assert rows[..|rows|] == rows;
    ChunksAreAlone(model, start, workers, rows, ranges, |rows|);
    SequentialIsAlone(model, start, start, rows);
  }

  // ---- workers and their turns

  /** A worker takes a range. */
  datatype Turn = Turn(worker: nat, range: nat)

  ghost predicate IsTaken(turns: seq<Turn>, range: nat) { exists i :: 0 <= i < |turns| && turns[i].range == range }

  /** Every range is taken once, by any worker and in any order. */
  ghost predicate IsSchedule(turns: seq<Turn>, count: nat) {
    (forall i :: 0 <= i < |turns| ==> turns[i].range < count)
    && (forall k: nat :: k < count ==> IsTaken(turns, k))
    && forall i, j :: 0 <= i < j < |turns| ==> turns[i].range != turns[j].range
  }

  function RowsOf(rows: seq<Decision>, b: Bounds): seq<Decision> {
    if b.start <= b.stop <= |rows| then rows[b.start..b.stop] else []
  }

  /** What a worker's cache holds after some turns: the parent's when it was forked, and then what its own ranges left. */
  function WorkerCache(model: Delegate, start: Cache, rows: seq<Decision>, ranges: seq<Bounds>, turns: seq<Turn>, worker: nat): Cache {
    if turns == [] then start
    else
      var last := turns[|turns| - 1];
      var before := WorkerCache(model, start, rows, ranges, turns[..|turns| - 1], worker);
      if last.worker == worker && last.range < |ranges| then Sequential(model, before, RowsOf(rows, ranges[last.range])).cache else before
  }

  /** A worker's cache has only the parent's answers and the model's own. */
  lemma {:induction false} WorkerExtends(model: Delegate, start: Cache, rows: seq<Decision>, ranges: seq<Bounds>, turns: seq<Turn>, worker: nat)
    ensures Extends(model, start, WorkerCache(model, start, rows, ranges, turns, worker))
  {
    if turns != [] {
      var last := turns[|turns| - 1];
      WorkerExtends(model, start, rows, ranges, turns[..|turns| - 1], worker);
      if last.worker == worker && last.range < |ranges| {
        SequentialIsAlone(model, start, WorkerCache(model, start, rows, ranges, turns[..|turns| - 1], worker), RowsOf(rows, ranges[last.range]));
      }
    }
  }

  /** The cache the worker that takes a range had then; the turn is found from the end. */
  function CacheFor(model: Delegate, start: Cache, rows: seq<Decision>, ranges: seq<Bounds>, turns: seq<Turn>, range: nat): Cache {
    if turns == [] then start
    else
      var before := turns[..|turns| - 1];
      if turns[|turns| - 1].range == range then WorkerCache(model, start, rows, ranges, before, turns[|turns| - 1].worker)
      else CacheFor(model, start, rows, ranges, before, range)
  }

  lemma {:induction false} CacheForExtends(model: Delegate, start: Cache, rows: seq<Decision>, ranges: seq<Bounds>, turns: seq<Turn>, range: nat)
    ensures Extends(model, start, CacheFor(model, start, rows, ranges, turns, range))
  {
    if turns != [] {
      WorkerExtends(model, start, rows, ranges, turns[..|turns| - 1], turns[|turns| - 1].worker);
      CacheForExtends(model, start, rows, ranges, turns[..|turns| - 1], range);
    }
  }

  function WorkerCaches(model: Delegate, start: Cache, rows: seq<Decision>, ranges: seq<Bounds>, turns: seq<Turn>): (r: seq<Cache>)
    ensures |r| == |ranges|
  {
    seq(|ranges|, k requires 0 <= k < |ranges| => CacheFor(model, start, rows, ranges, turns, k))
  }

  /**
   Whatever ranges cover the rows, whatever cache the parent starts with, and whichever of its forked workers takes each
   range when, the parallel run returns the sequential run's rows and leaves its cache and counter.
   */
  lemma {:induction false} ParallelIsSequential(model: Delegate, start: Cache, rows: seq<Decision>, ranges: seq<Bounds>,
                                                turns: seq<Turn>)
    requires Covers(ranges, |rows|) && IsSchedule(turns, |ranges|)
    ensures forall k :: 0 <= k < |ranges| ==> ranges[k].start <= ranges[k].stop <= |rows|
    ensures Parallel(model, start, Chunks(model, WorkerCaches(model, start, rows, ranges, turns), rows, ranges))
         == Sequential(model, start, rows)
  {
    var workers := WorkerCaches(model, start, rows, ranges, turns);
    forall k: nat | k < |workers| ensures Extends(model, start, workers[k]) {
      CacheForExtends(model, start, rows, ranges, turns, k);
    }
    CoveredIsSequential(model, start, workers, rows, ranges);
  }

  /** The parent replays what the workers recorded. */
  method ReplayAll(m: ContextInvariantModel, scored: seq<Scored>) returns (rows: seq<PolicyRow>)
    modifies m
    ensures m.State() == Replayed(old(m.State()), AllCalls(scored))
    ensures |rows| == |scored| && forall k :: 0 <= k < |rows| ==> rows[k] == scored[k].row
  {
    rows := [];
    for k := 0 to |scored|
      invariant m.State() == Replayed(old(m.State()), AllCalls(scored[..k]))
      invariant |rows| == k && forall i :: 0 <= i < k ==> rows[i] == scored[i].row
    {
      var calls := scored[k].calls;
      assert AllCalls(scored[..k]) + calls[..0] == AllCalls(scored[..k]);
      for i := 0 to |calls|
        invariant m.State() == Replayed(old(m.State()), AllCalls(scored[..k]) + calls[..i])
      {
        CallReplays(old(m.State()), AllCalls(scored[..k]) + calls[..i], calls[i]);
        assert AllCalls(scored[..k]) + calls[..i + 1] == AllCalls(scored[..k]) + calls[..i] + [calls[i]];
        m.Replay(calls[i].neutral, calls[i].prediction);
      }
      assert calls[..|calls|] == calls && scored[..k + 1][..k] == scored[..k];
      rows := rows + [scored[k].row];
    }
    assert scored[..|scored|] == scored;
  }

  /** The loop over some rows, recording each row's calls: what a worker does with its range. */
  method RunRows(m: RecordingModel, rows: seq<Decision>) returns (scored: seq<Scored>)
    modifies m, m.delegate
    ensures Run(scored, m.delegate.State()) == Sequential(m.delegate.model, old(m.delegate.State()), rows)
  {
    scored := [];
    for k := 0 to |rows|
      invariant Run(scored, m.delegate.State()) == Sequential(m.delegate.model, old(m.delegate.State()), rows[..k])
    {
      assert rows[..k + 1][..k] == rows[..k];
      var one := RunDecision(m, rows[k]);
      scored := scored + [one];
    }
    assert rows[..|rows|] == rows;
  }

  // ---- the whole evaluation

  /** A worker's range, scored by its copy of the model. */
  method ScoreRange(model: Delegate, worker: Cache, rows: seq<Decision>) returns (scored: seq<Scored>, after: Cache)
    ensures Run(scored, after) == Sequential(model, worker, rows)
  {
    var copy := new ContextInvariantModel.Forked(model, worker);
    var recorder := new RecordingModel(copy);
    scored := RunRows(recorder, rows);
    after := copy.State();
  }

  ghost predicate CachesAre(model: Delegate, start: Cache, rows: seq<Decision>, ranges: seq<Bounds>, turns: seq<Turn>, caches: map<nat, Cache>) {
    forall w: nat :: (if w in caches then caches[w] else start) == WorkerCache(model, start, rows, ranges, turns, w)
  }

  ghost predicate IsChunk(model: Delegate, start: Cache, rows: seq<Decision>, ranges: seq<Bounds>, turns: seq<Turn>, range: nat, chunk: seq<Scored>) {
    range < |ranges|
    && chunk == Sequential(model, CacheFor(model, start, rows, ranges, turns, range), RowsOf(rows, ranges[range])).scored
  }

  ghost predicate ChunksAre(model: Delegate, start: Cache, rows: seq<Decision>, ranges: seq<Bounds>, turns: seq<Turn>, chunks: map<nat, seq<Scored>>) {
    forall i: nat :: i < |turns| ==>
      turns[i].range in chunks && IsChunk(model, start, rows, ranges, turns, turns[i].range, chunks[turns[i].range])
  }

  lemma {:induction false} CachesStep(model: Delegate, start: Cache, rows: seq<Decision>, ranges: seq<Bounds>,
                                      turns: seq<Turn>, caches: map<nat, Cache>, turn: Turn, after: Cache)
    requires CachesAre(model, start, rows, ranges, turns, caches) && turn.range < |ranges|
    requires after == Sequential(model, WorkerCache(model, start, rows, ranges, turns, turn.worker), RowsOf(rows, ranges[turn.range])).cache
    ensures CachesAre(model, start, rows, ranges, turns + [turn], caches[turn.worker := after])
  {
    assert (turns + [turn])[..|turns|] == turns;
    hide Sequential, RowsOf;
  }

  lemma {:induction false} ChunksStep(model: Delegate, start: Cache, rows: seq<Decision>, ranges: seq<Bounds>,
                                      turns: seq<Turn>, chunks: map<nat, seq<Scored>>, turn: Turn, scored: seq<Scored>)
    requires ChunksAre(model, start, rows, ranges, turns, chunks) && turn.range < |ranges|
    requires forall i :: 0 <= i < |turns| ==> turns[i].range != turn.range
    requires scored == Sequential(model, WorkerCache(model, start, rows, ranges, turns, turn.worker), RowsOf(rows, ranges[turn.range])).scored
    ensures ChunksAre(model, start, rows, ranges, turns + [turn], chunks[turn.range := scored])
  {
    assert (turns + [turn])[..|turns|] == turns;
    hide Sequential, RowsOf;
  }

  /** The ranges scored as the workers' turns come; the chunk of each. */
  method TakeTurns(model: Delegate, start: Cache, rows: seq<Decision>, ranges: seq<Bounds>, turns: seq<Turn>)
    returns (chunks: map<nat, seq<Scored>>)
    requires IsSchedule(turns, |ranges|)
    ensures ChunksAre(model, start, rows, ranges, turns, chunks)
  {
    var caches: map<nat, Cache> := map[];
    chunks := map[];
    for i := 0 to |turns|
      invariant CachesAre(model, start, rows, ranges, turns[..i], caches)
      invariant ChunksAre(model, start, rows, ranges, turns[..i], chunks)
    {
      var turn := turns[i];
      var worker := if turn.worker in caches then caches[turn.worker] else start;
      assert worker == WorkerCache(model, start, rows, ranges, turns[..i], turn.worker);
      hide CachesAre, ChunksAre;
      var scored, after := ScoreRange(model, worker, RowsOf(rows, ranges[turn.range]));
      CachesStep(model, start, rows, ranges, turns[..i], caches, turn, after);
      ChunksStep(model, start, rows, ranges, turns[..i], chunks, turn, scored);
      assert turns[..i + 1] == turns[..i] + [turn];
      caches, chunks := caches[turn.worker := after], chunks[turn.range := scored];
    }
    assert turns[..|turns|] == turns;
  }

  /** The chunks put together in the order of their ranges. */
  method CollectChunks(model: Delegate, start: Cache, rows: seq<Decision>, ranges: seq<Bounds>, turns: seq<Turn>, chunks: map<nat, seq<Scored>>)
    returns (scored: seq<Scored>)
    requires IsSchedule(turns, |ranges|) && ChunksAre(model, start, rows, ranges, turns, chunks)
    requires forall k :: 0 <= k < |ranges| ==> ranges[k].start <= ranges[k].stop <= |rows|
    ensures scored == Chunks(model, WorkerCaches(model, start, rows, ranges, turns), rows, ranges)
  {
    scored := [];
    ghost var workers := WorkerCaches(model, start, rows, ranges, turns);
    for k := 0 to |ranges|
      invariant scored == Chunks(model, workers[..k], rows, ranges[..k])
    {
      assert IsTaken(turns, k);
      assert IsChunk(model, start, rows, ranges, turns, k, chunks[k]);
      assert workers[..k + 1][..k] == workers[..k] && ranges[..k + 1][..k] == ranges[..k];
      assert chunks[k] == Chunk(model, workers[k], rows, ranges[k]);
      hide ChunksAre, Sequential, CacheFor, IsSchedule;
      scored := scored + chunks[k];
    }
    assert workers[..|ranges|] == workers && ranges[..|ranges|] == ranges;
  }

  datatype EvaluationError = NoWorker

  function CountRanges(rows: seq<Decision>, workers: int): nat {
    var count := if workers < |rows| then workers else |rows|;
    if count > 1 then count else 0
  }

  /**
   Rows scored by one process, or by as many forked workers as asked for, whichever takes each range when: the rows and
   the model's cache and counter are a sequential run's.
   */
  method EvaluateRows(m: ContextInvariantModel, rows: seq<Decision>, workers: int, turns: seq<Turn>)
    returns (r: Result<seq<PolicyRow>, EvaluationError>)
    requires IsSchedule(turns, CountRanges(rows, workers))
    modifies m
    ensures r.Err? <==> workers < 1
    ensures r.Err? ==> m.State() == old(m.State())
    ensures r.Ok? ==> m.State() == Sequential(m.model, old(m.State()), rows).cache
    ensures r.Ok? ==> |r.value| == |rows| && |Sequential(m.model, old(m.State()), rows).scored| == |rows|
    ensures r.Ok? ==> forall k :: 0 <= k < |rows| ==> r.value[k] == Sequential(m.model, old(m.State()), rows).scored[k].row
    ensures r.Ok? ==> var calls := AllCalls(Sequential(m.model, old(m.State()), rows).scored);
      m.cache.Keys == old(m.cache).Keys + Asked(calls) && m.cacheHits + |m.cache| == old(m.cacheHits + |m.cache|) + |calls|
  {
    if workers < 1 { return Err(NoWorker); }
    ghost var start := m.State();
    SequentialIsAlone(m.model, start, start, rows);
    CallsAreCounted(start, AllCalls(Alone(m.model, start, rows)));
    hide Replayed, AllCalls, Asked, Sequential, Alone;
    var scored: seq<Scored>;
    if CountRanges(rows, workers) == 0 {
      var recorder := new RecordingModel(m);
      scored := RunRows(recorder, rows);
      var policy := seq(|scored|, k requires 0 <= k < |scored| => scored[k].row);
      return Ok(policy);
    }
    var ranges := BalancedRanges(|rows|, CountRanges(rows, workers));
    scored := RunInParallel(m.model, m.State(), rows, ranges.value, turns);
    var policy := ReplayAll(m, scored);
    return Ok(policy);
  }

  method RunInParallel(model: Delegate, start: Cache, rows: seq<Decision>, ranges: seq<Bounds>, turns: seq<Turn>) returns (scored: seq<Scored>)
    requires Covers(ranges, |rows|) && IsSchedule(turns, |ranges|)
    ensures Parallel(model, start, scored) == Sequential(model, start, rows)
  {
    ParallelIsSequential(model, start, rows, ranges, turns);
    var chunks := TakeTurns(model, start, rows, ranges, turns);
    scored := CollectChunks(model, start, rows, ranges, turns, chunks);
  }
}
