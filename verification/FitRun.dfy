/**
 The scheduler's loop over a build, with any delays of the tasks: it ends, and with the columns of the serial fit.
 A task's result is ready from the poll `ready` gives for its sequence number on.
 */
module FitRun {
  import opened FitPlan
  import opened FitState
  import opened FitInvariant
  import opened FitRuns
  import opened FitOutcome
  import opened FitBuild
  import opened FitIds
  import opened FitContents

  /** The polls some running tasks still wait. */
  function Waits(running: seq<Entry>, ready: nat -> nat, poll: nat): nat {
    if running == [] then 0
    else
      var last := running[|running| - 1];
      Waits(running[..|running| - 1], ready, poll) + if ready(last.sequence) > poll then ready(last.sequence) - poll else 0
  }

  /** The build's state, and the scheduler's with these tasks running. */
  ghost predicate Mirrors(build: Build, running: seq<Entry>, s: System)
    reads build, build.scheduler
  {
    s.fit == build.State() && s.pending == build.scheduler.pending && s.counter == build.scheduler.counter && s.running == running
  }

  /** A state of a run on its way, with these tasks running. */
  ghost predicate Going(build: Build, capacity: nat, running: seq<Entry>, s: System)
    reads build, build.scheduler
  {
    build.inputs.perTask > 0 && Holds(build.inputs, capacity, s) && Mirrors(build, running, s) && !s.fit.rejected
  }

  lemma GoingRuns(build: Build, capacity: nat, running: seq<Entry>, s: System)
    requires Going(build, capacity, running, s)
    ensures s.running == running && s.pending == build.scheduler.pending && !build.rejected
  {}

  /** Ends a run no later than `s`: what starting tasks leaves. */
  ghost predicate AsFar(t: System, s: System) { Results(t.fit) == Results(s.fit) && |Outstanding(t)| == |Outstanding(s)| }

  lemma StartedGoes(build: Build, capacity: nat, before: System, i: nat, t: System)
    requires Proper(build.inputs) && Holds(build.inputs, capacity, before) && Enabled(capacity, before, Start(i)) && !before.fit.rejected
    requires t == Next(build.inputs, capacity, before, Start(i)) && Mirrors(build, t.running, t)
    ensures Going(build, capacity, t.running, t) && AsFar(t, before)
  {
    StartKeeps(build.inputs, capacity, before, i, t);
  }

  /** Starts the task that is next. */
  method StartOne(build: Build, capacity: nat, ghost s: System) returns (ghost t: System)
    requires Proper(build.inputs) && Going(build, capacity, build.scheduler.running, s)
    requires s.pending != [] && |s.running| < capacity
    modifies build.scheduler
    ensures Going(build, capacity, build.scheduler.running, t) && AsFar(t, s) && t.fit == s.fit && |t.pending| == |s.pending| - 1
  {
    hide Holds, AsFar, Outstanding, Results;
    PendingAreDistinct(build.inputs, capacity, s);
    build.scheduler.StartLeast();
    ghost var i: nat :| i < |s.pending| && Least(s.pending, i) && build.scheduler.pending == Without(s.pending, i)
      && build.scheduler.running == s.running + [s.pending[i]];
    t := Next(build.inputs, capacity, s, Start(i));
    StartedGoes(build, capacity, s, i, t);
  }

  /** Starts tasks while there is room. */
  method Fill(build: Build, capacity: nat, ghost s: System) returns (ghost t: System)
    requires Proper(build.inputs) && Going(build, capacity, build.scheduler.running, s)
    modifies build.scheduler
    ensures Going(build, capacity, build.scheduler.running, t) && AsFar(t, s) && t.fit == s.fit
    ensures |t.pending| <= |s.pending| && (|t.pending| == |s.pending| ==> t == s)
    ensures t.pending == [] || |t.running| >= capacity
  {
    hide Going, Outstanding, Results;
    t := s;
    GoingRuns(build, capacity, build.scheduler.running, t);
    while build.scheduler.pending != [] && |build.scheduler.running| < capacity
      invariant Going(build, capacity, build.scheduler.running, t) && AsFar(t, s) && t.fit == s.fit
      invariant build.scheduler.pending == t.pending && build.scheduler.running == t.running
      invariant |t.pending| <= |s.pending| && (|t.pending| == |s.pending| ==> t == s)
      decreases |t.pending|
    {
      t := StartOne(build, capacity, t);
      GoingRuns(build, capacity, build.scheduler.running, t);
    }
  }

  lemma FilledRuns(filled: System, s: System, capacity: nat)
    requires AsFar(filled, s) && (filled.pending == [] || |filled.running| >= capacity) && capacity > 0
    requires s.pending != [] || s.running != []
    ensures filled.running != []
  {
    assert |Outstanding(s)| == |s.pending| + |s.running|;
    assert |Outstanding(filled)| == |filled.pending| + |filled.running|;
  }

  lemma TakeFirst(still: seq<Entry>, batch: seq<Entry>, k: nat)
    requires k < |batch|
    ensures (still + batch[k..])[|still|] == batch[k] && Without(still + batch[k..], |still|) == still + batch[k + 1..]
    ensures still + batch[k..] == (still + [batch[k]]) + batch[k + 1..]
  {}

  lemma FinishFacts(inputs: Inputs, capacity: nat, s: System, place: nat, job: Job)
    requires Proper(inputs) && Holds(inputs, capacity, s) && !s.fit.rejected
    requires place < |s.running| && s.running[place].request.job == job
    ensures CanFinish(s.fit, job) && (job.Featurise? ==> CanStore(inputs, s.fit, job.profile, job.chunk))
    ensures CanServe(inputs, s.fit, job)
    ensures Enabled(capacity, s, Done(place))
    ensures var t := Next(inputs, capacity, s, Done(place)); Holds(inputs, capacity, t) && Further(t, s)
  {
    InWithout(s.running, place);
    CanAlwaysFinish(inputs, s.fit, Outstanding(s), job);
    CanAlwaysServe(inputs, s.fit, Outstanding(s), job);
    if job.Featurise? { CanAlwaysStore(inputs, s.fit, Outstanding(s), job); }
    var t := Next(inputs, capacity, s, Done(place));
    DoneKeeps(inputs, capacity, s, place, t);
    DoneOutstanding(inputs, capacity, s, place, t);
    DoneCloser(inputs, s, place, t, job);
  }

  lemma StopsRightly(inputs: Inputs, capacity: nat, t: System)
    requires inputs.perTask > 0 && Holds(inputs, capacity, t)
    ensures t.fit.rejected ==> StoppedRightly(inputs)
  {}

  /** One finished task's callback is a move of the system. */
  method Finish1(build: Build, capacity: nat, entry: Entry, ghost s: System, ghost place: nat) returns (ghost t: System)
    requires Proper(build.inputs) && Holds(build.inputs, capacity, s) && !s.fit.rejected
    requires place < |s.running| && s.running[place] == entry && Mirrors(build, s.running, s) && build.ReadsBack()
    modifies build, build.scheduler, build.vocabulary, build.stores.Values
    ensures build.rejected ==> StoppedRightly(build.inputs)
    ensures !build.rejected ==> Holds(build.inputs, capacity, t) && Mirrors(build, Without(s.running, place), t) && Further(t, s)
    ensures !build.rejected ==> build.scheduler.running == old(build.scheduler.running) && build.ReadsBack()
    ensures fresh(build.stores.Values - old(build.stores.Values))
  {
    hide Build.ReadsBack, Holds, Further, CanServe, CanStore, Next, Queued, Finish;
    FinishFacts(build.inputs, capacity, s, place, entry.request.job);
    t := Next(build.inputs, capacity, s, Done(place));
    StopsRightly(build.inputs, capacity, t);
    NextDone(build.inputs, capacity, s, place, t);
    build.Finished(entry.request.job);
    if !build.rejected {
      QueuedSame(Queue(s.pending, s.counter), Finish(build.inputs, s.fit, entry.request.job).1, build.scheduler.Held(),
                 Queue(t.pending, t.counter));
    }
  }

  lemma NextDone(inputs: Inputs, capacity: nat, s: System, place: nat, t: System)
    requires inputs.perTask > 0 && Enabled(capacity, s, Done(place)) && t == Next(inputs, capacity, s, Done(place))
    ensures var j := s.running[place].request.job;
      t.fit == Finish(inputs, s.fit, j).0 && t.running == Without(s.running, place)
      && Queued(Queue(s.pending, s.counter), Finish(inputs, s.fit, j).1, Queue(t.pending, t.counter))
  {}

  lemma QueuedSame(before: Queue, requests: seq<Request>, a: Queue, b: Queue)
    requires Queued(before, requests, a) && Queued(before, requests, b)
    ensures a == b
  {}

  lemma FurtherStill(a: System, b: System, c: System)
    requires Further(a, b) && (Further(b, c) || b == c)
    ensures Further(a, c)
  {}

  method PollOne(build: Build, capacity: nat, entry: Entry, ghost before: System, ghost s: System, ghost place: nat)
    returns (ghost t: System)
    requires Proper(build.inputs) && Going(build, capacity, before.running, before)
    requires place < |before.running| && before.running[place] == entry && (before == s || Further(before, s)) && build.ReadsBack()
    modifies build, build.scheduler, build.vocabulary, build.stores.Values
    ensures build.rejected ==> StoppedRightly(build.inputs)
    ensures !build.rejected ==> Going(build, capacity, Without(before.running, place), t) && Further(t, s)
    ensures !build.rejected ==> build.scheduler.running == old(build.scheduler.running) && build.ReadsBack()
    ensures fresh(build.stores.Values - old(build.stores.Values))
  {
    t := Finish1(build, capacity, entry, before, place);
    if !build.rejected { FurtherStill(t, before, s); }
  }

  ghost predicate NoneReady(running: seq<Entry>, ready: nat -> nat, poll: nat) {
    forall k :: 0 <= k < |running| ==> ready(running[k].sequence) > poll
  }

  lemma NoneReadyMore(running: seq<Entry>, k: nat, ready: nat -> nat, poll: nat)
    requires k < |running| && ready(running[k].sequence) > poll && NoneReady(running[..k], ready, poll)
    ensures NoneReady(running[..k + 1], ready, poll) && running[..k + 1] == running[..k] + [running[k]]
  {
    forall i | 0 <= i < k ensures ready(running[i].sequence) > poll { assert running[..k][i] == running[i]; }
  }

  /** Some of the tasks are done with: these wait on, and if none called back nothing changed. */
  ghost predicate Polled(batch: seq<Entry>, k: nat, ready: nat -> nat, poll: nat, s: System, still: seq<Entry>, any: bool, t: System) {
    k <= |batch|
    && if any then Further(t, s) else t == s && still == batch[..k] && NoneReady(batch[..k], ready, poll)
  }

  /** One running task: it calls back if its result is ready, and else runs on. */
  method PollNext(build: Build, capacity: nat, ready: nat -> nat, poll: nat, batch: seq<Entry>, k: nat,
                  before: seq<Entry>, had: bool, ghost was: System, ghost s: System)
    returns (still: seq<Entry>, any: bool, ghost t: System)
    requires Proper(build.inputs) && k < |batch| && Going(build, capacity, before + batch[k..], was) && build.ReadsBack()
    requires Polled(batch, k, ready, poll, s, before, had, was)
    modifies build, build.scheduler, build.vocabulary, build.stores.Values
    ensures build.rejected ==> StoppedRightly(build.inputs)
    ensures !build.rejected ==> Going(build, capacity, still + batch[k + 1..], t) && build.ReadsBack()
    ensures !build.rejected ==> Polled(batch, k + 1, ready, poll, s, still, any, t)
    ensures !build.rejected ==> build.scheduler.running == old(build.scheduler.running)
    ensures fresh(build.stores.Values - old(build.stores.Values))
  {
    hide Build.ReadsBack, Holds, Further, Going, Without, NoneReady;
    still, any, t := before, had, was;
    TakeFirst(before, batch, k);
    GoingRuns(build, capacity, before + batch[k..], was);
    if ready(batch[k].sequence) <= poll {
      t := PollOne(build, capacity, batch[k], was, s, |before|);
      any := true;
    } else {
      if !any { NoneReadyMore(batch, k, ready, poll); }
      still := before + [batch[k]];
    }
  }

  /** One pass over the running tasks: those whose results are ready call back, in their order. */
  method Poll(build: Build, capacity: nat, ready: nat -> nat, poll: nat, ghost s: System)
    returns (still: seq<Entry>, any: bool, ghost t: System)
    requires Proper(build.inputs) && Going(build, capacity, build.scheduler.running, s) && build.ReadsBack()
    modifies build, build.scheduler, build.vocabulary, build.stores.Values
    ensures build.rejected ==> StoppedRightly(build.inputs)
    ensures !build.rejected ==> Going(build, capacity, still, t) && build.ReadsBack()
    ensures fresh(build.stores.Values - old(build.stores.Values))
    ensures !build.rejected ==> Polled(s.running, |s.running|, ready, poll, s, still, any, t)
  {
    var batch := build.scheduler.running;
    still, any, t := [], false, s;
    assert still + batch[0..] == batch && Polled(batch, 0, ready, poll, s, still, any, t);
    GoingRuns(build, capacity, batch, s);
    hide Build.ReadsBack, Going, Polled;
    for k := 0 to |batch|
      invariant !build.rejected && Going(build, capacity, still + batch[k..], t) && build.ReadsBack()
      invariant fresh(build.stores.Values - old(build.stores.Values))
      invariant Polled(batch, k, ready, poll, s, still, any, t)
    {
      still, any, t := PollNext(build, capacity, ready, poll, batch, k, still, any, t, s);
      if build.rejected { return; }
    }
    assert still + batch[|batch|..] == still;
  }

  lemma {:induction false} WaitsLess(running: seq<Entry>, ready: nat -> nat, poll: nat)
    requires NoneReady(running, ready, poll)
    ensures Waits(running, ready, poll) == Waits(running, ready, poll + 1) + |running|
  {
    if running != [] { WaitsLess(running[..|running| - 1], ready, poll); }
  }

  ghost predicate Later(t: System, s: System, ready: nat -> nat, poll: nat) {
    Further(t, s)
    || (Results(t.fit) == Results(s.fit) && |Outstanding(t)| == |Outstanding(s)|
        && (|t.pending| < |s.pending|
            || (|t.pending| == |s.pending| && Waits(t.running, ready, poll + 1) < Waits(s.running, ready, poll))))
  }

  lemma PassIsLater(s: System, filled: System, t: System, still: seq<Entry>, any: bool, ready: nat -> nat, poll: nat)
    requires AsFar(filled, s) && |filled.pending| <= |s.pending| && (|filled.pending| == |s.pending| ==> filled == s)
    requires Polled(filled.running, |filled.running|, ready, poll, filled, still, any, t)
    requires filled.running != []
    ensures Later(t, s, ready, poll)
  {
    assert filled.running[..|filled.running|] == filled.running;
    if !any { WaitsLess(filled.running, ready, poll); }
  }

  /** One turn of the scheduler's loop. */
  method Turn(build: Build, capacity: nat, ready: nat -> nat, poll: nat, ghost s: System) returns (ghost t: System)
    requires Proper(build.inputs) && capacity > 0 && Going(build, capacity, build.scheduler.running, s)
    requires (s.pending != [] || s.running != []) && build.ReadsBack()
    modifies build, build.scheduler, build.vocabulary, build.stores.Values
    ensures build.rejected ==> StoppedRightly(build.inputs)
    ensures !build.rejected ==> Going(build, capacity, build.scheduler.running, t) && Later(t, s, ready, poll) && build.ReadsBack()
    ensures fresh(build.stores.Values - old(build.stores.Values))
  {
    hide Build.ReadsBack, Holds, Later, Further, Going, AsFar, Polled;
    ghost var filled := Fill(build, capacity, s);
    FilledRuns(filled, s, capacity);
    var still, any;
    still, any, t := Poll(build, capacity, ready, poll, filled);
    if build.rejected { return; }
    PassIsLater(s, filled, t, still, any, ready, poll);
    KeepRunning(build, capacity, still, t);
  }

  /** What still runs after a poll. */
  method KeepRunning(build: Build, capacity: nat, still: seq<Entry>, ghost t: System)
    requires Going(build, capacity, still, t) && build.ReadsBack()
    modifies build.scheduler
    ensures Going(build, capacity, build.scheduler.running, t) && build.ReadsBack()
  {
    hide Build.ReadsBack, Holds;
    build.scheduler.running := still;
  }

  lemma GoingBounded(build: Build, capacity: nat, running: seq<Entry>, s: System)
    requires Proper(build.inputs) && Going(build, capacity, running, s)
    ensures Results(s.fit) <= Bound(build.inputs)
  {
    ResultsBounded(build.inputs, s.fit);
  }

  lemma GoingDrained(build: Build, capacity: nat, s: System)
    requires Proper(build.inputs) && Going(build, capacity, [], s) && s.pending == [] && build.ReadsBack()
    ensures build.namedColumns == SerialColumns(build.inputs)
    ensures IsSerial(build)
  {
    assert Outstanding(s) == multiset{};
    DrainedColumns(build.inputs, s.fit);
    SerialHolds(build);
  }

  lemma SerialHolds(build: Build)
    requires ColumnsReadBack(build.vocabulary.names, build.columns, SerialColumns(build.inputs))
    ensures IsSerial(build)
  {
    forall k | build.inputs.IsKey(k)
      ensures k in build.columns && HoldsWanted(build.inputs, k, build.vocabulary.names, build.columns[k])
    {
      assert SerialColumns(build.inputs)[k] == build.inputs.FinalColumns(k);
      assert ReadsAs(build.vocabulary.names, build.columns[k], build.inputs.FinalColumns(k));
      SerialHoldsWanted(build.inputs, k, build.vocabulary.names, build.columns[k]);
    }
  }

  /**
   Every key has columns: read back through the vocabulary they are the ones the serial fit computes, and entry by entry
   they hold exactly the frames wanted of those prepared for the key.
   */
  ghost predicate IsSerial(build: Build)
    reads build, build.vocabulary
  {
    ColumnsReadBack(build.vocabulary.names, build.columns, SerialColumns(build.inputs))
    && forall k :: build.inputs.IsKey(k) ==>
         k in build.columns && HoldsWanted(build.inputs, k, build.vocabulary.names, build.columns[k])
  }

  /** A build as it is before `run`. */
  ghost predicate IsNew(build: Build)
    reads build, build.scheduler, build.vocabulary, build.stores.Values
  {
    build.State() == Empty(build.inputs) && build.ReadsBack()
    && build.scheduler.pending == [] && build.scheduler.running == [] && build.scheduler.counter == 0
  }

  /** What `run` does before the loop is the first state of a run. */
  method Begin(build: Build, capacity: nat) returns (ghost s: System)
    requires Proper(build.inputs) && IsNew(build)
    modifies build, build.scheduler
    ensures s == First(build.inputs) && Going(build, capacity, build.scheduler.running, s)
    ensures build.ReadsBack() && build.stores == old(build.stores)
  {
    hide Build.ReadsBack, Holds;
    build.Prepare();
    s := First(build.inputs);
    FirstHolds(build.inputs, capacity);
  }

  /**
   The whole fit, whatever the delays: it ends; every key's ids read back as the columns the serial fit computes, or
   the fit stopped on frames the serial fit rejects too.
   */
  method Run(build: Build, capacity: nat, ready: nat -> nat)
    requires Proper(build.inputs) && capacity > 0 && IsNew(build)
    modifies build, build.scheduler, build.vocabulary, build.stores.Values
    ensures if build.rejected then StoppedRightly(build.inputs) && HasRefused(build.inputs) else IsSerial(build)
  {
    hide Build.ReadsBack, Holds, IsSerial, HasRefused, StoppedRightly, Outstanding, Results, Waits, Bound, SerialColumns, Going;
    ghost var s := Begin(build, capacity);
    GoingRuns(build, capacity, build.scheduler.running, s);
    var poll := 0;
    while build.scheduler.pending != [] || build.scheduler.running != []
      invariant Going(build, capacity, build.scheduler.running, s) && build.ReadsBack()
      invariant !build.rejected && s.pending == build.scheduler.pending && s.running == build.scheduler.running
      invariant fresh(build.stores.Values - old(build.stores.Values))
      decreases Bound(build.inputs) - Results(s.fit), |Outstanding(s)|, |s.pending|, Waits(s.running, ready, poll)
    {
      GoingBounded(build, capacity, build.scheduler.running, s);
      ghost var t := Turn(build, capacity, ready, poll, s);
      if build.rejected {
        StopsExactly(build.inputs);
        return;
      }
      GoingBounded(build, capacity, build.scheduler.running, t);
      GoingRuns(build, capacity, build.scheduler.running, t);
      s, poll := t, poll + 1;
    }
    GoingDrained(build, capacity, s);
  }

  /**
   Two fits of the same inputs, with any capacities and delays: unless the serial fit rejects the frames, each key's
   columns are the same in both but for ids that name the same features.
   */
  method RunTwice(inputs: Inputs, capacity: nat, ready: nat -> nat, otherCapacity: nat, otherReady: nat -> nat)
    returns (a: Build, b: Build)
    requires Proper(inputs) && capacity > 0 && otherCapacity > 0
    ensures a.rejected || b.rejected ==> StoppedRightly(inputs)
    ensures !a.rejected && !b.rejected ==> forall k :: inputs.IsKey(k) ==>
      k in a.columns && k in b.columns && SameButIds(a.vocabulary.names, a.columns[k], b.vocabulary.names, b.columns[k])
  {
    hide HoldsWanted, HasRefused;
    a := new Build(inputs);
    Run(a, capacity, ready);
    b := new Build(inputs);
    Run(b, otherCapacity, otherReady);
    if !a.rejected && !b.rejected {
      forall k | inputs.IsKey(k)
        ensures k in a.columns && k in b.columns && SameButIds(a.vocabulary.names, a.columns[k], b.vocabulary.names, b.columns[k])
      {
        SerialButIds(inputs, a.vocabulary.names, a.columns, b.vocabulary.names, b.columns, k);
      }
    }
  }
}
