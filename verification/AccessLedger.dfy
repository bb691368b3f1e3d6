/**
 The sealed-test ledger: evaluating processes claim a test before they read it. Each step below is one atomic
 file operation (exclusive create, listing, reading a record, linking it, unlinking the lock), steps of any number of
 processes interleave in any way, and a process may stop for good between any two of its steps.
 */
module AccessLedger {
  import opened Wrappers

  /** What makes a test the same test: its rows, families and documents. Word aliases may be recorded beside them. */
  datatype Membership = Membership(rows: set<string>, families: set<string>, documents: set<string>, aliases: Option<set<string>>)

  /** All that is recorded of an evaluation: the test it reads and everything else it depends on. */
  datatype Identity = Identity(membership: Membership, rest: string)

  /** No row, family or document is in both tests. */
  ghost predicate AreDisjoint(a: Membership, b: Membership) {
    (forall x :: x in a.rows ==> x !in b.rows) && (forall x :: x in a.families ==> x !in b.families)
    && forall x :: x in a.documents ==> x !in b.documents
  }

  predicate Overlap(a: Membership, b: Membership): (r: bool)
    ensures r <==> !AreDisjoint(a, b)
  {
    var any := a.rows * b.rows != {} || a.families * b.families != {} || a.documents * b.documents != {};
    OverlapExactly(a, b);
    any
  }

  lemma OverlapExactly(a: Membership, b: Membership)
    ensures AreDisjoint(a, b) <==> a.rows * b.rows == {} && a.families * b.families == {} && a.documents * b.documents == {}
  {
    CommonExactly(a.rows, b.rows);
    CommonExactly(a.families, b.families);
    CommonExactly(a.documents, b.documents);
  }

  lemma CommonExactly(a: set<string>, b: set<string>)
    ensures a * b == {} <==> forall x :: x in a ==> x !in b
  {
    if a * b == {} {
      forall x | x in a ensures x !in b { assert x in b ==> x in a * b; }
    }
  }

  /** What `test_membership` accepts: no identity field is empty. */
  predicate IsTest(m: Membership) { m.rows != {} && m.families != {} && m.documents != {} }

  datatype Files = Files(lock: bool, access: map<string, Identity>, outcomes: map<string, string>)

  datatype Phase =
    | Starting
    | Holding                       // has created the lock
    | Scanning(todo: set<string>)   // has listed the records, still has these to read
    | Releasing(ok: bool)           // has linked its record, or failed; the lock is still there
    | Claimed
    | HasRead
    | Finished
    | Refused
    | Crashed

  datatype Step = Acquire | List | Look(record: string) | Link | Release | ReadTest | WriteOutcome(report: string) | Crash

  datatype World = World(files: Files, phases: seq<Phase>, readers: seq<nat>)

  /** Each process's evaluation, and the digest that names a membership. */
  datatype Protocol = Protocol(identities: seq<Identity>, key: Membership -> string) {
    ghost predicate Proper() {
      (forall a, b :: key(a) == key(b) ==> a == b) && forall p :: 0 <= p < |identities| ==> IsTest(identities[p].membership)
    }

    function KeyOf(p: nat): string
      requires p < |identities|
    {
      key(identities[p].membership)
    }

    predicate Enabled(w: World, p: nat, step: Step) {
      p < |identities| == |w.phases|
      && match step
         case Acquire => w.phases[p].Starting?
         case List => w.phases[p].Holding?
         case Look(k) => w.phases[p].Scanning? && k in w.phases[p].todo && k in w.files.access
         case Link => w.phases[p] == Scanning({})
         case Release => w.phases[p].Releasing?
         case ReadTest => w.phases[p].Claimed?
         case WriteOutcome(_) => w.phases[p].Claimed? || w.phases[p].HasRead?
         case Crash => !w.phases[p].Finished? && !w.phases[p].Refused? && !w.phases[p].Crashed?
    }

    /** One atomic step of a process. */
    function Next(w: World, p: nat, step: Step): World
      requires Enabled(w, p, step)
    {
      match step
      case Acquire =>
        if w.files.lock then w.(phases := w.phases[p := Refused])
        else w.(files := w.files.(lock := true), phases := w.phases[p := Holding])
      case List => w.(phases := w.phases[p := Scanning(w.files.access.Keys - {KeyOf(p)})])
      case Look(k) =>
        if Overlap(identities[p].membership, w.files.access[k].membership) then w.(phases := w.phases[p := Releasing(false)])
        else w.(phases := w.phases[p := Scanning(w.phases[p].todo - {k})])
      case Link =>
        if KeyOf(p) in w.files.access then w.(phases := w.phases[p := Releasing(w.files.access[KeyOf(p)] == identities[p])])
        else w.(files := w.files.(access := w.files.access[KeyOf(p) := identities[p]]), phases := w.phases[p := Releasing(true)])
      case Release =>
        w.(files := w.files.(lock := false), phases := w.phases[p := if w.phases[p].ok then Claimed else Refused])
      case ReadTest => w.(phases := w.phases[p := HasRead], readers := w.readers + [p])
      case WriteOutcome(report) =>
        if KeyOf(p) in w.files.outcomes then w.(phases := w.phases[p := Finished])
        else w.(files := w.files.(outcomes := w.files.outcomes[KeyOf(p) := report]), phases := w.phases[p := Finished])
      case Crash => w.(phases := w.phases[p := Crashed])
    }

    predicate InSection(phase: Phase) { phase.Holding? || phase.Scanning? || phase.Releasing? }

    /** A process whose record is in the ledger under its key, as its own. */
    predicate HasClaim(w: World, p: nat)
      requires p < |identities|
    {
      KeyOf(p) in w.files.access && w.files.access[KeyOf(p)] == identities[p]
    }

    // ---- what every state keeps

    ghost predicate Apart(w: World, j: string, k: string) {
      j in w.files.access && k in w.files.access && j != k
      ==> AreDisjoint(w.files.access[j].membership, w.files.access[k].membership)
    }

    /** No record looked at so far overlaps. */
    ghost predicate HasLooked(w: World, p: nat)
      requires p < |identities| == |w.phases| && w.phases[p].Scanning?
    {
      forall k :: k in w.files.access && k != KeyOf(p) && k !in w.phases[p].todo ==>
        AreDisjoint(identities[p].membership, w.files.access[k].membership)
    }

    ghost predicate PhaseHolds(w: World, p: nat)
      requires p < |identities| == |w.phases|
    {
      && (InSection(w.phases[p]) ==> w.files.lock)
      && (w.phases[p].Scanning? ==> KeyOf(p) !in w.phases[p].todo && w.phases[p].todo <= w.files.access.Keys && HasLooked(w, p))
      && (w.phases[p] == Releasing(true) || w.phases[p].Claimed? || w.phases[p].HasRead? ==> HasClaim(w, p))
    }

    ghost predicate Holds(w: World) {
      && |w.phases| == |identities|
      && (forall k :: k in w.files.access ==> k == key(w.files.access[k].membership))
      && (forall j, k :: Apart(w, j, k))
      && (forall p, q :: 0 <= p < |w.phases| && 0 <= q < |w.phases| && InSection(w.phases[p]) && InSection(w.phases[q]) ==> p == q)
      && (forall p: nat :: p < |w.phases| ==> PhaseHolds(w, p))
      && (forall i :: 0 <= i < |w.readers| ==> w.readers[i] < |identities| && HasClaim(w, w.readers[i]))
    }

    function Fresh(files: Files): World { World(files, seq(|identities|, p => Starting), []) }

    /** A ledger some earlier evaluations left behind. */
    ghost predicate IsLedger(files: Files) {
      (forall k :: k in files.access ==> k == key(files.access[k].membership))
      && forall j, k :: j in files.access && k in files.access && j != k ==>
           AreDisjoint(files.access[j].membership, files.access[k].membership)
    }

    lemma FreshHolds(files: Files)
      requires Proper() && IsLedger(files)
      ensures Holds(Fresh(files))
    {}

    lemma OverlapIsSymmetric(a: Membership, b: Membership)
      ensures Overlap(a, b) == Overlap(b, a)
    {}

    /** Records are only ever added. */
    lemma RecordsNeverChange(w: World, p: nat, step: Step)
      requires Enabled(w, p, step)
      ensures forall k :: k in w.files.access ==> k in Next(w, p, step).files.access && Next(w, p, step).files.access[k] == w.files.access[k]
      ensures forall k :: k in w.files.outcomes ==>
        k in Next(w, p, step).files.outcomes && Next(w, p, step).files.outcomes[k] == w.files.outcomes[k]
    {}

    lemma StepApart(w: World, p: nat, step: Step, j: string, k: string)
      requires Proper() && Holds(w) && Enabled(w, p, step)
      ensures Apart(Next(w, p, step), j, k)
    {
      assert Apart(w, j, k) && Apart(w, k, j) && PhaseHolds(w, p);
      if step.Link? {
        if j in w.files.access { OverlapIsSymmetric(identities[p].membership, w.files.access[j].membership); }
      }
    }

    lemma StepPhase(w: World, p: nat, step: Step, q: nat)
      requires Proper() && Holds(w) && Enabled(w, p, step) && q < |identities|
      ensures PhaseHolds(Next(w, p, step), q)
    {
      assert PhaseHolds(w, p) && PhaseHolds(w, q);
      if q == p {
        StepOwnPhase(w, p, step);
      } else {
        StepOtherPhase(w, p, step, q);
      }
    }

    lemma StepOwnPhase(w: World, p: nat, step: Step)
      requires Proper() && Holds(w) && Enabled(w, p, step) && PhaseHolds(w, p)
      ensures PhaseHolds(Next(w, p, step), p)
    {}

    lemma StepOtherPhase(w: World, p: nat, step: Step, q: nat)
      requires Proper() && Holds(w) && Enabled(w, p, step) && q < |identities| && q != p && PhaseHolds(w, p) && PhaseHolds(w, q)
      ensures PhaseHolds(Next(w, p, step), q)
    {
      assert !(InSection(w.phases[p]) && InSection(w.phases[q]));
    }

    lemma StepKeeps(w: World, p: nat, step: Step)
      requires Proper() && Holds(w) && Enabled(w, p, step)
      ensures Holds(Next(w, p, step))
    {
      var next := Next(w, p, step);
      forall j, k ensures Apart(next, j, k) {
        StepApart(w, p, step, j, k);
      }
      forall q: nat | q < |next.phases| ensures PhaseHolds(next, q) {
        StepPhase(w, p, step, q);
      }
      StepSections(w, p, step);
      StepReaders(w, p, step);
    }

    lemma StepSections(w: World, p: nat, step: Step)
      requires Proper() && Holds(w) && Enabled(w, p, step)
      ensures var next := Next(w, p, step);
        forall q, r :: 0 <= q < |next.phases| && 0 <= r < |next.phases| && InSection(next.phases[q]) && InSection(next.phases[r]) ==> q == r
    {
      var next := Next(w, p, step);
      forall q: nat, r: nat | q < |next.phases| && r < |next.phases| && InSection(next.phases[q]) && InSection(next.phases[r])
        ensures q == r
      {
        assert PhaseHolds(w, q) && PhaseHolds(w, r);
      }
    }

    lemma StepReaders(w: World, p: nat, step: Step)
      requires Proper() && Holds(w) && Enabled(w, p, step)
      ensures var next := Next(w, p, step);
        forall i :: 0 <= i < |next.readers| ==> next.readers[i] < |identities| && HasClaim(next, next.readers[i])
    {
      RecordsNeverChange(w, p, step);
      assert PhaseHolds(w, p);
    }

    // ---- every run

    ghost predicate IsRun(files: Files, worlds: seq<World>, moves: seq<(nat, Step)>) {
      |worlds| == |moves| + 1 && worlds[0] == Fresh(files)
      && forall i :: 0 <= i < |moves| ==>
        Enabled(worlds[i], moves[i].0, moves[i].1) && worlds[i + 1] == Next(worlds[i], moves[i].0, moves[i].1)
    }

    lemma {:induction false} EveryWorldHolds(files: Files, worlds: seq<World>, moves: seq<(nat, Step)>, at: nat)
      requires Proper() && IsLedger(files) && IsRun(files, worlds, moves) && at < |worlds|
      ensures Holds(worlds[at])
    {
      if at == 0 {
        FreshHolds(files);
      } else {
        EveryWorldHolds(files, worlds, moves, at - 1);
        StepKeeps(worlds[at - 1], moves[at - 1].0, moves[at - 1].1);
      }
    }

    /** What a record once says it says for ever. */
    lemma {:induction false} RecordsStay(files: Files, worlds: seq<World>, moves: seq<(nat, Step)>, at: nat, later: nat, k: string)
      requires IsRun(files, worlds, moves) && at <= later < |worlds| && k in worlds[at].files.access
      ensures k in worlds[later].files.access && worlds[later].files.access[k] == worlds[at].files.access[k]
    {
      if at < later {
        RecordsStay(files, worlds, moves, at, later - 1, k);
        RecordsNeverChange(worlds[later - 1], moves[later - 1].0, moves[later - 1].1);
      }
    }

    /**
     Safety over every run: two processes that have read test rows either are the same evaluation, down to every
     recorded byte, or read tests with no row, family or document in common.
     */
    lemma ReadersAgreeOrAreApart(files: Files, worlds: seq<World>, moves: seq<(nat, Step)>, at: nat, i: nat, j: nat)
      requires Proper() && IsLedger(files) && IsRun(files, worlds, moves) && at < |worlds|
      requires i < |worlds[at].readers| && j < |worlds[at].readers|
      ensures worlds[at].readers[i] < |identities| && worlds[at].readers[j] < |identities|
      ensures var (a, b) := (identities[worlds[at].readers[i]], identities[worlds[at].readers[j]]);
        a == b || AreDisjoint(a.membership, b.membership)
    {
      EveryWorldHolds(files, worlds, moves, at);
      var w := worlds[at];
      assert Apart(w, KeyOf(w.readers[i]), KeyOf(w.readers[j]));
    }

    /** A test's rows are read only by a process whose claim was linked before, and is still there. */
    lemma ReadOnlyAfterClaim(files: Files, worlds: seq<World>, moves: seq<(nat, Step)>, at: nat)
      requires Proper() && IsLedger(files) && IsRun(files, worlds, moves) && at < |moves| && moves[at].1.ReadTest?
      ensures moves[at].0 < |identities| && HasClaim(worlds[at], moves[at].0)
    {
      EveryWorldHolds(files, worlds, moves, at);
      assert PhaseHolds(worlds[at], moves[at].0);
    }

    /** The same rows, families and documents under another digest are refused: the ledger holds at most one of the two. */
    lemma SameTestIsClaimedOnce(w: World, j: string, k: string)
      requires Proper() && Holds(w) && j in w.files.access && k in w.files.access
      requires IsTest(w.files.access[j].membership) && w.files.access[j].membership.rows == w.files.access[k].membership.rows
      ensures j == k
    {
      assert Apart(w, j, k);
      var rows := w.files.access[j].membership.rows;
      assert rows * rows == rows;
    }

    // ---- a lock left behind

    /** The lock's creator is gone: it is there and nobody is between its creation and its removal. */
    ghost predicate Stale(w: World) { w.files.lock && forall p :: 0 <= p < |w.phases| ==> !InSection(w.phases[p]) }

    /** A process that stops inside the section leaves the lock for good: no record is ever added again. */
    lemma {:induction false} StaleLockBlocks(files: Files, worlds: seq<World>, moves: seq<(nat, Step)>, at: nat, later: nat)
      requires IsRun(files, worlds, moves) && at <= later < |worlds| && Stale(worlds[at])
      ensures Stale(worlds[later]) && worlds[later].files.access == worlds[at].files.access
    {
      if at < later {
        StaleLockBlocks(files, worlds, moves, at, later - 1);
      }
    }

    lemma CrashInSectionIsStale(w: World, p: nat)
      requires Proper() && Holds(w) && Enabled(w, p, Crash) && InSection(w.phases[p])
      ensures Stale(Next(w, p, Crash))
    {
      assert PhaseHolds(w, p);
    }

    /** A process crashed before `at` between creating the lock and removing it. */
    ghost predicate CrashedInside(worlds: seq<World>, moves: seq<(nat, Step)>, at: nat)
      requires |worlds| == |moves| + 1 && at < |worlds|
    {
      exists i: nat :: i < at && CrashesInside(worlds[i], moves[i])
    }

    ghost predicate CrashesInside(w: World, move: (nat, Step)) {
      move.1.Crash? && move.0 < |w.phases| && InSection(w.phases[move.0])
    }

    /** Only a crash inside the section makes the lock stale. */
    lemma StepStale(w: World, p: nat, step: Step)
      requires Proper() && Holds(w) && Enabled(w, p, step)
      ensures Stale(Next(w, p, step)) <==> Stale(w) || CrashesInside(w, (p, step))
    {
      var next := Next(w, p, step);
      assert PhaseHolds(w, p);
      if CrashesInside(w, (p, step)) {
        CrashInSectionIsStale(w, p);
      } else if Stale(next) {
        assert !InSection(next.phases[p]);
        forall q | 0 <= q < |w.phases| ensures !InSection(w.phases[q]) {
          if q != p { assert next.phases[q] == w.phases[q]; }
        }
      }
    }

    /** The lock is stale exactly if it was there at the start or some process crashed inside the section. */
    lemma {:induction false} StaleExactly(files: Files, worlds: seq<World>, moves: seq<(nat, Step)>, at: nat)
      requires Proper() && IsLedger(files) && IsRun(files, worlds, moves) && at < |worlds|
      ensures Stale(worlds[at]) <==> files.lock || CrashedInside(worlds, moves, at)
    {
      if at > 0 {
        StaleExactly(files, worlds, moves, at - 1);
        EveryWorldHolds(files, worlds, moves, at - 1);
        StepStale(worlds[at - 1], moves[at - 1].0, moves[at - 1].1);
        InsideMore(worlds, moves, at - 1);
      }
    }

    lemma InsideMore(worlds: seq<World>, moves: seq<(nat, Step)>, at: nat)
      requires |worlds| == |moves| + 1 && at < |moves|
      ensures CrashedInside(worlds, moves, at + 1) <==> CrashedInside(worlds, moves, at) || CrashesInside(worlds[at], moves[at])
    {
      if CrashedInside(worlds, moves, at) {
        var i: nat :| i < at && CrashesInside(worlds[i], moves[i]);
        assert i < at + 1;
      }
    }
  }
}
