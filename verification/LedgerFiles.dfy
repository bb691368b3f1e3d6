/** Claiming a test as one process does it, from the lock to its removal, and the steps that makes of the protocol. */
module LedgerFiles {
  import opened Wrappers
  import opened SetSums
  import opened AccessLedger

  datatype LedgerError = Locked | Overlaps | RecordDiffers | InvalidMembership

  /** Whether a record other than the test's own shares a row, family or document with it. */
  ghost predicate Refuses(access: map<string, Identity>, own: string, m: Membership) {
    exists k :: k in access && k != own && !AreDisjoint(m, access[k].membership)
  }

  class Ledger {
    var lock: bool
    var access: map<string, Identity>
    var outcomes: map<string, string>

    constructor ()
      ensures !lock && access == map[] && outcomes == map[]
    {
      lock, access, outcomes := false, map[], map[];
    }

    ghost function Files(): AccessLedger.Files
      reads this
    {
      AccessLedger.Files(lock, access, outcomes)
    }

    /** Creates the record, or verifies the exact existing one. */
    method ImmutableRecord(key: string, identity: Identity) returns (r: Result<bool, LedgerError>)
      modifies this`access
      ensures key in old(access) ==> access == old(access) && r == if old(access)[key] == identity then Ok(false) else Err(RecordDiffers)
      ensures key !in old(access) ==> access == old(access)[key := identity] && r == Ok(true)
    {
      if key in access {
        if access[key] != identity { return Err(RecordDiffers); }
        return Ok(false);
      }
      access := access[key := identity];
      return Ok(true);
    }

    /** Reads the other records under the lock and links the test's own; the lock is removed whatever happens. */
    method ClaimTestAccess(identity: Identity, key: Membership -> string) returns (r: Result<string, LedgerError>)
      modifies this`lock, this`access
      ensures lock == old(lock)
      ensures old(lock) ==> access == old(access) && r == Err(Locked)
      ensures !old(lock) && Refuses(old(access), key(identity.membership), identity.membership) ==>
        access == old(access) && r == Err(Overlaps)
      ensures !old(lock) && !Refuses(old(access), key(identity.membership), identity.membership) ==>
        var own := key(identity.membership);
        if own !in old(access) then access == old(access)[own := identity] && r == Ok(own)
        else access == old(access) && r == if old(access)[own] == identity then Ok(own) else Err(RecordDiffers)
    {
      var own := key(identity.membership);
      if lock { return Err(Locked); }
      lock := true;
      var todo := access.Keys;
      while todo != {}
        invariant todo <= access.Keys && lock && access == old(access)
        invariant forall k :: k in access && k != own && k !in todo ==> !Overlap(identity.membership, access[k].membership)
        decreases todo
      {
        var k :| k in todo;
        todo := todo - {k};
        if k != own && Overlap(identity.membership, access[k].membership) {
          lock := false;
          return Err(Overlaps);
        }
      }
      var linked := ImmutableRecord(own, identity);
      lock := false;
      match linked
      case Ok(_) => return Ok(own);
      case Err(e) => return Err(e);
    }
  }

  // ---- the same claim as steps of the protocol

  ghost predicate IsPath(protocol: Protocol, worlds: seq<World>, moves: seq<(nat, Step)>) {
    |worlds| == |moves| + 1
    && forall i :: 0 <= i < |moves| ==>
      protocol.Enabled(worlds[i], moves[i].0, moves[i].1) && worlds[i + 1] == protocol.Next(worlds[i], moves[i].0, moves[i].1)
  }

  lemma PathContinues(protocol: Protocol, worlds: seq<World>, moves: seq<(nat, Step)>, p: nat, step: Step)
    requires IsPath(protocol, worlds, moves) && protocol.Enabled(worlds[|worlds| - 1], p, step)
    ensures IsPath(protocol, worlds + [protocol.Next(worlds[|worlds| - 1], p, step)], moves + [(p, step)])
  {}

  /** The records after a claim, by the contract of `ClaimTestAccess`. */
  ghost function AccessAfter(protocol: Protocol, access: map<string, Identity>, p: nat): map<string, Identity>
    requires p < |protocol.identities|
  {
    var own := protocol.KeyOf(p);
    if own in access || Refuses(access, own, protocol.identities[p].membership) then access else access[own := protocol.identities[p]]
  }

  ghost predicate Grants(protocol: Protocol, access: map<string, Identity>, p: nat)
    requires p < |protocol.identities|
  {
    var own := protocol.KeyOf(p);
    !Refuses(access, own, protocol.identities[p].membership) && (own in access ==> access[own] == protocol.identities[p])
  }

  /** From a state, one process alone takes steps. */
  ghost predicate IsOwnPath(protocol: Protocol, worlds: seq<World>, moves: seq<(nat, Step)>, w: World, p: nat) {
    IsPath(protocol, worlds, moves) && worlds[0] == w && forall i :: 0 <= i < |moves| ==> moves[i].0 == p
  }

  /** A process that is not interrupted claims, or is refused, exactly as the sequential claim does. */
  lemma ClaimAlone(protocol: Protocol, w: World, p: nat) returns (worlds: seq<World>, moves: seq<(nat, Step)>)
    requires protocol.Proper() && protocol.Holds(w) && p < |protocol.identities| && w.phases[p].Starting? && !w.files.lock
    ensures IsOwnPath(protocol, worlds, moves, w, p)
    ensures var last := worlds[|worlds| - 1];
      && last.files == w.files.(access := AccessAfter(protocol, w.files.access, p))
      && last.phases == w.phases[p := if Grants(protocol, w.files.access, p) then Claimed else Refused]
  {
    hide Refuses, IsOwnPath;
    var refused;
    worlds, moves, refused := ScanAlone(protocol, w, p);
    if !refused { worlds, moves := Take(protocol, worlds, moves, w, p, Link); }
    worlds, moves := Take(protocol, worlds, moves, w, p, Release);
  }

  /** The state of a process that has read all records, or one that refuses it. */
  function ScannedAlone(w: World, p: nat, refused: bool): World
    requires p < |w.phases|
  {
    w.(files := w.files.(lock := true), phases := w.phases[p := if refused then Releasing(false) else Scanning({})])
  }

  lemma ScanAlone(protocol: Protocol, w: World, p: nat) returns (worlds: seq<World>, moves: seq<(nat, Step)>, refused: bool)
    requires protocol.Proper() && protocol.Holds(w) && p < |protocol.identities| && w.phases[p].Starting? && !w.files.lock
    ensures IsOwnPath(protocol, worlds, moves, w, p) && worlds != [] && worlds[|worlds| - 1] == ScannedAlone(w, p, refused)
    ensures refused == Refuses(w.files.access, protocol.KeyOf(p), protocol.identities[p].membership)
  {
    var own := protocol.KeyOf(p);
    var m := protocol.identities[p].membership;
    worlds, moves := [w], [];
    assert IsOwnPath(protocol, worlds, moves, w, p);
    hide IsOwnPath;
    worlds, moves := Take(protocol, worlds, moves, w, p, Acquire);
    worlds, moves := Take(protocol, worlds, moves, w, p, List);
    var todo := w.files.access.Keys - {own};
    refused := false;
    while todo != {} && !refused
      invariant IsOwnPath(protocol, worlds, moves, w, p) && worlds != []
      invariant todo <= w.files.access.Keys - {own}
      invariant forall k :: k in w.files.access && k != own && k !in todo ==> refused || !Overlap(m, w.files.access[k].membership)
      invariant refused ==> Refuses(w.files.access, own, m)
      invariant worlds[|worlds| - 1] == w.(files := w.files.(lock := true), phases := w.phases[p := if refused then Releasing(false) else Scanning(todo)])
      decreases todo
    {
      var k :| k in todo;
      worlds, moves := Take(protocol, worlds, moves, w, p, Look(k));
      todo := todo - {k};
      if Overlap(m, w.files.access[k].membership) { refused := true; }
    }
  }

  lemma Take(protocol: Protocol, worlds: seq<World>, moves: seq<(nat, Step)>, w: World, p: nat, step: Step)
    returns (more: seq<World>, longer: seq<(nat, Step)>)
    requires IsOwnPath(protocol, worlds, moves, w, p) && protocol.Enabled(worlds[|worlds| - 1], p, step)
    ensures IsOwnPath(protocol, more, longer, w, p) && more != []
    ensures more[|more| - 1] == protocol.Next(worlds[|worlds| - 1], p, step)
  {
    PathContinues(protocol, worlds, moves, p, step);
    more, longer := worlds + [protocol.Next(worlds[|worlds| - 1], p, step)], moves + [(p, step)];
  }

  // ---- a lock that is held is given back

  /** Between creating the lock and removing it, with only records there are still to read. */
  ghost predicate Inside(protocol: Protocol, w: World, p: nat) {
    p < |protocol.identities| == |w.phases| && protocol.InSection(w.phases[p])
    && (w.phases[p].Scanning? ==> w.phases[p].todo <= w.files.access.Keys)
  }

  /** The steps such a process has left at most. */
  ghost function StepsLeft(w: World, p: nat): nat
    requires p < |w.phases|
  {
    match w.phases[p]
    case Holding => |w.files.access| + 3
    case Scanning(todo) => |todo| + 2
    case _ => 1
  }

  lemma StepsOn(protocol: Protocol, w: World, p: nat) returns (step: Step)
    requires Inside(protocol, w, p)
    ensures protocol.Enabled(w, p, step)
    ensures var next := protocol.Next(w, p, step);
      if step.Release? then !next.files.lock else Inside(protocol, next, p) && StepsLeft(next, p) < StepsLeft(w, p)
  {
    match w.phases[p]
    case Holding =>
      SubsetSize(w.files.access.Keys - {protocol.KeyOf(p)}, w.files.access.Keys);
      step := List;
    case Scanning(todo) =>
      if todo == {} {
        step := Link;
      } else {
        var k :| k in todo;
        step := Look(k);
      }
    case Releasing(_) => step := Release;
  }

  /** A process inside the section can leave it by its own steps alone, whatever the others do not do. */
  lemma {:induction false} LeavesSection(protocol: Protocol, w: World, p: nat) returns (worlds: seq<World>, moves: seq<(nat, Step)>)
    requires Inside(protocol, w, p)
    ensures IsPath(protocol, worlds, moves) && worlds[0] == w && forall i :: 0 <= i < |moves| ==> moves[i].0 == p
    ensures !worlds[|worlds| - 1].files.lock
    decreases StepsLeft(w, p)
  {
    var step := StepsOn(protocol, w, p);
    var next := protocol.Next(w, p, step);
    if step.Release? {
      worlds, moves := [w, next], [(p, step)];
    } else {
      worlds, moves := LeavesSection(protocol, next, p);
      PathPrepends(protocol, w, worlds, moves, p, step);
      worlds, moves := [w] + worlds, [(p, step)] + moves;
    }
  }

  lemma PathPrepends(protocol: Protocol, w: World, worlds: seq<World>, moves: seq<(nat, Step)>, p: nat, step: Step)
    requires IsPath(protocol, worlds, moves) && protocol.Enabled(w, p, step) && worlds[0] == protocol.Next(w, p, step)
    ensures IsPath(protocol, [w] + worlds, [(p, step)] + moves)
  {}

  /** A lock that is not stale is held by a process that can still give it back. */
  lemma HeldLockIsReleased(protocol: Protocol, files: Files, worlds: seq<World>, moves: seq<(nat, Step)>, at: nat)
    returns (p: nat, onward: seq<World>, steps: seq<(nat, Step)>)
    requires protocol.Proper() && protocol.IsLedger(files) && protocol.IsRun(files, worlds, moves) && at < |worlds|
    requires worlds[at].files.lock && !protocol.Stale(worlds[at])
    ensures p < |protocol.identities| == |worlds[at].phases| && protocol.InSection(worlds[at].phases[p])
    ensures IsPath(protocol, onward, steps) && onward[0] == worlds[at] && forall i :: 0 <= i < |steps| ==> steps[i].0 == p
    ensures !onward[|onward| - 1].files.lock
  {
    protocol.EveryWorldHolds(files, worlds, moves, at);
    p :| p < |worlds[at].phases| && protocol.InSection(worlds[at].phases[p]);
    assert protocol.PhaseHolds(worlds[at], p);
    onward, steps := LeavesSection(protocol, worlds[at], p);
  }
}
