/** The floors of the message test: what two pairs of models make of the same messages, counted and compared. */
module MessageFloors {
  import opened Wrappers
  import opened LossChance

  const SIGNIFICANCE: real := 0.05
  const MIN_NET_MARGIN: int := 1

  const CORRECT := "correct"
  const RESTORING := ["forget_ru", "forget_en", "start_wrong"]

  predicate IsMode(mode: string) { mode == CORRECT || mode in RESTORING }

  /** What became of a message typed in a mode; an error is known by its kind alone. */
  datatype Outcome = Right | Wrong | Skipped | Failed(kind: string)

  datatype Row = Row(index: nat, mode: string, outcome: Outcome)

  datatype Counts = Counts(n: nat, ok: nat, errors: nat)

  /** The messages of a mode only one of two pairs gets right. */
  datatype Paired = Paired(gains: nat, losses: nat)

  // ---- counting

  function KeyOf(row: Row): (nat, string) { (row.index, row.mode) }

  function Typed(rows: seq<Row>, mode: string): nat {
    if rows == [] then 0
    else Typed(rows[..|rows| - 1], mode) + if rows[|rows| - 1].mode == mode && !rows[|rows| - 1].outcome.Skipped? then 1 else 0
  }

  function Rights(rows: seq<Row>, mode: string): nat {
    if rows == [] then 0
    else Rights(rows[..|rows| - 1], mode) + if rows[|rows| - 1].mode == mode && rows[|rows| - 1].outcome.Right? then 1 else 0
  }

  function Failures(rows: seq<Row>, mode: string): nat {
    if rows == [] then 0
    else Failures(rows[..|rows| - 1], mode) + if rows[|rows| - 1].mode == mode && rows[|rows| - 1].outcome.Failed? then 1 else 0
  }

  function CountsOf(rows: seq<Row>, mode: string): Counts { Counts(Typed(rows, mode), Rights(rows, mode), Failures(rows, mode)) }

  ghost predicate IsTable(table: map<string, Counts>, rows: seq<Row>) {
    forall mode: string :: (mode in table <==> Typed(rows, mode) > 0) && (mode in table ==> table[mode] == CountsOf(rows, mode))
  }

  lemma {:induction false} CountsAreParts(rows: seq<Row>, mode: string)
    ensures Rights(rows, mode) + Failures(rows, mode) <= Typed(rows, mode)
  {
    if rows != [] { CountsAreParts(rows[..|rows| - 1], mode); }
  }

  /** Messages typed, typed right and failed, by mode; a skipped message counts nowhere. */
  method Count(rows: seq<Row>) returns (table: map<string, Counts>)
    ensures IsTable(table, rows)
  {
    table := map[];
    for k := 0 to |rows|
      invariant IsTable(table, rows[..k])
    {
      var row := rows[k];
      assert rows[..k + 1][..k] == rows[..k];
      if !row.outcome.Skipped? {
        CountsAreParts(rows[..k], row.mode);
        var entry := if row.mode in table then table[row.mode] else Counts(0, 0, 0);
        table := table[row.mode := Counts(entry.n + 1, entry.ok + if row.outcome.Right? then 1 else 0,
                                          entry.errors + if row.outcome.Failed? then 1 else 0)];
      }
    }
    assert rows[..|rows|] == rows;
  }

  // ---- what only one of two pairs gets right

  function Theirs(rows: seq<Row>): map<(nat, string), Outcome> {
    if rows == [] then map[] else Theirs(rows[..|rows| - 1])[KeyOf(rows[|rows| - 1]) := rows[|rows| - 1].outcome]
  }

  function IsRight(theirs: map<(nat, string), Outcome>, key: (nat, string)): bool { key in theirs && theirs[key].Right? }

  function PairedOf(candidate: seq<Row>, theirs: map<(nat, string), Outcome>, mode: string): Paired {
    if candidate == [] then Paired(0, 0)
    else
      var before := PairedOf(candidate[..|candidate| - 1], theirs, mode);
      var row := candidate[|candidate| - 1];
      if row.mode != mode then before
      else Paired(before.gains + if row.outcome.Right? && !IsRight(theirs, KeyOf(row)) then 1 else 0,
                  before.losses + if !row.outcome.Right? && IsRight(theirs, KeyOf(row)) then 1 else 0)
  }

  datatype CountError = UnknownMessage | UnknownMode

  /** The other pair's outcomes; of two rows of a message in a mode the later one counts. */
  method ReadTheirs(rows: seq<Row>) returns (theirs: map<(nat, string), Outcome>)
    ensures theirs == Theirs(rows)
  {
    theirs := map[];
    for k := 0 to |rows|
      invariant theirs == Theirs(rows[..k])
    {
      assert rows[..k + 1][..k] == rows[..k];
      theirs := theirs[KeyOf(rows[k]) := rows[k].outcome];
    }
    assert rows[..|rows|] == rows;
  }

  ghost predicate IsPaired(result: map<string, Paired>, candidate: seq<Row>, theirs: map<(nat, string), Outcome>) {
    forall mode | IsMode(mode) :: mode in result && result[mode] == PairedOf(candidate, theirs, mode)
  }

  function WithRow(p: Paired, mine: Outcome, other: Outcome): Paired {
    Paired(p.gains + if mine.Right? && !other.Right? then 1 else 0, p.losses + if !mine.Right? && other.Right? then 1 else 0)
  }

  lemma PairedStep(result: map<string, Paired>, candidate: seq<Row>, theirs: map<(nat, string), Outcome>, k: nat)
    requires k < |candidate| && IsPaired(result, candidate[..k], theirs) && KeyOf(candidate[k]) in theirs && IsMode(candidate[k].mode)
    ensures var row := candidate[k];
            IsPaired(result[row.mode := WithRow(result[row.mode], row.outcome, theirs[KeyOf(row)])], candidate[..k + 1], theirs)
  {
    assert candidate[..k + 1][..k] == candidate[..k];
    hide IsMode;
  }

  lemma PairedStarts(result: map<string, Paired>, candidate: seq<Row>, theirs: map<(nat, string), Outcome>)
    requires forall mode | IsMode(mode) :: mode in result && result[mode] == Paired(0, 0)
    ensures IsPaired(result, candidate[..0], theirs)
  {}

  ghost predicate IsKnown(row: Row, theirs: map<(nat, string), Outcome>) { KeyOf(row) in theirs && IsMode(row.mode) }

  /** The discordance of two pairs by mode; a message the other pair has no row of, or an unknown mode, is refused. */
  method Discordance(candidate: seq<Row>, released: seq<Row>) returns (r: Result<map<string, Paired>, CountError>)
    ensures r.Ok? <==> forall k :: 0 <= k < |candidate| ==> IsKnown(candidate[k], Theirs(released))
    ensures r.Ok? ==> IsPaired(r.value, candidate, Theirs(released))
  {
    var theirs := ReadTheirs(released);
    var result := map mode | mode in RESTORING + [CORRECT] :: Paired(0, 0);
    PairedStarts(result, candidate, theirs);
    hide IsPaired, PairedOf, Theirs;
    for k := 0 to |candidate|
      invariant forall i :: 0 <= i < k ==> IsKnown(candidate[i], theirs)
      invariant forall mode | IsMode(mode) :: mode in result
      invariant IsPaired(result, candidate[..k], theirs)
    {
      var row := candidate[k];
      if KeyOf(row) !in theirs { return Err(UnknownMessage); }
      if !IsMode(row.mode) { return Err(UnknownMode); }
      PairedStep(result, candidate, theirs, k);
      result := result[row.mode := WithRow(result[row.mode], row.outcome, theirs[KeyOf(row)])];
    }
    assert candidate[..|candidate|] == candidate;
    return Ok(result);
  }

  // ---- two pairs on the same messages

  ghost predicate Distinct(rows: seq<Row>) { forall i, j :: 0 <= i < j < |rows| ==> KeyOf(rows[i]) != KeyOf(rows[j]) }

  ghost function Keys(rows: seq<Row>): set<(nat, string)> { set k | 0 <= k < |rows| :: KeyOf(rows[k]) }

  /** Each message once in each mode, the same for both pairs, in any order. */
  ghost predicate SameMessages(a: seq<Row>, b: seq<Row>) { Distinct(a) && Distinct(b) && Keys(a) == Keys(b) }

  /** The keys of a mode a table of outcomes has as right. */
  ghost function RightKeys(theirs: map<(nat, string), Outcome>, mode: string): set<(nat, string)> {
    set key | key in theirs && key.1 == mode && theirs[key].Right?
  }

  lemma TheirsEnds(rows: seq<Row>)
    requires rows != [] && Distinct(rows)
    ensures var last := rows[|rows| - 1]; KeyOf(last) !in Theirs(rows[..|rows| - 1])
  {
    TheirsKeys(rows[..|rows| - 1]);
  }

  lemma {:induction false} TheirsKeys(rows: seq<Row>)
    ensures Theirs(rows).Keys == Keys(rows)
  {
    if rows != [] {
      TheirsKeys(rows[..|rows| - 1]);
      KeysEnd(rows);
    }
  }

  lemma KeysEnd(rows: seq<Row>)
    requires rows != []
    ensures Keys(rows) == Keys(rows[..|rows| - 1]) + {KeyOf(rows[|rows| - 1])}
  {
    var front := rows[..|rows| - 1];
    forall k | 0 <= k < |rows| ensures KeyOf(rows[k]) in Keys(front) + {KeyOf(rows[|rows| - 1])} {
      if k < |front| { assert front[k] == rows[k]; }
    }
    forall k | 0 <= k < |front| ensures KeyOf(front[k]) in Keys(rows) { assert front[k] == rows[k]; }
  }

  /** With each message once, a mode's right rows are the right keys. */
  lemma {:induction false} RightsAreKeys(rows: seq<Row>, mode: string)
    requires Distinct(rows)
    ensures Rights(rows, mode) == |RightKeys(Theirs(rows), mode)|
  {
    if rows == [] {
      assert RightKeys(Theirs(rows), mode) == {};
    } else {
      var last := rows[|rows| - 1];
      RightsAreKeys(rows[..|rows| - 1], mode);
      TheirsEnds(rows);
      OneMoreKey(Theirs(rows[..|rows| - 1]), last, mode);
    }
  }

  lemma OneMoreKey(before: map<(nat, string), Outcome>, row: Row, mode: string)
    requires KeyOf(row) !in before
    ensures |RightKeys(before[KeyOf(row) := row.outcome], mode)|
         == |RightKeys(before, mode)| + if row.mode == mode && row.outcome.Right? then 1 else 0
  {
    var after := RightKeys(before[KeyOf(row) := row.outcome], mode);
    if row.mode == mode && row.outcome.Right? {
      assert after == RightKeys(before, mode) + {KeyOf(row)};
    } else {
      assert after == RightKeys(before, mode);
    }
  }

  /** The right keys of the other pair among some of the candidate's messages. */
  ghost function Among(theirs: map<(nat, string), Outcome>, keys: set<(nat, string)>, mode: string): set<(nat, string)> {
    set key | key in RightKeys(theirs, mode) && key in keys
  }

  lemma OneMoreAmong(theirs: map<(nat, string), Outcome>, keys: set<(nat, string)>, key: (nat, string), mode: string)
    requires key !in keys
    ensures |Among(theirs, keys + {key}, mode)| == |Among(theirs, keys, mode)| + if key.1 == mode && IsRight(theirs, key) then 1 else 0
  {
    if key.1 == mode && IsRight(theirs, key) {
      assert Among(theirs, keys + {key}, mode) == Among(theirs, keys, mode) + {key};
    } else {
      assert Among(theirs, keys + {key}, mode) == Among(theirs, keys, mode);
    }
  }

  lemma {:induction false} GainsBalance(candidate: seq<Row>, theirs: map<(nat, string), Outcome>, mode: string)
    requires Distinct(candidate)
    ensures var p := PairedOf(candidate, theirs, mode);
            Rights(candidate, mode) + p.losses == |Among(theirs, Keys(candidate), mode)| + p.gains
  {
    if candidate == [] {
      assert Among(theirs, Keys(candidate), mode) == {};
    } else {
      var front, last := candidate[..|candidate| - 1], candidate[|candidate| - 1];
      GainsBalance(front, theirs, mode);
      KeysEnd(candidate);
      OneMoreAmong(theirs, Keys(front), KeyOf(last), mode);
    }
  }

  /** On the same messages the gains and losses of a mode account for the whole difference in what is typed right. */
  lemma {:induction false} GainsLessLosses(candidate: seq<Row>, released: seq<Row>, mode: string)
    requires SameMessages(candidate, released)
    ensures var p := PairedOf(candidate, Theirs(released), mode);
            Rights(candidate, mode) - Rights(released, mode) == p.gains - p.losses
  {
    GainsBalance(candidate, Theirs(released), mode);
    RightsAreKeys(released, mode);
    TheirsKeys(released);
    assert Among(Theirs(released), Keys(candidate), mode) == RightKeys(Theirs(released), mode);
  }

  // ---- the floors

  ghost predicate HasModes(table: map<string, Counts>) { forall mode | IsMode(mode) :: mode in table && table[mode].ok <= table[mode].n }

  function Corruptions(table: map<string, Counts>): int
    requires CORRECT in table
  {
    table[CORRECT].n - table[CORRECT].ok
  }

  function Restored(table: map<string, Counts>): nat
    requires forall mode | mode in RESTORING :: mode in table
  {
    table[RESTORING[0]].ok + table[RESTORING[1]].ok + table[RESTORING[2]].ok
  }

  function Net(table: map<string, Counts>): int
    requires HasModes(table)
  {
    Restored(table) - Corruptions(table)
  }

  ghost predicate BetterThanBaseline(candidate: map<string, Counts>, baseline: map<string, Counts>)
    requires HasModes(candidate) && HasModes(baseline)
  {
    Net(candidate) >= Net(baseline) + MIN_NET_MARGIN && Corruptions(candidate) <= Corruptions(baseline)
  }

  ghost predicate NotWorse(candidate: map<string, Counts>, released: map<string, Counts>, paired: map<string, Paired>)
    requires HasModes(candidate) && HasModes(released) && forall mode | mode in RESTORING :: mode in paired
  {
    (forall mode | mode in RESTORING :: Chance(paired[mode].losses, paired[mode].gains) >= SIGNIFICANCE)
    && Restored(candidate) >= Restored(released) && Corruptions(candidate) <= Corruptions(released)
  }

  /** Without a gain F3 lets a mode lose up to four messages: four losses are one chance in sixteen, five in thirty-two. */
  lemma FourLossesAtMost(losses: nat)
    ensures Chance(losses, 0) >= SIGNIFICANCE <==> losses <= 4
  {
    LossesAlone(4);
    LossesAlone(5);
    assert Pow2(4) == 16 && Pow2(5) == 32;
    if losses <= 4 { BetterIsLikelier(4, 0, losses, 0); } else { BetterIsLikelier(losses, 0, 5, 0); }
  }

  lemma {:induction false} LossesAlone(losses: nat)
    ensures Pow2(losses) > 0 && Chance(losses, 0) == 1.0 / Pow2(losses) as real
  {
    Pow2Positive(losses);
    CombFull(losses);
    assert Tail(losses, losses) == Comb(losses, losses) + Tail(losses, losses + 1);
  }

  ghost predicate AtLeastAsGood(better: map<string, Paired>, worse: map<string, Paired>)
    requires forall mode | mode in RESTORING :: mode in better && mode in worse
  {
    forall mode | mode in RESTORING :: better[mode].losses <= worse[mode].losses && better[mode].gains >= worse[mode].gains
  }

  /** More gains and fewer losses, in any of the modes, never fail a floor that held. */
  lemma GainsNeverFailTheFloor(candidate: map<string, Counts>, released: map<string, Counts>, worse: map<string, Paired>, better: map<string, Paired>)
    requires HasModes(candidate) && HasModes(released) && forall mode | mode in RESTORING :: mode in better && mode in worse
    requires NotWorse(candidate, released, worse) && AtLeastAsGood(better, worse)
    ensures NotWorse(candidate, released, better)
  {
    forall mode | mode in RESTORING ensures Chance(better[mode].losses, better[mode].gains) >= SIGNIFICANCE {
      BetterIsLikelier(worse[mode].losses, worse[mode].gains, better[mode].losses, better[mode].gains);
    }
  }

  ghost function Total(candidate: seq<Row>, released: seq<Row>): Paired {
    var theirs := Theirs(released);
    var a, b, c := PairedOf(candidate, theirs, RESTORING[0]), PairedOf(candidate, theirs, RESTORING[1]), PairedOf(candidate, theirs, RESTORING[2]);
    Paired(a.gains + b.gains + c.gains, a.losses + b.losses + c.losses)
  }

  ghost predicate Counted(table: map<string, Counts>, rows: seq<Row>) { HasModes(table) && IsTable(table, rows) }

  /**
   On the same messages, the counts floor F3 compares hold exactly when the candidate's gains in the restoring modes
   make up for its losses, and, if both pairs typed as many messages that needed nothing, there too.
   */
  lemma {:induction false} CountsOfTheFloor(candidate: seq<Row>, released: seq<Row>, mine: map<string, Counts>,
                                            theirs: map<string, Counts>)
    requires SameMessages(candidate, released) && Counted(mine, candidate) && Counted(theirs, released)
    ensures Restored(mine) >= Restored(theirs) <==> Total(candidate, released).gains >= Total(candidate, released).losses
    ensures Typed(candidate, CORRECT) == Typed(released, CORRECT)
        ==> var p := PairedOf(candidate, Theirs(released), CORRECT); (Corruptions(mine) <= Corruptions(theirs) <==> p.gains >= p.losses)
  {
    GainsLessLosses(candidate, released, RESTORING[0]);
    GainsLessLosses(candidate, released, RESTORING[1]);
    GainsLessLosses(candidate, released, RESTORING[2]);
    GainsLessLosses(candidate, released, CORRECT);
  }

  /**
   A candidate that passes both floors on the messages the released pair typed too: its gains make up for its losses,
   it nets no less than the released pair, and what it restores over the baseline is more than what it corrupts over it.
   */
  lemma {:induction false} PassingBothFloors(candidate: seq<Row>, released: seq<Row>, mine: map<string, Counts>,
                                             theirs: map<string, Counts>, baseline: map<string, Counts>,
                                             paired: map<string, Paired>)
    requires SameMessages(candidate, released) && Counted(mine, candidate) && Counted(theirs, released) && HasModes(baseline)
    requires forall mode | IsMode(mode) :: mode in paired && paired[mode] == PairedOf(candidate, Theirs(released), mode)
    requires BetterThanBaseline(mine, baseline) && NotWorse(mine, theirs, paired)
    ensures Total(candidate, released).gains >= Total(candidate, released).losses
    ensures Net(mine) >= Net(theirs)
    ensures Restored(mine) - Restored(baseline) > Corruptions(mine) - Corruptions(baseline)
  {
    CountsOfTheFloor(candidate, released, mine, theirs);
  }

  /** Every pair typed every message: no mode of any table counts an error. */
  ghost predicate EveryMessageTyped(tables: seq<map<string, Counts>>) {
    forall k, mode :: 0 <= k < |tables| && IsMode(mode) && mode in tables[k] ==> tables[k][mode].errors == 0
  }

  lemma {:induction false} NoFailures(rows: seq<Row>, mode: string)
    ensures Failures(rows, mode) == 0 <==> forall k :: 0 <= k < |rows| && rows[k].mode == mode ==> !rows[k].outcome.Failed?
  {
    if rows != [] {
      NoFailures(rows[..|rows| - 1], mode);
      assert forall k :: 0 <= k < |rows| - 1 ==> rows[..|rows| - 1][k] == rows[k];
    }
  }

  /** The floor holds of counted tables exactly when no message of a mode came back as an error. */
  lemma TypedExactly(runs: seq<seq<Row>>, tables: seq<map<string, Counts>>)
    requires |runs| == |tables| && forall k :: 0 <= k < |runs| ==> IsTable(tables[k], runs[k])
    ensures EveryMessageTyped(tables)
       <==> forall k, i :: 0 <= k < |runs| && 0 <= i < |runs[k]| && IsMode(runs[k][i].mode) ==> !runs[k][i].outcome.Failed?
  {
    forall k, mode: string | 0 <= k < |runs|
      ensures Failures(runs[k], mode) == 0 <==> forall i :: 0 <= i < |runs[k]| && runs[k][i].mode == mode ==> !runs[k][i].outcome.Failed?
      ensures mode in tables[k] || Failures(runs[k], mode) == 0
    {
      NoFailures(runs[k], mode);
      CountsAreParts(runs[k], mode);
    }
  }
}
