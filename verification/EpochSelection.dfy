/** The development threshold an epoch is ranked by: of all that qualify, the one whose balance is best. */
module EpochSelection {
  import opened Wrappers
  import opened EpochScores
  import opened RowLayout

  const TOLERANCE: real := 0.00000001

  datatype Observation = Observation(positives: seq<real>, negatives: seq<real>, possible: nat, rows: nat)

  datatype EpochError = NoProfiles | InvalidLoss | InvalidFloor | InvalidThreshold | InvalidDimensions | InvalidRow | NotNormalized | NoTargets

  /** An operating point: what it nets over the worst profile and over all of them, and what it repairs of all targets. */
  datatype Point = Point(threshold: real, minimumNet: int, net: int, pooledRecall: real)

  // ---- what is valid

  predicate IsRow(p: Profile, row: nat)
    requires HasRows(p) && row < |p.labels|
  {
    0 <= p.labels[row] < ACTIONS && forall a :: 0 <= a < ACTIONS ==> 0.0 <= ScoreAt(p, row, a) <= 1.0
  }

  predicate IsNormalized(p: Profile, row: nat)
    requires HasRows(p) && row < |p.labels|
  {
    var sum := ScoreAt(p, row, 0) + ScoreAt(p, row, 1) + ScoreAt(p, row, 2) + ScoreAt(p, row, 3);
    1.0 - TOLERANCE <= sum <= 1.0 + TOLERANCE
  }

  /** A row has one of the four labels and four scores between nothing and one. */
  lemma RowWithin(p: Profile, row: nat)
    requires HasRows(p) && row < |p.labels|
    ensures IsRow(p, row) <==>
      && p.labels[row] in {0, 1, 2, 3}
      && 0.0 <= ScoreAt(p, row, 0) <= 1.0 && 0.0 <= ScoreAt(p, row, 1) <= 1.0
      && 0.0 <= ScoreAt(p, row, 2) <= 1.0 && 0.0 <= ScoreAt(p, row, 3) <= 1.0
  {}

  /** A row's four probabilities must sum to one within a hundred-millionth. */
  lemma NormalizedWithin(p: Profile, row: nat)
    requires HasRows(p) && row < |p.labels|
    ensures var sum := ScoreAt(p, row, 0) + ScoreAt(p, row, 1) + ScoreAt(p, row, 2) + ScoreAt(p, row, 3);
      IsNormalized(p, row) <==> -1.0 <= 100000000.0 * (sum - 1.0) <= 1.0
  {}

  ghost predicate IsProfile(p: Profile) {
    p.labels != [] && HasRows(p) && (forall row: nat :: row < |p.labels| ==> IsRow(p, row) && IsNormalized(p, row)) && Targets(p.labels) > 0
  }

  ghost predicate IsInput(profiles: seq<Profile>, thresholds: seq<real>, loss: real, floor_: int) {
    && profiles != [] && thresholds != [] && loss >= 0.0 && floor_ >= 0
    && (forall k :: 0 <= k < |thresholds| ==> 0.0 <= thresholds[k] <= 1.0)
    && forall k :: 0 <= k < |profiles| ==> IsProfile(profiles[k])
  }

  // ---- an operating point, counted directly

  function Net(p: Profile, threshold: real): int
    requires HasRows(p)
  {
    Conversions(p, threshold, true, |p.labels|) - Conversions(p, threshold, false, |p.labels|)
  }

  ghost predicate AllHaveRows(profiles: seq<Profile>) { forall k :: 0 <= k < |profiles| ==> HasRows(profiles[k]) }

  ghost function NetOfAll(profiles: seq<Profile>, threshold: real): int
    requires AllHaveRows(profiles)
  {
    if profiles == [] then 0 else NetOfAll(profiles[..|profiles| - 1], threshold) + Net(profiles[|profiles| - 1], threshold)
  }

  ghost function WorstNet(profiles: seq<Profile>, threshold: real): int
    requires AllHaveRows(profiles) && profiles != []
  {
    var last := Net(profiles[|profiles| - 1], threshold);
    if |profiles| == 1 then last
    else if last < WorstNet(profiles[..|profiles| - 1], threshold) then last else WorstNet(profiles[..|profiles| - 1], threshold)
  }

  ghost function RightOfAll(profiles: seq<Profile>, threshold: real): nat
    requires AllHaveRows(profiles)
  {
    if profiles == [] then 0
    else RightOfAll(profiles[..|profiles| - 1], threshold)
         + Conversions(profiles[|profiles| - 1], threshold, true, |profiles[|profiles| - 1].labels|)
  }

  function TargetsOfAll(profiles: seq<Profile>): nat {
    if profiles == [] then 0 else TargetsOfAll(profiles[..|profiles| - 1]) + Targets(profiles[|profiles| - 1].labels)
  }

  ghost function PointAt(profiles: seq<Profile>, threshold: real): Point
    requires AllHaveRows(profiles) && profiles != []
  {
    Point(threshold, WorstNet(profiles, threshold), NetOfAll(profiles, threshold),
          if TargetsOfAll(profiles) == 0 then 0.0 else RightOfAll(profiles, threshold) as real / TargetsOfAll(profiles) as real)
  }

  /** Worst profile first, then the pooled balance and recall, then the lower threshold; the epoch's loss is the same for all. */
  predicate Outranks(a: Point, b: Point) {
    a.minimumNet > b.minimumNet
    || (a.minimumNet == b.minimumNet
        && (a.net > b.net
            || (a.net == b.net
                && (a.pooledRecall > b.pooledRecall
                    || (a.pooledRecall == b.pooledRecall && a.threshold < b.threshold)))))
  }

  lemma OutranksIsTotal(a: Point, b: Point)
    ensures Outranks(a, b) || Outranks(b, a) || a == b
    ensures !(Outranks(a, b) && Outranks(b, a))
  {}

  // ---- what a point says, and how points rank

  /** The worst profile's net is no profile's more, and some profile's own. */
  lemma {:induction false} WorstIsLeast(profiles: seq<Profile>, threshold: real)
    requires AllHaveRows(profiles) && profiles != []
    ensures forall k :: 0 <= k < |profiles| ==> WorstNet(profiles, threshold) <= Net(profiles[k], threshold)
    ensures exists k :: 0 <= k < |profiles| && WorstNet(profiles, threshold) == Net(profiles[k], threshold)
  {
    var last := |profiles| - 1;
    if last > 0 {
      WorstIsLeast(profiles[..last], threshold);
      var k :| 0 <= k < last && WorstNet(profiles[..last], threshold) == Net(profiles[..last][k], threshold);
      assert profiles[..last][k] == profiles[k];
      forall i | 0 <= i < last ensures WorstNet(profiles[..last], threshold) <= Net(profiles[i], threshold) {
        assert profiles[..last][i] == profiles[i];
      }
    }
  }

  function Each(profiles: seq<Profile>, count: Profile -> nat): seq<nat> {
    seq(|profiles|, k requires 0 <= k < |profiles| => count(profiles[k]))
  }

  ghost function RightAt(threshold: real): Profile -> nat {
    (p: Profile) => if HasRows(p) then Conversions(p, threshold, true, |p.labels|) else 0
  }

  ghost function WrongAt(threshold: real): Profile -> nat {
    (p: Profile) => if HasRows(p) then Conversions(p, threshold, false, |p.labels|) else 0
  }

  function TargetCount(): Profile -> nat { (p: Profile) => Targets(p.labels) }

  lemma {:induction false} TotalsAreSums(profiles: seq<Profile>, threshold: real)
    requires AllHaveRows(profiles)
    ensures NetOfAll(profiles, threshold) == Sum(Each(profiles, RightAt(threshold))) - Sum(Each(profiles, WrongAt(threshold)))
    ensures RightOfAll(profiles, threshold) == Sum(Each(profiles, RightAt(threshold)))
    ensures TargetsOfAll(profiles) == Sum(Each(profiles, TargetCount()))
  {
    if profiles != [] {
      var last := |profiles| - 1;
      TotalsAreSums(profiles[..last], threshold);
      OneMoreEach(profiles, RightAt(threshold));
      OneMoreEach(profiles, WrongAt(threshold));
      OneMoreEach(profiles, TargetCount());
      assert HasRows(profiles[last]);
      hide Each, Sum;
    }
  }

  lemma OneMoreEach(profiles: seq<Profile>, count: Profile -> nat)
    requires profiles != []
    ensures Sum(Each(profiles, count)) == Sum(Each(profiles[..|profiles| - 1], count)) + count(profiles[|profiles| - 1])
  {
    assert Each(profiles, count)[..|profiles| - 1] == Each(profiles[..|profiles| - 1], count);
  }

  /** The pooled recall is the right conversions of all profiles over all their targets; their net is right less false. */
  lemma PointIs(profiles: seq<Profile>, threshold: real)
    requires AllHaveRows(profiles) && profiles != []
    ensures var point, right, wrong, targets :=
        PointAt(profiles, threshold), Sum(Each(profiles, RightAt(threshold))), Sum(Each(profiles, WrongAt(threshold))), Sum(Each(profiles, TargetCount()));
      point.net == right - wrong && (targets > 0 ==> point.pooledRecall == right as real / targets as real)
  {
    TotalsAreSums(profiles, threshold);
  }

  /** A profile qualifies a threshold only by its own net: all must reach the floor. */
  lemma QualifiesExactly(profiles: seq<Profile>, threshold: real, floor_: int)
    requires AllHaveRows(profiles) && profiles != []
    ensures Qualifies(profiles, threshold, floor_) <==> forall k :: 0 <= k < |profiles| ==> Net(profiles[k], threshold) >= floor_
  {
    WorstIsLeast(profiles, threshold);
  }

  /** `rank`: compared from its first member on. */
  function RankOf(point: Point, loss: real): (r: seq<real>)
    ensures |r| == 5
  {
    [point.minimumNet as real, point.net as real, point.pooledRecall, -loss, -point.threshold]
  }

  /** Two tuples of one length: the first is greater where they first differ. */
  ghost predicate TupleGreater(a: seq<real>, b: seq<real>)
    requires |a| == |b|
  {
    exists i :: 0 <= i < |a| && a[i] > b[i] && forall j :: 0 <= j < i ==> a[j] == b[j]
  }

  lemma OutranksIsRank(a: Point, b: Point, loss: real)
    ensures Outranks(a, b) <==> TupleGreater(RankOf(a, loss), RankOf(b, loss))
  {
    var x, y := RankOf(a, loss), RankOf(b, loss);
    if Outranks(a, b) {
      var i := if x[0] != y[0] then 0 else if x[1] != y[1] then 1 else if x[2] != y[2] then 2 else 4;
      assert x[i] > y[i] && forall j :: 0 <= j < i ==> x[j] == y[j];
    }
  }

  /** The point's rank is greater than that of every other threshold at which each profile's net reaches the floor. */
  ghost predicate RanksHighest(profiles: seq<Profile>, thresholds: set<real>, loss: real, floor_: int, best: Point)
    requires AllHaveRows(profiles) && profiles != []
  {
    && best.threshold in thresholds && best == PointAt(profiles, best.threshold)
    && (forall k :: 0 <= k < |profiles| ==> Net(profiles[k], best.threshold) >= floor_)
    && forall t :: t in thresholds && t != best.threshold && AllReach(profiles, t, floor_) ==>
         TupleGreater(RankOf(best, loss), RankOf(PointAt(profiles, t), loss))
  }

  ghost predicate AllReach(profiles: seq<Profile>, t: real, floor_: int)
    requires AllHaveRows(profiles)
  {
    forall k :: 0 <= k < |profiles| ==> Net(profiles[k], t) >= floor_
  }

  lemma BestRanksHighest(profiles: seq<Profile>, thresholds: set<real>, loss: real, floor_: int, best: Option<Point>)
    requires AllHaveRows(profiles) && profiles != [] && IsBest(profiles, thresholds, floor_, best)
    ensures match best
            case None => forall t :: t in thresholds ==> !AllReach(profiles, t, floor_)
            case Some(b) => RanksHighest(profiles, thresholds, loss, floor_, b)
  {
    forall t ensures Qualifies(profiles, t, floor_) <==> AllReach(profiles, t, floor_) { QualifiesExactly(profiles, t, floor_); }
    hide AllReach, Qualifies, TupleGreater, RankOf, Outranks, PointAt;
    if best.Some? {
      assert AllReach(profiles, best.value.threshold, floor_);
      AllReachIs(profiles, best.value.threshold, floor_);
      forall t | t in thresholds && t != best.value.threshold && AllReach(profiles, t, floor_)
        ensures TupleGreater(RankOf(best.value, loss), RankOf(PointAt(profiles, t), loss))
      {
        OutranksIsRank(best.value, PointAt(profiles, t), loss);
      }
    }
  }

  lemma AllReachIs(profiles: seq<Profile>, t: real, floor_: int)
    requires AllHaveRows(profiles) && AllReach(profiles, t, floor_)
    ensures forall k :: 0 <= k < |profiles| ==> Net(profiles[k], t) >= floor_
  {}

  ghost predicate Qualifies(profiles: seq<Profile>, threshold: real, floor_: int)
    requires AllHaveRows(profiles) && profiles != []
  {
    WorstNet(profiles, threshold) >= floor_
  }

  /** The selection the thresholds determine: of those that qualify, the one that outranks all others. */
  ghost predicate IsBest(profiles: seq<Profile>, thresholds: set<real>, floor_: int, best: Option<Point>)
    requires AllHaveRows(profiles) && profiles != []
  {
    match best
    case None => forall t :: t in thresholds ==> !Qualifies(profiles, t, floor_)
    case Some(b) =>
      b.threshold in thresholds && b == PointAt(profiles, b.threshold) && Qualifies(profiles, b.threshold, floor_)
      && forall t :: t in thresholds && Qualifies(profiles, t, floor_) && t != b.threshold ==> Outranks(b, PointAt(profiles, t))
  }

  ghost predicate IsOnlyBest(profiles: seq<Profile>, thresholds: set<real>, floor_: int, best: Option<Point>)
    requires AllHaveRows(profiles) && profiles != []
  {
    IsBest(profiles, thresholds, floor_, best) && forall other :: IsBest(profiles, thresholds, floor_, other) ==> other == best
  }

  /** Only one selection is best, whatever the order and repeats of the thresholds. */
  lemma BestIsUnique(profiles: seq<Profile>, thresholds: set<real>, floor_: int, a: Option<Point>, b: Option<Point>)
    requires AllHaveRows(profiles) && profiles != []
    requires IsBest(profiles, thresholds, floor_, a) && IsBest(profiles, thresholds, floor_, b)
    ensures a == b
  {
    if a.Some? && b.Some? {
      OutranksIsTotal(a.value, b.value);
    }
  }

  // ---- observations

  ghost predicate Observes(o: Observation, p: Profile) {
    HasRows(p) && o.positives == Sort(Scores(p, true, |p.labels|)) && o.negatives == Sort(Scores(p, false, |p.labels|))
    && o.possible == Targets(p.labels) && o.rows == |p.labels|
  }

  /** One profile's rows: validated, and the scores of those that select convert sorted. */
  method Observe(p: Profile) returns (r: Result<Observation, EpochError>)
    ensures r.Ok? <==> IsProfile(p)
    ensures r.Ok? ==> Observes(r.value, p)
  {
    if p.labels == [] || |p.values| != |p.labels| * ACTIONS { return Err(InvalidDimensions); }
    var positives: seq<real>, negatives: seq<real>, possible := [], [], 0;
    for row := 0 to |p.labels|
      invariant forall k: nat :: k < row ==> IsRow(p, k) && IsNormalized(p, k)
      invariant positives == Scores(p, true, row) && negatives == Scores(p, false, row) && possible == Targets(p.labels[..row])
    {
      if !IsRow(p, row) { return Err(InvalidRow); }
      if !IsNormalized(p, row) { return Err(NotNormalized); }
      assert p.labels[..row + 1][..row] == p.labels[..row];
      if p.labels[row] == CONVERT { possible := possible + 1; }
      if Selects(p, row) {
        if p.labels[row] == CONVERT {
          positives := positives + [ScoreAt(p, row, CONVERT)];
        } else {
          negatives := negatives + [ScoreAt(p, row, CONVERT)];
        }
      }
    }
    assert p.labels[..|p.labels|] == p.labels;
    if possible == 0 { return Err(NoTargets); }
    return Ok(Observation(Sort(positives), Sort(negatives), possible, |p.labels|));
  }

  ghost predicate ObservesAll(observations: seq<Observation>, profiles: seq<Profile>) {
    |observations| == |profiles| && forall k :: 0 <= k < |profiles| ==> Observes(observations[k], profiles[k])
  }

  method ObserveAll(profiles: seq<Profile>) returns (r: Result<seq<Observation>, EpochError>)
    ensures r.Ok? <==> forall k :: 0 <= k < |profiles| ==> IsProfile(profiles[k])
    ensures r.Ok? ==> ObservesAll(r.value, profiles)
  {
    var observations: seq<Observation> := [];
    for k := 0 to |profiles|
      invariant ObservesAll(observations, profiles[..k]) && forall i :: 0 <= i < k ==> IsProfile(profiles[i])
    {
      var one := Observe(profiles[k]);
      match one
      case Err(e) => return Err(e);
      case Ok(o) => observations := observations + [o];
    }
    assert profiles[..|profiles|] == profiles;
    return Ok(observations);
  }

  /** A profile's right and false conversions, by bisecting its sorted scores. */
  method CountAt(o: Observation, threshold: real, ghost p: Profile) returns (right: int, wrong: int)
    requires Observes(o, p)
    ensures right == Conversions(p, threshold, true, |p.labels|) && wrong == Conversions(p, threshold, false, |p.labels|)
  {
    SortCounts(Scores(p, true, |p.labels|), threshold);
    SortCounts(Scores(p, false, |p.labels|), threshold);
    ScoresCountConversions(p, threshold, true, |p.labels|);
    ScoresCountConversions(p, threshold, false, |p.labels|);
    right := CountAtLeast(o.positives, threshold);
    wrong := CountAtLeast(o.negatives, threshold);
  }

  /** The operating point of a threshold over all profiles. */
  method Assess(observations: seq<Observation>, threshold: real, ghost profiles: seq<Profile>) returns (point: Point)
    requires ObservesAll(observations, profiles) && profiles != [] && AllHaveRows(profiles)
    ensures point == PointAt(profiles, threshold)
  {
    var worst: int, net: int, right: int, possible: int := 0, 0, 0, 0;
    for k := 0 to |observations|
      invariant AllHaveRows(profiles[..k])
      invariant k > 0 ==> worst == WorstNet(profiles[..k], threshold)
      invariant net == NetOfAll(profiles[..k], threshold) && right == RightOfAll(profiles[..k], threshold)
      invariant possible == TargetsOfAll(profiles[..k])
    {
      assert profiles[..k + 1][..k] == profiles[..k];
      assert AllHaveRows(profiles[..k + 1]);
      var converted, wrong := CountAt(observations[k], threshold, profiles[k]);
      if k == 0 || converted - wrong < worst { worst := converted - wrong; }
      net, right, possible := net + converted - wrong, right + converted, possible + observations[k].possible;
    }
    assert profiles[..|profiles|] == profiles;
    point := Point(threshold, worst, net, if possible == 0 then 0.0 else right as real / possible as real);
  }

  /**
   The unique best qualifying threshold, or none exactly when none qualifies; an input that is not valid is refused.
   Thresholds are taken in any order, each once: the selection is the same for all of them.
   */
  method AssessEpoch(profiles: seq<Profile>, thresholds: seq<real>, loss: real, floor_: int) returns (r: Result<Option<Point>, EpochError>)
    ensures r.Ok? <==> IsInput(profiles, thresholds, loss, floor_)
    ensures r.Ok? ==> AllHaveRows(profiles) && IsOnlyBest(profiles, (set t | t in thresholds), floor_, r.value)
    ensures r.Ok? ==> match r.value
      case None => forall t :: t in thresholds ==> !AllReach(profiles, t, floor_)
      case Some(best) => RanksHighest(profiles, (set t | t in thresholds), loss, floor_, best)
  {
    if profiles == [] || thresholds == [] { return Err(NoProfiles); }
    if loss < 0.0 { return Err(InvalidLoss); }
    if floor_ < 0 { return Err(InvalidFloor); }
    if exists k :: 0 <= k < |thresholds| && !(0.0 <= thresholds[k] <= 1.0) { return Err(InvalidThreshold); }
    var observed := ObserveAll(profiles);
    if observed.Err? { return Err(observed.error); }
    assert AllHaveRows(profiles) by {
      forall k | 0 <= k < |profiles| ensures HasRows(profiles[k]) { assert Observes(observed.value[k], profiles[k]); }
    }
    ghost var all := set t | t in thresholds;
    var left := set t | t in thresholds;
    var best: Option<Point> := None;
    while left != {}
      invariant left <= all && IsBest(profiles, all - left, floor_, best)
      decreases left
    {
      var threshold :| threshold in left;
      var point := Assess(observed.value, threshold, profiles);
      BestWithOneMore(profiles, all - left, floor_, best, point);
      assert all - (left - {threshold}) == all - left + {threshold};
      if point.minimumNet >= floor_ && (best.None? || Outranks(point, best.value)) { best := Some(point); }
      left := left - {threshold};
    }
    assert all - {} == all;
    forall other | IsBest(profiles, all, floor_, other) ensures other == best { BestIsUnique(profiles, all, floor_, other, best); }
    BestRanksHighest(profiles, all, loss, floor_, best);
    return Ok(best);
  }

  lemma BestWithOneMore(profiles: seq<Profile>, thresholds: set<real>, floor_: int, best: Option<Point>, point: Point)
    requires AllHaveRows(profiles) && profiles != [] && IsBest(profiles, thresholds, floor_, best)
    requires point == PointAt(profiles, point.threshold) && point.threshold !in thresholds
    ensures IsBest(profiles, thresholds + {point.threshold}, floor_,
                   if point.minimumNet >= floor_ && (best.None? || Outranks(point, best.value)) then Some(point) else best)
  {
    if best.Some? { OutranksIsTotal(point, best.value); }
  }
}
