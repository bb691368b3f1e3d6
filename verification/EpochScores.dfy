/** The rows a threshold converts, counted directly and by sorting and bisecting their scores. */
module EpochScores {
  const ACTIONS: nat := 4
  const CONVERT: nat := 1

  /** A profile's scores, four to a row, and its labels. */
  datatype Profile = Profile(values: seq<real>, labels: seq<int>)

  predicate HasRows(p: Profile) { |p.values| == |p.labels| * ACTIONS }

  function ScoreAt(p: Profile, row: nat, action: nat): real
    requires HasRows(p) && row < |p.labels| && action < ACTIONS
  {
    p.values[row * ACTIONS + action]
  }

  /** The first action with the greatest score. */
  function Chosen(p: Profile, row: nat, upto: nat): (r: nat)
    requires HasRows(p) && row < |p.labels| && 1 <= upto <= ACTIONS
    ensures r < upto
    ensures forall a: nat :: a < upto ==> ScoreAt(p, row, a) <= ScoreAt(p, row, r)
    ensures forall a: nat :: a < r ==> ScoreAt(p, row, a) < ScoreAt(p, row, r)
  {
    if upto == 1 then 0
    else
      var before := Chosen(p, row, upto - 1);
      if ScoreAt(p, row, upto - 1) > ScoreAt(p, row, before) then upto - 1 else before
  }

  predicate Selects(p: Profile, row: nat)
    requires HasRows(p) && row < |p.labels|
  {
    Chosen(p, row, ACTIONS) == CONVERT
  }

  /** What the runtime converts: convert selected, with at least the threshold. */
  predicate Converts(p: Profile, row: nat, threshold: real)
    requires HasRows(p) && row < |p.labels|
  {
    Selects(p, row) && ScoreAt(p, row, CONVERT) >= threshold
  }

  /** Rows among the first `count` that convert at the threshold, rightly or falsely. */
  function Conversions(p: Profile, threshold: real, right: bool, count: nat): nat
    requires HasRows(p) && count <= |p.labels|
  {
    if count == 0 then 0
    else Conversions(p, threshold, right, count - 1)
         + if Converts(p, count - 1, threshold) && (p.labels[count - 1] == CONVERT) == right then 1 else 0
  }

  /** The scores of the rows that select convert, rightly or falsely. */
  function Scores(p: Profile, right: bool, count: nat): seq<real>
    requires HasRows(p) && count <= |p.labels|
  {
    if count == 0 then []
    else Scores(p, right, count - 1)
         + if Selects(p, count - 1) && (p.labels[count - 1] == CONVERT) == right then [ScoreAt(p, count - 1, CONVERT)] else []
  }

  function Targets(labels: seq<int>): nat {
    if labels == [] then 0 else Targets(labels[..|labels| - 1]) + if labels[|labels| - 1] == CONVERT then 1 else 0
  }

  // ---- counting at least

  function AtLeast(s: seq<real>, threshold: real): nat {
    if s == [] then 0 else AtLeast(s[..|s| - 1], threshold) + if s[|s| - 1] >= threshold then 1 else 0
  }

  lemma {:induction false} ScoresCountConversions(p: Profile, threshold: real, right: bool, count: nat)
    requires HasRows(p) && count <= |p.labels|
    ensures AtLeast(Scores(p, right, count), threshold) == Conversions(p, threshold, right, count)
  {
    if count > 0 {
      ScoresCountConversions(p, threshold, right, count - 1);
      var before := Scores(p, right, count - 1);
      if Selects(p, count - 1) && (p.labels[count - 1] == CONVERT) == right {
        assert Scores(p, right, count)[..|before|] == before;
      } else {
        assert Scores(p, right, count) == before;
      }
    }
  }

  lemma {:induction false} AtLeastSplits(a: seq<real>, b: seq<real>, threshold: real)
    ensures AtLeast(a + b, threshold) == AtLeast(a, threshold) + AtLeast(b, threshold)
    decreases |b|
  {
    if b == [] {
      assert a + b == a;
    } else {
      assert (a + b)[..|a + b| - 1] == a + b[..|b| - 1];
      AtLeastSplits(a, b[..|b| - 1], threshold);
    }
  }

  // ---- sorting

  ghost predicate Sorted(s: seq<real>) { forall i, j :: 0 <= i < j < |s| ==> s[i] <= s[j] }

  function Insert(x: real, s: seq<real>): seq<real> {
    if s == [] || x <= s[0] then [x] + s else [s[0]] + Insert(x, s[1..])
  }

  function Sort(s: seq<real>): seq<real> { if s == [] then [] else Insert(s[|s| - 1], Sort(s[..|s| - 1])) }

  lemma {:induction false} AtLeastPrepend(x: real, s: seq<real>, threshold: real)
    ensures AtLeast([x] + s, threshold) == AtLeast(s, threshold) + if x >= threshold then 1 else 0
  {
    AtLeastSplits([x], s, threshold);
    assert [x][..0] == [];
    assert AtLeast([], threshold) == 0;
  }

  lemma {:induction false} InsertSorts(x: real, s: seq<real>)
    requires Sorted(s)
    ensures Sorted(Insert(x, s)) && |Insert(x, s)| == |s| + 1
    ensures forall i :: 0 <= i < |Insert(x, s)| ==> Insert(x, s)[i] == x || Insert(x, s)[i] in s
    decreases |s|
  {
    if s != [] && x > s[0] {
      InsertSorts(x, s[1..]);
      PrependSorts(s[0], Insert(x, s[1..]));
    }
  }

  lemma PrependSorts(x: real, s: seq<real>)
    requires Sorted(s) && forall i :: 0 <= i < |s| ==> x <= s[i]
    ensures Sorted([x] + s)
  {}

  lemma {:induction false} InsertCounts(x: real, s: seq<real>, threshold: real)
    ensures AtLeast(Insert(x, s), threshold) == AtLeast(s, threshold) + if x >= threshold then 1 else 0
    decreases |s|
  {
    if s == [] || x <= s[0] {
      AtLeastPrepend(x, s, threshold);
    } else {
      InsertCounts(x, s[1..], threshold);
      AtLeastPrepend(s[0], Insert(x, s[1..]), threshold);
      AtLeastPrepend(s[0], s[1..], threshold);
      assert [s[0]] + s[1..] == s;
    }
  }

  lemma {:induction false} SortCounts(s: seq<real>, threshold: real)
    ensures Sorted(Sort(s)) && |Sort(s)| == |s| && AtLeast(Sort(s), threshold) == AtLeast(s, threshold)
    decreases |s|
  {
    if s != [] {
      SortCounts(s[..|s| - 1], threshold);
      InsertSorts(s[|s| - 1], Sort(s[..|s| - 1]));
      InsertCounts(s[|s| - 1], Sort(s[..|s| - 1]), threshold);
    }
  }

  /** `bisect_left`: the first place not below the threshold. */
  method BisectLeft(s: seq<real>, threshold: real) returns (r: nat)
    requires Sorted(s)
    ensures r <= |s|
    ensures forall k :: 0 <= k < r ==> s[k] < threshold
    ensures forall k :: r <= k < |s| ==> s[k] >= threshold
  {
    var low, high := 0, |s|;
    while low < high
      invariant 0 <= low <= high <= |s|
      invariant forall k :: 0 <= k < low ==> s[k] < threshold
      invariant forall k :: high <= k < |s| ==> s[k] >= threshold
    {
      var middle := (low + high) / 2;
      if s[middle] < threshold { low := middle + 1; } else { high := middle; }
    }
    r := low;
  }

  lemma {:induction false} NoneAtLeast(s: seq<real>, threshold: real)
    requires forall k :: 0 <= k < |s| ==> s[k] < threshold
    ensures AtLeast(s, threshold) == 0
  {
    if s != [] { NoneAtLeast(s[..|s| - 1], threshold); }
  }

  lemma {:induction false} AllAtLeast(s: seq<real>, threshold: real)
    requires forall k :: 0 <= k < |s| ==> s[k] >= threshold
    ensures AtLeast(s, threshold) == |s|
  {
    if s != [] { AllAtLeast(s[..|s| - 1], threshold); }
  }

  /** `len(s) - bisect_left(s, threshold)` counts the scores at the threshold or above. */
  method CountAtLeast(s: seq<real>, threshold: real) returns (r: nat)
    requires Sorted(s)
    ensures r == AtLeast(s, threshold)
  {
    var k := BisectLeft(s, threshold);
    NoneAtLeast(s[..k], threshold);
    AllAtLeast(s[k..], threshold);
    AtLeastSplits(s[..k], s[k..], threshold);
    assert s[..k] + s[k..] == s;
    r := |s| - k;
  }
}
