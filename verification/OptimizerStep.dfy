/**
 What one row's training does: the exact step of every cell, the side each weight moves to, and that the row's own
 answer becomes more likely.
 */
module OptimizerStep {
  import opened PackedRows
  import opened Optimizer

  /** `exp` of a sum is a product and grows; dividing by a root keeps the sign. */
  ghost predicate Exponential(m: Maths) { Sound(m) && (forall x, y :: Grows(m, x, y)) && forall x, y :: AddsUp(m, x, y) }

  ghost predicate Grows(m: Maths, x: real, y: real) { x < y ==> m.exp(x) < m.exp(y) }

  ghost predicate AddsUp(m: Maths, x: real, y: real) { m.exp(x + y) == m.exp(x) * m.exp(y) }

  lemma ExpAddsUp(m: Maths, x: real, y: real, sum: real)
    requires Exponential(m) && sum == x + y
    ensures m.exp(sum) == m.exp(x) * m.exp(y)
  {
    assert AddsUp(m, x, y);
  }

  ghost predicate KeepsSign(m: Maths) {
    forall x, a {:trigger m.overRoot(x, a)} :: a > 0.0 ==>
      (x > 0.0 ==> m.overRoot(x, a) > 0.0) && (x < 0.0 ==> m.overRoot(x, a) < 0.0) && (x == 0.0 ==> m.overRoot(x, a) == 0.0)
  }

  ghost predicate DistinctColumns(row: Row) {
    forall i, j :: 0 <= i < j < |row.entries| ==> row.entries[i].column != row.entries[j].column
  }

  ghost predicate NotNegative(fit: Fit) {
    forall c :: 0 <= c < |fit.accumulators| ==> fit.accumulators[c].Finite? ==> fit.accumulators[c].value >= 0.0
  }

  // ---- probabilities

  lemma {:induction false} SharesSumToOne(s: seq<real>, total: real, shares: seq<real>)
    requires total > 0.0 && |shares| == |s| && forall k :: 0 <= k < |s| ==> shares[k] == Share(s[k], total)
    ensures Total(shares) == Total(s) / total
    decreases |s|
  {
    if s != [] {
      var last := |s| - 1;
      SharesSumToOne(s[..last], total, shares[..last]);
      AddShares(Total(s[..last]), s[last], total);
    }
  }

  lemma AddShares(a: real, b: real, total: real)
    requires total > 0.0
    ensures a / total + b / total == (a + b) / total
  {}

  /** The probabilities sum to one. */
  lemma SoftmaxSumsToOne(scores: seq<real>, m: Maths)
    requires Sound(m) && |scores| == ACTIONS
    ensures Total(Softmax(scores, m)) == 1.0
  {
    var e := Exponents(scores, m);
    TotalIsPositive(e);
    SharesSumToOne(e, Total(e), Softmax(scores, m));
    WholeShare(Total(e));
  }

  lemma WholeShare(x: real)
    requires x > 0.0
    ensures x / x == 1.0
  {}

  lemma {:induction false} TotalOfFour(s: seq<real>)
    requires |s| == ACTIONS
    ensures Total(s) == s[0] + s[1] + s[2] + s[3]
  {
    assert s[..3][..2] == s[..2] && s[..2][..1] == s[..1] && s[..1][..0] == [];
    assert Total(s[..3]) == Total(s[..2]) + s[2] && Total(s[..2]) == Total(s[..1]) + s[1] && Total(s[..1]) == s[0];
  }

  lemma SoftmaxIsBelowOne(scores: seq<real>, m: Maths, k: nat)
    requires Sound(m) && |scores| == ACTIONS && k < ACTIONS
    ensures 0.0 < Softmax(scores, m)[k] < 1.0
  {
    SoftmaxSumsToOne(scores, m);
    TotalOfFour(Softmax(scores, m));
    SoftmaxIsPositive(scores, m, 0);
    SoftmaxIsPositive(scores, m, 1);
    SoftmaxIsPositive(scores, m, 2);
    SoftmaxIsPositive(scores, m, 3);
  }

  lemma ShareRatio(x: real, y: real, total: real, q: real)
    requires total > 0.0 && x == y * q
    ensures x / total == (y / total) * q
  {}

  /** Two probabilities are to each other as `exp` of the difference of their scores. */
  lemma SoftmaxRatio(scores: seq<real>, m: Maths, i: nat, j: nat)
    requires Exponential(m) && |scores| == ACTIONS && i < ACTIONS && j < ACTIONS
    ensures Softmax(scores, m)[i] == Softmax(scores, m)[j] * m.exp(scores[i] - scores[j])
  {
    var e, top := Exponents(scores, m), Maximum(scores);
    assert forall x :: m.exp(x) > 0.0;
    hide Exponential, Maximum, Total, Share;
    TotalIsPositive(e);
    ExpAddsUp(m, scores[j] - top, scores[i] - scores[j], scores[i] - top);
    ShareRatio(e[i], e[j], Total(e), m.exp(scores[i] - scores[j]));
  }

  // ---- the step of one cell

  /** What a row asks of a weight: the probability less one for the right action, times importance and value. */
  function Pull(p: seq<real>, row: Row, j: nat, k: nat): real
    requires |p| == ACTIONS && j < |row.entries| && k < ACTIONS
  {
    row.importance * (if k == row.action then p[k] - 1.0 else p[k]) * row.entries[j].value
  }

  /** A cell after its step: the accumulator grows by the square, then the weight moves by the rate over its root. */
  ghost predicate CellMoved(before: Fit, after: Fit, c: nat, g: real, rate: real, m: Maths)
    requires c < |before.weights| == |before.accumulators| == |after.weights| == |after.accumulators|
  {
    match before.accumulators[c]
    case Infinite => after.accumulators[c] == Infinite && after.weights[c] == before.weights[c]
    case Finite(a) =>
      after.accumulators[c] == Finite(a + g * g) && after.weights[c] == before.weights[c] - m.overRoot(rate * g, a + g * g)
  }

  ghost predicate CellKept(before: Fit, after: Fit, c: nat)
    requires c < |before.weights| == |before.accumulators| == |after.weights| == |after.accumulators|
  {
    after.weights[c] == before.weights[c] && after.accumulators[c] == before.accumulators[c]
  }

  lemma PullIsGradient(p: seq<real>, row: Row, j: nat, k: nat)
    requires |p| == ACTIONS && j < |row.entries| && k < ACTIONS
    ensures Pull(p, row, j, k) == Gradient(p, row.entries[j], row.action, row.importance, k)
  {}

  lemma MoveMoves(fit: Fit, place: nat, g: real, rate: real, m: Maths)
    requires place < |fit.weights| == |fit.accumulators|
    ensures CellMoved(fit, Move(fit, place, g, rate, m), place, g, rate, m)
    ensures forall c :: 0 <= c < |fit.weights| && c != place ==> CellKept(fit, Move(fit, place, g, rate, m), c)
  {}

  lemma PlacesDiffer(i: nat, a: nat, j: nat, b: nat, features: nat)
    requires i < features && j < features && a < ACTIONS && b < ACTIONS
    ensures Place(i, a, features) == Place(j, b, features) <==> i == j && a == b
  {}

  lemma MovedThenKept(a: Fit, b: Fit, c: Fit, cell: nat, g: real, rate: real, m: Maths)
    requires cell < |a.weights| == |a.accumulators| == |b.weights| == |b.accumulators| == |c.weights| == |c.accumulators|
    requires CellKept(b, c, cell)
    ensures CellMoved(a, b, cell, g, rate, m) ==> CellMoved(a, c, cell, g, rate, m)
    ensures CellKept(a, b, cell) ==> CellKept(a, c, cell)
  {}

  lemma KeptThenMoved(a: Fit, b: Fit, c: Fit, cell: nat, g: real, rate: real, m: Maths)
    requires cell < |a.weights| == |a.accumulators| == |b.weights| == |b.accumulators| == |c.weights| == |c.accumulators|
    requires CellKept(a, b, cell) && CellMoved(b, c, cell, g, rate, m)
    ensures CellMoved(a, c, cell, g, rate, m)
  {}

  /** One entry's steps: its own four cells, and no other. */
  lemma {:induction false} ActionsMove(fit: Fit, row: Row, j: nat, count: nat, p: seq<real>, rate: real, m: Maths, features: nat,
                                       column: nat, k: nat)
    requires FitShape(fit, features) && RowFits(row, features) && j < |row.entries| && count <= ACTIONS && |p| == ACTIONS
    requires column < features && k < ACTIONS
    ensures var after := MoveActions(fit, row, j, count, p, rate, m, features);
      if column == row.entries[j].column && k < count
      then CellMoved(fit, after, Place(column, k, features), Pull(p, row, j, k), rate, m)
      else CellKept(fit, after, Place(column, k, features))
  {
    if count > 0 {
      var before, after := MoveActions(fit, row, j, count - 1, p, rate, m, features), MoveActions(fit, row, j, count, p, rate, m, features);
      var own, cell := Place(row.entries[j].column, count - 1, features), Place(column, k, features);
      var g := Gradient(p, row.entries[j], row.action, row.importance, count - 1);
      assert after == Move(before, own, g, rate, m);
      ActionsMove(fit, row, j, count - 1, p, rate, m, features, column, k);
      PlacesDiffer(row.entries[j].column, count - 1, column, k, features);
      PullIsGradient(p, row, j, count - 1);
      MoveMoves(before, own, g, rate, m);
      hide CellMoved, CellKept, Move, MoveActions, Place, Pull, Gradient;
      if cell == own {
        KeptThenMoved(fit, before, after, cell, g, rate, m);
      } else if column == row.entries[j].column && k < count {
        MovedThenKept(fit, before, after, cell, Pull(p, row, j, k), rate, m);
      } else {
        MovedThenKept(fit, before, after, cell, 0.0, rate, m);
      }
    }
  }

  /** A cell after the first entries: moved once if one of them has its column, and else kept. */
  lemma {:induction false} EntriesMove(fit: Fit, row: Row, count: nat, p: seq<real>, rate: real, m: Maths, features: nat, column: nat, k: nat)
    requires FitShape(fit, features) && RowFits(row, features) && count <= |row.entries| && |p| == ACTIONS && DistinctColumns(row)
    requires column < features && k < ACTIONS
    ensures var after := MoveEntries(fit, row, count, p, rate, m, features);
      && (forall j: nat :: j < count && row.entries[j].column == column ==>
            CellMoved(fit, after, Place(column, k, features), Pull(p, row, j, k), rate, m))
      && ((forall j: nat :: j < count ==> row.entries[j].column != column) ==> CellKept(fit, after, Place(column, k, features)))
  {
    if count > 0 {
      var before, after := MoveEntries(fit, row, count - 1, p, rate, m, features), MoveEntries(fit, row, count, p, rate, m, features);
      var cell := Place(column, k, features);
      EntriesMove(fit, row, count - 1, p, rate, m, features, column, k);
      ActionsMove(before, row, count - 1, ACTIONS, p, rate, m, features, column, k);
      hide CellMoved, CellKept, MoveEntries, MoveActions, Place, Pull;
      if row.entries[count - 1].column == column {
        KeptThenMoved(fit, before, after, cell, Pull(p, row, count - 1, k), rate, m);
      } else {
        MovedThenKept(fit, before, after, cell, 0.0, rate, m);
        forall j: nat | j < count && row.entries[j].column == column
          ensures CellMoved(fit, after, cell, Pull(p, row, j, k), rate, m)
        {
          MovedThenKept(fit, before, after, cell, Pull(p, row, j, k), rate, m);
        }
      }
    }
  }

  lemma OneRowEpoch(fit: Fit, row: Row, rate: real, m: Maths, features: nat)
    requires FitShape(fit, features) && RowFits(row, features)
    ensures AllFit([row], features) && Epoch(fit, [row], rate, m, features) == MoveRow(fit, row, rate, m, features)
  {
    assert [row][..0] == [];
  }

  /** The row's probabilities before its step. */
  function Chances(fit: Fit, row: Row, m: Maths, features: nat): (r: seq<real>)
    requires FitShape(fit, features) && RowFits(row, features)
    ensures |r| == ACTIONS
  {
    Softmax(Scores(row.entries, fit.weights, features), m)
  }

  /** One epoch over one row moves exactly the cells of its columns, each by its own step, all by the probabilities before. */
  ghost predicate IsRowStep(fit: Fit, after: Fit, row: Row, rate: real, m: Maths, features: nat)
    requires FitShape(fit, features) && FitShape(after, features) && RowFits(row, features)
  {
    var p := Chances(fit, row, m, features);
    && (forall j: nat, k: nat :: j < |row.entries| && k < ACTIONS ==>
          CellMoved(fit, after, Place(row.entries[j].column, k, features), Pull(p, row, j, k), rate, m))
    && forall column: nat, k: nat :: column < features && k < ACTIONS && (forall j: nat :: j < |row.entries| ==> row.entries[j].column != column) ==>
         CellKept(fit, after, Place(column, k, features))
  }

  lemma EpochIsRowStep(fit: Fit, row: Row, rate: real, m: Maths, features: nat)
    requires FitShape(fit, features) && RowFits(row, features) && DistinctColumns(row)
    ensures AllFit([row], features) && IsRowStep(fit, Epoch(fit, [row], rate, m, features), row, rate, m, features)
  {
    var p := Chances(fit, row, m, features);
    OneRowEpoch(fit, row, rate, m, features);
    var after := MoveEntries(fit, row, |row.entries|, p, rate, m, features);
    hide CellMoved, CellKept, MoveEntries, Place, Pull;
    forall j: nat, k: nat | j < |row.entries| && k < ACTIONS
      ensures CellMoved(fit, after, Place(row.entries[j].column, k, features), Pull(p, row, j, k), rate, m)
    {
      EntriesMove(fit, row, |row.entries|, p, rate, m, features, row.entries[j].column, k);
    }
    forall column: nat, k: nat | column < features && k < ACTIONS && (forall j: nat :: j < |row.entries| ==> row.entries[j].column != column)
      ensures CellKept(fit, after, Place(column, k, features))
    {
      EntriesMove(fit, row, |row.entries|, p, rate, m, features, column, k);
    }
  }

  // ---- the side a weight moves to

  lemma SignOfPull(importance: real, d: real, value: real)
    requires importance > 0.0
    ensures d * value > 0.0 ==> importance * d * value > 0.0
    ensures d * value < 0.0 ==> importance * d * value < 0.0
  {
    assert importance * d * value == importance * (d * value);
  }

  lemma SquareIsPositive(a: real, g: real, square: real)
    requires a >= 0.0 && g != 0.0 && square == g * g
    ensures a + square > 0.0
  {
    SameSigns(g, g, square);
  }

  lemma SameSigns(x: real, y: real, product: real)
    requires product == x * y && ((x > 0.0 && y > 0.0) || (x < 0.0 && y < 0.0))
    ensures product > 0.0
  {}

  lemma TimesKeepsSign(rate: real, g: real)
    requires rate > 0.0
    ensures g > 0.0 ==> rate * g > 0.0
    ensures g < 0.0 ==> rate * g < 0.0
  {}

  lemma CellSide(before: Fit, after: Fit, c: nat, g: real, rate: real, m: Maths)
    requires c < |before.weights| == |before.accumulators| == |after.weights| == |after.accumulators|
    requires CellMoved(before, after, c, g, rate, m) && KeepsSign(m) && rate > 0.0
    requires before.accumulators[c].Finite? ==> before.accumulators[c].value >= 0.0
    ensures g > 0.0 ==> if before.accumulators[c].Finite? then after.weights[c] < before.weights[c] else after.weights[c] == before.weights[c]
    ensures g < 0.0 ==> if before.accumulators[c].Finite? then after.weights[c] > before.weights[c] else after.weights[c] == before.weights[c]
  {
    if g != 0.0 && before.accumulators[c].Finite? {
      SquareIsPositive(before.accumulators[c].value, g, g * g);
      TimesKeepsSign(rate, g);
      RootSide(before.weights[c], rate * g, before.accumulators[c].value + g * g, m);
    }
  }

  lemma RootSide(weight: real, x: real, a: real, m: Maths)
    requires KeepsSign(m) && a > 0.0
    ensures x > 0.0 ==> weight - m.overRoot(x, a) < weight
    ensures x < 0.0 ==> weight - m.overRoot(x, a) > weight
  {}

  /**
   After one epoch over one row each weight that is not frozen has moved against the sign of its probability, less one
   for the right action, times the entry's value.
   */
  lemma WeightsMoveAgainst(fit: Fit, row: Row, rate: real, m: Maths, features: nat, j: nat, k: nat)
    requires FitShape(fit, features) && RowFits(row, features) && DistinctColumns(row) && NotNegative(fit)
    requires Sound(m) && KeepsSign(m) && rate > 0.0 && row.importance > 0.0
    requires j < |row.entries| && k < ACTIONS && fit.accumulators[Place(row.entries[j].column, k, features)].Finite?
    ensures AllFit([row], features)
    ensures var after, c := Epoch(fit, [row], rate, m, features), Place(row.entries[j].column, k, features);
      var d := (Chances(fit, row, m, features)[k] - if k == row.action then 1.0 else 0.0) * row.entries[j].value;
      && (d > 0.0 ==> after.weights[c] < fit.weights[c])
      && (d < 0.0 ==> after.weights[c] > fit.weights[c])
  {
    hide CellMoved, Epoch, Place, Chances, DistinctColumns, KeepsSign;
    var p, c := Chances(fit, row, m, features), Place(row.entries[j].column, k, features);
    StepOfCell(fit, row, rate, m, features, j, k);
    var after := Epoch(fit, [row], rate, m, features);
    SignOfPull(row.importance, p[k] - if k == row.action then 1.0 else 0.0, row.entries[j].value);
    CellSide(fit, after, c, Pull(p, row, j, k), rate, m);
  }

  lemma StepOfCell(fit: Fit, row: Row, rate: real, m: Maths, features: nat, j: nat, k: nat)
    requires FitShape(fit, features) && RowFits(row, features) && DistinctColumns(row) && j < |row.entries| && k < ACTIONS
    ensures AllFit([row], features)
    ensures CellMoved(fit, Epoch(fit, [row], rate, m, features), Place(row.entries[j].column, k, features),
                      Pull(Chances(fit, row, m, features), row, j, k), rate, m)
  {
    EpochIsRowStep(fit, row, rate, m, features);
    hide CellMoved, Epoch, Place, Chances, DistinctColumns;
  }

  lemma NegativeTimes(d: real, value: real)
    ensures d > 0.0 && value > 0.0 ==> d * value > 0.0
    ensures d < 0.0 && value > 0.0 ==> d * value < 0.0
    ensures d > 0.0 && value < 0.0 ==> d * value < 0.0
    ensures d < 0.0 && value < 0.0 ==> d * value > 0.0
  {}

  /** The right action's weight of a positive entry rises and every other action's falls; of a negative entry the other way. */
  lemma WeightsMoveToTheAnswer(fit: Fit, row: Row, rate: real, m: Maths, features: nat, j: nat, k: nat)
    requires FitShape(fit, features) && RowFits(row, features) && DistinctColumns(row) && NotNegative(fit)
    requires Sound(m) && KeepsSign(m) && rate > 0.0 && row.importance > 0.0
    requires j < |row.entries| && k < ACTIONS && fit.accumulators[Place(row.entries[j].column, k, features)].Finite?
    ensures AllFit([row], features)
    ensures var after, c := Epoch(fit, [row], rate, m, features), Place(row.entries[j].column, k, features);
      && (row.entries[j].value > 0.0 ==> if k == row.action then after.weights[c] > fit.weights[c] else after.weights[c] < fit.weights[c])
      && (row.entries[j].value < 0.0 ==> if k == row.action then after.weights[c] < fit.weights[c] else after.weights[c] > fit.weights[c])
  {
    SoftmaxIsBelowOne(Scores(row.entries, fit.weights, features), m, k);
    NegativeTimes(Chances(fit, row, m, features)[k] - if k == row.action then 1.0 else 0.0, row.entries[j].value);
    hide Epoch, Chances, Place;
    WeightsMoveAgainst(fit, row, rate, m, features, j, k);
  }

  // ---- the row's own answer becomes more likely

  /** What an entry adds to an action's score. */
  function Term(entry: Entry, weights: seq<real>, features: nat, k: nat): real
    requires |weights| == Cells(features) && k < ACTIONS && entry.column < features
  {
    weights[Place(entry.column, k, features)] * entry.value
  }

  lemma {:induction false} ScoreTerm(entries: seq<Entry>, weights: seq<real>, features: nat, k: nat)
    requires entries != [] && |weights| == Cells(features) && k < ACTIONS && forall j :: 0 <= j < |entries| ==> entries[j].column < features
    ensures Scores(entries, weights, features)[k]
         == Scores(entries[..|entries| - 1], weights, features)[k] + Term(entries[|entries| - 1], weights, features, k)
  {
    hide AddScores, Term;
    AddedTerm(Scores(entries[..|entries| - 1], weights, features), entries[|entries| - 1], weights, features, k);
  }

  lemma AddedTerm(scores: seq<real>, entry: Entry, weights: seq<real>, features: nat, k: nat)
    requires |scores| == ACTIONS && entry.column < features && |weights| == Cells(features) && k < ACTIONS
    ensures AddScores(scores, entry, weights, features)[k] == scores[k] + Term(entry, weights, features, k)
  {
    hide Place;
  }

  /** If every term rises or stays the score does, and if one rises the score rises. */
  lemma {:induction false} ScoresMove(entries: seq<Entry>, before: seq<real>, after: seq<real>, features: nat, k: nat)
    requires |before| == |after| == Cells(features) && k < ACTIONS && forall j :: 0 <= j < |entries| ==> entries[j].column < features
    requires forall j: nat :: j < |entries| ==> Term(entries[j], after, features, k) >= Term(entries[j], before, features, k)
    ensures Scores(entries, after, features)[k] >= Scores(entries, before, features)[k]
    ensures (exists j: nat :: j < |entries| && Term(entries[j], after, features, k) > Term(entries[j], before, features, k))
        ==> Scores(entries, after, features)[k] > Scores(entries, before, features)[k]
  {
    hide Term, Place, AddScores;
    if entries != [] {
      var last := |entries| - 1;
      ScoreTerm(entries, before, features, k);
      ScoreTerm(entries, after, features, k);
      hide Scores;
      assert forall j: nat :: j < last ==> entries[..last][j] == entries[j];
      ScoresMove(entries[..last], before, after, features, k);
    }
  }

  lemma {:induction false} ScoresFall(entries: seq<Entry>, before: seq<real>, after: seq<real>, features: nat, k: nat)
    requires |before| == |after| == Cells(features) && k < ACTIONS && forall j :: 0 <= j < |entries| ==> entries[j].column < features
    requires forall j: nat :: j < |entries| ==> Term(entries[j], after, features, k) <= Term(entries[j], before, features, k)
    ensures Scores(entries, after, features)[k] <= Scores(entries, before, features)[k]
  {
    hide Term, Place, AddScores;
    if entries != [] {
      var last := |entries| - 1;
      ScoreTerm(entries, before, features, k);
      ScoreTerm(entries, after, features, k);
      hide Scores;
      assert forall j: nat :: j < last ==> entries[..last][j] == entries[j];
      ScoresFall(entries[..last], before, after, features, k);
    }
  }

  lemma GainSide(a: real, b: real, value: real, x: real, y: real)
    requires x == a * value && y == b * value
    ensures (value > 0.0 && b > a) || (value < 0.0 && b < a) ==> y > x
    ensures (value > 0.0 && b < a) || (value < 0.0 && b > a) ==> y < x
    ensures value == 0.0 ==> y == x
  {
    NegativeTimes(b - a, value);
    assert (b - a) * value == b * value - a * value;
  }

  lemma TermSide(entry: Entry, before: seq<real>, after: seq<real>, features: nat, k: nat, c: nat)
    requires |before| == |after| == Cells(features) && k < ACTIONS && entry.column < features && c == Place(entry.column, k, features)
    ensures var v, x, y := entry.value, Term(entry, before, features, k), Term(entry, after, features, k);
      && ((v > 0.0 && after[c] > before[c]) || (v < 0.0 && after[c] < before[c]) ==> y > x)
      && ((v > 0.0 && after[c] < before[c]) || (v < 0.0 && after[c] > before[c]) ==> y < x)
      && (v == 0.0 ==> y == x)
  {
    GainSide(before[c], after[c], entry.value, Term(entry, before, features, k), Term(entry, after, features, k));
  }

  ghost predicate NothingFrozen(fit: Fit, row: Row, features: nat)
    requires FitShape(fit, features) && RowFits(row, features)
  {
    forall j: nat, k: nat :: j < |row.entries| && k < ACTIONS ==> fit.accumulators[Place(row.entries[j].column, k, features)].Finite?
  }

  /** The score of the right action rises and that of every other falls, or stays if all the row's values are zero. */
  lemma AnswerScoresMore(fit: Fit, row: Row, rate: real, m: Maths, features: nat, k: nat)
    requires FitShape(fit, features) && RowFits(row, features) && DistinctColumns(row) && NotNegative(fit)
    requires Sound(m) && KeepsSign(m) && rate > 0.0 && row.importance > 0.0 && NothingFrozen(fit, row, features) && k < ACTIONS
    ensures AllFit([row], features)
    ensures var before, after := Scores(row.entries, fit.weights, features), Scores(row.entries, Epoch(fit, [row], rate, m, features).weights, features);
      && (k != row.action ==> after[k] <= before[k])
      && (k == row.action ==> after[k] >= before[k] && ((exists j :: 0 <= j < |row.entries| && row.entries[j].value != 0.0) ==> after[k] > before[k]))
  {
    OneRowEpoch(fit, row, rate, m, features);
    var after := Epoch(fit, [row], rate, m, features);
    hide Epoch, Scores, MoveRow, DistinctColumns, KeepsSign, NotNegative, Term, Place;
    forall j: nat | j < |row.entries|
      ensures var was, now := Term(row.entries[j], fit.weights, features, k), Term(row.entries[j], after.weights, features, k);
        if k == row.action then now >= was && (row.entries[j].value != 0.0 ==> now > was) else now <= was
    {
      WeightsMoveToTheAnswer(fit, row, rate, m, features, j, k);
      TermSide(row.entries[j], fit.weights, after.weights, features, k, Place(row.entries[j].column, k, features));
    }
    hide Term;
    if k == row.action {
      ScoresMove(row.entries, fit.weights, after.weights, features, k);
    } else {
      ScoresFall(row.entries, fit.weights, after.weights, features, k);
    }
  }

  lemma ExpGrows(m: Maths, x: real, y: real)
    requires Exponential(m) && x <= y
    ensures 0.0 < m.exp(x) <= m.exp(y) && (x < y ==> m.exp(x) < m.exp(y))
  {
    assert Grows(m, x, y);
  }

  lemma FewerTimes(p: real, a: real, b: real)
    requires p > 0.0
    ensures a <= b ==> p * a <= p * b
    ensures a < b ==> p * a < p * b
  {}

  /** A probability that is not larger leaves the others, in the same ratio or less to it, no more than the rest. */
  lemma WholeIsShared(p: real, q: real, a: real, b: real, c: real, x: real, y: real, z: real)
    requires p > 0.0 && p * (1.0 + a + b + c) == 1.0 && q * (1.0 + x + y + z) == 1.0
    requires 0.0 < x < a && 0.0 < y < b && 0.0 < z < c
    ensures q > p
  {
    if q <= p {
      if q <= 0.0 {
        NotAbove(q, 1.0 + x + y + z);
      } else {
        FewerTimes(q, 1.0 + x + y + z, 1.0 + a + b + c);
        FewerTimes(1.0 + a + b + c, q, p);
      }
      assert false;
    }
  }

  lemma NotAbove(q: real, s: real)
    requires q <= 0.0 && s > 0.0
    ensures q * s <= 0.0
  {}

  /** A probability times the sum of the ratios to it is one. */
  lemma RatiosOfOne(scores: seq<real>, m: Maths, k: nat, a: nat, b: nat, c: nat)
    requires Exponential(m) && |scores| == ACTIONS && k < ACTIONS && a < ACTIONS && b < ACTIONS && c < ACTIONS
    requires {k, a, b, c} == {0, 1, 2, 3}
    ensures var p := Softmax(scores, m)[k];
      p > 0.0 && p * (1.0 + m.exp(scores[a] - scores[k]) + m.exp(scores[b] - scores[k]) + m.exp(scores[c] - scores[k])) == 1.0
  {
    var p := Softmax(scores, m);
    SoftmaxSumsToOne(scores, m);
    TotalOfFour(p);
    SoftmaxIsPositive(scores, m, k);
    SoftmaxRatio(scores, m, a, k);
    SoftmaxRatio(scores, m, b, k);
    SoftmaxRatio(scores, m, c, k);
    hide Softmax, Exponential, Total;
    FourOf(p, k, a, b, c);
    FactorOut(p[k], m.exp(scores[a] - scores[k]), m.exp(scores[b] - scores[k]), m.exp(scores[c] - scores[k]));
  }

  lemma FourOf(p: seq<real>, k: nat, a: nat, b: nat, c: nat)
    requires |p| == ACTIONS && {k, a, b, c} == {0, 1, 2, 3}
    ensures k < ACTIONS && a < ACTIONS && b < ACTIONS && c < ACTIONS && p[k] + p[a] + p[b] + p[c] == p[0] + p[1] + p[2] + p[3]
  {
    assert k in {0, 1, 2, 3} && a in {0, 1, 2, 3} && b in {0, 1, 2, 3} && c in {0, 1, 2, 3};
    assert 0 in {k, a, b, c} && 1 in {k, a, b, c} && 2 in {k, a, b, c} && 3 in {k, a, b, c};
  }

  lemma FactorOut(p: real, x: real, y: real, z: real)
    ensures p * (1.0 + x + y + z) == p + p * x + p * y + p * z
  {}

  lemma LikelierScores(before: seq<real>, after: seq<real>, m: Maths, k: nat, a: nat, b: nat, c: nat)
    requires Exponential(m) && |before| == |after| == ACTIONS && {k, a, b, c} == {0, 1, 2, 3}
    requires k < ACTIONS && a < ACTIONS && b < ACTIONS && c < ACTIONS && after[k] > before[k]
    requires after[a] <= before[a] && after[b] <= before[b] && after[c] <= before[c]
    ensures Softmax(after, m)[k] > Softmax(before, m)[k]
  {
    hide Softmax, Exponential;
    RatiosOfOne(before, m, k, a, b, c);
    RatiosOfOne(after, m, k, a, b, c);
    ExpGrows(m, after[a] - after[k], before[a] - before[k]);
    ExpGrows(m, after[b] - after[k], before[b] - before[k]);
    ExpGrows(m, after[c] - after[k], before[c] - before[k]);
    WholeIsShared(Softmax(before, m)[k], Softmax(after, m)[k],
                  m.exp(before[a] - before[k]), m.exp(before[b] - before[k]), m.exp(before[c] - before[k]),
                  m.exp(after[a] - after[k]), m.exp(after[b] - after[k]), m.exp(after[c] - after[k]));
  }

  /** Training on a row, with something to go by and nothing frozen, makes the row's right action more likely. */
  lemma RowIsLearned(fit: Fit, row: Row, rate: real, m: Maths, features: nat)
    requires FitShape(fit, features) && RowFits(row, features) && DistinctColumns(row) && NotNegative(fit)
    requires Exponential(m) && KeepsSign(m) && rate > 0.0 && row.importance > 0.0 && NothingFrozen(fit, row, features)
    requires exists j :: 0 <= j < |row.entries| && row.entries[j].value != 0.0
    ensures AllFit([row], features)
    ensures Chances(Epoch(fit, [row], rate, m, features), row, m, features)[row.action] > Chances(fit, row, m, features)[row.action]
  {
    var k := row.action;
    AnswerScoresMore(fit, row, rate, m, features, 0);
    AnswerScoresMore(fit, row, rate, m, features, 1);
    AnswerScoresMore(fit, row, rate, m, features, 2);
    AnswerScoresMore(fit, row, rate, m, features, 3);
    var before := Scores(row.entries, fit.weights, features);
    var after := Scores(row.entries, Epoch(fit, [row], rate, m, features).weights, features);
    hide Scores, Epoch, Softmax, Exponential, KeepsSign, DistinctColumns, NotNegative, NothingFrozen;
    match k
    case 0 => LikelierScores(before, after, m, 0, 1, 2, 3);
    case 1 => LikelierScores(before, after, m, 1, 0, 2, 3);
    case 2 => LikelierScores(before, after, m, 2, 0, 1, 3);
    case _ => LikelierScores(before, after, m, 3, 0, 1, 2);
  }

  /** A positive entry's weight for an action, if it is not frozen, has moved to the answer. */
  ghost predicate MovedToAnswer(data: Packed, e: nat, k: nat, before: Fit, after: Fit, features: nat)
    requires Valid(data) && |data.labels| == 1 && e < |data.indices| && k < ACTIONS && data.indices[e] < features
    requires FitShape(before, features) && FitShape(after, features)
  {
    var c := data.indices[e] * 4 + k;
    before.accumulators[c].Finite? && data.values[e] > 0.0
    ==> if k == data.labels[0] then after.weights[c] > before.weights[c] else after.weights[c] < before.weights[c]
  }

  ghost predicate AllMovedToAnswer(data: Packed, before: Fit, after: Fit, features: nat)
    requires Valid(data) && |data.labels| == 1 && FitShape(before, features) && FitShape(after, features)
  {
    forall e: nat, k: nat :: e < |data.indices| && k < ACTIONS ==>
      data.indices[e] < features && MovedToAnswer(data, e, k, before, after, features)
  }

  /** The kernel on a matrix of one row: each weight that is not frozen and has a value moves to the row's answer. */
  method TrainOnRow(data: Packed, weights: array<real>, accumulators: array<Accumulator>, rate: real, m: Maths, ghost features: nat)
    requires Valid(data) && |data.labels| == 1 && AllFit(Rows(data), features) && DistinctColumns(RowOf(data, 0))
    requires weights.Length == accumulators.Length == Cells(features) && NotNegative(Fit(weights[..], accumulators[..]))
    requires Sound(m) && KeepsSign(m) && rate > 0.0 && data.importance[0] > 0.0
    modifies weights, accumulators
    ensures AllMovedToAnswer(data, old(Fit(weights[..], accumulators[..])), Fit(weights[..], accumulators[..]), features)
  {
    ghost var fit, row := Fit(weights[..], accumulators[..]), RowOf(data, 0);
    assert Rows(data)[0] == row && Rows(data) == [row];
    ContextEpoch(data, weights, accumulators, rate, m, features);
    ghost var after := Fit(weights[..], accumulators[..]);
    hide Epoch, DistinctColumns, NotNegative, KeepsSign, RowOf, Rows;
    forall e: nat, k: nat | e < |data.indices| && k < ACTIONS
      ensures data.indices[e] < features && MovedToAnswer(data, e, k, fit, after, features)
    {
      OneRowEntries(data, e);
      assert RowFits(row, features);
      if fit.accumulators[data.indices[e] * 4 + k].Finite? {
        WeightsMoveToTheAnswer(fit, row, rate, m, features, e, k);
      }
    }
    assert AllMovedToAnswer(data, fit, after, features);
  }

  lemma OneRowEntries(data: Packed, e: nat)
    requires Valid(data) && |data.labels| == 1 && e < |data.indices|
    ensures e < |RowOf(data, 0).entries| && RowOf(data, 0).entries[e] == Entry(data.indices[e], data.values[e])
    ensures RowOf(data, 0).action == data.labels[0] && RowOf(data, 0).importance == data.importance[0]
  {
    assert data.offsets[1] == |data.indices| && data.offsets[0] == 0;
    var row := RowOf(data, 0);
    assert row.entries == AllEntries(data)[0..|data.indices|];
    assert row.entries[e] == AllEntries(data)[e] == EntryAt(data, e);
  }
}
