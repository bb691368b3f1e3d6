/**
 The training kernel: one epoch of sparse AdaGrad over softmax, in place, as context_optimizer.c runs it and
 `python_epoch` mirrors it.

 Reals stand for floats. `exp` and the division by a square root are parameters; an accumulator is a real or
 infinity, and a step over an infinite one is zero.
 */
module Optimizer {
  import opened PackedRows

  datatype Accumulator = Finite(value: real) | Infinite

  /** The weights and accumulators, one of each per feature and action, feature by feature. */
  datatype Fit = Fit(weights: seq<real>, accumulators: seq<Accumulator>)

  /** `exp`, and `x / sqrt(a)`. */
  datatype Maths = Maths(exp: real -> real, overRoot: (real, real) -> real)

  ghost predicate Sound(m: Maths) { forall x :: m.exp(x) > 0.0 }

  predicate RowFits(row: Row, features: nat) {
    row.action < ACTIONS && forall j :: 0 <= j < |row.entries| ==> row.entries[j].column < features
  }

  /** One cell per feature and action, and there are four actions. */
  function Cells(features: nat): nat { features * 4 }

  predicate FitShape(fit: Fit, features: nat) { |fit.weights| == |fit.accumulators| == Cells(features) }

  /** Where a feature's weight for an action lies. */
  function Place(column: nat, action: nat, features: nat): (r: nat)
    requires column < features && action < ACTIONS
    ensures r < Cells(features)
  {
    column * 4 + action
  }

  // ---- scores and probabilities

  function AddScores(scores: seq<real>, entry: Entry, weights: seq<real>, features: nat): (r: seq<real>)
    requires |scores| == ACTIONS && entry.column < features && |weights| == Cells(features)
    ensures |r| == ACTIONS
  {
    seq(ACTIONS, k requires 0 <= k < ACTIONS => scores[k] + weights[Place(entry.column, k, features)] * entry.value)
  }

  function Scores(entries: seq<Entry>, weights: seq<real>, features: nat): (r: seq<real>)
    requires |weights| == Cells(features) && forall j :: 0 <= j < |entries| ==> entries[j].column < features
    ensures |r| == ACTIONS
  {
    if entries == [] then [0.0, 0.0, 0.0, 0.0]
    else AddScores(Scores(entries[..|entries| - 1], weights, features), entries[|entries| - 1], weights, features)
  }

  function Maximum(s: seq<real>): real
    requires s != []
  {
    if |s| == 1 then s[0]
    else
      var before := Maximum(s[..|s| - 1]);
      if s[|s| - 1] > before then s[|s| - 1] else before
  }

  /** The exponents of the scores below their maximum. */
  function Exponents(scores: seq<real>, m: Maths): (r: seq<real>)
    requires scores != []
    ensures |r| == |scores| && forall k :: 0 <= k < |r| ==> r[k] == m.exp(scores[k] - Maximum(scores))
  {
    seq(|scores|, k requires 0 <= k < |scores| => m.exp(scores[k] - Maximum(scores)))
  }

  function Total(s: seq<real>): real {
    if s == [] then 0.0 else Total(s[..|s| - 1]) + s[|s| - 1]
  }

  function Share(x: real, total: real): real { if total == 0.0 then 0.0 else x / total }

  function Shares(s: seq<real>): (r: seq<real>)
    ensures |r| == |s| && forall k :: 0 <= k < |r| ==> r[k] == Share(s[k], Total(s))
  {
    seq(|s|, k requires 0 <= k < |s| => Share(s[k], Total(s)))
  }

  function Softmax(scores: seq<real>, m: Maths): (r: seq<real>)
    requires |scores| == ACTIONS
    ensures |r| == ACTIONS
  {
    Shares(Exponents(scores, m))
  }

  lemma ShareIsPositive(x: real, total: real)
    requires x > 0.0 && total > 0.0
    ensures Share(x, total) > 0.0
  {}

  lemma {:induction false} TotalIsPositive(s: seq<real>)
    requires forall k :: 0 <= k < |s| ==> s[k] > 0.0
    ensures s != [] ==> Total(s) > 0.0
    ensures Total(s) >= 0.0
    decreases |s|
  {
    if s != [] {
      TotalIsPositive(s[..|s| - 1]);
    }
  }

  /** Every action keeps a positive probability. */
  lemma SoftmaxIsPositive(scores: seq<real>, m: Maths, k: nat)
    requires Sound(m) && |scores| == ACTIONS && k < ACTIONS
    ensures Softmax(scores, m)[k] > 0.0
  {
    var e := Exponents(scores, m);
    TotalIsPositive(e);
    ShareIsPositive(e[k], Total(e));
  }

  // ---- one row

  function Gradient(p: seq<real>, entry: Entry, action: nat, importance: real, k: nat): real
    requires |p| == ACTIONS && k < ACTIONS
  {
    importance * (p[k] - if k == action then 1.0 else 0.0) * entry.value
  }

  function Accumulate(a: Accumulator, g: real): Accumulator {
    match a
    case Finite(value) => Finite(value + g * g)
    case Infinite => Infinite
  }

  function StepSize(rate: real, g: real, a: Accumulator, m: Maths): real {
    match a
    case Finite(value) => m.overRoot(rate * g, value)
    case Infinite => 0.0
  }

  /** The step of one weight: its accumulator grows first, then the weight moves. */
  function Move(fit: Fit, place: nat, g: real, rate: real, m: Maths): (r: Fit)
    requires place < |fit.weights| == |fit.accumulators|
    ensures |r.weights| == |r.accumulators| == |fit.weights|
  {
    var a := Accumulate(fit.accumulators[place], g);
    Fit(fit.weights[place := fit.weights[place] - StepSize(rate, g, a, m)], fit.accumulators[place := a])
  }

  /** The steps of the first `count` actions of one entry. */
  function MoveActions(fit: Fit, row: Row, j: nat, count: nat, p: seq<real>, rate: real, m: Maths, features: nat): (r: Fit)
    requires FitShape(fit, features) && RowFits(row, features) && j < |row.entries| && count <= ACTIONS && |p| == ACTIONS
    ensures FitShape(r, features)
  {
    if count == 0 then fit
    else
      var before := MoveActions(fit, row, j, count - 1, p, rate, m, features);
      Move(before, Place(row.entries[j].column, count - 1, features),
           Gradient(p, row.entries[j], row.action, row.importance, count - 1), rate, m)
  }

  function MoveEntries(fit: Fit, row: Row, count: nat, p: seq<real>, rate: real, m: Maths, features: nat): (r: Fit)
    requires FitShape(fit, features) && RowFits(row, features) && count <= |row.entries| && |p| == ACTIONS
    ensures FitShape(r, features)
  {
    if count == 0 then fit
    else MoveActions(MoveEntries(fit, row, count - 1, p, rate, m, features), row, count - 1, ACTIONS, p, rate, m, features)
  }

  function MoveRow(fit: Fit, row: Row, rate: real, m: Maths, features: nat): (r: Fit)
    requires FitShape(fit, features) && RowFits(row, features)
    ensures FitShape(r, features)
  {
    MoveEntries(fit, row, |row.entries|, Softmax(Scores(row.entries, fit.weights, features), m), rate, m, features)
  }

  ghost predicate AllFit(rows: seq<Row>, features: nat) { forall k :: 0 <= k < |rows| ==> RowFits(rows[k], features) }

  /** One epoch over the rows. */
  ghost function Epoch(fit: Fit, rows: seq<Row>, rate: real, m: Maths, features: nat): (r: Fit)
    requires FitShape(fit, features) && AllFit(rows, features)
    ensures FitShape(r, features)
  {
    if rows == [] then fit
    else MoveRow(Epoch(fit, rows[..|rows| - 1], rate, m, features), rows[|rows| - 1], rate, m, features)
  }

  /** Epochs one after another, each with its rate. */
  ghost function Epochs(fit: Fit, rows: seq<Row>, rates: seq<real>, m: Maths, features: nat): (r: Fit)
    requires FitShape(fit, features) && AllFit(rows, features)
    ensures FitShape(r, features)
  {
    if rates == [] then fit
    else Epoch(Epochs(fit, rows, rates[..|rates| - 1], m, features), rows, rates[|rates| - 1], m, features)
  }

  // ---- the kernel, in place

  /** `p[k] += weights[indices[j] * 4 + k] * values[j]` for each action. */
  method AddEntryScores(entry: Entry, weights: array<real>, p: array<real>, ghost features: nat)
    requires entry.column < features && weights.Length == Cells(features) && p.Length == ACTIONS && p != weights
    modifies p
    ensures p[..] == AddScores(old(p[..]), entry, weights[..], features)
  {
    ghost var scores := p[..];
    for k := 0 to ACTIONS
      invariant forall i :: 0 <= i < k ==> p[i] == AddScores(scores, entry, weights[..], features)[i]
      invariant forall i :: k <= i < ACTIONS ==> p[i] == scores[i]
    {
      p[k] := p[k] + weights[entry.column * 4 + k] * entry.value;
    }
  }

  /** `probabilities`: the row's scores, turned into probabilities in the same four cells. */
  method Probabilities(data: Packed, row: nat, weights: array<real>, p: array<real>, m: Maths, ghost features: nat)
    requires Valid(data) && row < |data.labels| && RowFits(RowOf(data, row), features) && Sound(m)
    requires weights.Length == Cells(features) && p.Length == ACTIONS && p != weights
    modifies p
    ensures p[..] == Softmax(Scores(RowOf(data, row).entries, weights[..], features), m)
  {
    ghost var entries := RowOf(data, row).entries;
    for k := 0 to ACTIONS
      invariant forall i :: 0 <= i < k ==> p[i] == 0.0
    {
      p[k] := 0.0;
    }
    var j := data.offsets[row];
    assert p[..] == Scores(entries[..0], weights[..], features);
    while j < data.offsets[row + 1]
      invariant data.offsets[row] <= j <= data.offsets[row + 1]
      invariant p[..] == Scores(entries[..j - data.offsets[row]], weights[..], features)
    {
      ghost var e := j - data.offsets[row];
      assert entries[e] == EntryAt(data, j);
      assert entries[..e + 1][..e] == entries[..e];
      AddEntryScores(EntryAt(data, j), weights, p, features);
      j := j + 1;
    }
    assert entries[..data.offsets[row + 1] - data.offsets[row]] == entries;
    SoftmaxInPlace(p, m);
  }

  method SoftmaxInPlace(p: array<real>, m: Maths)
    requires p.Length == ACTIONS && Sound(m)
    modifies p
    ensures p[..] == Softmax(old(p[..]), m)
  {
    var total := ExponentsInPlace(p, m);
    ghost var e := p[..];
    TotalIsPositive(e);
    for k := 0 to ACTIONS
      invariant forall i :: 0 <= i < k ==> p[i] == Shares(e)[i]
      invariant forall i :: k <= i < ACTIONS ==> p[i] == e[i]
    {
      p[k] := p[k] / total;
    }
  }

  lemma TotalMore(e: seq<real>, k: nat)
    requires k < |e|
    ensures Total(e[..k + 1]) == Total(e[..k]) + e[k]
  {
    assert e[..k + 1][..k] == e[..k];
  }

  method MaximumOf(p: array<real>) returns (maximum: real)
    requires p.Length == ACTIONS
    ensures maximum == Maximum(p[..])
  {
    maximum := p[0];
    for k := 1 to ACTIONS
      invariant maximum == Maximum(p[..k])
    {
      assert p[..k + 1][..k] == p[..k];
      if p[k] > maximum { maximum := p[k]; }
    }
    assert p[..ACTIONS] == p[..];
  }

  method ExponentsInPlace(p: array<real>, m: Maths) returns (total: real)
    requires p.Length == ACTIONS && Sound(m)
    modifies p
    ensures p[..] == Exponents(old(p[..]), m) && total == Total(p[..])
  {
    var maximum := MaximumOf(p);
    ghost var scores, e := p[..], Exponents(p[..], m);
    total := 0.0;
    assert total == Total(e[..0]);
    hide Maximum, Exponents, Total;
    for k := 0 to ACTIONS
      invariant forall i :: 0 <= i < k ==> p[i] == e[i]
      invariant forall i :: k <= i < ACTIONS ==> p[i] == scores[i]
      invariant total == Total(e[..k])
    {
      TotalMore(e, k);
      p[k] := m.exp(p[k] - maximum);
      total := total + p[k];
    }
    assert p[..] == e == e[..ACTIONS];
  }

  /** The four steps of one entry. */
  method MoveEntry(data: Packed, row: nat, j: nat, weights: array<real>, accumulators: array<Accumulator>, p: array<real>,
                   rate: real, m: Maths, ghost features: nat)
    requires Valid(data) && row < |data.labels| && RowFits(RowOf(data, row), features)
    requires data.offsets[row] <= j < data.offsets[row + 1]
    requires weights.Length == accumulators.Length == Cells(features) && p.Length == ACTIONS && p != weights
    modifies weights, accumulators
    ensures Fit(weights[..], accumulators[..])
         == MoveActions(old(Fit(weights[..], accumulators[..])), RowOf(data, row), j - data.offsets[row], ACTIONS, p[..], rate, m, features)
  {
    ghost var e := j - data.offsets[row];
    ghost var r := RowOf(data, row);
    assert r.entries[e] == EntryAt(data, j);
    ghost var start := Fit(weights[..], accumulators[..]);
    for k := 0 to ACTIONS
      invariant Fit(weights[..], accumulators[..]) == MoveActions(start, r, e, k, p[..], rate, m, features)
    {
      var index := data.indices[j] * 4 + k;
      assert index == Place(r.entries[e].column, k, features);
      var g := data.importance[row] * (p[k] - if k == data.labels[row] then 1.0 else 0.0) * data.values[j];
      assert g == Gradient(p[..], r.entries[e], r.action, r.importance, k);
      MoveOne(weights, accumulators, index, g, rate, m);
    }
  }

  method MoveOne(weights: array<real>, accumulators: array<Accumulator>, index: nat, g: real, rate: real, m: Maths)
    requires index < weights.Length == accumulators.Length
    modifies weights, accumulators
    ensures Fit(weights[..], accumulators[..]) == Move(old(Fit(weights[..], accumulators[..])), index, g, rate, m)
  {
    accumulators[index] := Accumulate(accumulators[index], g);
    weights[index] := weights[index] - StepSize(rate, g, accumulators[index], m);
  }

  /** The steps of all entries of a row, for the probabilities in `p`. */
  method MoveRowEntries(data: Packed, row: nat, weights: array<real>, accumulators: array<Accumulator>, p: array<real>,
                        rate: real, m: Maths, ghost features: nat)
    requires Valid(data) && row < |data.labels| && RowFits(RowOf(data, row), features)
    requires weights.Length == accumulators.Length == Cells(features) && p.Length == ACTIONS && p != weights
    modifies weights, accumulators
    ensures Fit(weights[..], accumulators[..])
         == MoveEntries(old(Fit(weights[..], accumulators[..])), RowOf(data, row), |RowOf(data, row).entries|, p[..], rate, m, features)
  {
    ghost var r := RowOf(data, row);
    ghost var start := Fit(weights[..], accumulators[..]);
    var j := data.offsets[row];
    while j < data.offsets[row + 1]
      invariant data.offsets[row] <= j <= data.offsets[row + 1]
      invariant Fit(weights[..], accumulators[..]) == MoveEntries(start, r, j - data.offsets[row], p[..], rate, m, features)
    {
      MoveEntry(data, row, j, weights, accumulators, p, rate, m, features);
      j := j + 1;
    }
  }

  /** `context_epoch`: every row in order, the weights and accumulators updated in place. */
  method ContextEpoch(data: Packed, weights: array<real>, accumulators: array<Accumulator>, rate: real, m: Maths, ghost features: nat)
    requires Valid(data) && AllFit(Rows(data), features) && Sound(m)
    requires weights.Length == accumulators.Length == Cells(features)
    modifies weights, accumulators
    ensures Fit(weights[..], accumulators[..])
         == Epoch(old(Fit(weights[..], accumulators[..])), Rows(data), rate, m, features)
  {
    var p := new real[ACTIONS];
    ghost var rows := Rows(data);
    for row := 0 to |data.labels|
      invariant fresh(p)
      invariant Fit(weights[..], accumulators[..])
             == Epoch(old(Fit(weights[..], accumulators[..])), rows[..row], rate, m, features)
    {
      assert rows[row] == RowOf(data, row);
      assert rows[..row + 1][..row] == rows[..row];
      Probabilities(data, row, weights, p, m, features);
      MoveRowEntries(data, row, weights, accumulators, p, rate, m, features);
    }
    assert rows[..|data.labels|] == rows;
  }
}
