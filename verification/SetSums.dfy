/** Sums over finite sets of strings, for the totals a program takes over a dictionary, and sizes of sets. */
module SetSums {

  ghost function SumOver(keys: set<string>, f: string -> real): real
    decreases |keys|
  {
    if keys == {} then 0.0
    else var t :| t in keys; f(t) + SumOver(keys - {t}, f)
  }

  /** Any key may be taken out first. */
  lemma {:induction false} SumSplit(keys: set<string>, f: string -> real, t: string)
    requires t in keys
    ensures SumOver(keys, f) == f(t) + SumOver(keys - {t}, f)
    decreases |keys|
  {
    var p :| p in keys && SumOver(keys, f) == f(p) + SumOver(keys - {p}, f);
    if p != t {
      SumSplit(keys - {p}, f, t);
      SumSplit(keys - {t}, f, p);
      assert keys - {p} - {t} == keys - {t} - {p};
    }
  }

  lemma {:induction false} SumMonotone(keys: set<string>, f: string -> real, g: string -> real)
    requires forall t :: t in keys ==> f(t) <= g(t)
    ensures SumOver(keys, f) <= SumOver(keys, g)
    decreases |keys|
  {
    if t :| t in keys {
      SumSplit(keys, f, t);
      SumSplit(keys, g, t);
      SumMonotone(keys - {t}, f, g);
    }
  }

  lemma {:induction false} SumCongruent(keys: set<string>, f: string -> real, g: string -> real)
    requires forall t :: t in keys ==> f(t) == g(t)
    ensures SumOver(keys, f) == SumOver(keys, g)
  {
    SumMonotone(keys, f, g);
    SumMonotone(keys, g, f);
  }

  lemma {:induction false} SumNonnegative(keys: set<string>, f: string -> real)
    requires forall t :: t in keys ==> f(t) >= 0.0
    ensures SumOver(keys, f) >= 0.0
    decreases |keys|
  {
    if t :| t in keys {
      SumSplit(keys, f, t);
      SumNonnegative(keys - {t}, f);
    }
  }

  lemma {:induction false} SumAdds(keys: set<string>, f: string -> real, g: string -> real, h: string -> real)
    requires forall t :: t in keys ==> h(t) == f(t) + g(t)
    ensures SumOver(keys, h) == SumOver(keys, f) + SumOver(keys, g)
    decreases |keys|
  {
    if t :| t in keys {
      SumSplit(keys, f, t);
      SumSplit(keys, g, t);
      SumSplit(keys, h, t);
      SumAdds(keys - {t}, f, g, h);
    }
  }

  lemma {:induction false} SumZero(keys: set<string>, f: string -> real)
    requires forall t :: t in keys ==> f(t) == 0.0
    ensures SumOver(keys, f) == 0.0
    decreases |keys|
  {
    if t :| t in keys {
      SumSplit(keys, f, t);
      SumZero(keys - {t}, f);
    }
  }

  /** A function that is `value` at one key and 0 elsewhere. */
  lemma {:induction false} SumIndicator(keys: set<string>, x: string, value: real, f: string -> real)
    requires x in keys
    requires forall t :: t in keys ==> f(t) == if t == x then value else 0.0
    ensures SumOver(keys, f) == value
  {
    SumSplit(keys, f, x);
    SumZero(keys - {x}, f);
  }

  lemma SubsetSize<T>(a: set<T>, b: set<T>)
    requires a <= b
    ensures |a| <= |b|
  {
    assert b == a + (b - a);
  }
}
