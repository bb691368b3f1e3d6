/** The simple count of conversions, on every frame and by class, and its agreement with the selection's. */
module CandidateTally {
  import opened Wrappers
  import opened SetSums
  import opened EpochScores
  import opened EpochSelection

  const ALL_FRAMES: string := "all"

  datatype Counts = Counts(rows: nat, convertRows: nat, right: nat, wrong: nat, net: int)

  const NOTHING: Counts := Counts(0, 0, 0, 0, 0)

  datatype TallyError = LengthsDiffer

  /** Which rows convert at a threshold. */
  method Converted(p: Profile, threshold: real) returns (r: seq<bool>)
    requires HasRows(p)
    ensures |r| == |p.labels| && forall k :: 0 <= k < |r| ==> r[k] == Converts(p, k, threshold)
  {
    r := [];
    for k := 0 to |p.labels|
      invariant |r| == k && forall i :: 0 <= i < k ==> r[i] == Converts(p, i, threshold)
    {
      r := r + [Converts(p, k, threshold)];
    }
  }

  // ---- what is counted under a key

  datatype Measure = Rows | ConvertRows | Right | Wrong

  datatype Frame = Frame(conversion: bool, label_: int, class_: string)

  predicate Hits(f: Frame, m: Measure) {
    match m
    case Rows => true
    case ConvertRows => f.label_ == CONVERT
    case Right => f.conversion && f.label_ == CONVERT
    case Wrong => f.conversion && f.label_ != CONVERT
  }

  /** A frame counts under the key of all frames, and under its class. */
  function Weight(f: Frame, key: string): nat { (if key == ALL_FRAMES then 1 else 0) + if key == f.class_ then 1 else 0 }

  function CountOf(frames: seq<Frame>, key: string, m: Measure): nat {
    if frames == [] then 0
    else CountOf(frames[..|frames| - 1], key, m) + if Hits(frames[|frames| - 1], m) then Weight(frames[|frames| - 1], key) else 0
  }

  function CountsOf(frames: seq<Frame>, key: string): Counts {
    Counts(CountOf(frames, key, Rows), CountOf(frames, key, ConvertRows), CountOf(frames, key, Right), CountOf(frames, key, Wrong),
           CountOf(frames, key, Right) - CountOf(frames, key, Wrong))
  }

  function FramesOf(conversions: seq<bool>, labels: seq<int>, classes: seq<string>): (r: seq<Frame>)
    requires |conversions| == |labels| == |classes|
    ensures |r| == |labels|
  {
    seq(|labels|, k requires 0 <= k < |labels| => Frame(conversions[k], labels[k], classes[k]))
  }

  function At(table: map<string, Counts>, key: string): Counts { if key in table then table[key] else NOTHING }

  ghost predicate IsTally(table: map<string, Counts>, frames: seq<Frame>) {
    forall key :: At(table, key) == CountsOf(frames, key) && (key in table <==> CountOf(frames, key, Rows) > 0)
  }

  // ---- counting

  function AddTo(c: Counts, f: Frame): Counts {
    var right, wrong := c.right + (if Hits(f, Right) then 1 else 0), c.wrong + (if Hits(f, Wrong) then 1 else 0);
    Counts(c.rows + 1, c.convertRows + (if Hits(f, ConvertRows) then 1 else 0), right, wrong, right - wrong)
  }

  lemma CountsMore(frames: seq<Frame>, f: Frame, key: string)
    ensures CountOf(frames + [f], key, Rows) == CountOf(frames, key, Rows) + Weight(f, key)
    ensures Weight(f, key) == 0 ==> CountsOf(frames + [f], key) == CountsOf(frames, key)
    ensures Weight(f, key) == 1 ==> CountsOf(frames + [f], key) == AddTo(CountsOf(frames, key), f)
    ensures Weight(f, key) == 2 ==> CountsOf(frames + [f], key) == AddTo(AddTo(CountsOf(frames, key), f), f)
  {
    assert (frames + [f])[..|frames|] == frames;
  }

  /** Conversions, targets, right and false conversions and their net, under the key of all frames and under each class. */
  method Tally(conversions: seq<bool>, labels: seq<int>, classes: seq<string>) returns (r: Result<map<string, Counts>, TallyError>)
    ensures r.Err? <==> !(|conversions| == |labels| == |classes|)
    ensures r.Ok? ==> IsTally(r.value, FramesOf(conversions, labels, classes))
  {
    if !(|conversions| == |labels| && |labels| == |classes|) { return Err(LengthsDiffer); }
    var frames := FramesOf(conversions, labels, classes);
    var table: map<string, Counts> := map[];
    for k := 0 to |frames|
      invariant IsTally(table, frames[..k])
    {
      var f := frames[k];
      ghost var before := table;
      table := table[ALL_FRAMES := AddTo(At(table, ALL_FRAMES), f)];
      table := table[f.class_ := AddTo(At(table, f.class_), f)];
      assert frames[..k + 1] == frames[..k] + [f];
      TallyStep(before, frames[..k], f);
    }
    assert frames[..|frames|] == frames;
    return Ok(table);
  }

  lemma TallyStep(table: map<string, Counts>, frames: seq<Frame>, f: Frame)
    requires IsTally(table, frames)
    ensures var one := table[ALL_FRAMES := AddTo(At(table, ALL_FRAMES), f)];
            IsTally(one[f.class_ := AddTo(At(one, f.class_), f)], frames + [f])
  {
    var one := table[ALL_FRAMES := AddTo(At(table, ALL_FRAMES), f)];
    var two := one[f.class_ := AddTo(At(one, f.class_), f)];
    forall key ensures At(two, key) == CountsOf(frames + [f], key) && (key in two <==> CountOf(frames + [f], key, Rows) > 0) {
      CountsMore(frames, f, key);
      hide CountOf, AddTo;
    }
  }

  // ---- the classes add up

  ghost function Classes(frames: seq<Frame>): set<string> { set k | 0 <= k < |frames| :: frames[k].class_ }

  ghost predicate HasReservedClass(frames: seq<Frame>) { ALL_FRAMES in Classes(frames) }

  ghost function CountUnder(frames: seq<Frame>, m: Measure): string -> real { key => CountOf(frames, key, m) as real }

  ghost function HitUnder(f: Frame, m: Measure): string -> real { key => if Hits(f, m) && key == f.class_ then 1.0 else 0.0 }

  /** Unless a class has the name that stands for all frames, the classes' counts add up to those of all frames. */
  lemma {:induction false} ClassesAddUp(frames: seq<Frame>, keys: set<string>, m: Measure)
    requires Classes(frames) <= keys && ALL_FRAMES !in keys
    ensures SumOver(keys, CountUnder(frames, m)) == CountOf(frames, ALL_FRAMES, m) as real
  {
    if frames == [] {
      SumZero(keys, CountUnder(frames, m));
    } else {
      var front, f := frames[..|frames| - 1], frames[|frames| - 1];
      assert f.class_ in Classes(frames);
      forall c | c in Classes(front) ensures c in keys { ClassStays(frames, c); }
      ClassesAddUp(front, keys, m);
      SumAdds(keys, CountUnder(front, m), HitUnder(f, m), CountUnder(frames, m));
      if Hits(f, m) { SumIndicator(keys, f.class_, 1.0, HitUnder(f, m)); } else { SumZero(keys, HitUnder(f, m)); }
    }
  }

  lemma ClassStays(frames: seq<Frame>, c: string)
    requires frames != [] && c in Classes(frames[..|frames| - 1])
    ensures c in Classes(frames)
  {
    var k :| 0 <= k < |frames| - 1 && frames[..|frames| - 1][k].class_ == c;
    assert frames[k].class_ == c;
  }

  // ---- the selection's count

  lemma {:induction false} CountsAgree(p: Profile, threshold: real, frames: seq<Frame>, count: nat)
    requires HasRows(p) && count <= |p.labels| == |frames|
    requires forall k :: 0 <= k < |frames| ==> frames[k].conversion == Converts(p, k, threshold) && frames[k].label_ == p.labels[k]
    requires forall k :: 0 <= k < |frames| ==> frames[k].class_ != ALL_FRAMES
    ensures CountOf(frames[..count], ALL_FRAMES, Rows) == count
    ensures CountOf(frames[..count], ALL_FRAMES, ConvertRows) == Targets(p.labels[..count])
    ensures CountOf(frames[..count], ALL_FRAMES, Right) == Conversions(p, threshold, true, count)
    ensures CountOf(frames[..count], ALL_FRAMES, Wrong) == Conversions(p, threshold, false, count)
  {
    if count > 0 {
      CountsAgree(p, threshold, frames, count - 1);
      assert frames[..count][..count - 1] == frames[..count - 1];
      assert p.labels[..count][..count - 1] == p.labels[..count - 1];
    }
  }

  /** Under the key of all frames the simple count is the one the selection takes by bisection, exactly unless a class has that name. */
  lemma {:induction false} TallyIsSelection(p: Profile, threshold: real, conversions: seq<bool>, classes: seq<string>)
    requires HasRows(p) && |conversions| == |p.labels| == |classes|
    requires forall k :: 0 <= k < |conversions| ==> conversions[k] == Converts(p, k, threshold)
    ensures CountsOf(FramesOf(conversions, p.labels, classes), ALL_FRAMES)
         == Counts(|p.labels|, Targets(p.labels), Conversions(p, threshold, true, |p.labels|), Conversions(p, threshold, false, |p.labels|),
                   Net(p, threshold))
       <==> !HasReservedClass(FramesOf(conversions, p.labels, classes))
  {
    var frames := FramesOf(conversions, p.labels, classes);
    assert frames[..|frames|] == frames && p.labels[..|p.labels|] == p.labels;
    if HasReservedClass(frames) {
      MoreRows(frames, |frames|);
    } else {
      forall k | 0 <= k < |frames| ensures frames[k].class_ != ALL_FRAMES { assert frames[k].class_ in Classes(frames); }
      CountsAgree(p, threshold, frames, |frames|);
    }
  }

  lemma {:induction false} MoreRows(frames: seq<Frame>, count: nat)
    requires count <= |frames|
    ensures CountOf(frames[..count], ALL_FRAMES, Rows) >= count
    ensures (exists k :: 0 <= k < count && frames[k].class_ == ALL_FRAMES) ==> CountOf(frames[..count], ALL_FRAMES, Rows) > count
  {
    if count > 0 {
      MoreRows(frames, count - 1);
      assert frames[..count][..count - 1] == frames[..count - 1];
    }
  }
}
