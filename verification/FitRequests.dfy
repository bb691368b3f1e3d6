/** What each list of requests adds: which tasks, and how often. */
module FitRequests {
  import opened Wrappers
  import opened FitPlan
  import opened FitState
  import opened FitInvariant

  // ---- the TRAIN chains and the features ahead of them

  lemma {:induction false} TrainChains(inputs: Inputs, profiles: seq<string>, extra: seq<Frame>, tail: seq<Frame>, j: Job)
    requires inputs.perTask > 0 && !j.Featurise?
    requires forall a, b :: 0 <= a < b < |profiles| ==> profiles[a] != profiles[b]
    ensures Added(TrainRequests(inputs, profiles, extra, tail))[j]
         == if j.Chain? && j.key.split == TRAIN && j.key.profile in profiles && j.extra == Some(extra) && j.tail == Some(tail)
            then 1 else 0
  {
    if profiles != [] {
      var before, profile := profiles[..|profiles| - 1], profiles[|profiles| - 1];
      TrainChains(inputs, before, extra, tail, j);
      AddedSplits(TrainRequests(inputs, before, extra, tail), ProfileRequests(inputs, profile, extra, tail));
      ProfileChain(inputs, profile, extra, tail, j);
      assert profiles == before + [profile];
    }
  }

  lemma {:induction false} ProfileParts(inputs: Inputs, profile: string, extra: seq<Frame>, tail: seq<Frame>)
    requires inputs.perTask > 0
    ensures Added(ProfileRequests(inputs, profile, extra, tail))
         == multiset{Chain(Key(profile, TRAIN), Some(extra), Some(tail))}
            + if inputs.heads then multiset{}
              else Added(ChunkRequests(inputs, Ahead, profile, Source.Extra, TRAIN, extra, 0))
                   + Added(ChunkRequests(inputs, Ahead, profile, Source.Tail, TRAIN, tail, 0))
  {
    var chain := Request(Critical, Chain(Key(profile, TRAIN), Some(extra), Some(tail)));
    var extras := ChunkRequests(inputs, Ahead, profile, Source.Extra, TRAIN, extra, 0);
    var tails := ChunkRequests(inputs, Ahead, profile, Source.Tail, TRAIN, tail, 0);
    AddedOne(chain);
    AddedSplits([chain], if inputs.heads then [] else extras + tails);
    AddedSplits(extras, tails);
  }

  lemma {:induction false} ChunksAreFeatures(inputs: Inputs, priority: Priority, profile: string, source: Source,
                                             split: string, frames: seq<Frame>, j: Job)
    requires inputs.perTask > 0 && !j.Featurise?
    ensures Added(ChunkRequests(inputs, priority, profile, source, split, frames, 0))[j] == 0
  {
    if j in Added(ChunkRequests(inputs, priority, profile, source, split, frames, 0)) {
      ChunkRequestsAdd(inputs, priority, profile, source, split, frames, 0, j);
    }
  }

  lemma ProfileChain(inputs: Inputs, profile: string, extra: seq<Frame>, tail: seq<Frame>, j: Job)
    requires inputs.perTask > 0 && !j.Featurise?
    ensures Added(ProfileRequests(inputs, profile, extra, tail))[j]
         == if j == Chain(Key(profile, TRAIN), Some(extra), Some(tail)) then 1 else 0
  {
    ProfileParts(inputs, profile, extra, tail);
    ChunksAreFeatures(inputs, Ahead, profile, Source.Extra, TRAIN, extra, j);
    ChunksAreFeatures(inputs, Ahead, profile, Source.Tail, TRAIN, tail, j);
  }

  lemma {:induction false} TrainFeatures(inputs: Inputs, profiles: seq<string>, extra: seq<Frame>, tail: seq<Frame>, j: Job)
    requires inputs.perTask > 0 && j.Featurise? && j in Added(TrainRequests(inputs, profiles, extra, tail))
    ensures j.profile in profiles && !inputs.heads && j.chunk.split == TRAIN
    ensures j.chunk.source == Source.Extra || j.chunk.source == Source.Tail
    ensures j.frames == inputs.Share(if j.chunk.source == Source.Extra then extra else tail, j.chunk.start)
  {
    if profiles != [] {
      var before, profile := profiles[..|profiles| - 1], profiles[|profiles| - 1];
      AddedSplits(TrainRequests(inputs, before, extra, tail), ProfileRequests(inputs, profile, extra, tail));
      if j in Added(TrainRequests(inputs, before, extra, tail)) {
        TrainFeatures(inputs, before, extra, tail, j);
      } else {
        ProfileParts(inputs, profile, extra, tail);
        if j in Added(ChunkRequests(inputs, Ahead, profile, Source.Extra, TRAIN, extra, 0)) {
          ChunkRequestsAdd(inputs, Ahead, profile, Source.Extra, TRAIN, extra, 0, j);
        } else {
          ChunkRequestsAdd(inputs, Ahead, profile, Source.Tail, TRAIN, tail, 0, j);
        }
      }
    }
  }

  lemma ProfileCovers(inputs: Inputs, profile: string, extra: seq<Frame>, tail: seq<Frame>, source: Source, at: nat)
    requires inputs.perTask > 0 && at % inputs.perTask == 0 && !inputs.heads
    requires source == Source.Extra || source == Source.Tail
    requires at < |if source == Source.Extra then extra else tail|
    ensures Featurise(profile, Chunk(source, TRAIN, at), inputs.Share(if source == Source.Extra then extra else tail, at))
         in Added(ProfileRequests(inputs, profile, extra, tail))
  {
    ProfileParts(inputs, profile, extra, tail);
    ChunkRequestsCover(inputs, Ahead, profile, source, TRAIN, if source == Source.Extra then extra else tail, 0, at);
  }

  lemma {:induction false} TrainCovers(inputs: Inputs, profiles: seq<string>, extra: seq<Frame>, tail: seq<Frame>,
                                       profile: string, source: Source, at: nat)
    requires inputs.perTask > 0 && at % inputs.perTask == 0 && profile in profiles && !inputs.heads
    requires source == Source.Extra || source == Source.Tail
    requires at < |if source == Source.Extra then extra else tail|
    ensures Featurise(profile, Chunk(source, TRAIN, at), inputs.Share(if source == Source.Extra then extra else tail, at))
         in Added(TrainRequests(inputs, profiles, extra, tail))
  {
    var before, last := profiles[..|profiles| - 1], profiles[|profiles| - 1];
    AddedSplits(TrainRequests(inputs, before, extra, tail), ProfileRequests(inputs, last, extra, tail));
    if profile == last {
      ProfileCovers(inputs, last, extra, tail, source, at);
    } else {
      assert profiles == before + [last];
      TrainCovers(inputs, before, extra, tail, profile, source, at);
    }
  }

  // ---- what a run starts with

  lemma {:induction false} KeysOfAre(profile: string, splits: seq<string>)
    ensures |KeysOf(profile, splits)| == |splits|
    ensures forall i :: 0 <= i < |splits| ==> KeysOf(profile, splits)[i] == Key(profile, splits[i])
  {
    if splits != [] {
      KeysOfAre(profile, splits[..|splits| - 1]);
    }
  }

  predicate DistinctKeys(keys: seq<Key>) { forall a, b :: 0 <= a < b < |keys| ==> keys[a] != keys[b] }

  lemma {:induction false} KeysOfHas(profile: string, splits: seq<string>)
    ensures forall k :: k in KeysOf(profile, splits) <==> k.profile == profile && k.split in splits
  {
    KeysOfAre(profile, splits);
    forall k ensures k in KeysOf(profile, splits) <==> k.profile == profile && k.split in splits {
      if k.profile == profile && k.split in splits {
        var i :| 0 <= i < |splits| && splits[i] == k.split;
        assert KeysOf(profile, splits)[i] == k;
      }
    }
  }

  lemma {:induction false} KeyListIs(profiles: seq<string>, splits: seq<string>)
    requires forall a, b :: 0 <= a < b < |profiles| ==> profiles[a] != profiles[b]
    requires forall a, b :: 0 <= a < b < |splits| ==> splits[a] != splits[b]
    ensures DistinctKeys(KeyList(profiles, splits))
    ensures forall k :: k in KeyList(profiles, splits) <==> k.profile in profiles && k.split in splits
  {
    if profiles != [] {
      var before, profile := profiles[..|profiles| - 1], profiles[|profiles| - 1];
      KeyListIs(before, splits);
      KeysOfAre(profile, splits);
      KeysOfHas(profile, splits);
      assert profiles == before + [profile];
      hide KeysOf;
    }
  }

  lemma {:induction false} CapturedCounts(count: nat, j: Job)
    ensures Added(CapturedRequests(count))[j] == if j.Captured? && j.index < count then 1 else 0
  {
    if count == 0 {
      NothingAdded();
    } else {
      var last := Request(Critical, Captured(count - 1));
      assert CapturedRequests(count) == CapturedRequests(count - 1) + [last];
      hide Added, CapturedRequests;
      CapturedCounts(count - 1, j);
      AddedSplits(CapturedRequests(count - 1), [last]);
      AddedOne(last);
      CapturedMore(Added(CapturedRequests(count - 1)), Added(CapturedRequests(count)), count - 1, j);
    }
  }

  lemma CapturedMore(tasks: multiset<Job>, more: multiset<Job>, i: nat, j: Job)
    requires more == tasks + multiset{Captured(i)} && tasks[j] == if j.Captured? && j.index < i then 1 else 0
    ensures more[j] == if j.Captured? && j.index < i + 1 then 1 else 0
  {
    assert j.Captured? && j.index == i <==> j == Captured(i);
  }

  lemma AddedTwo(a: Request, b: Request)
    ensures Added([a, b]) == multiset{a.job, b.job}
  {
    assert JobsOf([a, b]) == [a.job, b.job];
  }

  lemma BuiltParts(inputs: Inputs)
    ensures Added(BuiltRequests(inputs)) == Added(CapturedRequests(|inputs.captured|)) + multiset{Historical, Capitals, English}
  {
    var first, captured := [Request(Critical, Historical)], CapturedRequests(|inputs.captured|);
    var a, b := Request(Critical, Capitals), Request(Critical, English);
    AddedSplits(first + captured, [a, b]);
    AddedSplits(first, captured);
    AddedOne(first[0]);
    AddedTwo(a, b);
  }

  lemma CurriculaCounts(inputs: Inputs, j: Job)
    ensures Added(CurriculaRequests(inputs))[j]
         == match j
            case Captured(i) => if inputs.BuildsCurricula() && i < |inputs.captured| then 1 else 0
            case TailTask => if inputs.Trains() then 1 else 0
            case _ => if inputs.BuildsCurricula() && (j.Historical? || j.Capitals? || j.English?) then 1 else 0
  {
    var tail := Request(Critical, TailTask);
    var built := if inputs.BuildsCurricula() then BuiltRequests(inputs) else [];
    AddedSplits(built, if inputs.Trains() then [tail] else []);
    AddedOne(tail);
    BuiltParts(inputs);
    CapturedCounts(|inputs.captured|, j);
  }

  ghost function KeyCount(inputs: Inputs, key: Key, j: Job): nat {
    if key.split == TRAIN then if j == Spans(key) && !inputs.frozen then 1 else 0
    else if j == Chain(key, None, None) || j == Spans(key) then 1 else 0
  }

  lemma KeyCounts(inputs: Inputs, key: Key, j: Job)
    ensures Added(KeyRequests(inputs, key))[j] == KeyCount(inputs, key, j)
  {
    var chain, spans := Request(Curricula, Chain(key, None, None)), Request(Curricula, Job.Spans(key));
    AddedOne(chain);
    AddedOne(spans);
    AddedSplits(if key.split != TRAIN then [chain] else [], if inputs.frozen && key.split == TRAIN then [] else [spans]);
  }

  lemma {:induction false} AllKeyCounts(inputs: Inputs, keys: seq<Key>, j: Job)
    requires DistinctKeys(keys)
    ensures Added(AllKeyRequests(inputs, keys))[j]
         == if (j.Chain? || j.Spans?) && j.key in keys then KeyCount(inputs, j.key, j) else 0
  {
    if keys != [] {
      var before, key := keys[..|keys| - 1], keys[|keys| - 1];
      AllKeyCounts(inputs, before, j);
      AddedSplits(AllKeyRequests(inputs, before), KeyRequests(inputs, key));
      KeyCounts(inputs, key, j);
      assert keys == before + [key];
    }
  }

  lemma KeyNaturalAdds(inputs: Inputs, key: Key, j: Job)
    requires inputs.perTask > 0 && j in Added(KeyNatural(inputs, key))
    ensures j.Featurise? && j.profile == key.profile
    ensures j.chunk == Chunk(Natural, key.split, j.chunk.start)
    ensures j.frames == inputs.Share(inputs.natural(key.split), j.chunk.start)
  {
    ChunkRequestsAdd(inputs, Ahead, key.profile, Natural, key.split, inputs.natural(key.split), 0, j);
  }

  lemma {:induction false} NaturalAdds(inputs: Inputs, keys: seq<Key>, j: Job)
    requires inputs.perTask > 0 && j in Added(NaturalRequests(inputs, keys))
    ensures j.Featurise? && Key(j.profile, j.chunk.split) in keys && j.chunk.source == Natural
    ensures j.frames == inputs.Share(inputs.natural(j.chunk.split), j.chunk.start)
  {
    if keys != [] {
      var before, key := keys[..|keys| - 1], keys[|keys| - 1];
      AddedSplits(NaturalRequests(inputs, before), KeyNatural(inputs, key));
      if j in Added(NaturalRequests(inputs, before)) {
        NaturalAdds(inputs, before, j);
      } else {
        KeyNaturalAdds(inputs, key, j);
      }
    }
  }

  lemma {:induction false} NaturalCovers(inputs: Inputs, keys: seq<Key>, key: Key, at: nat)
    requires inputs.perTask > 0 && key in keys && !((inputs.frozen || inputs.heads) && key.split == TRAIN)
    requires at % inputs.perTask == 0 && at < |inputs.natural(key.split)|
    ensures Featurise(key.profile, Chunk(Natural, key.split, at), inputs.Share(inputs.natural(key.split), at))
         in Added(NaturalRequests(inputs, keys))
  {
    var before, last := keys[..|keys| - 1], keys[|keys| - 1];
    AddedSplits(NaturalRequests(inputs, before), KeyNatural(inputs, last));
    if key == last {
      ChunkRequestsCover(inputs, Ahead, key.profile, Natural, key.split, inputs.natural(key.split), 0, at);
    } else {
      assert keys == before + [last];
      NaturalCovers(inputs, before, key, at);
    }
  }

  lemma {:induction false} FirstParts(inputs: Inputs)
    requires inputs.perTask > 0
    ensures var keys := KeyList(inputs.profiles, inputs.splits);
      Added(FirstRequests(inputs))
      == Added(CurriculaRequests(inputs)) + Added(AllKeyRequests(inputs, keys)) + Added(NaturalRequests(inputs, keys))
  {
    var keys := KeyList(inputs.profiles, inputs.splits);
    AddedSplits(CurriculaRequests(inputs), AllKeyRequests(inputs, keys));
    AddedSplits(CurriculaRequests(inputs) + AllKeyRequests(inputs, keys), NaturalRequests(inputs, keys));
  }

  lemma FirstCounts(inputs: Inputs, j: Job)
    requires Proper(inputs) && !j.Featurise?
    ensures Added(FirstRequests(inputs))[j]
         == Added(CurriculaRequests(inputs))[j]
            + if (j.Chain? || j.Spans?) && inputs.IsKey(j.key) then KeyCount(inputs, j.key, j) else 0
  {
    var keys := KeyList(inputs.profiles, inputs.splits);
    FirstParts(inputs);
    KeyListIs(inputs.profiles, inputs.splits);
    AllKeyCounts(inputs, keys, j);
    if j in Added(NaturalRequests(inputs, keys)) {
      NaturalAdds(inputs, keys, j);
    }
  }

  lemma FirstTasks(inputs: Inputs, j: Job)
    requires Proper(inputs) && !j.Featurise?
    ensures Added(FirstRequests(inputs))[j] == Expected(inputs, FirstFit(inputs), j)
  {
    FirstCounts(inputs, j);
    CurriculaCounts(inputs, j);
    NothingCapturedSize(|inputs.captured|);
  }

  lemma {:induction false} NothingCapturedSize(count: nat)
    ensures |NothingCaptured(count)| == count
  {
    if count > 0 { NothingCapturedSize(count - 1); }
  }
}
