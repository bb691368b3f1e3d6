/**
 What a context fit computes before its epochs, as functions of its inputs alone: the curricula, each key's
 final frames, the plan that finds their features, and the columns the serial fit would build.

 The tasks (curricula, chains, spans, features) are functions the model does not look into.
 */
module FitPlan {
  import opened Wrappers

  const TRAIN: string := "train"

  /** A frame is told apart by all its fields; only rows carry an identifier. */
  datatype Frame =
    | ActionRow(identifier: string, evidence: int, action: nat, weight: real)
    | SpanFrame(evidence: int, action: nat, weight: real)

  datatype Key = Key(profile: string, split: string)

  type Features = seq<(string, real)>

  datatype Inputs = Inputs(
    profiles: seq<string>,
    splits: seq<string>,
    natural: string -> seq<Frame>,
    historical: seq<Frame>,
    captured: seq<seq<Frame>>,
    capitals: seq<Frame>,
    english: seq<Frame>,
    tail: seq<Frame>,
    chain: (Key, Option<seq<Frame>>, Option<seq<Frame>>) -> seq<Frame>,
    spans: Key -> seq<Frame>,
    prepared: (seq<Frame>, seq<Frame>, string) -> seq<Frame>,
    asksHead: Frame -> bool,
    rowEvidence: (string, string, Frame) -> int,
    extract: int -> Features,
    frozen: bool,
    heads: bool,
    keepImportance: real,
    perTask: nat)
  {
    predicate Trains() { TRAIN in splits }

    /** A frame's features are those of its evidence; a row's depends on the profile and split, a span frame holds its own. */
    function FrameFeatures(profile: string, split: string, frame: Frame): Features { extract(EvidenceOf(profile, split, frame)) }

    function EvidenceOf(profile: string, split: string, frame: Frame): int {
      if frame.ActionRow? then rowEvidence(profile, split, frame) else frame.evidence
    }

    /** Whether the TRAIN curricula besides the tail are built at all. */
    predicate BuildsCurricula() { Trains() && !frozen }

    predicate IsKey(key: Key) { key.profile in profiles && key.split in splits }

    function Keys(): (r: set<Key>)
      ensures forall k :: k in r <==> IsKey(k)
    {
      set p, s | p in profiles && s in splits :: Key(p, s)
    }

    // ---- the curricula

    function HistoricalRows(): seq<Frame> { if BuildsCurricula() then historical else [] }

    function CapturedRows(i: nat): seq<Frame>
      requires i < |captured|
    {
      if BuildsCurricula() then captured[i] else []
    }

    function CapitalsRows(): seq<Frame> { if BuildsCurricula() then capitals else [] }

    function EnglishRows(): seq<Frame> { if BuildsCurricula() then english else [] }

    function TailRows(): seq<Frame> { if Trains() then tail else [] }

    function CapturedUpTo(count: nat): seq<Frame>
      requires count <= |captured|
    {
      if count == 0 then [] else CapturedUpTo(count - 1) + CapturedRows(count - 1)
    }

    /** The frames the other curricula add to TRAIN, in the serial order. */
    function ExtraRows(): seq<Frame> { HistoricalRows() + CapturedUpTo(|captured|) + CapitalsRows() + EnglishRows() }

    function ChainArguments(key: Key): (Option<seq<Frame>>, Option<seq<Frame>>) {
      if key.split == TRAIN then (Some(ExtraRows()), Some(TailRows())) else (None, None)
    }

    function ChainRows(key: Key): seq<Frame> { chain(key, ChainArguments(key).0, ChainArguments(key).1) }

    function SpanRows(key: Key): seq<Frame> { if frozen && key.split == TRAIN then [] else spans(key) }

    // ---- the final frames of a key

    predicate Selects(key: Key) { heads && key.split == TRAIN }

    function OnlyHeads(frames: seq<Frame>): seq<Frame> {
      if frames == [] then []
      else OnlyHeads(frames[..|frames| - 1]) + if asksHead(frames[|frames| - 1]) then [frames[|frames| - 1]] else []
    }

    function FinalFrames(key: Key): seq<Frame> {
      var frames := prepared(ChainRows(key), SpanRows(key), key.split);
      if Selects(key) then OnlyHeads(frames) else frames
    }

    // ---- where each final frame's features are found

    /** The frames featurised ahead for a key, by where they come from. */
    function NaturalOf(key: Key): seq<Frame> {
      if (frozen || Selects(key)) && key.split == TRAIN then [] else natural(key.split)
    }

    function ExtraOf(key: Key): seq<Frame> { if key.split == TRAIN && !Selects(key) then ExtraRows() else [] }

    function TailOf(key: Key): seq<Frame> { if key.split == TRAIN && !Selects(key) then TailRows() else [] }

    /** The slots of some frames and the ones among them to featurise after the curricula. */
    function KeyPlan(key: Key): Plan {
      PlanOf(FramesAhead(NaturalOf(key), ExtraOf(key), TailOf(key)), FinalFrames(key))
    }

    // ---- the feature tasks

    /** The frames of one source of a profile's splits. */
    function SourceFrames(source: Source, key: Key): seq<Frame> {
      match source
      case Natural => natural(key.split)
      case Extra => ExtraRows()
      case Tail => TailRows()
      case Fresh => KeyPlan(key).late
    }

    function Upto(a: nat, b: nat): nat { if a < b then a else b }

    /** A task's share of the frames: `frames[start:start + per task]`. */
    function Share(frames: seq<Frame>, start: nat): seq<Frame> {
      if start <= |frames| then frames[start..Upto(start + perTask, |frames|)] else []
    }

    function ChunkFrames(profile: string, chunk: Chunk): seq<Frame> {
      Share(SourceFrames(chunk.source, Key(profile, chunk.split)), chunk.start)
    }

    /** What a task returns: the features of its frames, in their order. */
    function FeaturesOf(profile: string, split: string, frames: seq<Frame>): (r: seq<Features>)
      ensures |r| == |frames|
    {
      seq(|frames|, k requires 0 <= k < |frames| => FrameFeatures(profile, split, frames[k]))
    }

    function ChunkRows(profile: string, chunk: Chunk): seq<Features> {
      FeaturesOf(profile, chunk.split, ChunkFrames(profile, chunk))
    }

    function SlotSplit(key: Key, source: Source): string { if source == Extra then TRAIN else key.split }

    function SlotChunk(key: Key, slot: Slot): Chunk
      requires perTask > 0
    {
      Chunk(slot.source, SlotSplit(key, slot.source), slot.number - slot.number % perTask)
    }

    /** The chunks a key's plan needs. */
    function Needed(key: Key): (r: set<Chunk>)
      requires perTask > 0
    {
      set slot | slot in KeyPlan(key).slots :: SlotChunk(key, slot)
    }

    // ---- the columns

    function Importance(frame: Frame): real { frame.weight * if frame.action == 0 then keepImportance else 1.0 }

    function ColumnOf(features: Features, frame: Frame): Column {
      Column(features, frame.action, Importance(frame), frame.weight)
    }

    /** What the serial fit featurises for a key. */
    function FinalColumns(key: Key): (r: seq<Column>)
      ensures |r| == |FinalFrames(key)|
    {
      var frames := FinalFrames(key);
      seq(|frames|, k requires 0 <= k < |frames| => ColumnOf(FrameFeatures(key.profile, key.split, frames[k]), frames[k]))
    }

    /** What the serial fit rejects: an importance that is not positive, or such a weight on TRAIN. */
    predicate Accepts(split: string, frames: seq<Frame>) {
      forall k :: 0 <= k < |frames| ==> Importance(frames[k]) > 0.0 && (split == TRAIN ==> frames[k].weight > 0.0)
    }

    lemma ChunkHolds(frames: seq<Frame>, number: nat)
      requires perTask > 0 && number < |frames|
      ensures number % perTask < |Share(frames, number - number % perTask)|
      ensures Share(frames, number - number % perTask)[number % perTask] == frames[number]
    {}

    lemma SlotFrame(key: Key, slot: Slot)
      ensures SourceFrames(slot.source, Key(key.profile, SlotSplit(key, slot.source)))
           == match slot.source
              case Natural => natural(key.split)
              case Extra => ExtraRows()
              case Tail => TailRows()
              case Fresh => KeyPlan(key).late
    {}

    /** A slot's frame is the final frame it stands for. */
    lemma SlotIsFrame(key: Key, i: nat)
      requires i < |FinalFrames(key)|
      ensures var slot := KeyPlan(key).slots[i];
        var frames := SourceFrames(slot.source, Key(key.profile, SlotSplit(key, slot.source)));
        slot.number < |frames| && frames[slot.number] == FinalFrames(key)[i]
    {
      var slot := KeyPlan(key).slots[i];
      SlotFrame(key, slot);
      PlanIsSound(FramesAhead(NaturalOf(key), ExtraOf(key), TailOf(key)), FinalFrames(key), i);
    }

    /** Reading a slot's place out of its chunk gives the features of the frame it stands for. */
    lemma SlotReads(key: Key, i: nat)
      requires perTask > 0 && i < |FinalFrames(key)|
      ensures var slot := KeyPlan(key).slots[i];
        var rows := ChunkRows(key.profile, SlotChunk(key, slot));
        slot.number % perTask < |rows|
        && rows[slot.number % perTask] == FrameFeatures(key.profile, SlotSplit(key, slot.source), FinalFrames(key)[i])
    {
      var slot := KeyPlan(key).slots[i];
      SlotIsFrame(key, i);
      ChunkHolds(SourceFrames(slot.source, Key(key.profile, SlotSplit(key, slot.source))), slot.number);
    }

    /** Only TRAIN keys read the curricula's frames, featurised as TRAIN. */
    lemma SlotSplitIsOwn(key: Key, i: nat)
      requires i < |FinalFrames(key)|
      ensures SlotSplit(key, KeyPlan(key).slots[i].source) == key.split
    {
      PlanIsSound(FramesAhead(NaturalOf(key), ExtraOf(key), TailOf(key)), FinalFrames(key), i);
    }
  }

  datatype Source = Natural | Extra | Tail | Fresh

  datatype Slot = Slot(source: Source, number: nat)

  datatype Plan = Plan(slots: seq<Slot>, late: seq<Frame>)

  /** The identity of a featurised chunk: its source, split and first frame. */
  datatype Chunk = Chunk(source: Source, split: string, start: nat)

  datatype Column = Column(features: Features, action: nat, importance: real, weight: real)

  // ---- finding each final frame among those featurised ahead

  datatype FramesAhead = FramesAhead(natural: seq<Frame>, extra: seq<Frame>, tail: seq<Frame>)

  /** The last frame with this identifier: what the dictionary of identifiers keeps. */
  function LastAt(frames: seq<Frame>, identifier: string): (r: Option<nat>)
    ensures r.Some? ==> r.value < |frames|
  {
    if frames == [] then None
    else if frames[|frames| - 1].ActionRow? && frames[|frames| - 1].identifier == identifier then Some(|frames| - 1)
    else LastAt(frames[..|frames| - 1], identifier)
  }

  /** The place of the very same frame, if it was featurised ahead. */
  function PlaceOf(frames: seq<Frame>, frame: Frame): (r: Option<nat>)
    ensures r.Some? ==> r.value < |frames| && frames[r.value] == frame
  {
    if frame.SpanFrame? then None
    else
      match LastAt(frames, frame.identifier)
      case None => None
      case Some(n) => if frames[n] == frame then Some(n) else None
  }

  function SlotOf(ahead: FramesAhead, frame: Frame, lateCount: nat): Slot {
    if PlaceOf(ahead.natural, frame).Some? then Slot(Natural, PlaceOf(ahead.natural, frame).value)
    else if PlaceOf(ahead.extra, frame).Some? then Slot(Extra, PlaceOf(ahead.extra, frame).value)
    else if PlaceOf(ahead.tail, frame).Some? then Slot(Tail, PlaceOf(ahead.tail, frame).value)
    else Slot(Fresh, lateCount)
  }

  function PlanOf(ahead: FramesAhead, frames: seq<Frame>): (r: Plan)
    ensures |r.slots| == |frames|
  {
    if frames == [] then Plan([], [])
    else
      var before := PlanOf(ahead, frames[..|frames| - 1]);
      var frame := frames[|frames| - 1];
      var slot := SlotOf(ahead, frame, |before.late|);
      Plan(before.slots + [slot], if slot.source == Fresh then before.late + [frame] else before.late)
  }

  lemma {:induction false} PlanGrows(ahead: FramesAhead, frames: seq<Frame>, i: nat)
    requires i <= |frames|
    ensures PlanOf(ahead, frames[..i]).late <= PlanOf(ahead, frames).late
    ensures PlanOf(ahead, frames[..i]).slots <= PlanOf(ahead, frames).slots
    decreases |frames|
  {
    if i < |frames| {
      PlanGrows(ahead, frames[..|frames| - 1], i);
      assert frames[..|frames| - 1][..i] == frames[..i];
    } else {
      assert frames[..i] == frames;
    }
  }

  function PlannedFrames(ahead: FramesAhead, frames: seq<Frame>, source: Source): seq<Frame> {
    match source
    case Natural => ahead.natural
    case Extra => ahead.extra
    case Tail => ahead.tail
    case Fresh => PlanOf(ahead, frames).late
  }

  /** A slot names a place that holds the very frame it stands for. */
  lemma {:induction false} PlanIsSound(ahead: FramesAhead, frames: seq<Frame>, i: nat)
    requires i < |frames|
    ensures var slot := PlanOf(ahead, frames).slots[i];
      slot.number < |PlannedFrames(ahead, frames, slot.source)| && PlannedFrames(ahead, frames, slot.source)[slot.number] == frames[i]
    decreases |frames|
  {
    var last := |frames| - 1;
    if i < last {
      PlanIsSound(ahead, frames[..last], i);
      PlanGrows(ahead, frames, last);
    }
  }
}
