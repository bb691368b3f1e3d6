# KeySwitch training and evaluation tools, verified

A model in Dafny of the algorithmic cores of KeySwitch's training and evaluation tools, with proofs of what those
tools promise. `dafny verify dfyconfig.toml` checks all of it.

- **The fit pipeline** (`Fit*.dfy`, `FeatureStore.dfy`): tasks that finish in any order, a build that joins curricula,
  span frames and feature chunks, and a vocabulary in order of arrival. `FitPlan` says what a serial fit computes,
  `FitState` what each callback does, by the names of features; `FitInvariant` to `FitOnce` prove that every run ends
  with the serial columns, each key assembled once, `FitIds` that the ids in use read back as those names in every state,
  so that order changes only ids. `FitContents` says which frames those columns hold. `FitBuild` and `FitRun` prove that the objects, with one vocabulary and a store per
  profile, and the scheduler's loop do what the specification says for every delay.
- **The sparse matrices and their optimizer** (`RowLayout`, `PackedRows`, `Packing*`, `Gather`, `FrameChunks`,
  `FeatureDictionary`, `Optimizer*`, `TrainableFrames`): chunked packing against the simple builder, the in-place AdaGrad
  kernel and what it learns, and when frames may be dropped.
- **The n-gram inverse** (`Ngram*.dfy`): words spelled back from the values of their character n-grams, and
  why the tolerance tells any two words apart.
- **Leak-free partitions** (`Components`, `UnionFind`, `Phrase*`, `NamedUnion`, `Technical*`, `SplitShares`): three
  union-finds and the splits made from them.
- **The sealed-test ledger** (`AccessLedger`, `LedgerFiles`): processes that claim tests, interleaved and crashing anywhere.
- **The keyboard plan** (`PhysicalKeys`, `Sequence*`): texts as key presses over two layouts.
- **Scoring** (`PredictionReplay`, `UnknownTypos`, `TypoChoices`, `Lookahead*`, `EpochScores`, `EpochSelection`, `CandidateTally`,
  `LossChance`, `MessageFloors`, `ProbeTable`): parallel scoring, corpora, selection, significance and the device's hash table.

Reals stand for floats and digests are injective; dictionaries, detectors, features and hash orders are functions the
model is given. A method that changes state is proved against a function of the old state, and the properties are
proved about that function.

## Where the code differs from what is said of it

- `packed` sorts by `row * (len(column) + 1) + column`. Its stride is the number of the fit's names, but columns run over
  the model's: rows mix when two selected columns are farther apart (`PackingOrder.TooFarApart`). `StrideIsExact` gives
  the exact condition, `SmallVocabularyFits` the usual case.
- `trainable_frames` looks at the first action's accumulators alone. A feature frozen for that action and not for another
  is dropped although it would have been learned (`TrainableFrames.DroppedFrameMatters`); `DroppingIsExact` says when it is exact.
- The cap on an n-gram's value breaks the bound the search relies on from 70 letters on
  (`NgramSpelling.SeventyLettersAreLost`). The bounds in use are lower.
- A plan for an empty text leaves the editor in its first layout even if the row's group is the second
  (`SequencePlan.EmptyRowKeepsTheFirstLayout`).
- A process that dies inside the ledger's section leaves the lock for good (`AccessLedger.Protocol.StaleLockBlocks`): the
  ledger stays safe, and closed. `StaleExactly` says when: exactly after such a crash, or with a lock there from the
  start; any other lock has an owner that can remove it (`LedgerFiles.HeldLockIsReleased`).
- `tally` counts a class named like the key of all frames twice; `CandidateTally.TallyIsSelection` is exact about it.

## Model

| member | source | states |
|---|---|---|
| `FitPlan.PlanIsSound` | tools/context_action_pipeline.py:946-970 | Whatever was featurised ahead and however identifiers repeat, each slot of a plan names a place holding the very frame it stands for. |
| `FitPlan.Inputs.SlotReads` | tools/context_action_pipeline.py:971-1000 | The row at a slot's place in its chunk is the features of that final frame. |
| `FitPlan.Inputs.SlotSplitIsOwn` | tools/context_action_pipeline.py:971-998 | Frames of the shared curricula, featurised as TRAIN, are only ever read for a TRAIN key. |
| `FitBuild.IdentifiersOf` | tools/context_action_pipeline.py:948-951 | The dictionary of identifiers keeps the last frame with each one. |
| `FitBuild.Place` | tools/context_action_pipeline.py:955-967 | A frame counts as featurised ahead exactly when the frame kept for its identifier equals it in every field. |
| `FitBuild.PlanFrames` | tools/context_action_pipeline.py:946-970 | The loop over the final frames makes the plan and the list of fresh frames that the specification does. |
| `FitInvariant.ChunkRequestsCover` | tools/context_action_pipeline.py:844-845 | The loop over starts adds the task of every chunk, each with its own frames. |
| `FitSteps.StartHolds` | tools/context_action_pipeline.py:807-846 | The state and tasks a run starts from satisfy the fit's invariant, whichever of TRAIN, a frozen base or heads is in play. |
| `FitSteps.ExtraIsSerial` | tools/context_action_pipeline.py:901-912 | Once all curricula are in, their joined rows are in the serial order, whatever order they came in. |
| `FitSteps.CurriculumKeeps` | tools/context_action_pipeline.py:881-921 | A curriculum's callback keeps the invariant; the last one to come adds each TRAIN chain, once. |
| `FitKeys.StoredIsFinal` | tools/context_action_pipeline.py:983-1000 | A row read out of the store for a ready key is the features of the final frame. |
| `FitKeys.AssembleColumns` | tools/context_action_pipeline.py:994-1007 | Assembled keys have the serial fit's columns, others keep theirs, and a rejection is one the serial fit makes too. |
| `FitKeys.ChunkKeeps` | tools/context_action_pipeline.py:983-1007 | A chunk's callback keeps the invariant, or stops on frames the serial fit rejects. |
| `FitFrames.FramesKeep` | tools/context_action_pipeline.py:923-979 | A chain's or span curriculum's callback keeps the invariant, or stops on frames the serial fit rejects. |
| `FitRuns.FinishKeeps` | tools/context_action_pipeline.py:881-1007 | Whichever running task finishes next, its callback keeps the invariant or stops rightly. |
| `FitRuns.EveryStateHolds` | tools/context_action_pipeline.py:246-276 | In every state of every run at most `capacity` tasks run, each started task is running or has called back, once, and the invariant holds. |
| `FitOutcome.NeededReleased` | tools/context_action_pipeline.py:971-979 | Every chunk a planned key waits for has had its task added: nothing waits for what never comes. |
| `FitOutcome.EveryRunIsSerial` | tools/context_action_pipeline.py:846-853 | A run that drains has the serial columns for every key, so the error for missing keys cannot be raised; a run stops early only where the serial fit rejects. |
| `FitOutcome.NeverStuck` | tools/context_action_pipeline.py:269-276 | Until it is over a run can go on, and any running task may be the next to finish. |
| `FitOutcome.EveryMoveIsCloser` | tools/context_action_pipeline.py:269-276 | Every move decreases a bounded measure: every run ends. |
| `FitOutcome.EveryTaskIsAddedOnce` | tools/context_action_pipeline.py:807-929 | No curriculum, chain or span task is added twice nor one the fit lacks; TRAIN chains only after the five curricula; a drained run has added each exactly once. |
| `FitOnce.EveryChunkIsAddedOnce` | tools/context_action_pipeline.py:839-846 | No feature task is added twice: in every state the task of each chunk whose frames are there has been added once, and no other. |
| `FitOnce.ColumnsStay` | tools/context_action_pipeline.py:994-1007 | In every run a key's columns, once there, stay as they were made. |
| `FitOnce.EveryKeyIsAssembledOnce` | tools/context_action_pipeline.py:988-1007 | Each key that has columns was assembled by exactly one move of the run. |
| `FitOnce.StoresAreKeptWhileNeeded` | tools/context_action_pipeline.py:1006-1007 | In every state of every run, while a key of a profile lacks columns, the profile's store has every chunk that came, with its frames' features. |
| `FitBuild.Scheduler.Add` | tools/context_action_pipeline.py:257-267 | A task is queued with the next sequence number and nothing else changes. |
| `FitBuild.Scheduler.StartLeast` | tools/context_action_pipeline.py:269-272 | The entry started is the least by priority and sequence number. |
| `FitRuns.LeastIsMostUrgent` | tools/context_action_pipeline.py:239-267 | The task started is of the most urgent priority pending, and of those the first added. |
| `FitBuild.Build.CapturedInOrder` | tools/context_action_pipeline.py:908 | The captured rows come in the order of their sources. |
| `FitBuild.Build.ExtraReady` | tools/context_action_pipeline.py:901-921 | The object's state and queue change as the specification of `extra_ready` says. |
| `FitBuild.Build.MakePlan` | tools/context_action_pipeline.py:931-969 | The frames, plan and fresh frames made from the fields are those of the specification; `FitContents.FinalFramesAre` says which frames these are. |
| `FitBuild.Build.PlanTheKey` | tools/context_action_pipeline.py:934-977 | Planning a key changes the state and adds the tasks as specified. |
| `FitBuild.Build.FramesReady` | tools/context_action_pipeline.py:931-979 | `frames_ready` as specified: waits, plans, and assembles at once if nothing is missing. |
| `FitBuild.Build.AssembleKey` | tools/context_action_pipeline.py:994-1007 | One key assembled from the fields, the store dropped or kept, or the fit rejected exactly if a check fails; the ids go on reading back. |
| `FitBuild.Build.StoreRows` | tools/context_action_pipeline.py:983-987 | A chunk joins its own profile's store under ids of the one vocabulary; every store and all columns, other profiles' too, still read back. |
| `FitBuild.Build.FeaturesDone` | tools/context_action_pipeline.py:983-992 | A feature task's result comes in: by name the state changes as specified, and the ids read back as it. |
| `FitBuild.Build.DiscardFor` | tools/context_action_pipeline.py:988-992 | One turn of the loop over the keys is one step of the specification. |
| `FitBuild.Build.ChunkDone` | tools/context_action_pipeline.py:983-992 | Going through the missing keys in any order ends in the state the specification gives for all at once. |
| `FitBuild.OneAfterOthers` | tools/context_action_pipeline.py:988-1007 | Assembling keys one after another and assembling them together are the same. |
| `FitBuild.Build.Prepare` | tools/context_action_pipeline.py:807-845 | What is done before the scheduler starts gives the first state and its tasks. |
| `FitBuild.Build.CurriculumDone` | tools/context_action_pipeline.py:881-899 | The five curricula callbacks as specified. |
| `FitBuild.Build.ChainDone` | tools/context_action_pipeline.py:923-925 | The chain callback as specified. |
| `FitBuild.Build.SpansDone` | tools/context_action_pipeline.py:927-929 | The span callback as specified. |
| `FitBuild.Build.Finished` | tools/context_action_pipeline.py:258-266 | A finished task's result goes to its own callback. |
| `FitRun.Fill` | tools/context_action_pipeline.py:271-272 | Tasks are started, least first, until the capacity is full or none is pending. |
| `FitRun.Poll` | tools/context_action_pipeline.py:273 | One pass lets every ready task call back, keeps the others in order, and makes progress if any was ready. |
| `FitRun.Turn` | tools/context_action_pipeline.py:269-276 | One turn of the scheduler's loop keeps the invariant and comes closer to the end. |
| `FitRun.Run` | tools/context_action_pipeline.py:807-853 | For every delay of every task the loop ends: every key's columns are the serial ones and hold, in the order prepared, exactly the frames to train on, of a heads fit's TRAIN those that ask a head's question, each with its features, action and importance; or it stopped, and some such frame has an importance or a TRAIN weight that is not positive. |
| `FitRun.RunTwice` | tools/context_action_pipeline.py:807-853 | Two fits with any capacities and delays end with the same columns but for ids, which name the same features. |
| `FitContents.FinalFramesAre` | tools/context_action_pipeline.py:936-942 | The final frames are the prepared ones at rising places, all of them unless heads are fitted on TRAIN, and then exactly those that ask a head's question. |
| `FitContents.FinalFramesCount` | tools/context_action_pipeline.py:936-942 | Each prepared frame that is wanted is trained on as often as it was prepared, any other never. |
| `FitContents.SerialHoldsWanted` | tools/context_action_pipeline.py:518-535 | Columns that read back as the serial ones hold each wanted frame with its features, action, weight and importance, the keep factor on keep frames alone. |
| `FitContents.EveryRunHoldsWanted` | tools/context_action_pipeline.py:923-1007 | In every run that drains each key's columns hold the wanted frames, whatever order its tasks finished in. |
| `FitContents.StopsExactly` | tools/context_action_pipeline.py:537-545 | The serial fit rejects some key if and only if a wanted frame of one has an importance that is not positive, or on TRAIN such a weight. |
| `FeatureStore.FeaturesTask` | tools/context_action_pipeline.py:479-505 | A chunk reads back, through its own names, as the features of its frames, evidence shared or not. |
| `FeatureStore.Vocabulary.Ids` | tools/context_action_pipeline.py:700-715 | Ids name what was asked for; known names keep theirs and new ones are appended. |
| `FeatureStore.ProfileStore.Add` | tools/context_action_pipeline.py:728-736 | A chunk joins the store's rows under global ids that name what its own names say; the vocabulary only grows. |
| `FeatureStore.ProfileStore.Row` | tools/context_action_pipeline.py:738-740 | The row of a frame is its chunk's first row and its offset in the chunk. |
| `FeatureStore.ProfileStore.Gather` | tools/context_action_pipeline.py:742-748 | Gathered rows read back as the rows asked for, in that order. |
| `FeatureStore.AssembleIds` | tools/context_action_pipeline.py:994-1004 | Columns taken from a store are the rows of the plan's slots, in their order, as they read back through the vocabulary. |
| `FitIds.EveryStateReads` | tools/context_action_pipeline.py:700-748 | In every state of every run every profile's store and all columns read back through the one vocabulary as what the fit sees by name, whatever came first. |
| `FitIds.EveryRunReadsBack` | tools/context_action_pipeline.py:994-1007 | When a run drains, every key's ids read back as the features of its final frames, in their final order. |
| `FitIds.OrderChangesOnlyIds` | tools/context_action_pipeline.py:700-748 | Two drained runs of the same inputs, their tasks finishing in any orders: each key has the same counts, values, labels, importance and weights, and ids that name the same features. |
| `Gather.HostGathersRanges` | tools/context_action_pipeline.py:510-514 | The host gather lists the row ranges back to back, empty rows included. |
| `Gather.SearchSortedRight` | tools/context_action_cuda.py:1076 | The binary search splits rising values at the last one not above the position. |
| `Gather.GatherOnDevice` | tools/context_action_cuda.py:1069-1077 | The device gather lists the same ranges, so it equals the host gather. |
| `Gather.GatherReadsRows` | tools/context_action_pipeline.py:742-748 | Reading a flat list at the gathered positions gives exactly the rows asked for. |
| `FrameChunks.Chunks.Add` | tools/context_action_cuda.py:834-838 | The chunk's records are appended. |
| `FrameChunks.Chunks.InOrder` | tools/context_action_cuda.py:840-851 | Refused unless each of `count` frames came exactly once; else the records in frame order. |
| `FrameChunks.ArgSortIsSort` | tools/context_action_cuda.py:847-851 | Reading rows at the stable argsort of their frames is sorting the records. |
| `FrameChunks.ArrivalOrderIsForgotten` | tools/context_action_cuda.py:824-851 | Chunks added in any order give the same frames, counts, ids and values. |
| `FeatureDictionary.Dictionary.Add` | tools/context_action_cuda.py:713-726 | Refused exactly on a repeated name, or else a shared first hash; otherwise the names and hashes are appended and the sorted lists still tell each hash's name. |
| `FeatureDictionary.Dictionary.Lookup` | tools/context_action_cuda.py:728-732 | A hash is known exactly if some name has it, and the place found holds that name's id and second hash. |
| `FeatureDictionary.NeighboursTell` | tools/context_action_cuda.py:725-726 | Comparing neighbours of the sorted hashes tells whether any two are shared. |
| `PackedRows.Build` | tools/context_optimizer.py:32-47 | Refused exactly when a row's target or importance is invalid; else the packing of the known features. |
| `PackedRows.RowsOfPack` | tools/context_optimizer.py:24-47 | The packed matrix reads back as its rows. |
| `PackedRows.PackOfRows` | tools/context_optimizer.py:24-47 | Every valid matrix is the packing of the rows it reads back as. |
| `Packing.MaskIsSelection` | tools/context_action_pipeline.py:583-587 | A chunk's mask keeps exactly the selected entries of its rows, each with its row. |
| `Packing.PackChunk` | tools/context_action_pipeline.py:580-594 | One chunk yields its rows' counts and its entries as the sort leaves them. |
| `Packing.PackPart` | tools/context_action_pipeline.py:576-597 | A part's chunks yield its offsets and entries one after another. |
| `Packing.PackColumns` | tools/context_action_pipeline.py:567-598 | `packed` is its specification over all parts. |
| `PackingNames.ColumnMap` | tools/context_action_pipeline.py:684-694 | The column of each global id is its place in the model's names, or -1. |
| `PackingOrder.SortTagged` | tools/context_action_pipeline.py:588-591 | If columns lie within one stride, the one sort over a chunk sorts its rows one by one. |
| `PackingOrder.PackedInColumnOrder` | tools/context_action_pipeline.py:567-598 | Then `packed` writes each row in column order, whatever the chunk size and the order within rows. |
| `PackingNames.PackedIsBuilt` | tools/context_action_pipeline.py:567-598 | Then the matrix equals `Packed.build` of the same frames with features listed in column order, whatever order they arrive in. |
| `PackingOrder.StrideIsExact` | tools/context_action_pipeline.py:589 | `packed` agrees with the builder on every frame set if and only if any two selected columns are at most `len(column) + 1` apart. |
| `PackingOrder.TooFarApart` | tools/context_action_pipeline.py:588-591 | Two columns farther apart: one frame set on which a row's entry lands in the next row. |
| `PackingNames.SmallVocabularyFits` | tools/context_action_pipeline.py:684-694 | A model with at most two names more than the fit always satisfies the condition. |
| `Optimizer.Probabilities` | tools/context_optimizer.c:5-16 | The in-place scores, exponents and division leave the softmax of the row's scores. |
| `Optimizer.ContextEpoch` | tools/context_optimizer.c:18-34 | The in-place nested loops leave the weights and accumulators of the epoch over the packed rows; which way these move, `OptimizerStep` says. |
| `Optimizer.SoftmaxIsPositive` | tools/context_optimizer.py:50-63 | Every action keeps a positive probability. |
| `OptimizerStep.SoftmaxSumsToOne` | tools/context_optimizer.py:50-63 | The four probabilities sum to one. |
| `OptimizerStep.SoftmaxRatio` | tools/context_optimizer.py:50-63 | Two probabilities are in the ratio of the exponential of their scores' difference. |
| `OptimizerStep.EpochIsRowStep` | tools/context_optimizer.c:18-34 | One epoch over one row moves exactly the cells of its columns, each once, by the probabilities before: the accumulator grows by the gradient's square, then the weight falls by the rate times the gradient over the new accumulator's root. |
| `OptimizerStep.WeightsMoveAgainst` | tools/context_optimizer.c:26-31 | Each weight that is not frozen moves against the sign of its probability, less one for the right action, times the entry's value. |
| `OptimizerStep.WeightsMoveToTheAnswer` | tools/context_optimizer.c:26-31 | A positive entry's weight rises for the right action and falls for every other, and a negative entry's the other way. |
| `OptimizerStep.AnswerScoresMore` | tools/context_optimizer.c:18-34 | With nothing frozen no other action's score rises, and the right one's does if some value of the row is not zero. |
| `OptimizerStep.RowIsLearned` | tools/context_optimizer.py:65-84 | So training on a row makes its right action more likely. |
| `OptimizerStep.TrainOnRow` | tools/context_optimizer.c:18-34 | The kernel over a matrix of one row leaves each weight that is not frozen and has a value nearer the row's answer. |
| `TrainableFrames.TrainableIsKeptRows` | tools/context_action_pipeline.py:601-622 | The masks and running totals build exactly the matrix of the kept rows, in order. |
| `TrainableFrames.FrozenWeightsNeverMove` | tools/context_optimizer.c:26-31 | In any number of epochs a weight whose accumulator is infinite never moves, and stays infinite. |
| `TrainableFrames.KeptFramesSuffice` | tools/context_action_pipeline.py:601-622 | If features are frozen for all actions or none, any number of epochs over the kept frames ends with the same weights and accumulators. |
| `TrainableFrames.DroppedFrameMatters` | tools/context_action_pipeline.py:613-615 | Otherwise a frame is dropped that one epoch would have learned from. |
| `TrainableFrames.DroppingIsExact` | tools/context_action_pipeline.py:601-622 | Dropping changes no fit if and only if every feature whose first accumulator is infinite has all of them infinite. |
| `NgramFeatures.Characters` | src/keyswitch/context_action_features.py:140-151 | The loops add a word's n-grams, each value capped. |
| `NgramFeatures.FrameValue` | src/keyswitch/context_action_features.py:140-151 | A frame's value of an n-gram is what its words give it together, up to the cap. |
| `NgramFeatures.CountsAddUp` | tools/compare_context_candidates.py:112-115 | The occurrences of an order's n-grams sum to one step per position. |
| `NgramFeatures.SharesSum` | tools/compare_context_candidates.py:112-115 | The shares a word gives the n-grams of an order sum to sqrt(c). |
| `NgramAllowance.OneWordExact` | tools/compare_context_candidates.py:112-121 | For one word of at most 64 n-grams of an order, value times order sum is exactly how often it holds the n-gram. |
| `NgramAllowance.AllowanceSuffices` | tools/compare_context_candidates.py:112-121 | For any words, value times order sum allows each n-gram at least as often as a word of at most 69 letters holds it, cap included. |
| `NgramSearch.CandidateWords` | tools/compare_context_candidates.py:108-146 | The list is ascending and holds exactly the words the allowance admits. |
| `NgramSearch.Search.Extend` | tools/compare_context_candidates.py:130-139 | The recursive search restores `used` and finds exactly the admissible words that continue the beginning. |
| `NgramSearch.OneGramWord` | tools/compare_context_candidates.py:126-127 | An n-gram is one padded word exactly if it begins and ends like one. |
| `NgramSearch.CandidateExactly` | tools/compare_context_candidates.py:108-146 | What being found means: one n-gram of the frame, or short enough with all its widest n-grams allowed as often as it holds them. |
| `NgramSearch.CandidateListIsUnique` | tools/compare_context_candidates.py:140-146 | The ascending list of the words found is the only one, in whatever order they were found. |
| `NgramSpelling.Spelled` | tools/compare_context_candidates.py:149-165 | The words returned are the fewest candidates whose values are the frame's; None exactly when none are found; and for the frame of one plain word it is one word, in which every n-gram occurs exactly as often as in that word. |
| `NgramTelling.MatchIsSame` | tools/compare_context_candidates.py:149-165 | Two words of at most 62 letters with values within the comparison's tolerance have the same length and each n-gram equally often: the tolerance never confuses two words. |
| `NgramTelling.CountIsOccurrences` | tools/compare_context_candidates.py:112-115 | The count of an n-gram is the number of places where it stands. |
| `NgramTelling.CandidateIsBounded` | tools/compare_context_candidates.py:130-139 | No candidate is longer than the bound. |
| `NgramSpelling.EveryWordIsFound` | tools/compare_context_candidates.py:108-146 | Every plain word of a frame, at most `longest` and 69 letters long, is a candidate whatever the other words are. |
| `NgramSpelling.FrameIsSpelled` | tools/compare_context_candidates.py:149-165 | So words within the bounds are spelled back from their n-grams. |
| `NgramSpelling.SeventyLettersAreLost` | tools/compare_context_candidates.py:121 | Seventy equal letters are not found: their inside n-gram occurs 67 times and is allowed 66. |
| `NgramSpelling.FramesAreRestoredExactlyUpTo69` | tools/compare_context_candidates.py:108-165 | For a length bound, every word of every frame is found if and only if the bound is at most 69. |
| `UnionFind.Groups.Root` | tools/context_corpus.py:133-137 | Path halving ends at the root and changes nobody's root. |
| `UnionFind.Groups.Merge` | tools/context_corpus.py:139-142 | Merging gives both groups the smaller root and no other group another. |
| `Components.RepresentativesAreExact` | tools/context_corpus.py:131-161 | Representatives that agree along edges and are reached by walks tell the transitive closure exactly. |
| `PhraseSignatures.JoinIsInjective` | tools/context_corpus.py:155 | Joining words by the separator loses nothing, so equal keys mean equal variants. |
| `PhraseGroups.TakeSignature` | tools/context_corpus.py:155-159 | One signature's merge keeps every root inside its component and ties the phrase to the signature's first owner. |
| `PhraseGroups.Unite` | tools/context_corpus.py:144-159 | After all signatures each root is the smallest phrase connected to the index. |
| `PhraseAssignment.Assign` | tools/context_corpus.py:125-177 | Refused exactly if the cap is not positive; else the specified assignment, sorted; which phrases are grouped, kept and where, `PhraseNeighbours` says on their words. |
| `PhraseAssignment.GroupsAreComponents` | tools/context_corpus.py:131-162 | Two phrases share a group if and only if they are connected by shared signatures. |
| `PhraseAssignment.NearDuplicatesStayTogether` | tools/context_corpus.py:147-176 | Assigned phrases with a common signature have one group and one split; `PhraseNeighbours.SharedSignatureIsNear` says on their words when two have one. |
| `PhraseAssignment.ConnectedStayTogether` | tools/context_corpus.py:160-176 | So have assigned phrases connected by any chain of signatures. |
| `PhraseAssignment.EachGroupIsCapped` | tools/context_corpus.py:173-176 | Each group keeps exactly its cap of phrases, or all if it has no more. |
| `PhraseAssignment.InputOrderIsForgotten` | tools/context_corpus.py:125-177 | The assignment does not depend on the order of the phrases. |
| `PhraseNeighbours.SharedSignatureIsNear` | tools/context_corpus.py:147-159 | Two phrases share a signature if and only if their words are equal once one word, or none, is left out of each that has 4 to 40. |
| `PhraseNeighbours.GroupsAreNearChains` | tools/context_corpus.py:144-162 | Two phrases are of one group if and only if a chain of such near duplicates leads from one to the other. |
| `PhraseNeighbours.ChangedWordStays` | tools/context_corpus.py:147-176 | Assigned phrases of 4 to 40 words that differ in one word have one group and one split. |
| `PhraseNeighbours.LeftOutWordStays` | tools/context_corpus.py:147-176 | So have a phrase of 4 to 40 words and the same with one word left out. |
| `PhraseNeighbours.GroupIsNamedByLeast` | tools/context_corpus.py:165-166 | A group's name is at most the identifier of each phrase assigned to it and of each near duplicate of that, kept or not. |
| `PhraseNeighbours.KeptAreLeast` | tools/context_corpus.py:173-175 | Of a group's phrases those with the least sample hashes are kept. |
| `PhraseNeighbours.UsableAreAssigned` | tools/context_corpus.py:128-130 | Only phrases of 4 to 512 characters and two words at least, without NUL, are assigned, and with a cap no smaller than the number of phrases every one is. |
| `PhraseNeighbours.SplitsAreShares` | tools/context_corpus.py:167-171 | Of a hundred buckets sixty go to train, and ten each to development, calibration, test and reserve. |
| `PhraseNeighbours.AssignedInOrder` | tools/context_corpus.py:177 | The assigned phrases come in the order of their identifiers. |
| `NamedUnion.Union.Find` | tools/freeze_context_action_corpus.py:143-151 | Finding compresses the path and returns the root; nobody's root changes. |
| `NamedUnion.Union.Join` | tools/freeze_context_action_corpus.py:153-156 | Joining merges exactly the two components. |
| `NamedUnion.SameRootIffConnected` | tools/freeze_context_action_corpus.py:139-156 | Two names have one root if and only if joined pairs connect them. |
| `TechnicalPartition.Families` | tools/context_technical_corpus.py:109-117 | Commands have one family if and only if shared aliases connect them. |
| `TechnicalPartition.Documents` | tools/context_technical_corpus.py:120-128 | Commands have one document if and only if shared packages connect their families, a package being what follows an owner's last slash. |
| `TechnicalPartition.PackageOfPath` | tools/context_technical_corpus.py:117-123 | The package of a section, a slash and a name without a slash is the name. |
| `TechnicalPartition.PackageOfName` | tools/context_technical_corpus.py:123 | The package of a name without a slash is the name. |
| `TechnicalPartition.PackageExactly` | tools/context_technical_corpus.py:123 | A name is an owner's package if and only if it has no slash and is the owner or follows a section and a slash in it. |
| `TechnicalRows.PartitionCommands` | tools/context_technical_corpus.py:105-166 | Refused exactly on a repeated name or a command without owners; else one row per command in name order, and never the leakage error. |
| `TechnicalRows.SplitsShareNothing` | tools/context_technical_corpus.py:152-166 | Active rows in different splits share no alias, no family, no document, and no two owners that are or end, after a slash, in the same name. |
| `TechnicalComponents.FamiliesAreAliasComponents` | tools/context_technical_corpus.py:109-117 | Two commands are of one family if and only if a chain of commands leads from one to the other, each sharing an alias with the next. |
| `TechnicalComponents.DocumentsAreJointComponents` | tools/context_technical_corpus.py:120-128 | Two commands are of one document if and only if such a chain shares, at each step, an alias or owners that end in the same name: families first and packages then is both at once. |
| `TechnicalComponents.ChainsStayInASplit` | tools/context_technical_corpus.py:134-142 | Active commands that such a chain joins are in one split. |
| `TechnicalComponents.ReservedByChain` | tools/context_technical_corpus.py:118-142 | A command is marked as reserved if and only if a chain of shared aliases leads to one with a reserved alias. |
| `TechnicalComponents.ActiveExactly` | tools/context_technical_corpus.py:129-139 | A command is active if and only if no chain of aliases leads to a reserved one and it is among those kept of its family; then its split is its document's by its bucket. |
| `TechnicalComponents.KeptAreLeast` | tools/context_technical_corpus.py:126-130 | Of a family's commands those with the least sample hashes are kept. |
| `TechnicalComponents.KeptCount` | tools/context_technical_corpus.py:129-130 | A family keeps two of its commands, or its only one. |
| `TechnicalComponents.SplitsAreShares` | tools/context_technical_corpus.py:139 | Of a hundred buckets seventy go to train, and ten each to development, calibration and test. |
| `TechnicalRows.FamiliesAreCapped` | tools/context_technical_corpus.py:129-142 | No family has more active rows than the cap. |
| `TechnicalRows.CheckLeakage` | tools/context_technical_corpus.py:152-166 | The check finds a leak if and only if two active splits share an alias or a package, or an active row has a reserved alias. |
| `TechnicalRows.NothingLeaks` | tools/context_technical_corpus.py:159-166 | So it never fires on a partition. |
| `TechnicalRows.FamilyRecords` | tools/context_technical_corpus.py:310-325 | Refused exactly when a family's active rows are in two splits; else each active family with its split. |
| `TechnicalRows.PartitionFamilies` | tools/context_technical_corpus.py:310-325 | On partitioned commands neither the leakage error nor that of a family in two splits is ever raised; only invalid commands are refused. |
| `LedgerFiles.Ledger.ImmutableRecord` | tools/evaluate_context_action_sequences.py:277-295 | A new record is created; an existing one is only compared, and refused if it differs. |
| `LedgerFiles.Ledger.ClaimTestAccess` | tools/evaluate_context_action_sequences.py:341-362 | Refused when locked or overlapping another record; else the record is linked or found equal; the lock is left as it was. |
| `LedgerFiles.ClaimAlone` | tools/evaluate_context_action_sequences.py:341-362 | A process nobody interrupts takes protocol steps to exactly that outcome. |
| `AccessLedger.Protocol.StepKeeps` | tools/evaluate_context_action_sequences.py:341-362 | Every step of every process, a crash anywhere included, keeps the ledger's invariant. |
| `AccessLedger.Protocol.EveryWorldHolds` | tools/evaluate_context_action_sequences.py:341-362 | So it holds in every state of every interleaving. |
| `AccessLedger.Protocol.RecordsStay` | tools/evaluate_context_action_sequences.py:277-295 | What a record once says it says for ever. |
| `AccessLedger.Protocol.SameTestIsClaimedOnce` | tools/evaluate_context_action_sequences.py:335-358 | Records of one set of test rows are one record: a second digest for it is refused. |
| `AccessLedger.Protocol.ReadOnlyAfterClaim` | tools/evaluate_context_action_sequences.py:709-720 | Test rows are read only by a process whose claim is linked. |
| `AccessLedger.Protocol.ReadersAgreeOrAreApart` | tools/evaluate_context_action_sequences.py:341-362 | Of two processes that read test rows, either both are the same evaluation or their tests share no row, family or document. |
| `AccessLedger.Protocol.StaleLockBlocks` | tools/evaluate_context_action_sequences.py:345-361 | A lock whose creator crashed stays, and no record is ever added again. |
| `AccessLedger.Protocol.CrashInSectionIsStale` | tools/evaluate_context_action_sequences.py:345-361 | A crash between creating and removing the lock leaves such a lock. |
| `AccessLedger.Protocol.StaleExactly` | tools/evaluate_context_action_sequences.py:345-361 | In every state of every run the lock is stale if and only if it was there at the start or some process crashed between creating and removing it. |
| `LedgerFiles.HeldLockIsReleased` | tools/evaluate_context_action_sequences.py:345-361 | A lock that is not stale is held by a process whose own further steps remove it. |
| `PhysicalKeys.LayoutsAreABijection` | tools/context_physical_keys.py:21-28 | Two keys print one glyph in a layout if and only if they do in the other. |
| `PhysicalKeys.Translated` | tools/context_physical_keys.py:38-49 | Refused on a bad group or a glyph no key prints; else the other layout's glyphs. |
| `PhysicalKeys.TranslationIsItsOwnInverse` | tools/context_physical_keys.py:38-49 | Translating back across the layouts gives the text. |
| `PhysicalKeys.OtherIsAtItsPlace` | tools/context_physical_keys.py:21-28 | Reading a glyph in the other layout gives the glyph at its place in the other table. |
| `PhysicalKeys.OneWordInBoth` | tools/context_physical_keys.py:21-28 | The keys of "ghbdtn" type "привет". |
| `SequencePlan.CyrillicLetters` | tools/evaluate_context_action_sequences.py:365-370 | Every letter of the Russian alphabet, ё with it, is of the second group. |
| `SequencePlan.LatinLetters` | tools/evaluate_context_action_sequences.py:365-370 | Every letter of the English one is of the first. |
| `SequencePlan.NoLetters` | tools/evaluate_context_action_sequences.py:365-370 | Spaces, digits and punctuation are of neither. |
| `SequencePlan.TrimmedWindow` | tools/evaluate_context_action_sequences.py:373-384 | A window of 96 characters before or 64 after loses exactly the letters at its outer edge; another is kept whole. |
| `SequenceReplay.MakePlan` | tools/evaluate_context_action_sequences.py:402-444 | Refused exactly for a wrong plan without a layout or focus letter; else the specified plan of the trimmed windows. |
| `SequencePlan.CorrectPlanTypesItsText` | tools/evaluate_context_action_sequences.py:402-444 | With no unsupported glyph the correct plan has a key per character and types the expected text; it ends in the expected layout if and only if there is text to type or the first layout is the row's own. |
| `SequencePlan.EmptyRowKeepsTheFirstLayout` | tools/evaluate_context_action_sequences.py:411-444 | An empty row of the second group: the editor stays in the first layout. |
| `SequencePlan.FirstKeySwitches` | tools/evaluate_context_action_sequences.py:410-423 | The first key, unless the focus begins with it, switches to the layout of the first letter of either script, or else the row's own. |
| `SequenceSwitches.SwitchesExactly` | tools/evaluate_context_action_sequences.py:416-441 | A correct plan's key switches explicitly if and only if it is the first, the layout changes there, or the focus or its first letter of the script begins there. |
| `SequencePlan.WrongPlanDiffersOnce` | tools/evaluate_context_action_sequences.py:424-441 | The wrong plan has the correct plan's keys and differs only in the explicit switch of the intervention key, the key of the first letter of the focus in the row's script, which then prints another glyph. |
| `SequenceReplay.Replay` | tools/evaluate_context_action_sequences.py:550-570 | Without corrections the editor ends as playing the keys does; refused exactly for unsupported glyphs or an intervention that changes nothing. |
| `SequenceReplay.WrongLetterChanges` | tools/evaluate_context_action_sequences.py:555-561 | The error of an intervention that changes nothing is never raised for a plan of a row. |
| `SequenceReplay.WrongPlanTypes` | tools/evaluate_context_action_sequences.py:550-570 | The wrong plan types the other layout's glyphs from the intervention to the next explicit switch, and the text itself elsewhere. |
| `PredictionReplay.ContextInvariantModel.Predict` | tools/evaluate_intent_model.py:3215-3231 | The answer and the change of cache and hit counter are those of the specification. |
| `PredictionReplay.ContextInvariantModel.Replay` | tools/evaluate_intent_model.py:3233-3239 | Replaying a call changes the cache and counter as predicting it would. |
| `PredictionReplay.CallsAreCounted` | tools/evaluate_intent_model.py:3215-3239 | Every call is a hit or adds its question, and what is known stays: the model is asked each question at most once. |
| `PredictionReplay.RunDecision` | tools/evaluate_intent_model.py:3423-3467 | The recorded calls, replayed, leave the cache as running the decision did. |
| `PredictionReplay.DecisionIsItsOwn` | tools/evaluate_intent_model.py:3273-3298 | A row's decision and recorded calls do not depend on what earlier rows left in the cache. |
| `PredictionReplay.BalancedRanges` | tools/train_intent_model.py:4571-4584 | The ranges are contiguous, nonempty, cover the rows and differ by at most one in length. |
| `PredictionReplay.RunRows` | tools/evaluate_intent_model.py:3412-3468 | A worker's loop over its range scores rows as a sequential run does. |
| `PredictionReplay.ReplayAll` | tools/evaluate_intent_model.py:3554-3574 | The parent replays every row's calls in row order and returns the rows in order. |
| `PredictionReplay.ParallelIsSequential` | tools/evaluate_intent_model.py:3325-3356 | For every cover by contiguous ranges, every starting cache, and whichever forked worker takes each range when, the rows, the cache and the hit counter are a sequential run's. |
| `PredictionReplay.EvaluateRows` | tools/evaluate_intent_model.py:3527-3623 | Refused without a worker; else the whole evaluation, in one process or many, returns a sequential run's rows and leaves its cache and counter, which know exactly what was asked and counted every repetition. |
| `ProbeTable.FnvCodePoints` | tools/context_action_cuda.py:270-278 | Hashing all strings a column at a time gives each string's own 64-bit FNV-1a hash, wrapping. |
| `ProbeTable.LetterHash` | tools/context_action_cuda.py:270-278 | The hash of "a" is the one FNV-1a publishes. |
| `ProbeTable.CapacityFits` | tools/context_action_cuda.py:298 | The capacity is at least sixteen and at least twice the number of keys, so at most half the slots fill. |
| `ProbeTable.FreeSlot` | tools/context_action_cuda.py:305-309 | Fewer keys than slots leave a free slot, so probing ends. |
| `ProbeTable.Table.constructor` | tools/context_action_cuda.py:303-312 | Every key is stored once with its own index, and every slot from its home to its place is occupied. |
| `ProbeTable.Table.Insert` | tools/context_action_cuda.py:305-311 | One key's insertion keeps that. |
| `ProbeTable.MakeTable` | tools/context_action_cuda.py:289-296 | Repeated keys are refused, and only they. |
| `ProbeTable.Table.Find` | tools/context_action_kernels/core.cuh:110-125 | Linear probing finds a stored key's index, and nothing for any other string. |
| `UnknownTypos.ChooseVariant` | tools/evaluate_intent_model.py:2942-2976 | A word is chosen by its first variant that is not excluded, not used and unknown to both runtimes. |
| `UnknownTypos.ChooseGroup` | tools/evaluate_intent_model.py:2917-2978 | Words have their turns in rank order, each seeing what earlier ones used, until the group is full or words run out. |
| `UnknownTypos.BuildCorpus` | tools/evaluate_intent_model.py:2846-3035 | Refused exactly on a minimum below one, namespaces that are no bounded ASCII or the same, an empty sealed signature, or the wrong models or dictionaries; else both groups' choices in turn, all signatures distinct and none excluded, and their rows. |
| `UnknownTypos.RowsOfSignature` | tools/evaluate_intent_model.py:2981-3020 | The rows of a signature are one typo's two rows for each trigger. |
| `UnknownTypos.PhysicalSignatures` | tools/evaluate_intent_model.py:3038-3059 | Refused exactly unless the corpus has the shape; else the set of physical signatures. |
| `UnknownTypos.BuiltCorpusIsValid` | tools/evaluate_intent_model.py:3990-4008 | Both validators accept a built corpus if and only if it has a row, and find exactly the signatures chosen. |
| `UnknownTypos.HoldoutIsDisjoint` | tools/evaluate_intent_model.py:4443-4543 | A holdout built against sealed plus development signatures is disjoint from both. |
| `TypoChoices.RowsAreUnknown` | tools/evaluate_intent_model.py:2942-3012 | Every row of a corpus renders one typo in both layouts, is unknown and unprotected in both, and converts exactly if it was typed in the other layout than its own. |
| `TypoChoices.TurnsAreRanked` | tools/evaluate_intent_model.py:2917-2929 | The words that have turns are exactly the dictionary's that can be typed and the training lexicon lacks, by the rank of their key sequences. |
| `TypoChoices.FirstFreeGoesRound` | tools/evaluate_intent_model.py:2937-2976 | A word is chosen by the first free variant from where its hash points, going round. |
| `Lookahead.BuildCurriculum` | tools/context_lookahead_curriculum.py:131-253 | Refused exactly outside the budgets or on invalid members; else the frames of every seed, eligible or not, their mass, which totals the seeds', and no ambiguous planned frame. |
| `Lookahead.SeedMassIsKept` | tools/context_lookahead_curriculum.py:238-252 | Each seed keeps its original frame and gains at most one planned frame; the mass is divided evenly and sums to the seed's. |
| `Lookahead.MassIsConserved` | tools/context_lookahead_curriculum.py:237-253 | The reported mass sums to the mass of the seeds. |
| `Lookahead.SelectionIsBudgeted` | tools/context_lookahead_curriculum.py:191-201 | No more families than budgeted, no more seeds of a family than budgeted, and only eligible ones. |
| `Lookahead.PlannedFramesAreUnambiguous` | tools/context_lookahead_curriculum.py:234-242 | No planned frame of a curriculum has the fingerprint of a seed, or of any other frame of it, with another action. |
| `Lookahead.EmittedIsUnambiguous` | tools/context_lookahead_curriculum.py:230-242 | No planned frame has the fingerprint of a proposal of another label either, even of one that was dropped. |
| `LookaheadChoices.ProposalExactly` | tools/context_lookahead_curriculum.py:174-235 | A seed's proposal is that of the whole word of the other layout that ranks first for it, its own next word if it converts and has one; without such a word or the detector's verdict there is none. |
| `LookaheadChoices.SelectedExactly` | tools/context_lookahead_curriculum.py:185-201 | Only candidates typed on the keys of their alternative are selected, and within budgets as large as the seeds every one of them is. |
| `LookaheadChoices.MassIsByAction` | tools/context_lookahead_curriculum.py:237-252 | Under each origin and action stands the weight of the frames with them. |
| `EpochScores.Chosen` | tools/action_epoch_selection.py:74 | The action is the first with the greatest score. |
| `EpochScores.ScoresCountConversions` | tools/action_epoch_selection.py:64-75 | Scores collected at or above a threshold are as many as the rows that convert there. |
| `EpochScores.CountAtLeast` | tools/action_epoch_selection.py:83-84 | Length minus `bisect_left` of a sorted list counts the scores at or above the threshold. |
| `EpochSelection.AssessEpoch` | tools/action_epoch_selection.py:37-100 | Refused exactly on invalid inputs; else the highest-ranked threshold at which every profile's net reaches the floor, the only one, or None exactly when there is none. |
| `EpochSelection.WorstIsLeast` | tools/action_epoch_selection.py:88-97 | The worst net of a point is at most each profile's, and one profile's own. |
| `EpochSelection.PointIs` | tools/action_epoch_selection.py:92-97 | The pooled recall is the right conversions of all profiles over all their targets, and the net is right less false. |
| `EpochSelection.OutranksIsRank` | tools/action_epoch_selection.py:34 | Ranking is by worst net, net, pooled recall, least loss and least threshold, in that order. |
| `EpochSelection.NormalizedWithin` | tools/action_epoch_selection.py:71 | A row's probabilities must sum to one within a hundred-millionth. |
| `EpochSelection.RowWithin` | tools/action_epoch_selection.py:69 | A row is one of four labels and four probabilities between nothing and one. |
| `CandidateTally.Converted` | tools/compare_context_candidates.py:217-224 | The rows that convert are those the selection counts. |
| `CandidateTally.Tally` | tools/compare_context_candidates.py:227-238 | Refused unless the lists are of one length; else rows, targets, right and false conversions and their net, under all frames and under each class, each key there exactly if it has a row. |
| `CandidateTally.TallyIsSelection` | tools/compare_context_candidates.py:227-238 | The counts under all frames are those the selection takes by bisection, if and only if no class is named like all frames. |
| `CandidateTally.ClassesAddUp` | tools/compare_context_candidates.py:227-238 | Unless a class is named like all frames, the classes' counts of every kind add up to those of all frames. |
| `LossChance.LossChance` | tools/devchat_floors.py:37-42 | The loop computes the binomial tail exactly. |
| `LossChance.CombCountsOutcomes` | tools/devchat_floors.py:42 | The binomial coefficient counts the outcomes with exactly that many losses. |
| `LossChance.TailCountsOutcomes` | tools/devchat_floors.py:37-42 | The sum of the loop counts the outcomes with at least that many losses. |
| `LossChance.ChanceIsShare` | tools/devchat_floors.py:37-42 | The chance is the share of all outcomes, each as likely, that have at least so many losses. |
| `LossChance.NoLossIsCertain` | tools/devchat_floors.py:37-42 | Without losses the chance is 1. |
| `LossChance.ChancesComplement` | tools/devchat_floors.py:37-42 | With at least one loss, `loss_chance(l, g) + loss_chance(g + 1, l - 1)` is 1. |
| `LossChance.GainsRaise` | tools/devchat_floors.py:37-42 | An extra gain never lowers the chance, and raises it if there is a loss. |
| `LossChance.LossesLower` | tools/devchat_floors.py:37-42 | An extra loss always lowers it. |
| `MessageFloors.Count` | tools/evaluate_devchat_test.py:233-246 | Messages typed, typed right and failed, by mode; a skipped one counts nowhere. |
| `MessageFloors.Discordance` | tools/evaluate_devchat_test.py:249-258 | Refused exactly on a message the other pair lacks or an unknown mode; else each mode's gains and losses. |
| `MessageFloors.GainsLessLosses` | tools/evaluate_devchat_test.py:249-258 | On the same messages, in any order, gains less losses of a mode are the whole difference in what is typed right. |
| `MessageFloors.GainsNeverFailTheFloor` | tools/devchat_floors.py:54-57 | More gains and fewer losses in any mode never fail a floor F3 that held. |
| `MessageFloors.CountsOfTheFloor` | tools/devchat_floors.py:56-57 | The counts F3 compares hold if and only if gains make up for losses, over the restoring modes and, for as many messages typed, in the correct mode. |
| `MessageFloors.FourLossesAtMost` | tools/devchat_floors.py:55 | Without a gain F3 lets a mode lose four messages at most. |
| `MessageFloors.TypedExactly` | tools/devchat_floors.py:49-51 | Every message is typed if and only if no row of a mode of any pair is an error. |
| `MessageFloors.PassingBothFloors` | tools/devchat_floors.py:52-57 | A candidate that passes both floors on the released pair's messages: its gains make up for its losses, it nets no less than that pair, and restores more over the baseline than it corrupts over it. |

## Left out

- The GPU back end of the build (spot checks, splits featurised on the device) and the CUDA kernels, of which only the table lookup is modelled: the rest is foreign code.
- The executor, its processes and the poll's sleep: a task's delay is the poll at which its result is ready. A task that raises is not modelled; it ends the fit.
- What curricula, chains, spans and features compute: they are functions of their inputs, so reports and counts beside the rows are left out.
- Float rounding, exponentials and square roots: exact reals, and functions with the properties used; the tolerances of comparisons are kept.
- The names of n-gram features and their parsing (`character_grams`): a frame is a map from n-grams to values.
- Widths of stored integers (32-bit ids, 8-bit labels) other than the 64-bit hash: no value in the model reaches them.
- SHA-256, canonical JSON, gzip, provenance, manifests and summaries: records and digests are compared as values; splits and ranks chosen by a digest are arbitrary functions of its input.
- PhraseAssignment.Assign: a group is named by the identifier of its smallest phrase as a number, without the `tatoeba:` prefix.
- TechnicalRows.PartitionCommands: rows carry identifier, family, document, split and reasons; the constant columns of a row are left out, and aliases are given.
- LedgerFiles.Ledger.ImmutableRecord: the temporary file, its synchronisation and its removal are one step with the link.
- SequenceReplay.Replay: the engine's corrections and timers, the model under test and the caret's moves are left out; the editor types and switches only.
- PredictionReplay.RunDecision: a decision is any deterministic asker of at most a bounded number of predictions; features and context deltas are part of it.
- ProbeTable.Table.constructor: `& mask` is the remainder by the power-of-two capacity, and a slot holds its key's index in place of its hash, offset and length.
- UnknownTypos.BuildCorpus: provenance fields and the counts of rejected words are left out; the hashes under the two namespaces are given.
- Lookahead.BuildCurriculum: what makes a seed a candidate besides its key presses, the detector's verdict and the validity of profile and models are given; the report's counts are left out, and a frame does not carry its anchor's family or the next word as typed.
- MessageFloors.Count: the counts by mode and mix of languages beside those by mode.
- MessageFloors.PassingBothFloors: tables without one of the modes, which the receipt's validation refuses before the floors are computed, are not modelled.
- PredictionReplay.EvaluateRows: a worker's exception, and the checks that chunks and rows came back in order, which a pool's own order makes idle.
- EpochSelection.AssessEpoch: the report by profile and the smallest recall, which take no part in the rank; the loss is one number for the epoch.
- The gate conditions and schema validation of the evaluation tools, the command lines and the remaining scripts: long conjunctions and wrappers that would add only easy members.
