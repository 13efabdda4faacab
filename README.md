# A verified model of the CBBPS branch-prediction simulator

CBBPS runs branch-predictor simulations. A job is one predictor configuration run
against one benchmark trace; jobs run on local worker threads or are sent to remote
TCP servers, and their accuracies are collected into a predictor × benchmark result
matrix. This project models, in Dafny, the logic of that system once threads, sockets,
serialization, files and the user interface are abstracted away:

- **Result aggregation** (`results_dictionary.dfy`, `benchmark_statistics.dfy`,
  `gag_benchmark_statistics.dfy`): the key-to-index registry with its write-once slot
  matrix and fill counter, and the name-sorted statistics lists with their
  qualifying-entry means.
- **Run and session bookkeeping** (`predictor_info.dfy`, `simulation_session.dfy`,
  `simulation_options.dfy`, `simulator.dfy`): the predictor instance pool, the session
  counter, the options and their serialized form, and the predict/count/update loop.
- **Dispatch** (`protocol.dfy`, `simulator_proxy.dfy`, `connection_thread.dfy`): the wire
  messages as a datatype keyed by their tags, the client proxy and the server connection
  as transition functions and classes, every send an action that may fail.
- **Configuration** (`front_end.dfy`, `run_setup.dfy`, `predictor_enumeration.dfy`,
  `property_types.dfy`, `property_file.dfy`, `server_options.dfy`, `text.dfy`): the odometer
  enumeration of predictor configurations, the job queue, the comma-list property parsers,
  the server's `key=value` file and its port list.
- **Trace decoders** (`cbp2_reader.dfy`, `cbp2_reader_branch.dfy`, `spec2000_reader.dfy`,
  `stanford_reader.dfy`, `benchmark_info.dfy`): the CBP2 byte-record decoder with its
  return-address stack and LRU branch memory, the SPEC2000 4-byte records and the
  Stanford text lines, each over the decompressed bytes or lines of a trace.
- **Predictors** (`gag.dfy`, `gshare.dfy`, `lgshare.dfy`, `pag.dfy`, `pap.dfy`, `sip1.dfy`,
  `sip2.dfy`, `sip3.dfy`, `perceptron.dfy`, `piecewise.dfy`, `fpbnp.dfy`, `ogehl.dfy`,
  `tage.dfy`, `mtagesc.dfy`, `fixed_predictor.dfy`, with shared pieces in
  `pattern_tables.dfy`, `perceptron_learning.dfy`, `shifts.dfy`, `locations.dfy`): each
  predictor is a class whose tables are arrays updated in place; its contracts give the
  new tables in terms of the old ones, and the lemmas beside it state the ranges the
  counters keep, the bounds of every index and what `reset` restores.

`bits.dfy` and `words.dfy` model C#'s 32-bit integer operations (shifts that take their
count modulo 32, masks, `uint` wrap-around) on mathematical integers and `bv32`;
`wrappers.dfy` holds `Option` and `Result`; `branches.dfy` holds the branch records all
readers and predictors share.

The SPEC2000 reader looks a trace's file name up in a name table. As shipped, that table
is never initialised (PredictionLogic/Prediction/TraceFileInfo.cs
sets only the Stanford names), so every SPEC2000 open fails; the model takes the table as
a parameter, and with the table as shipped (`None`) it fails the same way.

## Model

| member | source | states |
|---|---|---|
| Sequences.DistinctIsDistinct | PredictionLogic/Prediction/PredictorPropertyTypes/PredictorInt32Property.cs:53-61 | the de-duplicated value list repeats no value, keeps the first occurrence of each and leaves a repetition-free list as it is |
| BenchmarkInfoModel.NewBenchmarkInfo | PredictionLogic/Prediction/BenchmarksAndReaders/BenchmarkInfo.cs:11-13 | the name is the one given at construction |
| BenchmarkInfoModel.EqualsIffSameName | PredictionLogic/Prediction/BenchmarksAndReaders/BenchmarkInfo.cs:15-22 | `Equals` holds exactly for a non-null benchmark with the same name |
| BenchmarkInfoModel.EqualsIsEquivalence | PredictionLogic/Prediction/BenchmarksAndReaders/BenchmarkInfo.cs:15-22 | `Equals` is reflexive, symmetric and transitive, as a dictionary key needs |
| BenchmarkInfoModel.EqualsImpliesEqualHash | PredictionLogic/Prediction/BenchmarksAndReaders/BenchmarkInfo.cs:24-26 | equal benchmarks have equal hash codes, whatever the string hash |
| FixedPrediction.FixedPredictor.constructor | PredictionLogic/Prediction/Predictors/FixedPredictor.cs:21-24 | the predictor keeps the direction it was given |
| FixedPrediction.FixedPredictor.PredictBranch | PredictionLogic/Prediction/Predictors/FixedPredictor.cs:26-29 | the prediction is the constructor's direction for every branch |
| FixedPrediction.FixedPredictor.Update | PredictionLogic/Prediction/Predictors/FixedPredictor.cs:31-33 | an update changes nothing |
| FixedPrediction.FixedPredictor.Reset | PredictionLogic/Prediction/Predictors/FixedPredictor.cs:35-37 | a reset changes nothing |
| FixedPrediction.PredictsAlike | PredictionLogic/Prediction/Predictors/FixedPredictor.cs:26-33 | two predictions with an update between them agree, whatever the branches |
| Locations.BranchIndex | PredictionLogic/Prediction/Predictors/Perceptron.cs:68 | the location `address % numberOfLocations` is below the number of locations |
| Locations.BranchIndexOfSmall | PredictionLogic/Prediction/Predictors/Perceptron.cs:68 | an address below the number of locations is its own location |
| Locations.BranchIndexPeriodic | PredictionLogic/Prediction/Predictors/Perceptron.cs:68 | addresses a multiple of the number of locations apart share a location |
| CBP2Branches.Make | PredictionLogic/Prediction/BenchmarksAndReaders/CBP2/CBP2ReaderBranch.cs:34-40 | the four-argument constructor keeps the fields given and a last use of 0, and equals a cleared branch exactly when all fields are zero |
| CBP2Branches.EqualReflexive | PredictionLogic/Prediction/BenchmarksAndReaders/CBP2/CBP2ReaderBranch.cs:42-45 | `equal` holds between a branch and itself, whatever its time of last use |
| CBP2Branches.EqualIgnoringTarget | PredictionLogic/Prediction/BenchmarksAndReaders/CBP2/CBP2ReaderBranch.cs:42-45 | ignoring the target weakens `equal` by exactly the target comparison |
| CBP2Branches.EqualSymmetric | PredictionLogic/Prediction/BenchmarksAndReaders/CBP2/CBP2ReaderBranch.cs:42-45 | `equal` is symmetric |
| Protocol.Tag | PredictionLogic/CommunicationProtocol/TrasmissionFlags.cs:8-15 | every well-formed message starts with one of the tags 1 to 6 |
| Shifts.ShiftIntoLast | PredictionLogic/Prediction/Predictors/Perceptron.cs:127-131 | the history loses its first value, every other value moves one place down and the new value goes last |
| Shifts.ShiftIntoFirst | PredictionLogic/Prediction/Predictors/FPBNP.cs:107-114 | the new value goes first, every other value moves one place up and the last one drops out |
| Shifts.ShiftIntoSecond | PredictionLogic/Prediction/Predictors/FPBNP.cs:116-123 | the first value stays, the new value goes second and the rest moves one place up, the last one dropping out |
| PerceptronLearning.Train | PredictionLogic/Prediction/Predictors/Perceptron.cs:92-105 | a training step moves a weight by at most one in the direction asked, and moves it exactly when it is not yet at that end of its range |
| PerceptronLearning.TrainInRange | PredictionLogic/Prediction/Predictors/Perceptron.cs:92-123 | a weight inside its range stays inside it after training |
| PerceptronLearning.TrainedTermToward | PredictionLogic/Prediction/Predictors/Perceptron.cs:108-123 | training a weight toward agreeing with its history bit never moves its term of the output away from the outcome, and moves it toward the outcome whenever the weight changes |
| PerceptronLearning.TrainedOutputToward | PredictionLogic/Prediction/Predictors/Perceptron.cs:108-123 | training every weight of a row moves the row's output for the same history toward the outcome, strictly when any weight changed |
| PerceptronLearning.BiasedOutputToward | PredictionLogic/Prediction/Predictors/Perceptron.cs:89-125 | the same holds for the output including the bias trained toward the outcome |
| SIP1Predictor.InertiaStep | PredictionLogic/Prediction/Predictors/SIP1.cs:42-58 | the state moves one step toward the outcome, and moves exactly when it is not yet at that end of `[-inertia, inertia - 1]` |
| SIP1Predictor.InertiaStepInRange | PredictionLogic/Prediction/Predictors/SIP1.cs:42-58 | the state stays in `[-inertia, inertia - 1]` |
| SIP1Predictor.InertiaStepReinforces | PredictionLogic/Prediction/Predictors/SIP1.cs:33-58 | after a correct prediction the update keeps the same prediction |
| SIP1Predictor.NotTakenRun | PredictionLogic/Prediction/Predictors/SIP1.cs:33-58 | from a state `s >= 0`, the prediction stays taken for exactly `s` not-taken outcomes in a row |
| SIP1Predictor.TakenRun | PredictionLogic/Prediction/Predictors/SIP1.cs:33-58 | from a state `s < 0`, exactly `-s` taken outcomes bring the prediction back to taken |
| SIP1Predictor.SIP1.constructor | PredictionLogic/Prediction/Predictors/SIP1.cs:25-29 | the predictor starts in state 0 with the inertia given |
| SIP1Predictor.SIP1.PredictBranch | PredictionLogic/Prediction/Predictors/SIP1.cs:33-40 | the prediction is taken exactly when the shared state is non-negative |
| SIP1Predictor.SIP1.Update | PredictionLogic/Prediction/Predictors/SIP1.cs:42-58 | the new state is the inertial step of the old one toward the outcome |
| SIP1Predictor.SIP1.Reset | PredictionLogic/Prediction/Predictors/SIP1.cs:60-63 | the state is 0 again |
| SIP2Predictor.SIP2.constructor | PredictionLogic/Prediction/Predictors/SIP2.cs:32-39 | one state per branch location, all 0 |
| SIP2Predictor.SIP2.PredictBranch | PredictionLogic/Prediction/Predictors/SIP2.cs:43-51 | selects location `address % numberOfBranchLocations` and predicts taken exactly when its state is non-negative |
| SIP2Predictor.SIP2.Update | PredictionLogic/Prediction/Predictors/SIP2.cs:53-69 | the selected location's state takes the inertial step toward the outcome and no other state changes |
| SIP2Predictor.SIP2.Reset | PredictionLogic/Prediction/Predictors/SIP2.cs:71-77 | every state is 0 again |
| PerceptronPredictor.Perceptron.constructor | PredictionLogic/Prediction/Predictors/Perceptron.cs:51-62 | the parameters are kept, the history is all false and every weight is 0 |
| PerceptronPredictor.Perceptron.PredictBranch | PredictionLogic/Prediction/Predictors/Perceptron.cs:66-85 | selects row `address % numberOfPerceptrons`, the output is the bias plus each weight signed by its history bit, and the prediction is taken exactly when it is non-negative |
| PerceptronPredictor.Perceptron.TrainBias | PredictionLogic/Prediction/Predictors/Perceptron.cs:91-105 | the selected row's bias takes one saturating step toward the outcome and no other weight changes |
| PerceptronPredictor.Perceptron.TrainWeights | PredictionLogic/Prediction/Predictors/Perceptron.cs:107-124 | each history weight of the selected row takes one saturating step toward agreeing with its history bit, nothing else changes |
| PerceptronPredictor.Perceptron.Learn | PredictionLogic/Prediction/Predictors/Perceptron.cs:89-125 | trains the selected row only, and the row's output for the same history does not move away from the outcome |
| PerceptronPredictor.Perceptron.ShiftHistory | PredictionLogic/Prediction/Predictors/Perceptron.cs:127-131 | the history loses its oldest bit and the outcome goes last |
| PerceptronPredictor.Perceptron.Update | PredictionLogic/Prediction/Predictors/Perceptron.cs:87-132 | trains exactly on a misprediction or an output below the threshold in magnitude, leaves the weights alone otherwise, and always shifts the outcome into the history |
| PerceptronPredictor.Perceptron.Reset | PredictionLogic/Prediction/Predictors/Perceptron.cs:134-147 | every weight is 0 and the history is all false |
| PatternTables.Step | PredictionLogic/Prediction/GAg.cs:83-91 | a counter moves by at most one toward the outcome, and moves exactly when it is below `counterMax` (taken) or not below `-counterMax` (not taken) |
| PatternTables.StepInRange | PredictionLogic/Prediction/GAg.cs:83-91 | a counter inside `[-counterMax - 1, counterMax]` stays inside it |
| PatternTables.TaggedUpdate | PredictionLogic/Prediction/GAg.cs:82-102 | a tag hit steps the counter; a tag miss stores the new tag and restarts the counter at 1 or -1 by the outcome |
| PatternTables.TaggedUpdateInRange | PredictionLogic/Prediction/GAg.cs:82-102 | the updated counter stays in its range |
| PatternTables.TaggedUpdateReinforces | PredictionLogic/Prediction/GAg.cs:69-102 | after a correct prediction the updated entry predicts the same outcome |
| PatternTables.TaggedMissLearns | PredictionLogic/Prediction/GAg.cs:94-102 | after a tag miss the entry predicts the outcome that replaced it |
| PatternTables.StepReinforces | PredictionLogic/Prediction/Predictors/PAg.cs:73-92 | an untagged counter that predicted correctly keeps predicting the same |
| PatternTables.ShiftedHistory | PredictionLogic/Prediction/GAg.cs:104-107 | the outcome becomes bit 0 of the 32-bit history and the older bits move up by one |
| PatternTables.ShiftedShortHistory | PredictionLogic/Prediction/Predictors/PAp.cs:103-107 | the outcome becomes bit 0 of the 16-bit history and the older bits move up by one |
| GAgPredictor.TableIndex | PredictionLogic/Prediction/GAg.cs:70 | the index `((address & lowMask) << historyLength) + (history & historyMask)` is below the table size `2^(lowBits + historyLength)` |
| GAgPredictor.TableIndexSeparates | PredictionLogic/Prediction/GAg.cs:70 | two branches share an entry exactly when their low address bits and their low history bits agree |
| GAgPredictor.GAg.constructor | PredictionLogic/Prediction/GAg.cs:50-65 | the table has `2^(lowBits + historyLength)` entries, all with tag and counter 0, and the history is 0 |
| GAgPredictor.GAg.PredictBranch | PredictionLogic/Prediction/GAg.cs:69-79 | selects the entry of this address and history and its tag; predicts the counter's sign on a tag hit and taken on a miss |
| GAgPredictor.GAg.Update | PredictionLogic/Prediction/GAg.cs:81-108 | the selected entry takes the tagged update, no other entry changes, and the outcome is shifted into the history |
| GAgPredictor.GAg.Reset | PredictionLogic/Prediction/GAg.cs:110-116 | the history and every tag and counter are 0 |
| GSharePredictor.ShareIndex | PredictionLogic/Prediction/Predictors/GShare.cs:82 | the index `(history & historyMask) ^ (address & lowMask)` is below the table size `2^max(historyLength, lowBits)` |
| GSharePredictor.ShareIndexSeparates | PredictionLogic/Prediction/Predictors/GShare.cs:82 | under one history, two branches share an entry exactly when their low address bits agree |
| GSharePredictor.GShare.constructor | PredictionLogic/Prediction/Predictors/GShare.cs:54-76 | the table has `2^max(historyLength, lowBits)` entries, all with tag and counter 0, and the history is 0 |
| GSharePredictor.GShare.PredictBranch | PredictionLogic/Prediction/Predictors/GShare.cs:80-93 | selects the entry of the address XOR the history; predicts the counter's sign on a tag hit and taken on a miss |
| GSharePredictor.GShare.Update | PredictionLogic/Prediction/Predictors/GShare.cs:95-132 | the selected entry takes the tagged update, no other entry changes, and the outcome is shifted into the history |
| GSharePredictor.GShare.Reset | PredictionLogic/Prediction/Predictors/GShare.cs:134-142 | the history and every tag and counter are 0 |
| LGSharePredictor.LocalIndex | PredictionLogic/Prediction/Predictors/LGShare.cs:86 | the local-history index `address & lowMask` is below the table size |
| LGSharePredictor.HistoryPattern | PredictionLogic/Prediction/Predictors/LGShare.cs:87 | the global bits above the local bits stay below `2^(global + local)`; the sign extension of the `short` local history is masked away |
| LGSharePredictor.TableIndex | PredictionLogic/Prediction/Predictors/LGShare.cs:87-88 | the pattern XOR the local index is below the table size |
| LGSharePredictor.TableIndexSeparates | PredictionLogic/Prediction/Predictors/LGShare.cs:86-88 | for one address, two states select the same entry exactly when their low global and low local history bits agree |
| LGSharePredictor.LGShare.constructor | PredictionLogic/Prediction/Predictors/LGShare.cs:60-80 | the table and the local histories have `2^(local + global)` entries, all 0, and the global history is 0 |
| LGSharePredictor.LGShare.PredictBranch | PredictionLogic/Prediction/Predictors/LGShare.cs:84-100 | selects the branch's local history, then the entry of both histories XOR the index; predicts the counter's sign on a tag hit and taken on a miss |
| LGSharePredictor.LGShare.Update | PredictionLogic/Prediction/Predictors/LGShare.cs:102-141 | the selected entry takes the tagged update, and the outcome is shifted into the global history and into that branch's local history only |
| LGSharePredictor.LGShare.Reset | PredictionLogic/Prediction/Predictors/LGShare.cs:143-152 | the global history, every local history and every tag and counter are 0 |
| Bits.Low | PredictionLogic/Prediction/Predictors/PAg.cs:71-72 | `x & ((1 << n) - 1)` is below `2^n`: the index with which PAg and PAp select a history register and PAg a counter, and the path entry Piecewise records for a branch |
| PAgPredictor.PAg.constructor | PredictionLogic/Prediction/Predictors/PAg.cs:48-65 | `2^lowBits` history registers and `2^historyLength` counters, all 0 |
| PAgPredictor.PAg.PredictBranch | PredictionLogic/Prediction/Predictors/PAg.cs:69-75 | selects the branch's history register, then the counter its history selects, and predicts taken exactly when that counter is non-negative |
| PAgPredictor.PAg.Update | PredictionLogic/Prediction/Predictors/PAg.cs:77-98 | the selected counter takes one saturating step, the outcome is shifted into that branch's history register, nothing else changes |
| PAgPredictor.PAg.Reset | PredictionLogic/Prediction/Predictors/PAg.cs:100-110 | every history register and every counter is 0 |
| PApPredictor.PatternIndex | PredictionLogic/Prediction/Predictors/PAp.cs:80 | the counter index of the 16-bit history is below `2^historyLength` |
| PApPredictor.PAp.constructor | PredictionLogic/Prediction/Predictors/PAp.cs:53-73 | `2^lowBits` entries, each with history 0 and `2^historyLength` counters at 0 |
| PApPredictor.PAp.PredictBranch | PredictionLogic/Prediction/Predictors/PAp.cs:77-84 | selects the branch's entry, then that entry's counter for its history, and predicts taken exactly when it is non-negative |
| PApPredictor.PAp.Update | PredictionLogic/Prediction/Predictors/PAp.cs:86-108 | the selected counter takes one saturating step, the outcome is shifted into that entry's history, nothing else changes |
| PApPredictor.PAp.Reset | PredictionLogic/Prediction/Predictors/PAp.cs:110-120 | every history and every counter of every entry is 0 |
| BenchmarkStatistics.Qualifies | BranchPredictionSimulator/SimulationResultStructures/BenchmarkStatisticsCollection.cs:61 | a result counts exactly when its accuracy is a positive number; the `!= NaN` test holds for every double, NaN included |
| BenchmarkStatistics.NameLessIrreflexive | BranchPredictionSimulator/SimulationResultStructures/BenchmarkStatisticsCollection.cs:43 | no name compares greater than itself under `CompareTo` (ordinal order) |
| BenchmarkStatistics.NameLessTransitive | BranchPredictionSimulator/SimulationResultStructures/BenchmarkStatisticsCollection.cs:43 | the name order is transitive |
| BenchmarkStatistics.NameLessTotal | BranchPredictionSimulator/SimulationResultStructures/BenchmarkStatisticsCollection.cs:43 | any two different names are ordered one way or the other |
| BenchmarkStatistics.NameLessAsymmetric | BranchPredictionSimulator/SimulationResultStructures/BenchmarkStatisticsCollection.cs:43 | the name order is asymmetric |
| BenchmarkStatistics.InsertPosition | BranchPredictionSimulator/SimulationResultStructures/BenchmarkStatisticsCollection.cs:40-48 | the insertion point is the first element whose name compares strictly greater than the new one, or the end |
| BenchmarkStatistics.InsertSorted | BranchPredictionSimulator/SimulationResultStructures/BenchmarkStatisticsCollection.cs:38-50 | the list grows by exactly one and holds the old items plus the new one |
| BenchmarkStatistics.InsertSortedRemove | BranchPredictionSimulator/SimulationResultStructures/BenchmarkStatisticsCollection.cs:49 | removing the new item gives back the old list, so the others keep their relative order |
| BenchmarkStatistics.InsertSortedStable | BranchPredictionSimulator/SimulationResultStructures/BenchmarkStatisticsCollection.cs:43 | the new item goes after every existing item with the same name |
| BenchmarkStatistics.InsertSortedKeepsSorted | BranchPredictionSimulator/SimulationResultStructures/BenchmarkStatisticsCollection.cs:38-50 | inserting into a name-sorted list keeps it sorted |
| BenchmarkStatistics.QualifyingCount | BranchPredictionSimulator/SimulationResultStructures/BenchmarkStatisticsCollection.cs:60-69 | at most every result counts |
| BenchmarkStatistics.QualifyingSumsPositive | BranchPredictionSimulator/SimulationResultStructures/BenchmarkStatisticsCollection.cs:60-69 | the accuracy sum and the reciprocal sum are never negative, and positive exactly when some result counts |
| BenchmarkStatistics.MeansZeroIffNoneQualifies | BranchPredictionSimulator/SimulationResultStructures/BenchmarkStatisticsCollection.cs:70-81 | both means are 0 exactly when no result counts, and positive otherwise |
| BenchmarkStatistics.NonQualifyingIgnored | BranchPredictionSimulator/SimulationResultStructures/BenchmarkStatisticsCollection.cs:61 | adding a result that does not count (NaN or not positive) leaves both means as they were |
| BenchmarkStatistics.MeanAccumulators | BranchPredictionSimulator/SimulationResultStructures/BenchmarkStatisticsCollection.cs:54-69 | the loop yields the count, the accuracy sum and the reciprocal sum of the results that count |
| BenchmarkStatistics.BenchmarkStatisticsCollection.constructor | BranchPredictionSimulator/SimulationResultStructures/BenchmarkStatisticsCollection.cs:19-26 | an empty list with means 0 and the message hidden |
| BenchmarkStatistics.BenchmarkStatisticsCollection.CalculateMeans | BranchPredictionSimulator/SimulationResultStructures/BenchmarkStatisticsCollection.cs:52-86 | the arithmetic and harmonic means of the results that count, 0 when none does |
| BenchmarkStatistics.BenchmarkStatisticsCollection.CollectionChanged | BranchPredictionSimulator/SimulationResultStructures/BenchmarkStatisticsCollection.cs:28-36 | after the handler the means match the items and the message is visible exactly when `ShowFinalisationMessage` is set |
| BenchmarkStatistics.BenchmarkStatisticsCollection.AddSorted | BranchPredictionSimulator/SimulationResultStructures/BenchmarkStatisticsCollection.cs:38-50 | the items become the sorted insertion of the new one, and the handler leaves the means and the message consistent |
| GAgBenchmarkStatistics.ArithmeticAccumulators | GAgSimulator/SimulationResultStructures/BenchmarkStatisticsCollection.cs:37-43 | the loop yields the count and the accuracy sum of the results that count |
| GAgBenchmarkStatistics.BenchmarkStatisticsCollection.constructor | GAgSimulator/SimulationResultStructures/BenchmarkStatisticsCollection.cs:11-15 | an empty list with mean 0 and the message hidden |
| GAgBenchmarkStatistics.BenchmarkStatisticsCollection.CalculateMeans | GAgSimulator/SimulationResultStructures/BenchmarkStatisticsCollection.cs:36-52 | the arithmetic mean of the results that count, 0 when none does |
| GAgBenchmarkStatistics.BenchmarkStatisticsCollection.CollectionChanged | GAgSimulator/SimulationResultStructures/BenchmarkStatisticsCollection.cs:17-23 | after the handler the mean matches the items and the message is visible exactly when `ShowFinalisationMessage` is set |
| GAgBenchmarkStatistics.BenchmarkStatisticsCollection.AddSorted | GAgSimulator/SimulationResultStructures/BenchmarkStatisticsCollection.cs:25-34 | the items become the same sorted insertion as in the other front end, and the handler leaves them consistent |
| SimulationSessionModel.NextId | PredictionLogic/Simulation/SimulationSession.cs:12-22 | `++lastId` on a `uint`: one more than before, wrapping to 0 after the largest value |
| SimulationSessionModel.SessionCounter.constructor | PredictionLogic/Simulation/SimulationSession.cs:12 | the process-wide counter starts at 0 |
| SimulationSessionModel.SimulationSession.constructor | PredictionLogic/Simulation/SimulationSession.cs:20-24 | a new session takes the incremented counter as its ID, keeps the options object given, and is not aborted |
| SimulationSessionModel.SimulationSession.FromSerialized | PredictionLogic/Simulation/SimulationSession.cs:28-32 | deserialization restores the ID and the options and leaves the counter alone |
| SimulationSessionModel.SimulationSession.GetObjectData | PredictionLogic/Simulation/SimulationSession.cs:34-38 | serialization stores the ID and the serialized options |
| SimulationSessionModel.IdAfter | PredictionLogic/Simulation/SimulationSession.cs:12-22 | the counter after `n` sessions stays a `uint` |
| SimulationSessionModel.IdsCountCreations | PredictionLogic/Simulation/SimulationSession.cs:12-22 | the `n`-th session created in a process gets ID `n`, so the first ID is 1 |
| SimulationSessionModel.IdsIncrease | PredictionLogic/Simulation/SimulationSession.cs:12-22 | session IDs strictly increase until the counter wraps |
| SimulationOptionsModel.Serialize | PredictionLogic/Simulation/SimulationOptions.cs:79-83 | serialization stores `conditionalOnly` and the number of branches to skip, and nothing else |
| SimulationOptionsModel.Deserialize | PredictionLogic/Simulation/SimulationOptions.cs:72-77 | deserialization forces remote-only execution off |
| SimulationOptionsModel.RoundTrip | PredictionLogic/Simulation/SimulationOptions.cs:72-83 | a round trip keeps everything but the remote-only flag, which comes back false; it is the identity exactly when that flag was off |
| SimulationOptionsModel.SerializedRoundTrip | PredictionLogic/Simulation/SimulationOptions.cs:72-83 | the serialized form comes back exactly from its deserialization |
| SimulationOptionsModel.SimulationOptions.constructor | PredictionLogic/Simulation/SimulationOptions.cs:14-59 | the defaults: conditional branches only, none skipped, not remote-only |
| SimulationOptionsModel.SimulationOptions.FromSerialized | PredictionLogic/Simulation/SimulationOptions.cs:72-77 | the object holds the deserialized values |
| SimulationOptionsModel.SimulationOptions.GetObjectData | PredictionLogic/Simulation/SimulationOptions.cs:79-83 | the stored form is the serialization of the current values |
| SimulationOptionsModel.SimulationOptions.GetCopy | PredictionLogic/Simulation/SimulationOptions.cs:61-68 | a fresh object with the same three values |
| SimulationOptionsModel.SimulationOptions.SetConditionalOnly | PredictionLogic/Simulation/SimulationOptions.cs:21-25 | only `conditionalOnly` changes |
| SimulationOptionsModel.SimulationOptions.SetNumberOfBranchesToSkip | PredictionLogic/Simulation/SimulationOptions.cs:35-39 | only the number of branches to skip changes |
| SimulationOptionsModel.SimulationOptions.SetRemoteExecutionOnly | PredictionLogic/Simulation/SimulationOptions.cs:49-53 | only the remote-only flag changes |
| PredictorInfoPool.FirstFree | PredictionLogic/Prediction/PredictorInfo.cs:51-58 | the scan stops at the first free instance, every earlier one being busy, or at the end |
| PredictorInfoPool.IndexOf | PredictionLogic/Prediction/PredictorInfo.cs:85 | `IndexOf` gives the first position holding the instance, or -1 exactly when it is absent |
| PredictorInfoPool.ArgumentsEqual | PredictionLogic/Prediction/PredictorInfo.cs:105-109 | the loop accepts exactly when every argument equals its counterpart |
| PredictorInfoPool.PredictorInfo.constructor | PredictionLogic/Prediction/PredictorInfo.cs:18-23 | the configuration keeps type name, description, options and arguments, with an empty pool |
| PredictorInfoPool.PredictorInfo.FromSerialized | PredictionLogic/Prediction/PredictorInfo.cs:115-119 | deserialization restores what was serialized; the application options come back null and the pool is empty |
| PredictorInfoPool.PredictorInfo.Equals | PredictionLogic/Prediction/PredictorInfo.cs:94-111 | equal exactly when the other is a configuration with the same type name and pairwise equal arguments; description and options do not count |
| PredictorInfoPool.PredictorInfo.GetPredictor | PredictionLogic/Prediction/PredictorInfo.cs:44-80 | marks the lowest free instance busy and returns it; when none is free appends a newly built one as busy; returns null with the pool unchanged when building fails; resets the instance it returns |
| PredictorInfoPool.PredictorInfo.FreePredictor | PredictionLogic/Prediction/PredictorInfo.cs:82-87 | clears only that instance's busy flag; an instance not in the pool throws and changes nothing |
| PredictorInfoPool.FirstFreeIsFirst | PredictionLogic/Prediction/PredictorInfo.cs:54-58 | the loop's stopping point is the first free instance |
| PredictorInfoPool.IndexOfDistinct | PredictionLogic/Prediction/PredictorInfo.cs:85 | in a pool without repeated instances, `IndexOf` finds each instance at its own position |
| PredictorInfoPool.EqualsIsEquivalence | PredictionLogic/Prediction/PredictorInfo.cs:94-111 | `Equals` is reflexive, symmetric and transitive |
| PredictorInfoPool.EqualsImpliesEqualHash | PredictionLogic/Prediction/PredictorInfo.cs:89-92 | equal configurations have equal hash codes, whatever the string hash |
| Simulator.BranchesBeforeEnd | PredictionLogic/Simulation/Simulator.cs:33-40 | the loop sees exactly the branches before the reader's first null |
| Simulator.RunCountsEveryBranch | PredictionLogic/Simulation/Simulator.cs:46-59 | every branch before the end is counted once, as correct or incorrect, so the branch count is their sum |
| Simulator.RunIgnoresRest | PredictionLogic/Simulation/Simulator.cs:37-40 | nothing after the first null is read |
| Simulator.PerfectPredictorAllCorrect | PredictionLogic/Simulation/Simulator.cs:44-51 | a predictor that always predicts the outcome gets no incorrect prediction |
| Simulator.EffectiveOptions | PredictionLogic/Simulation/Simulator.cs:9-11 | null options stand for the defaults, other options are kept |
| Simulator.AccuracyOf | PredictionLogic/Simulation/Simulator.cs:60 | `(double)correct / branches` is NaN exactly for an empty run and lies in [0, 1] otherwise |
| Simulator.RunTrace | PredictionLogic/Simulation/Simulator.cs:33-55 | the loop's counts are those of the predict, count, update run from the reset state, and they add up to the branches before the end |
| Simulator.Call | PredictionLogic/Simulation/Simulator.cs:8-66 | borrows an instance from the pool; without one returns an error result and never opens the trace; a trace that fails to open gives an error result and the instance stays busy; otherwise the counts of the run, and the instance is returned to the pool |
| ResultsDictionary.EmptyGrid | BranchPredictionSimulator/SimulationResultStructures/SimulationResultsDictionary.cs:111 | a new matrix of the given size has every cell null |
| ResultsDictionary.EmptyGridCount | BranchPredictionSimulator/SimulationResultStructures/SimulationResultsDictionary.cs:111 | a new matrix holds no value |
| ResultsDictionary.GridCountWrite | BranchPredictionSimulator/SimulationResultStructures/SimulationResultsDictionary.cs:151-165 | writing an empty cell raises the number of filled cells by exactly one |
| ResultsDictionary.GridCountWithHole | BranchPredictionSimulator/SimulationResultStructures/SimulationResultsDictionary.cs:35 | a matrix with an empty cell holds fewer values than it has cells |
| ResultsDictionary.GridCountBound | BranchPredictionSimulator/SimulationResultStructures/SimulationResultsDictionary.cs:35 | a matrix never holds more values than it has cells |
| ResultsDictionary.SimulationResultsDictionary.NeverFullWhenUndersized | BranchPredictionSimulator/SimulationResultStructures/SimulationResultsDictionary.cs:35-111 | once a duplicate key has advanced a counter, the matrix sized by the registries has fewer cells than predictors x benchmarks, so the dictionary is never full |
| ResultsDictionary.SimulationResultsDictionary.constructor | BranchPredictionSimulator/SimulationResultStructures/SimulationResultsDictionary.cs:12-20 | empty registries and lists, zero counters, no matrix, not full |
| ResultsDictionary.SimulationResultsDictionary.AddPredictor | BranchPredictionSimulator/SimulationResultStructures/SimulationResultsDictionary.cs:83-96 | the counter always grows by one; a new predictor gets the old counter as its index and an empty list; a duplicate changes nothing else and returns null |
| ResultsDictionary.SimulationResultsDictionary.AddBenchmark | BranchPredictionSimulator/SimulationResultStructures/SimulationResultsDictionary.cs:98-107 | the counter always grows by one; a new benchmark gets the old counter as its index; a duplicate changes nothing else |
| ResultsDictionary.SimulationResultsDictionary.Initialize | BranchPredictionSimulator/SimulationResultStructures/SimulationResultsDictionary.cs:109-112 | a fresh empty matrix sized by the number of registered keys, not by the counters |
| ResultsDictionary.SimulationResultsDictionary.GetResult | BranchPredictionSimulator/SimulationResultStructures/SimulationResultsDictionary.cs:114-127 | throws for an unknown predictor or benchmark, and for a missing matrix or an index outside it; otherwise the stored cell |
| ResultsDictionary.SimulationResultsDictionary.Rejection | BranchPredictionSimulator/SimulationResultStructures/SimulationResultsDictionary.cs:139-163 | the exception of a write, in the source's order: unknown predictor, unknown benchmark, null value, then a missing matrix, an index outside it or a filled cell; none exactly when both keys address an empty cell and the value is not null |
| ResultsDictionary.SimulationResultsDictionary.Store | BranchPredictionSimulator/SimulationResultStructures/SimulationResultsDictionary.cs:153-165 | writes only the addressed cell and raises the count by one |
| ResultsDictionary.SimulationResultsDictionary.Publish | BranchPredictionSimulator/SimulationResultStructures/SimulationResultsDictionary.cs:154 | the value is inserted into its own predictor's sorted list only |
| ResultsDictionary.SimulationResultsDictionary.SetResult | BranchPredictionSimulator/SimulationResultStructures/SimulationResultsDictionary.cs:139-171 | stores exactly when no check rejects the write and throws that check's exception otherwise, changing nothing; a store writes only that cell, counts it once, joins that predictor's list, and `filled` fires exactly when the count reaches predictors x benchmarks |
| ResultsDictionary.SimulationResultsDictionary.SetResultUsingDispatcher | BranchPredictionSimulator/SimulationResultStructures/SimulationResultsDictionary.cs:173-210 | the same checks, cell, count and `filled` test; the list insertion is deferred, so no list changes in this step |
| ResultsDictionary.SimulationResultsDictionary.Clear | BranchPredictionSimulator/SimulationResultStructures/SimulationResultsDictionary.cs:212-221 | empty registries and lists, zero counters and count, no matrix |
| FrontEnd.Names | BranchPredictionSimulator/WindowMainPredictie.cs:190-201 | one benchmark per selected trace name, in order |
| FrontEnd.CollectRequests | BranchPredictionSimulator/WindowMainPredictie.cs:139-156 | outside compare mode the configurations of the selected type; in compare mode those of every checked type, concatenated in list order, failing with the first failure |
| FrontEnd.CheckedFailureSticks | BranchPredictionSimulator/WindowMainPredictie.cs:149-155 | a failure in one checked type ends the whole compare-mode request with that failure |
| FrontEnd.MainWindow.constructor | BranchPredictionSimulator/WindowMainPredictie.cs:31-33 | an empty queue and result list over the given dictionary |
| FrontEnd.MainWindow.SimulateClick | BranchPredictionSimulator/WindowMainPredictie.cs:158-221 | no selected trace: only the "(no traces selected)" message; no configuration: only "(no predictors selected)"; otherwise the queue is every configuration against every distinct benchmark, predictor-major, the starting message counts those jobs, each configuration shows its description and its new list (null for a repeat), and the dictionary is cleared, registered and freshly sized |
| FrontEnd.GAgWindow.constructor | GAgSimulator/WindowMainPredictie.cs:87-91 | an empty queue and result list over the given dictionary |
| FrontEnd.GAgWindow.SimulateClick | GAgSimulator/WindowMainPredictie.cs:87-124 | no selected trace: only its own message "(nu ati selectat niciun trace)"; otherwise the same queue and registration, and only the result lists are shown |
| RunSetup.KeysOf | BranchPredictionSimulator/SimulationResultStructures/SimulationResultsDictionary.cs:85-87 | one dictionary key per configuration, in order |
| RunSetup.Registered | BranchPredictionSimulator/SimulationResultStructures/SimulationResultsDictionary.cs:83-107 | the registry holds exactly the keys that were added |
| RunSetup.RegisteredAtFirstOccurrence | BranchPredictionSimulator/SimulationResultStructures/SimulationResultsDictionary.cs:87-102 | because the counter advances on every call, a key's index is the position of its first occurrence and no earlier position holds it |
| RunSetup.Row | BranchPredictionSimulator/WindowMainPredictie.cs:205-208 | one job per benchmark for a configuration, in benchmark order |
| RunSetup.JobsSize | BranchPredictionSimulator/WindowMainPredictie.cs:203-211 | the queue holds configurations x benchmarks jobs, the count in the starting message |
| RunSetup.JobAt | BranchPredictionSimulator/WindowMainPredictie.cs:203-209 | job i x benchmarks + j runs configuration i on benchmark j |
| RunSetup.EmptyCollections | BranchPredictionSimulator/SimulationResultStructures/SimulationResultsDictionary.cs:88-90 | every registered configuration starts with an empty result list |
| RunSetup.AddOne | BranchPredictionSimulator/WindowMainPredictie.cs:213-219 | one `addPredictor` call registers the key and hands back a new empty list, or null for a repeat |
| RunSetup.AddBenchmarks | BranchPredictionSimulator/WindowMainPredictie.cs:187-201 | after `Clear`, the benchmarks are registered at their first occurrences, the counter is their number and there is no matrix |
| RunSetup.BuildQueue | BranchPredictionSimulator/WindowMainPredictie.cs:188-209 | the queue is exactly the predictor-major product of configurations and benchmarks |
| RunSetup.AddPredictors | BranchPredictionSimulator/WindowMainPredictie.cs:213-219 | all configurations registered, with the entries shown: descriptions and lists in the main front end, lists alone in the single-type one |
| RunSetup.StartRun | BranchPredictionSimulator/WindowMainPredictie.cs:187-221 | clear, register benchmarks, register configurations and size a fresh empty matrix from the registries |
| PredictorEnumeration.PrefixedAppend | BranchPredictionSimulator/WindowMainPredictie.cs:99-132 | prefixing distributes over concatenation |
| PredictorEnumeration.PrefixedTwice | BranchPredictionSimulator/WindowMainPredictie.cs:99-132 | prefixing twice is prefixing by the concatenation |
| PredictorEnumeration.ProductFromSize | BranchPredictionSimulator/WindowMainPredictie.cs:99-132 | the part of the product starting at a value position has the expected size |
| PredictorEnumeration.ProductSize | BranchPredictionSimulator/WindowMainPredictie.cs:82-132 | one configuration per combination: the product of the list lengths |
| PredictorEnumeration.EmptyListEmptyProduct | BranchPredictionSimulator/WindowMainPredictie.cs:104-107 | a property with no values yields no configuration |
| PredictorEnumeration.SizeZero | BranchPredictionSimulator/WindowMainPredictie.cs:104-107 | the product of lengths is zero when a list is empty |
| PredictorEnumeration.ProductFromMembers | BranchPredictionSimulator/WindowMainPredictie.cs:99-132 | membership in the product from a starting position, both directions |
| PredictorEnumeration.PrefixedMembers | BranchPredictionSimulator/WindowMainPredictie.cs:99-132 | membership in the block whose first value is fixed, both directions |
| PredictorEnumeration.ProductMembers | BranchPredictionSimulator/WindowMainPredictie.cs:82-132 | a tuple is produced exactly when it has one value per property, each from that property's list |
| PredictorEnumeration.Tuple | BranchPredictionSimulator/WindowMainPredictie.cs:113-116 | the values an index prefix selects, list k at index k |
| PredictorEnumeration.ExhaustStep | BranchPredictionSimulator/WindowMainPredictie.cs:104-107 | an exhausted level backtracks without emitting, one step spent |
| PredictorEnumeration.EmitStep | BranchPredictionSimulator/WindowMainPredictie.cs:110-125 | at the last level a new value emits the next configuration, one step spent |
| PredictorEnumeration.EmitProduces | BranchPredictionSimulator/WindowMainPredictie.cs:110-125 | the emitted configuration heads what remains |
| PredictorEnumeration.EmitCounts | BranchPredictionSimulator/WindowMainPredictie.cs:110-125 | an emitting step spends exactly one of the remaining steps |
| PredictorEnumeration.ForwardStep | BranchPredictionSimulator/WindowMainPredictie.cs:126-130 | above the last level a new value descends with the level below reset to -1, one step spent |
| PredictorEnumeration.ForwardProduces | BranchPredictionSimulator/WindowMainPredictie.cs:126-130 | descending leaves the remaining configurations unchanged |
| PredictorEnumeration.ForwardCounts | BranchPredictionSimulator/WindowMainPredictie.cs:126-130 | a descending step spends exactly one of the remaining steps |
| PredictorEnumeration.Lengths | BranchPredictionSimulator/WindowMainPredictie.cs:104 | the list lengths the loop compares against |
| PredictorEnumeration.TurnUp | BranchPredictionSimulator/WindowMainPredictie.cs:102-107 | a backtracking turn keeps a valid odometer, shrinks the measure and keeps what is pending |
| PredictorEnumeration.TurnEmit | BranchPredictionSimulator/WindowMainPredictie.cs:102-125 | an emitting turn produces the next pending configuration |
| PredictorEnumeration.TurnDown | BranchPredictionSimulator/WindowMainPredictie.cs:102-130 | a descending turn keeps what is pending |
| PredictorEnumeration.TurnStep | BranchPredictionSimulator/WindowMainPredictie.cs:100-132 | every turn keeps the odometer valid, decreases the remaining steps (so the loop ends) and emits exactly the next pending configuration when it emits |
| PredictorEnumeration.BelowIsProduct | BranchPredictionSimulator/WindowMainPredictie.cs:99-132 | the depth-first order under a prefix is the prefixed product |
| PredictorEnumeration.SiblingsIsProduct | BranchPredictionSimulator/WindowMainPredictie.cs:99-132 | the remaining siblings at a level give the prefixed product from that position |
| PredictorEnumeration.BelowRootIsProduct | BranchPredictionSimulator/WindowMainPredictie.cs:99-132 | from the root the loop produces exactly the cartesian product, in order |
| PredictorEnumeration.ListedNext | BranchPredictionSimulator/WindowMainPredictie.cs:117-121 | the description grows by ", name = value" per property after the first |
| PredictorEnumeration.BuildArguments | BranchPredictionSimulator/WindowMainPredictie.cs:112-116 | the argument array is the selected value of each property |
| PredictorEnumeration.BuildDescription | BranchPredictionSimulator/WindowMainPredictie.cs:117-122 | the description is "Type (p0 = v0, p1 = v1, ...)" |
| PredictorEnumeration.NewIndexArray | BranchPredictionSimulator/WindowMainPredictie.cs:93-97 | every index starts at -1 |
| PredictorEnumeration.Emit | BranchPredictionSimulator/WindowMainPredictie.cs:110-124 | the request for the selected values, with its description |
| PredictorEnumeration.TurnArray | BranchPredictionSimulator/WindowMainPredictie.cs:102-130 | the array update of one loop pass agrees with the odometer step |
| PredictorEnumeration.Advance | BranchPredictionSimulator/WindowMainPredictie.cs:100-131 | one loop pass keeps a valid odometer, decreases the measure, and emits the next pending configuration's request when it emits |
| PredictorEnumeration.Enumerate | BranchPredictionSimulator/WindowMainPredictie.cs:99-132 | the loop finds exactly the configurations of the depth-first order and builds their requests |
| PredictorEnumeration.StartPending | BranchPredictionSimulator/WindowMainPredictie.cs:93-99 | the initial index array starts at the root with everything pending |
| PredictorEnumeration.RequestsAppend | BranchPredictionSimulator/WindowMainPredictie.cs:124 | one more configuration appends its request |
| PredictorEnumeration.GetPredictorRequests | BranchPredictionSimulator/WindowMainPredictie.cs:78-135 | fails (index out of range) exactly when the type has no property; otherwise one request per element of the cartesian product of the value lists, in product order |
| ServerOptions.Settings | BranchPredictionSimulatorServer/ApplicationOptionsServer.cs:29 | the dictionary the handler starts from is well formed |
| ServerOptions.Completed | BranchPredictionSimulatorServer/ApplicationOptionsServer.cs:32-35 | once both keys are read, the dictionary stays well formed, with each missing key holding its default |
| ServerOptions.PortResults | BranchPredictionSimulatorServer/ApplicationOptionsServer.cs:37-41 | the `int.TryParse` result of each comma piece, in order |
| ServerOptions.AcceptedMembers | BranchPredictionSimulatorServer/ApplicationOptionsServer.cs:41-44 | a value is kept exactly when some piece parses to it |
| ServerOptions.PortsFromPieces | BranchPredictionSimulatorServer/ApplicationOptionsServer.cs:37-45 | a port is listed exactly when some piece parses to it, and it is then a 32-bit integer |
| ServerOptions.AcceptedAll | BranchPredictionSimulatorServer/ApplicationOptionsServer.cs:41-44 | when every piece parses, every value is kept, in order |
| ServerOptions.PortsOfSpaced | BranchPredictionSimulatorServer/ApplicationOptionsServer.cs:37-45 | the pieces of a printed ", " list, blanks included, parse back to the numbers |
| ServerOptions.PortsOfJoined | BranchPredictionSimulatorServer/ApplicationOptionsServer.cs:35-45 | a port list written as ", "-joined numbers reads back as exactly those numbers |
| ServerOptions.DefaultPorts | BranchPredictionSimulatorServer/ApplicationOptionsServer.cs:35 | the default "9050, 9051, 9052" gives the ports 9050, 9051 and 9052 |
| ServerOptions.ApplicationOptionsServer.constructor | BranchPredictionSimulatorServer/ApplicationOptionsServer.cs:15-19 | no ports and an empty benchmark path |
| ServerOptions.ApplicationOptionsServer.AddPorts | BranchPredictionSimulatorServer/ApplicationOptionsServer.cs:38-45 | appends exactly the ports the pieces parse to, in order |
| ServerOptions.ApplicationOptionsServer.LoadOptions | BranchPredictionSimulatorServer/ApplicationOptionsServer.cs:25-60 | true exactly when no error is shown and the file is saved; an unreadable file fails with the disk message and changes nothing; otherwise the path is read, the parsed ports appended, no port at all fails with its own message, a failed save fails with the disk message, and a save writes the dictionary with both keys completed |
| Text.Split | BranchPredictionSimulatorServer/ApplicationOptionsServer.cs:37 | `String.Split` always yields at least one piece |
| Text.JoinSplit | BranchPredictionSimulatorServer/ApplicationOptionsServer.cs:37 | splitting and joining with the same separator gives the string back |
| Text.SplitAppendPlain | BranchPredictionSimulatorServer/ApplicationOptionsServer.cs:37 | appending text without the separator extends the last piece only |
| Text.SplitAfterSeparator | BranchPredictionSimulatorServer/ApplicationOptionsServer.cs:37 | text after a separator is a new last piece |
| Text.Spaced | PredictionLogic/Prediction/PredictorPropertyTypes/PredictorInt32Property.cs:55-59 | the pieces of a ", " list as a comma split sees them: a blank in front of all but the first |
| Text.SplitJoined | PredictionLogic/Prediction/PredictorPropertyTypes/PredictorInt32Property.cs:55-59 | splitting a ", "-joined list on ',' gives the pieces with the blank kept in front |
| Text.NatText | PredictionLogic/Prediction/PredictorPropertyTypes/PredictorInt32Property.cs:59 | the decimal text of a number is non-empty and all digits |
| Text.IntText | PredictionLogic/Prediction/PredictorPropertyTypes/PredictorInt32Property.cs:29-59 | `Int32.ToString()` is non-empty, has no comma, ends in a digit and starts with a digit or a minus sign |
| Text.DigitsOfNatText | PredictionLogic/Prediction/PredictorPropertyTypes/PredictorInt32Property.cs:59 | the digits of the text of n stand for n |
| Text.TrimWhite | PredictionLogic/Prediction/PredictorPropertyTypes/PredictorInt32Property.cs:40 | the blanks that `TryParse` ignores are gone from both ends |
| Text.TrimUntrimmed | PredictionLogic/Prediction/PredictorPropertyTypes/PredictorInt32Property.cs:40 | a printed number is already trimmed, and a blank in front is trimmed away |
| Text.ParseNatText | PredictionLogic/Prediction/PredictorPropertyTypes/PredictorInt32Property.cs:40-59 | parsing the text of a natural number gives the number |
| Text.ParseNegativeText | PredictionLogic/Prediction/PredictorPropertyTypes/PredictorInt32Property.cs:40-59 | parsing minus the text of n gives -n |
| Text.ParseIntText | PredictionLogic/Prediction/PredictorPropertyTypes/PredictorInt32Property.cs:40-59 | parsing a printed integer gives it back |
| Text.ParsePrinted | PredictionLogic/Prediction/PredictorPropertyTypes/PredictorInt32Property.cs:40-59 | printing then parsing gives the integer back, with or without a blank in front |
| PropertyTypes.TryParse | PredictionLogic/Prediction/PredictorPropertyTypes/PredictorInt32Property.cs:40 | a successful parse lies in the range of the type (Int32 or UInt32) |
| PropertyTypes.TryParsePrinted | PredictionLogic/Prediction/PredictorPropertyTypes/PredictorInt32Property.cs:40-59 | a printed value of the type parses back, also after ", " |
| PropertyTypes.UnsignedRejectsNegative | PredictionLogic/Prediction/PredictorPropertyTypes/PredictorUInt32Property.cs:35 | a minus sign before a positive number is no `uint`, and an `int` only down to -2^31 |
| PropertyTypes.Clamp | PredictionLogic/Prediction/PredictorPropertyTypes/PredictorInt32Property.cs:42-49 | the maximum is applied first, then the minimum; a value in range is kept; with min <= max the result is in range |
| PropertyTypes.PieceValue | PredictionLogic/Prediction/PredictorPropertyTypes/PredictorInt32Property.cs:39-51 | a piece's value: parsed and clamped, or the default when it does not parse; in range whenever the default is |
| PropertyTypes.Texts | PredictionLogic/Prediction/PredictorPropertyTypes/PredictorInt32Property.cs:59 | the printed text of each value, in order |
| PropertyTypes.CorrectedAppend | PredictionLogic/Prediction/PredictorPropertyTypes/PredictorInt32Property.cs:55-59 | each new value appends ", " and its text, or only its text to an empty text |
| PropertyTypes.LoadedValuesShape | PredictionLogic/Prediction/PredictorPropertyTypes/PredictorInt32Property.cs:37-62 | the values are never empty, lie in [min, max], have no repetition, and are exactly the values of the pieces |
| PropertyTypes.PieceValuesOfCorrected | PredictionLogic/Prediction/PredictorPropertyTypes/PredictorInt32Property.cs:55-63 | reading the rewritten text's pieces gives back the values it was written from |
| PropertyTypes.LoadIsIdempotent | PredictionLogic/Prediction/PredictorPropertyTypes/PredictorInt32Property.cs:32-66 | loading the rewritten text again gives the same values and the same text |
| PropertyTypes.PredictorIntegerProperty.constructor | PredictionLogic/Prediction/PredictorPropertyTypes/PredictorInt32Property.cs:18-30 | the fields as given and the binding text set to the default's text |
| PropertyTypes.PredictorIntegerProperty.Create | PredictionLogic/Prediction/PredictorPropertyTypes/PredictorInt32Property.cs:18-30 | an `ArgumentException` exactly when the default lies outside [min, max]; otherwise a valid property with those fields |
| PropertyTypes.PredictorIntegerProperty.LoadValuesFromUI | PredictionLogic/Prediction/PredictorPropertyTypes/PredictorInt32Property.cs:32-66 | the distinct piece values in first-occurrence order, and the binding text rewritten to them |
| PropertyTypes.PredictorIntegerProperty.NextPiece | PredictionLogic/Prediction/PredictorPropertyTypes/PredictorInt32Property.cs:37-61 | one piece keeps the value list duplicate-free and the text its rewriting |
| PropertyTypes.PredictorBoolProperty.constructor | PredictionLogic/Prediction/PredictorPropertyTypes/PredictorBoolProperty.cs:43-50 | exactly one of the two boxes is ticked, the default one |
| PropertyTypes.PredictorBoolProperty.SetBindingTaken | PredictionLogic/Prediction/PredictorPropertyTypes/PredictorBoolProperty.cs:19-25 | sets "taken", and unticking it ticks "not taken" when that was unticked, so one box stays ticked |
| PropertyTypes.PredictorBoolProperty.SetBindingNotTaken | PredictionLogic/Prediction/PredictorPropertyTypes/PredictorBoolProperty.cs:31-37 | sets "not taken", and unticking it ticks "taken" when that was unticked |
| PropertyTypes.PredictorBoolProperty.LoadValuesFromUI | PredictionLogic/Prediction/PredictorPropertyTypes/PredictorBoolProperty.cs:52-61 | true exactly when "taken" is ticked and false exactly when "not taken" is ticked, true first, without repetition, never empty while one box is ticked |
| PropertyFile.Trim | BranchPredictionSimulatorServer/PropertyFileHandler.cs:94-95 | `Trim()` removes white space at both ends only |
| PropertyFile.IndexOf | BranchPredictionSimulatorServer/PropertyFileHandler.cs:93 | the position of the first '=' |
| PropertyFile.ParseLine | BranchPredictionSimulatorServer/PropertyFileHandler.cs:91-100 | an entry exactly for a non-empty line that does not start with a comment mark and holds '='; its key is trimmed and holds no '='; a value wrapped in matching quotes is unwrapped, and a lone quote is kept as the value |
| PropertyFile.AsWrittenAgrees | BranchPredictionSimulatorServer/PropertyFileHandler.cs:97-100 | the parser as written throws exactly on an entry whose trimmed value is a lone quote, and agrees with the corrected one everywhere else |
| PropertyFile.LoneQuoteThrows | BranchPredictionSimulatorServer/PropertyFileHandler.cs:97-100 | on `a="` the parser as written throws; the corrected one reads the value `"` |
| PropertyFile.Set | BranchPredictionSimulatorServer/PropertyFileHandler.cs:38-48 | setting a key keeps the dictionary well formed |
| PropertyFile.SetGet | BranchPredictionSimulatorServer/PropertyFileHandler.cs:38-48 | after setting a key, it holds the new value and every other key its old one |
| PropertyFile.SetSame | BranchPredictionSimulatorServer/PropertyFileHandler.cs:28-48 | setting a key to its own value changes nothing |
| PropertyFile.Load | BranchPredictionSimulatorServer/PropertyFileHandler.cs:76-85 | the dictionary a file gives is well formed |
| PropertyFile.ParseAsWritten | BranchPredictionSimulatorServer/PropertyFileHandler.cs:89-100 | the as-written parse of each line, in order |
| PropertyFile.LoadAsWrittenAgrees | BranchPredictionSimulatorServer/PropertyFileHandler.cs:87-110 | loading as written fails exactly when some line's parse throws, and otherwise agrees with the corrected load |
| PropertyFile.LoneQuoteAbortsLoad | BranchPredictionSimulatorServer/PropertyFileHandler.cs:87-110 | a file with the line `a="` cannot be loaded as written; the corrected load reads it |
| PropertyFile.LoadValid | BranchPredictionSimulatorServer/PropertyFileHandler.cs:87-110 | loading keeps the dictionary well formed |
| PropertyFile.LoadKeeps | BranchPredictionSimulatorServer/PropertyFileHandler.cs:101-107 | a key already loaded keeps its value whatever lines follow |
| PropertyFile.Parse | BranchPredictionSimulatorServer/PropertyFileHandler.cs:89-100 | the corrected parse of each line, in order |
| PropertyFile.LoadedKeys | BranchPredictionSimulatorServer/PropertyFileHandler.cs:87-110 | a key is loaded exactly when some line is an entry for it |
| PropertyFile.FirstEntryWins | BranchPredictionSimulatorServer/PropertyFileHandler.cs:101-107 | the first entry for a key gives its value; later ones are dropped |
| PropertyFile.LoadSplit | BranchPredictionSimulatorServer/PropertyFileHandler.cs:89 | loading two runs of lines is loading the first, then the second |
| PropertyFile.ParseSavedLine | BranchPredictionSimulatorServer/PropertyFileHandler.cs:65-100 | a saved line of a plain key and value parses back to that entry |
| PropertyFile.PrefixStep | BranchPredictionSimulatorServer/PropertyFileHandler.cs:60-66 | each saved line adds the next key to what was loaded before |
| PropertyFile.LoadSavedPrefix | BranchPredictionSimulatorServer/PropertyFileHandler.cs:60-66 | loading the first n saved lines gives the first n keys |
| PropertyFile.SaveLoad | BranchPredictionSimulatorServer/PropertyFileHandler.cs:55-110 | saving then loading gives the dictionary back when every key and value is plain |
| PropertyFile.PrefixAll | BranchPredictionSimulatorServer/PropertyFileHandler.cs:60-66 | the prefix of all keys is the dictionary |
| PropertyFile.PropertyFileHandler.constructor | BranchPredictionSimulatorServer/PropertyFileHandler.cs:14-17 | the dictionary of the file when it exists, an empty one otherwise |
| PropertyFile.PropertyFileHandler.Reload | BranchPredictionSimulatorServer/PropertyFileHandler.cs:71-74 | reads the same path again |
| PropertyFile.PropertyFileHandler.ReloadFrom | BranchPredictionSimulatorServer/PropertyFileHandler.cs:76-85 | a fresh dictionary, loaded from the file when it exists, and the path remembered |
| PropertyFile.PropertyFileHandler.LoadFromFile | BranchPredictionSimulatorServer/PropertyFileHandler.cs:87-110 | adds each entry line in turn unless its key is already there |
| PropertyFile.PropertyFileHandler.GetPropertyValueOrDefault | BranchPredictionSimulatorServer/PropertyFileHandler.cs:19-31 | the stored value; a missing key is stored with the default and the default returned; a present key leaves the dictionary unchanged |
| PropertyFile.PropertyFileHandler.SetPropertyValue | BranchPredictionSimulatorServer/PropertyFileHandler.cs:38-48 | inserts or overwrites that one key |
| PropertyFile.PropertyFileHandler.Save | BranchPredictionSimulatorServer/PropertyFileHandler.cs:50-53 | writes to the path last used |
| PropertyFile.PropertyFileHandler.SaveTo | BranchPredictionSimulatorServer/PropertyFileHandler.cs:55-69 | remembers the path and writes one `name=value` line per key, in key order |
| Stanford.Fields | PredictionLogic/Prediction/BenchmarksAndReaders/Stanford/StanfordReader.cs:45 | a line always splits into at least one field |
| Stanford.KindFlags | PredictionLogic/Prediction/BenchmarksAndReaders/Stanford/StanfordReader.cs:53-65 | 'T' and 'F' mean conditional, 'S' a call, 'M' a return, anything else no flag |
| Stanford.DecodeFields | PredictionLogic/Prediction/BenchmarksAndReaders/Stanford/StanfordReader.cs:46-68 | a branch exactly when there are three fields, the kind has two letters and the address and target parse as `uint`; then that address, target and flags, taken exactly when the kind starts with 'B' |
| Stanford.CountedLines | PredictionLogic/Prediction/BenchmarksAndReaders/Stanford/StanfordReader.cs:46-50 | the lines counted never exceed the lines read |
| Stanford.SplitPlain | PredictionLogic/Prediction/BenchmarksAndReaders/Stanford/StanfordReader.cs:45 | a field without a blank is not split |
| Stanford.NoBlankInNumber | PredictionLogic/Prediction/BenchmarksAndReaders/Stanford/StanfordReader.cs:45 | a printed number holds no blank |
| Stanford.ThreeFields | PredictionLogic/Prediction/BenchmarksAndReaders/Stanford/StanfordReader.cs:45 | three blank-free fields joined by blanks split back into those fields |
| Stanford.DecodeRecordLine | PredictionLogic/Prediction/BenchmarksAndReaders/Stanford/StanfordReader.cs:40-68 | a line written from a branch is counted and read back as that branch |
| Stanford.CountedButRejected | PredictionLogic/Prediction/BenchmarksAndReaders/Stanford/StanfordReader.cs:46-51 | a three-field line whose address does not parse is counted and still read as null |
| Stanford.NegativeAddressRejected | PredictionLogic/Prediction/BenchmarksAndReaders/Stanford/StanfordReader.cs:51 | "-1" is not an unsigned address |
| Stanford.StanfordReader.constructor | PredictionLogic/Prediction/BenchmarksAndReaders/Stanford/StanfordReader.cs:8-13 | no stream and a zero count |
| Stanford.StanfordReader.OpenTrace | PredictionLogic/Prediction/BenchmarksAndReaders/Stanford/StanfordReader.cs:17-34 | true exactly when the file opens; then reading starts at the first line with the count at zero; otherwise the stream is closed and the count kept |
| Stanford.StanfordReader.GetNextBranch | PredictionLogic/Prediction/BenchmarksAndReaders/Stanford/StanfordReader.cs:36-74 | null at the end of the file or without a stream; otherwise one line is consumed, counted when it has three fields, and decoded by `DecodeFields` |
| Stanford.StanfordReader.ParseFields | PredictionLogic/Prediction/BenchmarksAndReaders/Stanford/StanfordReader.cs:51-68 | the parses and tests of a three-field line give `DecodeFields` |
| Stanford.StanfordReader.GetNumberOfBranches | PredictionLogic/Prediction/BenchmarksAndReaders/Stanford/StanfordReader.cs:84-87 | the counter in any state: 0 before the first open, kept by a failed open, and while a trace is open the number of counted lines read from it |
| Spec2000.NameIndexFrom | PredictionLogic/Prediction/BenchmarksAndReaders/SPEC2000/Spec2000Reader.cs:29-37 | the first matching name at or after i among the 17, or an exception when none matches or the table has a hole or is short |
| Spec2000.NameIndex | PredictionLogic/Prediction/BenchmarksAndReaders/SPEC2000/Spec2000Reader.cs:29-42 | the index `openTrace` settles on is below 17; a missing table throws |
| Spec2000.NameIndexFinds | PredictionLogic/Prediction/BenchmarksAndReaders/SPEC2000/Spec2000Reader.cs:29-37 | in a complete table every one of the first 17 names is found, at its first occurrence |
| Spec2000.Chunk | PredictionLogic/Prediction/BenchmarksAndReaders/SPEC2000/Spec2000Reader.cs:53 | one `Read` takes at most 4000000 bytes |
| Spec2000.Filled | PredictionLogic/Prediction/BenchmarksAndReaders/SPEC2000/Spec2000Reader.cs:53 | a read overwrites the front of the buffer only |
| Spec2000.AfterReads | PredictionLogic/Prediction/BenchmarksAndReaders/SPEC2000/Spec2000Reader.cs:51-54 | after any number of reads the buffer keeps its size |
| Spec2000.LoadedTrace | PredictionLogic/Prediction/BenchmarksAndReaders/SPEC2000/Spec2000Reader.cs:51-54 | when the stream holds trace i in full, the buffer holds exactly block i |
| Spec2000.RecordAddress | PredictionLogic/Prediction/BenchmarksAndReaders/SPEC2000/Spec2000Reader.cs:93-98 | the address is a, b, c and d without its top bit, little-endian, below 2^31 |
| Spec2000.RecordBranch | PredictionLogic/Prediction/BenchmarksAndReaders/SPEC2000/Spec2000Reader.cs:83-100 | a conditional branch at that address, taken exactly when d >= 128 |
| Spec2000.RecordBytes | PredictionLogic/Prediction/BenchmarksAndReaders/SPEC2000/Spec2000Reader.cs:78-98 | the record encoding an address and outcome has four bytes |
| Spec2000.DecodeRecordBytes | PredictionLogic/Prediction/BenchmarksAndReaders/SPEC2000/Spec2000Reader.cs:78-98 | decoding an encoded record gives back the address and the outcome |
| Spec2000.EncodeRecordBytes | PredictionLogic/Prediction/BenchmarksAndReaders/SPEC2000/Spec2000Reader.cs:78-98 | every four-byte record is the encoding of what is decoded from it |
| Spec2000.Spec2000Reader.constructor | PredictionLogic/Prediction/BenchmarksAndReaders/SPEC2000/Spec2000Reader.cs:20-23 | a fresh zeroed buffer of 4000000 bytes |
| Spec2000.Spec2000Reader.ReadChunk | PredictionLogic/Prediction/BenchmarksAndReaders/SPEC2000/Spec2000Reader.cs:53 | one read writes the next chunk over the front of the buffer |
| Spec2000.Spec2000Reader.OpenTrace | PredictionLogic/Prediction/BenchmarksAndReaders/SPEC2000/Spec2000Reader.cs:25-68 | true exactly when the name is found and the stream opens; an unknown name changes nothing; on success the count and position restart and the buffer holds blocks 0 to i read in turn |
| Spec2000.Spec2000Reader.GetNextBranch | PredictionLogic/Prediction/BenchmarksAndReaders/SPEC2000/Spec2000Reader.cs:70-104 | null exactly at the end of the buffer, changing nothing; otherwise the record at the position, decoded, the position advanced by 4 and the count by one |
| Spec2000.Spec2000Reader.GetNumberOfBranches | PredictionLogic/Prediction/BenchmarksAndReaders/SPEC2000/Spec2000Reader.cs:110-113 | the count since the last open, at most the records consumed |
| PiecewisePredictor.Piecewise.constructor | PredictionLogic/Prediction/Predictors/Piecewise.cs:60-76 | zeroed history and path of `historyLength`, and weights of numberOfPerceptrons x (2^bits + 1) x (historyLength + 1) |
| PiecewisePredictor.Piecewise.PredictBranch | PredictionLogic/Prediction/Predictors/Piecewise.cs:80-98 | the row is the address modulo the number of perceptrons; the sum is the bias plus, per history position, the weight its path entry selects, added when the position was taken and subtracted otherwise; taken exactly when the sum is non-negative |
| PiecewisePredictor.Piecewise.TrainBias | PredictionLogic/Prediction/Predictors/Piecewise.cs:104-118 | the bias moves one step toward the outcome within the counter range; nothing else changes |
| PiecewisePredictor.Piecewise.TrainWeights | PredictionLogic/Prediction/Predictors/Piecewise.cs:120-137 | each selected weight moves one step toward agreeing with its history bit, within the counter range; weights nobody selects keep their values |
| PiecewisePredictor.Piecewise.Learn | PredictionLogic/Prediction/Predictors/Piecewise.cs:102-138 | bias and selected weights trained, other rows untouched, and the output for the same history and path does not move away from the outcome |
| PiecewisePredictor.Piecewise.ShiftHistory | PredictionLogic/Prediction/Predictors/Piecewise.cs:140-146 | the outcome enters the history and the masked address the path, both at the end, the oldest entry dropped |
| PiecewisePredictor.Piecewise.Update | PredictionLogic/Prediction/Predictors/Piecewise.cs:100-147 | on a misprediction or an output below the threshold in magnitude, the bias and each path-selected weight take their saturating training step, every other weight is kept and the output moves toward the outcome; otherwise no weight changes; the history and path shift in every case |
| PiecewisePredictor.Piecewise.Reset | PredictionLogic/Prediction/Predictors/Piecewise.cs:149-167 | every weight, history bit and path entry is zero |
| PiecewisePredictor.Piecewise.ResetWeights | PredictionLogic/Prediction/Predictors/Piecewise.cs:151-160 | every weight is zero |
| SIP3Predictor.LevelStepInRange | PredictionLogic/Prediction/Predictors/SIP3.cs:138-163 | the state of level k stays in [-k, k - 1] |
| SIP3Predictor.LevelZeroFixed | PredictionLogic/Prediction/Predictors/SIP3.cs:138-163 | the state of level 0 never moves, so it always votes with its weight |
| SIP3Predictor.Adapt | PredictionLogic/Prediction/Predictors/SIP3.cs:167-203 | a misprediction counts up and, past the maximum, restarts the count and raises the threshold unless it is 512; a weak correct vote counts down twice and, past the minimum, restarts and lowers the threshold unless it is 16; otherwise nothing changes |
| SIP3Predictor.AdaptInRange | PredictionLogic/Prediction/Predictors/SIP3.cs:167-203 | the count stays in [-countMax - 1, countMax] and the threshold in its band |
| SIP3Predictor.AdaptCountMax | PredictionLogic/Prediction/Predictors/SIP3.cs:71-80 | `(1 << (bits - 1)) - 1`, or 0 when adaptation is off |
| SIP3Predictor.SIP3.constructor | PredictionLogic/Prediction/Predictors/SIP3.cs:63-88 | zeroed states and weights of locations x inertia, the threshold at its initial value and a zero count |
| SIP3Predictor.SIP3.PredictBranch | PredictionLogic/Prediction/Predictors/SIP3.cs:92-111 | the sum over the levels of the location (address modulo locations) of each weight, negated where the state is negative; taken exactly when non-negative; nothing else changes |
| SIP3Predictor.SIP3.TrainLocation | PredictionLogic/Prediction/Predictors/SIP3.cs:117-165 | at every level of that location the weight moves toward agreeing with the outcome by its old state, and the state takes one inertial step toward the outcome; other locations are untouched |
| SIP3Predictor.SIP3.Update | PredictionLogic/Prediction/Predictors/SIP3.cs:113-204 | the location is trained exactly when the vote was weak or wrong; then, when adaptation is on, the count and threshold follow `Adapt` |
| SIP3Predictor.SIP3.Reset | PredictionLogic/Prediction/Predictors/SIP3.cs:206-219 | zero count, initial threshold, zero states and weights |
| SIP3Predictor.TrainedVoteToward | PredictionLogic/Prediction/Predictors/SIP3.cs:97-165 | under the same states, the trained weights of a location never move the vote away from the outcome |
| FPBNPPredictor.PathDotSnoc | PredictionLogic/Prediction/Predictors/FPBNP.cs:166-177 | one more prediction extends every partial sum by its own term |
| FPBNPPredictor.PathTermsNewest | PredictionLogic/Prediction/Predictors/FPBNP.cs:166-177 | peeling the newest prediction off the path-based sum |
| FPBNPPredictor.PathDotIsPathTerms | PredictionLogic/Prediction/Predictors/FPBNP.cs:160-180 | partial sum k holds one term per each of the last k predictions; the sum read at prediction time is the path-based sum in which the prediction j places back contributes its row's column j |
| FPBNPPredictor.FPBNP.Row | PredictionLogic/Prediction/Predictors/FPBNP.cs:90-171 | the row of the weights, bias first |
| FPBNPPredictor.FPBNP.constructor | PredictionLogic/Prediction/Predictors/FPBNP.cs:82-105 | the arrays of historyLength + 1 and the weight bounds 2^(bits-1) - 1 and -2^(bits-1) |
| FPBNPPredictor.FPBNP.Speculate | PredictionLogic/Prediction/Predictors/FPBNP.cs:166-180 | every partial sum moves up one place, gaining the selected row's weight in the direction of the prediction, and slot 0 restarts at 0 |
| FPBNPPredictor.FPBNP.CopyHistories | PredictionLogic/Prediction/Predictors/FPBNP.cs:153-157 | the copies equal the speculative path and history |
| FPBNPPredictor.FPBNP.ShiftBranchIndex | PredictionLogic/Prediction/Predictors/FPBNP.cs:107-151 | the row index enters the front of the path, the oldest entry dropped |
| FPBNPPredictor.FPBNP.Select | PredictionLogic/Prediction/Predictors/FPBNP.cs:148-157 | the row is the address modulo the number of perceptrons, pushed onto the path, and the copies taken after the push |
| FPBNPPredictor.FPBNP.AdvanceSpeculated | PredictionLogic/Prediction/Predictors/FPBNP.cs:166-180 | the speculative partial sums advance by the selected row in the prediction's direction |
| FPBNPPredictor.FPBNP.AdvanceKnown | PredictionLogic/Prediction/Predictors/FPBNP.cs:193-206 | the known partial sums advance by the selected row in the outcome's direction |
| FPBNPPredictor.FPBNP.Speculation | PredictionLogic/Prediction/Predictors/FPBNP.cs:160-183 | the output is the bias plus the last partial sum; taken when non-negative; the sums advance and the prediction enters the speculative history second |
| FPBNPPredictor.FPBNP.PredictBranch | PredictionLogic/Prediction/Predictors/FPBNP.cs:145-186 | the output is the bias plus the path-based sum over the earlier speculative predictions; taken exactly when non-negative; the path and history are copied before the speculative update |
| FPBNPPredictor.FPBNP.RecordPath | PredictionLogic/Prediction/Predictors/FPBNP.cs:116-209 | the outcome enters the known history at position 1 and the row the known path at the front |
| FPBNPPredictor.FPBNP.Recover | PredictionLogic/Prediction/Predictors/FPBNP.cs:212-220 | the speculative sums, history and path are replaced by the known ones |
| FPBNPPredictor.FPBNP.Resolve | PredictionLogic/Prediction/Predictors/FPBNP.cs:193-220 | the known registers record the outcome; the speculative ones are replaced by them exactly on a misprediction |
| FPBNPPredictor.FPBNP.TrainBias | PredictionLogic/Prediction/Predictors/FPBNP.cs:225-232 | the bias moves one saturating step toward the outcome, nothing else changes |
| FPBNPPredictor.FPBNP.TrainWeights | PredictionLogic/Prediction/Predictors/FPBNP.cs:234-245 | column j of the row j places back on the copied path moves toward agreeing with the copied history bit j; other weights keep their values |
| FPBNPPredictor.FPBNP.Learn | PredictionLogic/Prediction/Predictors/FPBNP.cs:223-246 | the bias and path weights trained, and the learned output does not move away from the outcome |
| FPBNPPredictor.FPBNP.Update | PredictionLogic/Prediction/Predictors/FPBNP.cs:188-247 | the known registers record the branch and the speculative ones recover on a misprediction; on a misprediction or a weak output the bias and the weights along the copied path take their saturating training step and every other weight is kept, otherwise no weight changes |
| FPBNPPredictor.FPBNP.ResetWeights | PredictionLogic/Prediction/Predictors/FPBNP.cs:251-257 | every weight is zero |
| FPBNPPredictor.FPBNP.ResetRegisters | PredictionLogic/Prediction/Predictors/FPBNP.cs:259-268 | both sets of partial sums, histories and paths are zero |
| FPBNPPredictor.FPBNP.Reset | PredictionLogic/Prediction/Predictors/FPBNP.cs:249-269 | every weight and register is zero and no prediction is recorded |
| OGEHLPredictor.LengthsIncrease | PredictionLogic/Prediction/Predictors/OGEHL.cs:48-124 | table 0 hashes the address alone, and the history lengths strictly grow with the table index |
| OGEHLPredictor.HistoryLengthFor | PredictionLogic/Prediction/Predictors/OGEHL.cs:147-151 | a table hashes its own length of history, capped at the global history length |
| OGEHLPredictor.AddressBit | PredictionLogic/Prediction/Predictors/OGEHL.cs:130 | `(address >> i) & 1` is a bit |
| OGEHLPredictor.HashSeed | PredictionLogic/Prediction/Predictors/OGEHL.cs:142-145 | the seed holds the address bits, bit i at position n - i - 1 |
| OGEHLPredictor.Folded | PredictionLogic/Prediction/Predictors/OGEHL.cs:155-158 | folding XORs history bit h onto position h mod n and keeps the bits binary |
| OGEHLPredictor.Unpack | PredictionLogic/Prediction/Predictors/OGEHL.cs:161-164 | the n bits of a number, highest first |
| OGEHLPredictor.PackBelow | PredictionLogic/Prediction/Predictors/OGEHL.cs:160-164 | m packed bits give an index below 2^m |
| OGEHLPredictor.UnpackPack | PredictionLogic/Prediction/Predictors/OGEHL.cs:160-164 | unpacking a packed hash gives back its bits |
| OGEHLPredictor.PackUnpack | PredictionLogic/Prediction/Predictors/OGEHL.cs:160-164 | packing the bits of a number below 2^n gives back the number |
| OGEHLPredictor.PackPrefix | PredictionLogic/Prediction/Predictors/OGEHL.cs:160-164 | packing reads only the bits it packs |
| OGEHLPredictor.TableHash | PredictionLogic/Prediction/Predictors/OGEHL.cs:141-164 | the index of a table is below the table length |
| OGEHLPredictor.TrainedSumToward | PredictionLogic/Prediction/Predictors/OGEHL.cs:176-192 | training every selected counter toward the outcome never moves the sum away from it, and moves it strictly when a counter moved |
| OGEHLPredictor.Adapt | PredictionLogic/Prediction/Predictors/OGEHL.cs:195-218 | corrected adaptation: the threshold rises exactly when a misprediction brings the count to its maximum and falls exactly when a weak correct prediction brings it to its minimum; the count then restarts at 0 and stays in range |
| OGEHLPredictor.AdaptAgrees | PredictionLogic/Prediction/Predictors/OGEHL.cs:195-218 | with two or more adapt bits the count stays strictly inside its range and the code as written agrees with the corrected adaptation |
| OGEHLPredictor.OneAdaptBitNeverRaises | PredictionLogic/Prediction/Predictors/OGEHL.cs:197-204 | with one adapt bit the code as written lets the count step past its maximum 0, so a misprediction never raises the threshold; corrected, it raises it at once |
| OGEHLPredictor.OGEHL.Selected | PredictionLogic/Prediction/Predictors/OGEHL.cs:165 | one selected counter per table |
| OGEHLPredictor.OGEHL.constructor | PredictionLogic/Prediction/Predictors/OGEHL.cs:78-113 | the sizes and thresholds as given, zero counters and history, and the adapt range from the adapt bits |
| OGEHLPredictor.OGEHL.ConvertBranchAddressToBits | PredictionLogic/Prediction/Predictors/OGEHL.cs:126-132 | bit i of the address at position i for the low bits |
| OGEHLPredictor.OGEHL.SeedHash | PredictionLogic/Prediction/Predictors/OGEHL.cs:142-145 | the intermediate hash is the seed |
| OGEHLPredictor.OGEHL.FoldHistory | PredictionLogic/Prediction/Predictors/OGEHL.cs:155-158 | the intermediate hash is folded with the newest bits of the history |
| OGEHLPredictor.OGEHL.PackHash | PredictionLogic/Prediction/Predictors/OGEHL.cs:160-164 | the packed hash is an index inside the table |
| OGEHLPredictor.OGEHL.ComputeTableHash | PredictionLogic/Prediction/Predictors/OGEHL.cs:141-164 | table t's index is its hash of the address and history; other indexes are kept |
| OGEHLPredictor.OGEHL.ComputeSum | PredictionLogic/Prediction/Predictors/OGEHL.cs:138-166 | every table's index is its hash, and the sum is that of the counters they select |
| OGEHLPredictor.OGEHL.AddTable | PredictionLogic/Prediction/Predictors/OGEHL.cs:139-166 | one round adds the next table's selected counter |
| OGEHLPredictor.OGEHL.PredictBranch | PredictionLogic/Prediction/Predictors/OGEHL.cs:134-170 | the indexes are the table hashes, the sum that of the selected counters, taken exactly when the sum is non-negative |
| OGEHLPredictor.OGEHL.Learn | PredictionLogic/Prediction/Predictors/OGEHL.cs:176-192 | each selected counter takes one saturating step toward the outcome, every other counter is kept, and the sum moves toward the outcome |
| OGEHLPredictor.OGEHL.AdaptThreshold | PredictionLogic/Prediction/Predictors/OGEHL.cs:195-218 | when adaptation is on, count and threshold follow the corrected `Adapt`; otherwise they are kept |
| OGEHLPredictor.OGEHL.ShiftHistory | PredictionLogic/Prediction/Predictors/OGEHL.cs:220-233 | the outcome as 0 or 1 enters at position 0 and the oldest bit is dropped |
| OGEHLPredictor.OGEHL.Update | PredictionLogic/Prediction/Predictors/OGEHL.cs:172-234 | on a misprediction or a sum no larger than the threshold in magnitude each selected counter takes its saturating step, otherwise none changes; no unselected counter ever changes; the threshold adapts and the history shifts |
| OGEHLPredictor.OGEHL.ResetWeights | PredictionLogic/Prediction/Predictors/OGEHL.cs:238-244 | every counter is zero |
| OGEHLPredictor.OGEHL.ResetHistory | PredictionLogic/Prediction/Predictors/OGEHL.cs:246-249 | every history bit is zero |
| OGEHLPredictor.OGEHL.Reset | PredictionLogic/Prediction/Predictors/OGEHL.cs:236-253 | zero counters and history, zero count, initial threshold |
| OGEHLPredictor.PrefixSum | PredictionLogic/Prediction/Predictors/OGEHL.cs:165 | a sum over the first k counters reads only those |
| SimulatorProxy.TransmissionCounter.constructor | BranchPredictionSimulator/TCPSimulatorProxy.cs:32 | task IDs start at 1 |
| SimulatorProxy.ClientStep | BranchPredictionSimulator/TCPSimulatorProxy.cs:213-257 | the state changes only for a task request or result while a session is installed; a task request adds one credit exactly when it carries the session's ID |
| SimulatorProxy.TaskRequestEventsAppend | BranchPredictionSimulator/TCPSimulatorProxy.cs:226-230 | one more event adds one task-request event exactly when it is one |
| SimulatorProxy.CreditMatchesEvents | BranchPredictionSimulator/TCPSimulatorProxy.cs:222-237 | the credit gained while receiving equals the task-request events raised, and the events only grow |
| SimulatorProxy.StepCredit | BranchPredictionSimulator/TCPSimulatorProxy.cs:222-252 | one accepted message grows credit and task-request events together |
| SimulatorProxy.ForeignMessagesIgnored | BranchPredictionSimulator/TCPSimulatorProxy.cs:233-251 | messages for other sessions leave the state unchanged |
| SimulatorProxy.TCPSimulatorProxy.constructor | BranchPredictionSimulator/TCPSimulatorProxy.cs:82-90 | disconnected, no session, no credit, nothing sent |
| SimulatorProxy.TCPSimulatorProxy.TryConnect | BranchPredictionSimulator/TCPSimulatorProxy.cs:92-118 | connected exactly when the socket opens and the introduction is written, which is then the one message sent |
| SimulatorProxy.TCPSimulatorProxy.Disconnect | BranchPredictionSimulator/TCPSimulatorProxy.cs:120-139 | disconnected |
| SimulatorProxy.TCPSimulatorProxy.StartNewSession | BranchPredictionSimulator/TCPSimulatorProxy.cs:141-161 | a null session throws and changes nothing; otherwise credit 0 and the session installed whether or not the announcement is written |
| SimulatorProxy.TCPSimulatorProxy.SendSimulationTask | BranchPredictionSimulator/TCPSimulatorProxy.cs:163-190 | without a session nothing happens; otherwise one credit is spent and one task ID consumed, and only a written task is sent and recorded under that ID |
| SimulatorProxy.TCPSimulatorProxy.SendAbortSessionRequest | BranchPredictionSimulator/TCPSimulatorProxy.cs:192-205 | a written request clears the credit; with no session only the tag byte goes out and the credit is kept; a failed write changes nothing |
| SimulatorProxy.TCPSimulatorProxy.HandleConnection | BranchPredictionSimulator/TCPSimulatorProxy.cs:207-274 | the state after the loop is the receive loop over the stream's messages, and the proxy is disconnected afterwards |
| ServerConnection.KeepSession | BranchPredictionSimulatorServer/ConnectionThread.cs:136-147 | the tasks kept are exactly the buffered tasks of that session |
| ServerConnection.PurgeStep | BranchPredictionSimulatorServer/ConnectionThread.cs:141-145 | one dequeue moves the head to the back when it belongs to the session and drops it otherwise |
| ServerConnection.KeepSessionAllMatching | BranchPredictionSimulatorServer/ConnectionThread.cs:136-147 | a buffer holding only that session's tasks is kept whole, in order |
| ServerConnection.KeepSessionIdempotent | BranchPredictionSimulatorServer/ConnectionThread.cs:136-147 | purging twice for the same session is purging once |
| ServerConnection.Repeat | BranchPredictionSimulatorServer/ConnectionThread.cs:131-135 | n copies of a message |
| ServerConnection.ServerStep | BranchPredictionSimulatorServer/ConnectionThread.cs:119-188 | a new session is installed, one task request per worker is sent when the stream is writable, every worker is aborted, and the buffer keeps only the new session's tasks; a task joins the buffer exactly when it is for the current session; an abort for the current session aborts every worker, otherwise nothing; the loop ends exactly on a handled tag whose value does not deserialize; other tags are skipped |
| ServerConnection.UntilClose | BranchPredictionSimulatorServer/ConnectionThread.cs:119 | the loop sees the messages before the close request, no more |
| ServerConnection.BufferBelongsToSession | BranchPredictionSimulatorServer/ConnectionThread.cs:136-156 | after any run of the loop every buffered task belongs to the current session |
| ServerConnection.ConnectionThread.constructor | BranchPredictionSimulatorServer/ConnectionThread.cs:60-81 | one worker per processor, no session, not closing, an empty buffer |
| ServerConnection.ConnectionThread.RequestClosing | BranchPredictionSimulatorServer/ConnectionThread.cs:83-86 | the close flag is set |
| ServerConnection.ConnectionThread.SendTaskRequest | BranchPredictionSimulatorServer/ConnectionThread.cs:232-253 | without a session or on a failed write nothing is sent; otherwise one task request for the current session |
| ServerConnection.ConnectionThread.SendResult | BranchPredictionSimulatorServer/ConnectionThread.cs:202-230 | without a session or on a failed write nothing is sent; otherwise the result stamped with the current session |
| ServerConnection.ConnectionThread.PurgeTaskBuffer | BranchPredictionSimulatorServer/ConnectionThread.cs:136-147 | the buffer keeps exactly that session's tasks, in order |
| ServerConnection.ConnectionThread.HandleMessage | BranchPredictionSimulatorServer/ConnectionThread.cs:121-188 | one loop pass changes the state as `ServerStep` says, and an exception changes nothing |
| ServerConnection.ConnectionThread.HandleConnection | BranchPredictionSimulatorServer/ConnectionThread.cs:88-200 | the connection is accepted exactly when the first message is a client name that deserializes; a refused one changes nothing; an accepted one records the name and runs the loop over the messages before the close request |
| CBP2.AsUint | PredictionLogic/Prediction/BenchmarksAndReaders/CBP2/CBP2Reader.cs:89-92 | a byte read past the end of the stream becomes all ones, any real byte stays below 0x100 |
| CBP2.WordBytes | PredictionLogic/Prediction/BenchmarksAndReaders/CBP2/CBP2Reader.cs:87-94 | the four little-endian byte values of a 32-bit word, each below 0x100 |
| CBP2.ReadWordBytes | PredictionLogic/Prediction/BenchmarksAndReaders/CBP2/CBP2Reader.cs:87-94 | assembling a word's four bytes with readUint's shifts gives the word back |
| CBP2.WordBytesOfRead | PredictionLogic/Prediction/BenchmarksAndReaders/CBP2/CBP2Reader.cs:87-94 | splitting the word readUint assembles gives the four bytes back, so the decoding is one to one |
| CBP2.ReadPastEnd | PredictionLogic/Prediction/BenchmarksAndReaders/CBP2/CBP2Reader.cs:87-94 | a word cut short by the end of the stream carries 0xFF in its top byte |
| CBP2.ClassFlagsCases | PredictionLogic/Prediction/BenchmarksAndReaders/CBP2/CBP2Reader.cs:288-315 | the switch gives a branch exactly for classes 1 to 7; only classes 1 and 2 are conditional and only class 7 is a return |
| CBP2.AdjustedWraps | PredictionLogic/Prediction/BenchmarksAndReaders/CBP2/CBP2Reader.cs:196-248 | the +2 and -3 escape offsets wrap in 32 bits (0 minus 3 is 0xFFFFFFFD, 0xFFFFFFFF plus 2 is 1) |
| CBP2.CountMiss | PredictionLogic/Prediction/BenchmarksAndReaders/CBP2/CBP2Reader.cs:284-287 | the miss counter of the record's class goes up by one and every other counter is unchanged; a class outside 0..7 changes nothing |
| CBP2.CountMissAgrees | PredictionLogic/Prediction/BenchmarksAndReaders/CBP2/CBP2Reader.cs:284-287 | the counter update as written fails exactly for a class outside 0..7 and otherwise equals the corrected one |
| CBP2.EscapedHighByteThrows | PredictionLogic/Prediction/BenchmarksAndReaders/CBP2/CBP2Reader.cs:283-287 | after an escape byte 0x82, the byte 0x90 is decoded as a miss of class 9, whose counter index is out of range, where the switch means to give no branch |
| CBP2.Tick | PredictionLogic/Prediction/BenchmarksAndReaders/CBP2/CBP2Reader.cs:46-60 | the clock advances by one modulo 2^32 |
| CBP2.LruWay | PredictionLogic/Prediction/BenchmarksAndReaders/CBP2/CBP2Reader.cs:51-58 | the way a miss replaces has the smallest time stamp, and it is the first way with that stamp |
| CBP2.RememberedChanges | PredictionLogic/Prediction/BenchmarksAndReaders/CBP2/CBP2Reader.cs:42-63 | a hit re-stamps only its own way with the clock; a miss writes the branch with the clock into the LRU way; every other way is unchanged |
| CBP2.WayOf | PredictionLogic/Prediction/BenchmarksAndReaders/CBP2/CBP2Reader.cs:218-222 | the way a hit byte names is the byte modulo the associativity (byte - 8 when the stack predicted the target) |
| CBP2.RecalledMatches | PredictionLogic/Prediction/BenchmarksAndReaders/CBP2/CBP2Reader.cs:223-253 | the copy of a remembered way always passes the equality check that follows a hit, the target included unless the stack supplied it, so that check never ends the decoding |
| CBP2.Popped | PredictionLogic/Prediction/BenchmarksAndReaders/CBP2/CBP2Reader.cs:78-85 | a pop removes one element from a non-empty stack and leaves an empty one empty |
| CBP2.PopPushed | PredictionLogic/Prediction/BenchmarksAndReaders/CBP2/CBP2Reader.cs:70-85 | popping after a push that fitted returns the pushed address and restores the stack |
| CBP2.AdjustedAgrees | PredictionLogic/Prediction/BenchmarksAndReaders/CBP2/CBP2Reader.cs:271-279 | a target corrected by one escape offset is one the miss-path stack check accepts |
| CBP2.Opcode | PredictionLogic/Prediction/BenchmarksAndReaders/CBP2/CBP2Reader.cs:282 | the opcode is the low nibble of the record code |
| CBP2.BranchOfClass | PredictionLogic/Prediction/BenchmarksAndReaders/CBP2/CBP2Reader.cs:282-315 | a record gives a branch exactly for codes 0x10 to 0x7F; its flags are its class's, its opcode the code's low nibble, its addresses the record's, taken except for class 2, and conditional exactly below 0x30 |
| CBP2.BlankMemory | PredictionLogic/Prediction/BenchmarksAndReaders/CBP2/CBP2Reader.cs:134-140 | the cleared memory has every line and every way, all blank |
| CBP2.MemoryShapeUpdate | PredictionLogic/Prediction/BenchmarksAndReaders/CBP2/CBP2Reader.cs:42-63 | replacing one line with a full line keeps the memory's shape |
| CBP2.CBP2Reader.constructor | PredictionLogic/Prediction/BenchmarksAndReaders/CBP2/CBP2Reader.cs:98-116 | a new reader has no input, a blank memory, a zeroed clock and last target, and a stack array whose top index is 0 |
| CBP2.CBP2Reader.OpenTrace | PredictionLogic/Prediction/BenchmarksAndReaders/CBP2/CBP2Reader.cs:120-150 | opening succeeds exactly when the file is there; then the input is the file from its start, every way is blank, the counters are zero, the stack is empty and the clock is 0; a failed open changes nothing |
| CBP2.CBP2Reader.ClearMemory | PredictionLogic/Prediction/BenchmarksAndReaders/CBP2/CBP2Reader.cs:134-140 | every way of every line becomes blank |
| CBP2.CBP2Reader.ClearClassCounts | PredictionLogic/Prediction/BenchmarksAndReaders/CBP2/CBP2Reader.cs:141-144 | all eight per-class miss counters become 0 |
| CBP2.CBP2Reader.InitReturnAddressStack | PredictionLogic/Prediction/BenchmarksAndReaders/CBP2/CBP2Reader.cs:65-68 | the return-address stack becomes empty |
| CBP2.CBP2Reader.PushReturnAddressStack | PredictionLogic/Prediction/BenchmarksAndReaders/CBP2/CBP2Reader.cs:70-76 | the address goes on top of the stack unless it is full, when the push is dropped |
| CBP2.CBP2Reader.PopReturnAddressStack | PredictionLogic/Prediction/BenchmarksAndReaders/CBP2/CBP2Reader.cs:78-85 | returns the top address and removes it; an empty stack gives 0 and stays empty |
| CBP2.CBP2Reader.ReadByte | PredictionLogic/Prediction/BenchmarksAndReaders/CBP2/CBP2Reader.cs:154-158 | the next input byte and one step forward, or -1 and no move at the end of the stream |
| CBP2.CBP2Reader.ReadUint | PredictionLogic/Prediction/BenchmarksAndReaders/CBP2/CBP2Reader.cs:87-94 | with four bytes left, the little-endian word at the position and four steps forward |
| CBP2.CBP2Reader.UpdateRemember | PredictionLogic/Prediction/BenchmarksAndReaders/CBP2/CBP2Reader.cs:42-63 | the line is re-stamped on a hit or has its LRU way replaced on a miss, the clock ticks, the branch's target becomes the last target and a miss is marked as stored |
| CBP2.CBP2Reader.ReadRecordByte | PredictionLogic/Prediction/BenchmarksAndReaders/CBP2/CBP2Reader.cs:154-213 | the record byte after an optional 0x87 count prefix and an optional 0x82/0x83 escape, with the escape reported; -1 at the end of the stream or on a top-bit byte that is no escape |
| CBP2.CBP2Reader.DecodeHit | PredictionLogic/Prediction/BenchmarksAndReaders/CBP2/CBP2Reader.cs:216-260 | a hit repeats the named way of the line selected by the last target, a return pops the stack and takes the popped address (adjusted by the escape) as target when the stack predicted it, and the way is re-stamped |
| CBP2.CBP2Reader.DecodeMiss | PredictionLogic/Prediction/BenchmarksAndReaders/CBP2/CBP2Reader.cs:261-281 | a miss reads address and target as two words, is taken, pops the stack on a return and keeps it only when the popped address agrees with the target, and replaces the LRU way |
| CBP2.CBP2Reader.DecodeRecord | PredictionLogic/Prediction/BenchmarksAndReaders/CBP2/CBP2Reader.cs:215-281 | a byte below 16 is a hit and one from 16 a miss; the memory line, clock and last target are updated accordingly; only a return touches the stack, which a hit pops when its byte says the stack predicted the target and a miss pops when the popped address agrees with the target, the stack being emptied otherwise |
| CBP2.CBP2Reader.CountClassMiss | PredictionLogic/Prediction/BenchmarksAndReaders/CBP2/CBP2Reader.cs:284-287 | the miss counters become CountMiss of the old counters for the class |
| CBP2.CBP2Reader.PushReturnAddressOf | PredictionLogic/Prediction/BenchmarksAndReaders/CBP2/CBP2Reader.cs:302-310 | a call or indirect call pushes the address after it (address + 5 or + 2); any other class leaves the stack alone |
| CBP2.CBP2Reader.Classify | PredictionLogic/Prediction/BenchmarksAndReaders/CBP2/CBP2Reader.cs:282-319 | the branch is BranchOf the decoded record, a miss is counted under its class, a call pushes its return address, and the branch count rises exactly when a branch is returned |
| CBP2.CBP2Reader.ReadRecord | PredictionLogic/Prediction/BenchmarksAndReaders/CBP2/CBP2Reader.cs:152-281 | no branch and no move at the end of the stream; otherwise the decoded record, the memory line it updates, the clock tick, for a miss the address and target words that follow the record byte, and for a return the pop or the emptying of the stack |
| CBP2.CBP2Reader.GetNextBranch | PredictionLogic/Prediction/BenchmarksAndReaders/CBP2/CBP2Reader.cs:152-320 | the next branch of the trace: none and no change but the position when no record is read; for a decoded record, whether its class gives a branch or not, a hit repeats its remembered way and a miss reads its words, the memory and clock are updated, a miss is counted under its class, a call pushes its return address, a return pops or empties the stack, and nothing else touches the stack |
| MTAGESC.SByte | PredictionLogic/Prediction/Predictors/MTAGESC.cs:668 | the (sbyte) cast: a value in the sbyte range, equal to its argument when that is already in range |
| MTAGESC.SaturatedCounterUpdate | PredictionLogic/Prediction/Predictors/MTAGESC.cs:156-174 | the counter after one saturating step of the given width, still an sbyte |
| MTAGESC.SaturatedCounterUpdateWithReport | PredictionLogic/Prediction/Predictors/MTAGESC.cs:176-196 | the same step, and the report is true exactly when the counter was at a bound both before and after it |
| MTAGESC.SteppedWithinRange | PredictionLogic/Prediction/Predictors/MTAGESC.cs:156-174 | for widths 1 to 8 a step keeps the counter in range and moves it by exactly one toward the outcome, except at the bound on that side |
| MTAGESC.ReportMeansSaturatedTowardOutcome | PredictionLogic/Prediction/Predictors/MTAGESC.cs:176-196 | for widths 2 to 8 the report holds exactly when the counter already sat at the bound on the outcome's side |
| MTAGESC.SaturatesAfterEnoughUpdates | PredictionLogic/Prediction/Predictors/MTAGESC.cs:156-174 | k steps in one direction give the start moved k places, clamped at the bound, so 2^n - 1 steps saturate any counter |
| MTAGESC.HistoryRollingHash.constructor | PredictionLogic/Prediction/Predictors/MTAGESC.cs:201-206 | a new hash object has every field 0 |
| MTAGESC.HistoryRollingHash.Init | PredictionLogic/Prediction/Predictors/MTAGESC.cs:208-214 | the hash is 0, the lengths are stored and the leaving entry's bit is the history length modulo the compressed length |
| MTAGESC.HistoryRollingHash.Update | PredictionLogic/Prediction/Predictors/MTAGESC.cs:216-222 | the hash becomes one folding step over the newest entry and the one leaving the window, and stays below 2^compressedLengthBits; the lengths are kept |
| MTAGESC.HistoryRollingHash.Reset | PredictionLogic/Prediction/Predictors/MTAGESC.cs:224-227 | the hash is 0 and nothing else changes |
| MTAGESC.Folded | PredictionLogic/Prediction/Predictors/MTAGESC.cs:218-221 | a folding step never leaves a bit at or above the compressed length |
| MTAGESC.WindowAt | PredictionLogic/Prediction/Predictors/MTAGESC.cs:257-265 | entry k of the path window is the k-th most recent inserted value, or 0 before there were that many |
| MTAGESC.WindowPrefix | PredictionLogic/Prediction/Predictors/MTAGESC.cs:257-265 | a shorter window is a prefix of a longer one |
| MTAGESC.RecentAfterInsert | PredictionLogic/Prediction/Predictors/MTAGESC.cs:247-255 | stepping the pointer back and writing there puts the new value first and drops the oldest from the circular view |
| MTAGESC.PathHistory.constructor | PredictionLogic/Prediction/Predictors/MTAGESC.cs:236-245 | a zero-filled buffer of the given length with the pointer at 0 and nothing inserted |
| MTAGESC.PathHistory.Insert | PredictionLogic/Prediction/Predictors/MTAGESC.cs:247-255 | the pointer steps back one place cyclically, only that slot is overwritten with the value, and the value is recorded as the newest insert |
| MTAGESC.PathHistory.GetValueAt | PredictionLogic/Prediction/Predictors/MTAGESC.cs:257-265 | for a position below the length, the value inserted that many inserts ago, or 0 when fewer were inserted |
| MTAGESC.RotateLeft | PredictionLogic/Prediction/Predictors/MTAGESC.cs:291-296 | the rotated value fits in the compressed length |
| MTAGESC.RotateLeftRotates | PredictionLogic/Prediction/Predictors/MTAGESC.cs:291-296 | on a value of c bits, rotateleft by k moves the low c - k bits up by k and brings the top k bits round to the bottom |
| MTAGESC.RotateLeftInverse | PredictionLogic/Prediction/Predictors/MTAGESC.cs:291-296 | rotating a c-bit value by k and then by c - k gives it back |
| MTAGESC.PathHistoryRollingHash.constructor | PredictionLogic/Prediction/Predictors/MTAGESC.cs:280-289 | the lengths are stored, the leaving entry's rotation is the path length modulo the compressed length, the two masks are set and the hash is 0 |
| MTAGESC.PathHistoryRollingHash.Update | PredictionLogic/Prediction/Predictors/MTAGESC.cs:298-305 | the hash is rotated by one and XORed with the masked newest address and the masked address leaving the window, rotated to where it entered; it stays within the compressed length when no more bits are injected |
| MTAGESC.PathHistoryRollingHash.Reset | PredictionLogic/Prediction/Predictors/MTAGESC.cs:307-310 | the hash is 0 |
| MTAGESC.LargestIsMaximum | PredictionLogic/Prediction/Predictors/MTAGESC.cs:516-522 | the maximum frequency kept is the largest frequency seen, and 0 when none was positive |
| MTAGESC.ThresholdsDecrease | PredictionLogic/Prediction/Predictors/MTAGESC.cs:496-514 | each bin's threshold halves the previous one, so a frequency that reaches a bin reaches every later bin |
| MTAGESC.FrequencyBins.constructor | PredictionLogic/Prediction/Predictors/MTAGESC.cs:485-488 | a new object has no bins and a maximum of 0 |
| MTAGESC.FrequencyBins.Init | PredictionLogic/Prediction/Predictors/MTAGESC.cs:490-494 | the number of bins is stored and the maximum frequency is 0 |
| MTAGESC.FrequencyBins.Find | PredictionLogic/Prediction/Predictors/MTAGESC.cs:496-514 | the first bin whose threshold the frequency reaches, or the last bin when it reaches none; -1 when there are no bins |
| MTAGESC.FrequencyBins.Update | PredictionLogic/Prediction/Predictors/MTAGESC.cs:516-522 | the maximum frequency becomes the larger of the old maximum and the frequency |
| MTAGESC.Packed | PredictionLogic/Prediction/Predictors/MTAGESC.cs:325-333 | the packed predictions fit in as many bits as there are predictions |
| MTAGESC.PackedBit | PredictionLogic/Prediction/Predictors/MTAGESC.cs:325-333 | bit \|bits\| - 1 - i of the packed index is prediction i |
| MTAGESC.PackedInjective | PredictionLogic/Prediction/Predictors/MTAGESC.cs:325-333 | two prediction vectors of one length with the same index are equal, so each counter belongs to one combination |
| MTAGESC.PackOneMore | PredictionLogic/Prediction/Predictors/MTAGESC.cs:328-331 | each loop step doubles the index and adds the next prediction |
| MTAGESC.AppendBit | PredictionLogic/Prediction/Predictors/MTAGESC.cs:330 | the shift and OR append one bit while the index has fewer than 31 bits |
| MTAGESC.InitialLeaning | PredictionLogic/Prediction/Predictors/MTAGESC.cs:319-323 | an index lands in the upper half of the table, whose counters start at 1, exactly when the first prediction is taken |
| MTAGESC.ColtEntry.constructor | PredictionLogic/Prediction/Predictors/MTAGESC.cs:315-323 | the 64 counters start at 1 in the upper half of the table and at -2 in the lower half |
| MTAGESC.ColtEntry.ComposeIndex | PredictionLogic/Prediction/Predictors/MTAGESC.cs:325-333 | the first six predictions packed first-is-highest into an index below 64 |
| MTAGESC.ColtEntry.Ctr | PredictionLogic/Prediction/Predictors/MTAGESC.cs:335-339 | the counter the six predictions select, within the 5-bit range |
| MTAGESC.ColtEntry.Update | PredictionLogic/Prediction/Predictors/MTAGESC.cs:341-345 | the selected counter takes one saturating 5-bit step toward the outcome and every other counter is unchanged |
| MTAGESC.AgeingStopsAtZero | PredictionLogic/Prediction/Predictors/MTAGESC.cs:651-663 | repeated ageing lowers a non-negative useful counter by one per pass down to 0 and leaves the tag and the prediction counter alone |
| MTAGESC.AllocatedEntryIsWeak | PredictionLogic/Prediction/Predictors/MTAGESC.cs:665-670 | a freshly allocated entry predicts the outcome it was allocated for, and for any counter width from 1 to 8 one step the other way turns its prediction around |
| MTAGESC.Tage.constructor | PredictionLogic/Prediction/Predictors/MTAGESC.cs:566-594 | numberOfTables tagged tables of 2^taggedTableLengthBits zeroed entries each |
| MTAGESC.Tage.DecrementAllUsefulBits | PredictionLogic/Prediction/Predictors/MTAGESC.cs:651-663 | every entry of every table has its positive useful counter lowered by one; tags and counters stay |
| MTAGESC.Tage.DecrementRow | PredictionLogic/Prediction/Predictors/MTAGESC.cs:655-661 | the inner loop ages every entry of one table and no other |
| MTAGESC.Tage.AllocateEntry | PredictionLogic/Prediction/Predictors/MTAGESC.cs:665-670 | the entry last looked up in the table gets the tag, the counter 0 for taken or -1 for not taken, and a useful counter of 0; nothing else changes |
| MTAGESC.MTAGESCPredictor.constructor | PredictionLogic/Prediction/Predictors/MTAGESC.cs:2132-2135 | the constructor creates no pipeline |
| MTAGESC.MTAGESCPredictor.PredictBranch | PredictionLogic/Prediction/Predictors/MTAGESC.cs:2137-2140 | the pipeline's prediction, or a null-reference failure when there is no pipeline |
| MTAGESC.MTAGESCPredictor.Update | PredictionLogic/Prediction/Predictors/MTAGESC.cs:2142-2146 | the branch is handed on with its conditional flag, or a null-reference failure when there is no pipeline |
| MTAGESC.MTAGESCPredictor.Reset | PredictionLogic/Prediction/Predictors/MTAGESC.cs:2148-2151 | afterwards there is a pipeline |
| MTAGESC.PredictsOnlyAfterReset | PredictionLogic/Prediction/Predictors/MTAGESC.cs:2132-2151 | a new predictor fails on its first prediction and predicts only after a reset |
| TAGEPredictor.ToShort | PredictionLogic/Prediction/Predictors/TAGE.cs:208 | the (short) cast of a 16-bit pattern: in the short range, equal to the pattern or the pattern minus 2^16 |
| TAGEPredictor.RollStep | PredictionLogic/Prediction/Predictors/TAGE.cs:553-559 | one step of the rolling hash stays below 2^compressedLengthBits |
| TAGEPredictor.RollStepZero | PredictionLogic/Prediction/Predictors/TAGE.cs:553-564 | over a history of zeros a zero hash stays zero, so the reset state is consistent |
| TAGEPredictor.HistoryRollingHash.constructor | PredictionLogic/Prediction/Predictors/TAGE.cs:546-552 | the hash is 0, the lengths are stored and the leaving bit's position is the history length modulo the width |
| TAGEPredictor.HistoryRollingHash.Update | PredictionLogic/Prediction/Predictors/TAGE.cs:553-559 | the hash becomes one rolling step over the newest bit and the bit at historyLength, and keeps its width |
| TAGEPredictor.HistoryRollingHash.Reset | PredictionLogic/Prediction/Predictors/TAGE.cs:561-564 | the hash is 0 |
| TAGEPredictor.BimodalIndex | PredictionLogic/Prediction/Predictors/TAGE.cs:171-174 | the bimodal index is below the bimodal table length |
| TAGEPredictor.TaggedIndex | PredictionLogic/Prediction/Predictors/TAGE.cs:187-201 | the tagged-table index is below the table length |
| TAGEPredictor.TagWidthsBounded | PredictionLogic/Prediction/Predictors/TAGE.cs:154-208 | when the last table's narrower tag hash is at least one bit wide, every tag is 2 to 16 bits wide and tags narrow by one bit every two tables |
| TAGEPredictor.ZeroWidthTagHash | PredictionLogic/Prediction/Predictors/TAGE.cs:154-156 | three tables with two tag bits give table 1 a zero-bit tag hash, whose constructor (line 550) then divides by zero |
| TAGEPredictor.TableTag | PredictionLogic/Prediction/Predictors/TAGE.cs:205-209 | a table's tag fits that table's tag width |
| TAGEPredictor.SaturatedCounterUpdate | PredictionLogic/Prediction/Predictors/TAGE.cs:211-225 | the counter moves at most one step toward the outcome, moves exactly when it is not at that side's bound, and stays in its signed range |
| TAGEPredictor.WeakIsCentered | PredictionLogic/Prediction/Predictors/TAGE.cs:266-267 | \|2 counter + 1\| == 1 holds exactly for the counters 0 and -1 |
| TAGEPredictor.UsefulAnd | PredictionLogic/Prediction/Predictors/TAGE.cs:436 | masking a useful counter never raises it |
| TAGEPredictor.UsefulAndBoth | PredictionLogic/Prediction/Predictors/TAGE.cs:428-437 | two periodic resets in a row, one with each mask, clear any useful counter |
| TAGEPredictor.MinimumUsefulness | PredictionLogic/Prediction/Predictors/TAGE.cs:381-389 | the least useful counter among the tables with longer history than the provider, capped at 3 |
| TAGEPredictor.TrailingOnesBelow | PredictionLogic/Prediction/Predictors/TAGE.cs:400-406 | masked random bits below 2^r have at most r trailing ones |
| TAGEPredictor.StartTable | PredictionLogic/Prediction/Predictors/TAGE.cs:398-406 | the allocation search starts at a table with longer history than the provider, never below table 0 |
| TAGEPredictor.AllocationTable | PredictionLogic/Prediction/Predictors/TAGE.cs:407-416 | the first table at or below the start, searching down, whose candidate has the minimum usefulness; none when no such table |
| TAGEPredictor.NewEntryFresh | PredictionLogic/Prediction/Predictors/TAGE.cs:411-413 | a newly allocated entry looks freshly allocated and predicts the outcome |
| TAGEPredictor.NextRandom | PredictionLogic/Prediction/Predictors/TAGE.cs:333-338 | the random seed stays below 2^(2 numberOfTables) |
| TAGEPredictor.FirstMatchIsFirst | PredictionLogic/Prediction/Predictors/TAGE.cs:239-254 | the provider search stops at the first table whose entry carries its tag and passes over none that does |
| TAGEPredictor.HistoryLengths | PredictionLogic/Prediction/Predictors/TAGE.cs:129-143 | the first table has the longest history, the last the shortest (adjusted below the longest), the middle ones the geometric series, all within the global history |
| TAGEPredictor.NewPredictorHashes | PredictionLogic/Prediction/Predictors/TAGE.cs:145-157 | every table gets a new zero index hash and two zero tag hashes of the table's history length |
| TAGEPredictor.NewHashes | PredictionLogic/Prediction/Predictors/TAGE.cs:145-157 | one new zero rolling hash per table with that table's history length and width |
| TAGEPredictor.NewTables | PredictionLogic/Prediction/Predictors/TAGE.cs:133-169 | a zero global history, zero indexes, a bimodal table predicting not taken with the hysteresis set, and zero tagged tables |
| TAGEPredictor.BimodalStepCounter | PredictionLogic/Prediction/Predictors/TAGE.cs:297-331 | each bimodal entry acts as a 2-bit counter with shared hysteresis: a correct prediction saturates it toward the outcome, a wrong one steps it by one; only the entry's prediction bit and the hysteresis bit of entry i/4 change |
| TAGEPredictor.ProviderStepInRange | PredictionLogic/Prediction/Predictors/TAGE.cs:447-470 | training the provider keeps its tag and keeps its counter and its useful counter in range |
| TAGEPredictor.AllocationEffectBelowProvider | PredictionLogic/Prediction/Predictors/TAGE.cs:377-420 | allocation never touches the provider or shorter-history tables; with no free candidate every candidate ages by one, otherwise at most one candidate is replaced |
| TAGEPredictor.AllocationDue | PredictionLogic/Prediction/Predictors/TAGE.cs:347-361 | an allocation happens only on a misprediction by a table other than 0, and always when no table hit |
| TAGEPredictor.TrustStep | PredictionLogic/Prediction/Predictors/TAGE.cs:358-376 | the trust counter moves at most one step within its signed range, up only when a fresh provider disagreed with a correct alternate and down only when it disagreed with a wrong one |
| TAGEPredictor.UsefulResetMask | PredictionLogic/Prediction/Predictors/TAGE.cs:423-431 | a periodic reset, when due, uses the mask 1 or 2 |
| TAGEPredictor.MaybeResetInRange | PredictionLogic/Prediction/Predictors/TAGE.cs:433-436 | a reset keeps the tag and counter and never raises the useful counter |
| TAGEPredictor.NextPathHistory | PredictionLogic/Prediction/Predictors/TAGE.cs:485-486 | the path history stays within its length in bits |
| TAGEPredictor.ShiftInNewest | PredictionLogic/Prediction/Predictors/TAGE.cs:474-484 | the newest bit goes in front and every other history bit moves one place back |
| TAGEPredictor.StoreIndexes | PredictionLogic/Prediction/Predictors/TAGE.cs:232-235 | the computed indexes are stored entry by entry |
| TAGEPredictor.RollTables | PredictionLogic/Prediction/Predictors/TAGE.cs:487-492 | each table's index hash and both tag hashes roll over the new history |
| TAGEPredictor.RollRow | PredictionLogic/Prediction/Predictors/TAGE.cs:487-492 | every hash of one row rolls over the history |
| TAGEPredictor.ClearAll | PredictionLogic/Prediction/Predictors/TAGE.cs:507-516 | every hash of the row is 0 |
| TAGEPredictor.ResetUsefulBits | PredictionLogic/Prediction/Predictors/TAGE.cs:428-437 | every useful counter of every table is masked; counters stay in range |
| TAGEPredictor.ResetUsefulRow | PredictionLogic/Prediction/Predictors/TAGE.cs:432-436 | every useful counter of one table is masked and no other table changes |
| TAGEPredictor.FillTagged | PredictionLogic/Prediction/Predictors/TAGE.cs:524-532 | every tagged entry becomes the given entry |
| TAGEPredictor.FillBytes | PredictionLogic/Prediction/Predictors/TAGE.cs:503-506 | every history byte becomes the given value |
| TAGEPredictor.FillBimodal | PredictionLogic/Prediction/Predictors/TAGE.cs:518-522 | every bimodal entry becomes the given entry |
| TAGEPredictor.AgeEntries | PredictionLogic/Prediction/Predictors/TAGE.cs:392-395 | the selected entry of each table below the provider loses one useful step; nothing else changes |
| TAGEPredictor.TAGE.Candidates | PredictionLogic/Prediction/Predictors/TAGE.cs:237-254 | one selected entry per tagged table |
| TAGEPredictor.TAGE.ComputeTaggedTableIndex | PredictionLogic/Prediction/Predictors/TAGE.cs:187-201 | the index into a tagged table is below its length |
| TAGEPredictor.TAGE.ComputeTableTag | PredictionLogic/Prediction/Predictors/TAGE.cs:205-209 | the table's tag fits its width |
| TAGEPredictor.TAGE.TableIndexes | PredictionLogic/Prediction/Predictors/TAGE.cs:232-235 | one in-range index per tagged table |
| TAGEPredictor.TAGE.TableTags | PredictionLogic/Prediction/Predictors/TAGE.cs:239-254 | one tag per tagged table |
| TAGEPredictor.TAGE.constructor | PredictionLogic/Prediction/Predictors/TAGE.cs:114-169 | the history lengths run from the longest to the (adjusted) shortest with the geometric series between, all tables and the history are zero, the bimodal table predicts not taken with hysteresis set, and every hash is new and zero |
| TAGEPredictor.TAGE.ComputeIndexes | PredictionLogic/Prediction/Predictors/TAGE.cs:232-235 | the stored indexes are those of the branch and the path history |
| TAGEPredictor.TAGE.FindHit | PredictionLogic/Prediction/Predictors/TAGE.cs:239-254 | the first table from the start whose selected entry carries the branch's tag |
| TAGEPredictor.TAGE.Lookup | PredictionLogic/Prediction/Predictors/TAGE.cs:237-285 | provider, alternate and both predictions follow the lookup rule, the fresh-entry rule with the trust counter included |
| TAGEPredictor.TAGE.SetLookup | PredictionLogic/Prediction/Predictors/TAGE.cs:237-285 | the lookup's indexes and predictions are stored and the trust counter is unchanged |
| TAGEPredictor.TAGE.PredictConditional | PredictionLogic/Prediction/Predictors/TAGE.cs:228-285 | for a conditional branch the indexes, the bimodal index and the lookup result are those of the address |
| TAGEPredictor.TAGE.PredictBranch | PredictionLogic/Prediction/Predictors/TAGE.cs:226-290 | a conditional branch is predicted by the provider (or the alternate for a fresh entry while the trust counter is not negative), else by the bimodal table; any other branch is predicted taken; no counter changes |
| TAGEPredictor.TAGE.UpdateRandom | PredictionLogic/Prediction/Predictors/TAGE.cs:333-338 | the seed steps once and is returned; nothing else changes |
| TAGEPredictor.TAGE.FindMinimumUsefulness | PredictionLogic/Prediction/Predictors/TAGE.cs:381-389 | the minimum usefulness among the candidates with longer history than the provider |
| TAGEPredictor.TAGE.AgeCandidates | PredictionLogic/Prediction/Predictors/TAGE.cs:390-396 | every candidate with longer history than the provider ages by one; no other entry changes |
| TAGEPredictor.TAGE.ChooseStartTable | PredictionLogic/Prediction/Predictors/TAGE.cs:398-406 | the start table counted down from the table above the provider by the trailing ones of the random bits |
| TAGEPredictor.TAGE.AllocateFrom | PredictionLogic/Prediction/Predictors/TAGE.cs:407-416 | the first candidate at or below the start table with usefulness 0 gets a new entry, if there is one; nothing else changes |
| TAGEPredictor.TAGE.UpdateBimodalPredictor | PredictionLogic/Prediction/Predictors/TAGE.cs:297-331 | the bimodal table after one 2-bit step with shared hysteresis at the last lookup's index |
| TAGEPredictor.TAGE.UpdateProvider | PredictionLogic/Prediction/Predictors/TAGE.cs:440-470 | the provider's counter (or the bimodal entry when no table hit) steps toward the outcome and its useful counter moves when the two predictions differed |
| TAGEPredictor.TAGE.Allocate | PredictionLogic/Prediction/Predictors/TAGE.cs:377-420 | the candidates age when none is free, else the first free one from the random start gets a new entry |
| TAGEPredictor.TAGE.PeriodicReset | PredictionLogic/Prediction/Predictors/TAGE.cs:422-438 | when due, every useful counter in every table is masked |
| TAGEPredictor.TAGE.UpdateTables | PredictionLogic/Prediction/Predictors/TAGE.cs:377-470 | the candidates after the due allocation, the periodic reset and the provider step; the bimodal table changes only when no table hit |
| TAGEPredictor.TAGE.ResetAndTrain | PredictionLogic/Prediction/Predictors/TAGE.cs:422-470 | the candidates after the periodic reset and the provider step |
| TAGEPredictor.TAGE.RollHistories | PredictionLogic/Prediction/Predictors/TAGE.cs:474-492 | the newest bit is shifted into the history and every hash rolls over it |
| TAGEPredictor.TAGE.TablesRollable | PredictionLogic/Prediction/Predictors/TAGE.cs:145-157 | every hash reads a position inside the global history and is its own object |
| TAGEPredictor.TAGE.UpdateConditional | PredictionLogic/Prediction/Predictors/TAGE.cs:345-470 | the reset counter steps, the trust counter and candidates change as TrustStep and CandidatesUpdated say, every other tagged entry only takes the periodic reset, the bimodal table steps exactly when no table hit, the lookup state is kept |
| TAGEPredictor.TAGE.UpdateHistories | PredictionLogic/Prediction/Predictors/TAGE.cs:474-492 | the outcome goes into the global history and the address bit into the path history; tables and counters stay |
| TAGEPredictor.TAGE.ShiftPathHistory | PredictionLogic/Prediction/Predictors/TAGE.cs:485-486 | the path history becomes NextPathHistory of the old one and the address |
| TAGEPredictor.TAGE.Update | PredictionLogic/Prediction/Predictors/TAGE.cs:340-493 | the random seed steps; a conditional branch updates trust counter and candidates as specified, resets the other tagged entries periodically, steps the bimodal table exactly when no table hit and steps the reset counter, other branches leave the tables alone; the history and path history shift in the outcome and the address bit and every history hash rolls over the new history |
| TAGEPredictor.TAGE.Reset | PredictionLogic/Prediction/Predictors/TAGE.cs:498-535 | seed, counters and both histories are 0, every hash is 0, the bimodal table predicts not taken with hysteresis set and every tagged entry is zero |
| TAGEPredictor.TAGE.ResetTables | PredictionLogic/Prediction/Predictors/TAGE.cs:518-534 | the bimodal and tagged tables as after construction |
| TAGEPredictor.TAGE.ResetHistories | PredictionLogic/Prediction/Predictors/TAGE.cs:503-516 | the global history and every hash are 0 |

## Left out

- Threads, locks, the dispatcher and events: the worker threads, the `lock` blocks and the
  result and "filled" events are modelled as sequential atomic steps. An event raised is
  recorded in a ghost log or a returned flag.
- Sockets and serialization: messages are a datatype keyed by the tags of
  PredictionLogic/CommunicationProtocol/TrasmissionFlags.cs. The byte format of the binary
  serializer is not visible, so each send and receive is a parameter that may fail.
- ServerConnection.ServerStep: a frame is received whole. The source's default case skips
  only the unknown tag byte, so the payload that follows it is then misread as further
  tags. That misreading is not modelled.
- Files and compression: trace files, the gzip/bzip2 streams and the settings file are
  given as byte or line sequences (`None` when they cannot be opened). Closing a trace
  only disposes the stream and is not modelled.
- Reflection: creating a predictor by type name is a parameter that may fail.
- User interface, console messages, localisation and export are not part of this model.
- Floating point: accuracies and means are `real`, with no rounding. The geometric mean
  (a fractional power) is not modelled; only which entries qualify and how many there are.
- The geometric history lengths of TAGE and MTAGESC (computed with `Math.Pow`) are a
  constructor parameter.
- FPBNP's threshold `2.14*(h+1)+20.58`, truncated to an integer, is a constructor
  parameter.
- MTAGESC's `PREDICTOR` pipeline is not part of this model: the statistical corrector,
  the GEHL/RHSP/perceptron tables and the final combiner. `MTAGESC.MTAGESCPredictor`
  receives the pipeline's prediction as a parameter.
- MTAGESC.Tage.AllocateEntry: `computeTag` hashes the pipeline's subpath, so the tag is a
  parameter.
- MTAGESC.Tage.constructor: only the tagged tables are modelled. The bimodal and
  post-prediction tables belong to the pipeline.
- MTAGESC.SaturatedCounterUpdate: widths outside 1..32 are excluded. There the source's
  shift count wraps modulo 32.
- MTAGESC.HistoryRollingHash.Init: requires a positive compressed length, since the source
  divides by it. The left-out pipeline calls it with LOGGEHL and LOGRHSP, both positive
  (PredictionLogic/Prediction/Predictors/MTAGESC.cs:1274-1275 and 1295-1296). Its unused
  third argument `N` is dropped.
- MTAGESC.PathHistoryRollingHash.constructor: requires a positive compressed length, for
  the same reason.
- MTAGESC.PathHistory.Insert: requires a length of at least 1. With length 0 the source
  indexes an empty array and throws; that failure is not modelled.
- TAGEPredictor.TAGE.constructor: requires every tag hash to be at least one bit wide. The
  property ranges admit configurations with a zero-width tag hash (see
  `TAGEPredictor.ZeroWidthTagHash`), and for those the source's hash constructor divides
  by zero.
- Predictor constructors require their parameters to lie in the ranges of their
  properties, which is where the property loaders clamp them.
- PropertyFile.PropertyFileHandler.LoadFromFile: uses the corrected `ParseLine`, in which
  a lone quote is kept as the value. As written, the line `a="` throws out of the load
  (see Findings).
- PropertyFile.PropertyFileHandler.constructor: uses the corrected load, like
  `LoadFromFile`.
- PropertyFile.PropertyFileHandler.Reload: uses the corrected load, like `LoadFromFile`.
- ServerOptions.ApplicationOptionsServer.LoadOptions: reads the settings with the
  corrected load. As written, a lone quote makes it report that the options could not be
  read.
- CBP2.CBP2Reader.CountClassMiss: skips a class outside 0..7. As written, such a class
  indexes the counter array out of range (see Findings).
- CBP2.CBP2Reader.GetNextBranch: uses `CountClassMiss`, so the escaped high byte gives no
  branch instead of throwing.
- OGEHLPredictor.OGEHL.AdaptThreshold: uses the corrected `Adapt`, which compares with `>=`
  and `<=`. As written, the comparison is `==` (see Findings).
- Simulator.RunTrace: the correct and incorrect counts and their sum are unbounded. The
  source keeps them in C# `int` fields
  (PredictionLogic/SimulationStatistics/BenchmarkStatisticsResult.cs:10-12), which wrap
  past 2^31 - 1 on a trace of more branches than that; the wrap is not modelled.
- CBP2.CBP2Reader.GetNextBranch: the branch counter is unbounded, where the source's
  `int` (CBP2Reader.cs:20) wraps past 2^31 - 1 branches.
- CBP2.CBP2Reader.GetNextBranch: the source returns one shared branch object, created
  when the trace opens and overwritten by every call; the model returns a fresh value each
  time, so that aliasing is not captured (the simulator uses each branch before asking for
  the next).
- Stanford.StanfordReader.GetNextBranch: the counted-line counter is unbounded, where the
  source's `int` wraps past 2^31 - 1 lines. (The SPEC2000 counter is bounded by the
  4000000-byte buffer and cannot wrap.)
- Spec2000.Spec2000Reader.OpenTrace: the table of SPEC2000 file names is a parameter.
  As shipped it is never initialised.
- String comparison is ordinal, character by character. `String.CompareTo` is
  culture-sensitive, which is not modelled.
- The benchmark-type overload used at BranchPredictionSimulator/WindowMainPredictie.cs:192
  is not in BenchmarkInfo.cs. Benchmarks are identified by name only.

## Findings

| source | as written | input that shows it | evidently intended | confidence | as-written member | corrected member |
|---|---|---|---|---|---|---|
| BranchPredictionSimulatorServer/PropertyFileHandler.cs:97-100 | a value that starts and ends with a quote has one character stripped from each end, so a value that is a single quote character makes `Substring` throw and the whole load fails | the settings line `a="` | strip a pair of quotes only when the value is at least two characters long; keep a lone quote as the value | not executed | PropertyFile.LoneQuoteAbortsLoad | PropertyFile.ParseLine |
| PredictionLogic/Prediction/BenchmarksAndReaders/CBP2/CBP2Reader.cs:284-287 | after an escape byte the next byte is not checked for its top bit, and `classMisspredicted[inputByte >> 4]++` indexes an 8-element array | the bytes `0x82 0x90` (class 9) | give no branch for a class outside 1..7, as the switch's default case does | not executed | CBP2.EscapedHighByteThrows | CBP2.CountMissAgrees |
| PredictionLogic/Prediction/Predictors/OGEHL.cs:200-211 | the threshold moves only when the adapt count equals its maximum or its minimum exactly | one adapt bit (count range -1..0): a misprediction takes the count from 0 to 1, past the maximum, so the threshold never rises | move the threshold once the count reaches or passes a bound | not executed | OGEHLPredictor.OneAdaptBitNeverRaises | OGEHLPredictor.Adapt |
