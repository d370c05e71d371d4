# Verified models of the hard cores of vLLM for Gaudi

This project models, in Dafny, the parts of the repository that keep state over many steps
or do exact arithmetic, and proves what those parts are for. Code that updates objects is
written as classes and methods; each method is proved against a specification function on
values, and the theorems about whole runs, round trips and exact conditions are lemmas
about those functions.

| module | what it models |
|---|---|
| `BuildTime` | the sort-and-sweep of the ninja build report, as a fast form of an integral of 1/(running tasks) |
| `LoadBalancer` | the prefill/decode proxy scheduler, its counters under every interleaving, and its competitive bound |
| `SequenceState`, `Replication` | token state of a sequence, deltas replayed by a worker through a queue, block keys |
| `StopStrings`, `OutputStreaming`, `DeltaStream`, `CumulativeStream` | stop strings and held-back text, production of text and token deltas, their merge in a collector, the lists of log probabilities they share, and cumulative requests |
| `Assembly` | parallel sampling: sub-requests assembled into one result |
| `ScalarTypes` | packed type ids, the id registry, and the extreme values of small floating-point and integer types |
| `NodeNames`, `Calibration`, `Measurements`, `Expansion` | unifying measurement files of several ranks, renumbering experts, and expanding a unified file again |
| `BadWords` | masking of tokens that complete a bad word, and its effect on whole runs |
| `HiddenStates` | rows of hidden states matched with sequence ids by position |
| `Batching` | greedy forming of padded batches |
| `Common` | optional values, distinct sequences, positions and slices, shared by the other modules |

Values are exact: times, log probabilities and measurements are reals, logits are extended
reals with both infinities and NaN. `None`, `false` or an error constructor stands for the
exception the Python code raises at that point.

Where the code and its comments differ, the model follows the code:

- The comment at vllm/sequence.py:1547-1549 says that in streaming mode the assembled group
  is returned for the first remaining sub-request only. Sub-requests that finish are removed
  in the middle of an engine step, so one step can return it several times;
  `Assembly.StreamingRound` gives the exact number.

The merge at vllm/outputs.py:157-161 takes the list of log probabilities to be the output's
own, but a list that is still empty is handed out by reference (vllm/outputs.py:240-250), so
lists are modelled as shared objects. `DeltaStream.TakenListGrows` shows what this alone does to
an output that was handed out. The runs of `DeltaStream` join two parts that the repository does
not join: the producer `RequestOutput.from_seq_group` and the collector of
vllm/v1/engine/output_processor.py, which is fed by `RequestState.make_request_output`. The
doubled entries and the failed merges are properties of that combination, the contract that
`RequestOutput.add` offers for outputs of `from_seq_group`: `DeltaStream.PollGeneratePoll` and
`DeltaStream.StalledBatchFails` are small runs that show them, `DeltaStream.LogprobsRightIff` and
`DeltaStream.DeltaStreamIsCumulative` the exact conditions.

Properties that are false of the model in some case are stated with the exact condition:

- `LoadBalancer.CountsRightIff`, `LoadBalancer.LifecycleBalancedIff`: requests of length zero
- `Replication.DeltaAfterReset`, `Replication.DeltaAfterFull`: pending tokens
- `DeltaStream.DeltaStreamIsCumulative`, `DeltaStream.LateClientMergesIff`: batches that begin
  without a new token (`DeltaStream.StalledBatchFails` is such a run)
- `DeltaStream.LogprobsRightIff`: polls before the first token (`DeltaStream.PollGeneratePoll`)
- `ScalarTypes.LargestFiniteIff`, `ScalarTypes.ExtremesIff`: IEEE types with a one-bit exponent
- `BuildTime.BusyIsLengthIffNoGap`: idle gaps
- `Calibration.ExpansionCompleteIff`: world sizes that do not divide the experts
- `Measurements.UnifyMeasurements`: experts sharing prefix and number, which takes a number
  padded with zeros (`Measurements.PaddedNumberCollides`)
- `HiddenStates.UpdateReadyIff`: padded second-last rows (`HiddenStates.PaddedUpdate`)
- `HiddenStates.PruneReadyIff`: requests for unknown sequences
- `BadWords.MaskedIff`: infinite and undefined logits
- `StopStrings.SafeIffPrefixesFit`: hold-back lengths

## Model

| member | source | states |
|---|---|---|
| BuildTime.Sweep | tools/report_build_time_ninja.py:235-255 | for every order of events with equal keys, one pass charges each target exactly its share, totals the busy time, leaves no target running, and fails exactly when some target ends before it starts |
| BuildTime.HandleStop | tools/report_build_time_ninja.py:244-252 | a stop event settles its target with exactly its share and keeps the invariant of the sweep; it fails only if some target ends before it starts |
| BuildTime.SummarizeEntries | tools/report_build_time_ninja.py:196-255 | each error case exactly; otherwise every target has its share, which does not exceed its duration, and the totals are the busy time and the summed durations |
| BuildTime.ShareIndependentOfCuts | tools/report_build_time_ninja.py:235-255 | the share of a target is the same for every sequence of cuts that separates all start and stop times, however refined |
| BuildTime.TieBreakIndependent | tools/report_build_time_ninja.py:222-227 | any two arrangements of the events charge every target alike and total the same |
| BuildTime.ShareBounds | tools/report_build_time_ninja.py:70-89 | a share lies between duration / N and duration |
| BuildTime.IntervalCharge | tools/report_build_time_ninja.py:237-243 | in each elementary interval the running targets are together charged exactly its width |
| BuildTime.Conservation | tools/report_build_time_ninja.py:246-250 | the shares add up to the time during which at least one target runs |
| BuildTime.BusyIsLengthIffNoGap | tools/report_build_time_ninja.py:218-260 | the busy time equals the whole length exactly when some target runs at every moment |
| BuildTime.LengthIsSpan | tools/report_build_time_ninja.py:208-218 | the computed length is the distance from the first to the last event |
| BuildTime.SortArranges | tools/report_build_time_ninja.py:216-222 | sorting by time and kind yields every start and stop event once, in key order |
| BuildTime.CpuTimeIsArea | tools/report_build_time_ninja.py:216 | the summed durations are the area under the number of running targets, over any cuts |
| BuildTime.ParallelismBounds | tools/report_build_time_ninja.py:216-218 | CPU time over length is at most the number of targets, and at least one when there is no idle gap |
| LoadBalancer.LoadBalancedScheduler.Schedule | pd_xpyd/disagg_proxy_demo.py:475-499 | places on the first instance with the least counter and changes only that instance's counters; a missing or zero length goes to the decode side; an empty list raises |
| LoadBalancer.LoadBalancedScheduler.CompletePrefill | pd_xpyd/disagg_proxy_demo.py:505-519 | gives back the named instance; clears all utilisation exactly when no prefill is left; raises on an unknown name |
| LoadBalancer.LoadBalancedScheduler.ScheduleCompletion | pd_xpyd/disagg_proxy_demo.py:501-526 | both halves in order, the second not reached when the first raises; it raises exactly on a name that is not an instance of its stage |
| LoadBalancer.CompletionExactly | pd_xpyd/disagg_proxy_demo.py:501-526 | a completion changes nothing if its prefill instance is unknown; otherwise it gives back each stage it names once and clears utilisation exactly when no prefill is left |
| LoadBalancer.SpreadAtMostLongest | pd_xpyd/disagg_proxy_demo.py:479-489 | greedy placement never lets two instances drift apart by more than the longest request |
| LoadBalancer.GrahamBound | pd_xpyd/disagg_proxy_demo.py:479-489 | no instance carries more than 2 - 1/m times the fullest instance of any other placement of the same requests |
| LoadBalancer.GrahamBoundIsTight | pd_xpyd/disagg_proxy_demo.py:479-489 | for every m some sequence of requests meets that bound with equality |
| LoadBalancer.StepInv | pd_xpyd/disagg_proxy_demo.py:321-366 | every step of a request's life keeps: counters equal the number of requests held, utilisation equals the greedy load of the busy period |
| LoadBalancer.RunSafety | pd_xpyd/disagg_proxy_demo.py:42-85 | over all interleavings of requests of positive length each counter is the number of requests its instance holds, an idle prefill stage has no utilisation, and utilisations differ by at most the longest request of the busy period |
| LoadBalancer.RunIsCompetitive | pd_xpyd/disagg_proxy_demo.py:475-519 | the 2 - 1/m bound holds in every reachable state |
| LoadBalancer.DrainedIsInitial | pd_xpyd/disagg_proxy_demo.py:501-526 | once all requests have completed all counters are zero |
| LoadBalancer.LifecycleBalancedIff | pd_xpyd/disagg_proxy_demo.py:479-499 | a request gives back what it took exactly when its length is positive; otherwise decode counts are never given back, two of them when no instance serves both stages |
| LoadBalancer.CountsRightIff | pd_xpyd/disagg_proxy_demo.py:475-526 | over every run, with requests of any length, the counters equal the population exactly when no request of length zero has arrived |
| LoadBalancer.DrainedIsZeroIff | pd_xpyd/disagg_proxy_demo.py:475-526 | once no request is left, all counters are zero exactly when none of length zero has arrived |
| SequenceState.SequenceData.AppendTokenId | vllm/sequence.py:327-348 | the token joins output, pending delta and cache, which stays prompt followed by output |
| SequenceState.SequenceData.UpdateNumComputedTokens | vllm/sequence.py:380-387 | the stage moves to decode exactly when every token is computed; an overrun raises after the addition |
| SequenceState.SequenceData.ResetStateForRecompute | vllm/sequence.py:397-404 | drops the computed count, the stage and the pending tokens, and keeps the output |
| SequenceState.SequenceData.GetDeltaAndReset | vllm/sequence.py:424-430 | hands out exactly the pending tokens with the current counts and leaves none pending |
| SequenceState.SequenceData.ApplyDelta | vllm/sequence.py:432-437 | appends the delta to output and cache and takes over logprob, count and stage |
| SequenceState.SequenceGroupMetadata.ApplyDelta | vllm/sequence.py:1089-1097 | every sequence gets its own deltas and no other; an unknown id stops the loop; a wrong request id is noticed only after the deltas, and the group's own fields change only if it is right |
| SequenceState.ApplyToOwn | vllm/sequence.py:1091-1093 | the deltas of a dictionary reach exactly the sequences they are keyed by |
| SequenceState.KnownPrefixExact | vllm/sequence.py:1091-1093 | the deltas applied are those before the first unknown id |
| SequenceState.ComputeAndReset | vllm/sequence.py:380-404 | computing what is left moves to decode, fewer changes no stage, and a recomputation starts from nothing with the output kept |
| SequenceState.PrefixPartsJoin | vllm/sequence.py:365-374 | the two parts of a prefix are together the first n tokens |
| SequenceState.PartsEqualIff | vllm/sequence.py:365-374 | prefix parts are equal exactly when the tokens are and both prefixes lie in the prompts or the prompts agree |
| SequenceState.KeysPrefixClosed | vllm/sequence.py:596-620 | equal block keys at one block mean equal keys at every earlier block |
| SequenceState.KeysEqualIff | vllm/sequence.py:596-620 | two blocks have equal keys exactly for the same adapter and equal tokens up to the end of the block, split alike |
| SequenceState.SameTokensDifferentKeys | vllm/sequence.py:365-374 | the same tokens split differently between prompt and output have different keys |
| Replication.StepInv | vllm/sequence.py:327-437 | each append, count, reset, send and delivery keeps: replaying the queue on the worker gives the driver as of its last send |
| Replication.DriverIsWorkerPlusFlight | vllm/sequence.py:246-437 | in every reachable state with deltas in flight the driver's output is the worker's, the queued tokens, then the pending ones; both caches are prompt followed by output |
| Replication.DrainedWorkerIsLastSend | vllm/sequence.py:424-437 | delivering what is queued leaves the worker equal to the driver as of its last send in tokens, logprob, count and stage |
| Replication.CanDrain | vllm/sequence.py:432-437 | from every state that keeps the invariant the whole queue can be delivered |
| Replication.DeltaAfterReset | vllm/sequence.py:397-430 | a delta sent after a reset is right exactly when the reset dropped no pending token, so the next send must be a full one |
| Replication.DeltaAfterFull | vllm/sequence.py:424-437 | after a full send the next delta is right exactly when no token was pending |
| StopStrings.SamplingParams.PostInit | vllm/sampling_params.py:327-468 | succeeds exactly for acceptable argument values; best_of replaces n once; temperatures settle, greedy sampling included; stop token ids are collected; one character less than the longest stop string is held back, which is safe |
| StopStrings.RangeOfEach | vllm/sampling_params.py:402-450 | the bounds of every numeric argument |
| StopStrings.RangeIsEach | vllm/sampling_params.py:402-450 | arguments are accepted exactly if each of them is |
| StopStrings.SettledIsStable | vllm/sampling_params.py:343-384 | greedy arguments have all choices switched off, others a temperature of at least a hundredth; they stay in range and settle once |
| StopStrings.SafeIffPrefixesFit | vllm/sampling_params.py:370-373 | a hold-back length is safe exactly when every proper prefix of a stop string without a stop string inside fits in it |
| StopStrings.LongestMinusOneIsSafe | vllm/sampling_params.py:370-373 | the chosen length is safe for every list of stop strings and the least one for a single string |
| OutputStreaming.Sequence.GetOutputTextToReturn | vllm/sequence.py:553-570 | in delta mode the text from where the last one ended to the visible end, in the other mode all visible text; finished sequences hide nothing |
| OutputStreaming.Sequence.GetOutputTokenIdsToReturn | vllm/sequence.py:572-594 | in delta mode exactly the tokens since the last call, a single one bare |
| OutputStreaming.Sequence.AppendTokenId | vllm/sequence.py:626-633 | token and cumulative log probability grow, and the sequence's list grows in place |
| OutputStreaming.CompletionOutput.Extend | vllm/outputs.py:149-163 | texts and tokens are concatenated, the list of log probabilities is extended in place, the other fields replaced; it fails exactly when entries meet no list, with text and tokens already extended |
| OutputStreaming.RequestOutput.Add | vllm/outputs.py:142-171 | the later completions are merged in order into the first entry with the same index, or appended; finished is the OR, the transfer parameters are the later ones; all lists, shared ones too, and the half-merged state after a failure are determined |
| CumulativeStream.AddAllReplaces | vllm/outputs.py:166-171 | without aggregation a merge never fails and changes no list: each later output stands where its index was first held, the others stay, new indices follow in order |
| OutputStreaming.RequestOutputCollector.Put | vllm/v1/engine/output_processor.py:35-43 | the first output is kept as it is, later ones are merged into it; an exception replaces what is held, and an output is dropped while one is held |
| OutputStreaming.RequestOutputCollector.GetNowait | vllm/v1/engine/output_processor.py:55-65 | hands out the output or the exception that is held and leaves the collector empty |
| OutputStreaming.PollAll | vllm/outputs.py:227-260 | one completion per sequence, in order, with what that sequence has to return; copies of log probabilities are new and distinct, but a list that is still empty is the sequence's own |
| CumulativeStream.CollectorHoldsLatest | vllm/outputs.py:142-296 | over any polls of a cumulative request the collector never fails and holds, per index, all visible text, all tokens, the sequence's own list and the reasons as of the last poll |
| CumulativeStream.ReasonIffFinished | vllm/sequence.py:59-90 | a sequence has a reason exactly when it has finished, and which one |
| CumulativeStream.VisibleExactly | vllm/sequence.py:553-560 | a finished sequence hides nothing, a running one exactly the last characters |
| OutputStreaming.EmitFresh | vllm/outputs.py:285-296 | those completions in new, distinct objects |
| OutputStreaming.EmitCached | vllm/outputs.py:253-331 | the same completions written into the reused objects of the cache, which is left with one object per sequence |
| DeltaStream.CutKeepsReturned | vllm/sequence.py:553-570 | cutting the text at a stop string never removes text that was already returned |
| DeltaStream.EmissionOk | vllm/outputs.py:227-252 | a poll returns exactly the text and tokens between the old and the new offsets |
| DeltaStream.AddAllAligned | vllm/outputs.py:147-171 | outputs in index order merge position by position |
| DeltaStream.StepInv | vllm/outputs.py:142-296 | every append, stop, finish, poll and take keeps: the batch holds exactly what was returned since it began, and which list of log probabilities it holds with which entries |
| DeltaStream.DeltaStreamIsCumulative | vllm/outputs.py:142-296 | over every run a poll fails exactly when log probabilities are asked for and a sequence that had tokens but no new one when the batch began has one now; otherwise what the client took and the batch are together the cumulative text, tokens, reasons and finished flag, one entry per index |
| DeltaStream.LogprobsRightIff | vllm/outputs.py:240-250 | a batch has the right log probabilities after a poll exactly when they are not asked for, the sequence has no token, or it had one when the batch began |
| DeltaStream.WithoutTake | vllm/outputs.py:240-250 | a collector that is never emptied never fails, and its log probabilities are right exactly when no sequence that has tokens was polled before its first one |
| DeltaStream.PollGeneratePoll | vllm/outputs.py:157-161 | polling once before and once after the first token leaves collector and sequence with two entries for one token |
| DeltaStream.TakenListGrows | vllm/outputs.py:240-250 | an output taken before the first token has an entry once there is a token |
| DeltaStream.ReturnedTextIsPrefix | vllm/sequence.py:553-570 | text given to a client is a prefix of the sequence's text at every later point, also as cut at a stop string |
| DeltaStream.FinalTextIsDelivered | vllm/outputs.py:142-296 | a poll after all sequences finished that does not fail completes what the client is given to the full texts and tokens |
| DeltaStream.LateClientMergesIff | vllm/outputs.py:157-159 | a client that starts from any poll can merge the next part exactly when log probabilities are not asked for, there was no token at that poll, it returned one, or the next part brings none |
| DeltaStream.StalledBatchFails | vllm/outputs.py:157-161 | the run token, poll, take, poll, token, poll fails at its last poll when log probabilities are asked for |
| Assembly.SampleGroup.MaybeAssembleGroup | vllm/sequence.py:1544-1578 | when the group is returned, in both modes, and that it is marked produced |
| Assembly.SampleGroup.FinishSeq | vllm/sequence.py:1486-1490 | the sub-request moves from pending to finished; an unknown one raises |
| Assembly.Registry.FromSeqGroup | vllm/outputs.py:173-196 | what a call yields, and that all sub ids leave the registry with the last assembled result |
| Assembly.StepInv | vllm/sequence.py:1486-1578 | pending and finished always partition the ids; the registry holds all of them until none is pending |
| Assembly.AssembledExactlyOnce | vllm/sequence.py:1556-1578 | without streaming, in any finishing order, the group is returned once, by the call that finishes the last sub-request, and then no id is registered |
| Assembly.StreamingYieldsIff | vllm/sequence.py:1547-1554 | with streaming, after any calls in any order, a call returns the group exactly when every sub-request created earlier has finished |
| Assembly.StreamingRound | vllm/engine/llm_engine.py:1142-1190 | with streaming, one engine step, which polls the finishing sub-requests first, returns the group once per leading finishing sub-request and once more if any does not finish, in whatever order those are polled |
| Assembly.SelectedAreBest | vllm/sequence.py:1567-1574 | with best_of the group holds the best sequences in descending order, n of them if the remembered number is zero, none left out better than one kept |
| Assembly.SelectedAreStable | vllm/sequence.py:1571-1573 | ties are in the order of creation |
| Assembly.SelectedWithoutBestOf | vllm/sequence.py:1567-1575 | without best_of the group is returned as it was created |
| ScalarTypes.ComputeId | vllm/scalar_type.py:137-166 | shifting and or-ing the fields one by one gives the packed number, which needs no more than 58 bits |
| ScalarTypes.FieldPlaces | vllm/scalar_type.py:153-158 | every field can be read back from the id at its place: exponent lowest, then mantissa, sign, bias, flag and NaN representation |
| ScalarTypes.PackedEqualIff | vllm/scalar_type.py:147-151 | fields of any widths pack to the same number exactly when each agrees in its low bits |
| ScalarTypes.SameIdIff | vllm/scalar_type.py:153-158 | two types have the same id exactly when their six fields agree modulo the widths |
| ScalarTypes.IdInjective | vllm/scalar_type.py:137-166 | within 8-bit exponent and mantissa and a 32-bit signed bias the id determines the type |
| ScalarTypes.Registry.Id | vllm/scalar_type.py:137-166 | asking for the id records the type under it |
| ScalarTypes.Registry.FromId | vllm/scalar_type.py:303-308 | raises exactly when no type with that id was made; within the field ranges it finds a type equal to every one made with that id |
| ScalarTypes.Registry.Float | vllm/scalar_type.py:287-301 | succeeds exactly when its assertions hold, and then yields and records a floating-point type |
| ScalarTypes.RegisteredExactly | vllm/scalar_type.py:303-308 | an id is recorded exactly when a type with it was made |
| ScalarTypes.FromIdFindsEqual | vllm/scalar_type.py:263-308 | after any series of constructions the id of each type finds a type equal to it |
| ScalarTypes.FloatingPointMaxInt | vllm/scalar_type.py:72-105 | computed exactly for the types the assertions admit |
| ScalarTypes.BuiltBits | vllm/scalar_type.py:72-109 | the or-ed bits are the fields of a finite double with the intended value (section 3.4 of IEEE 754-2019) |
| ScalarTypes.TopEncodingIsGreatest | vllm/scalar_type.py:72-105 | the encoding aimed at is a number and no number of the type is larger, for all NaN representations |
| ScalarTypes.LargestFiniteIff | vllm/scalar_type.py:72-109 | the double is the largest finite value, attained and not exceeded, exactly for types other than IEEE with a one-bit exponent |
| ScalarTypes.OneBitExponent | vllm/scalar_type.py:72-105 | for those the double lies strictly above every number of the type |
| ScalarTypes.FloatingPointMinInt | vllm/scalar_type.py:119-127 | or-ing the top bit sets the sign and leaves exponent and fraction |
| ScalarTypes.FloatMinimumIsNegated | vllm/scalar_type.py:119-127 | the double with the sign set has the negated value of the largest |
| ScalarTypes.ExtremesIff | vllm/scalar_type.py:107-127 | no signed number of the type lies outside minimum and maximum and both are attained, exactly for types other than IEEE with a one-bit exponent |
| ScalarTypes.IntegerExtremes | vllm/scalar_type.py:111-184 | every stored pattern of an integer type lies between min and max, and both occur |
| ScalarTypes.IntegerFits | vllm/scalar_type.py:111-135 | the assertions admit exactly the types whose extremes before the bias are 64-bit signed integers |
| NodeNames.ExpertNameParts | calibration/step-5-unify_measurements.py:36-47 | number and prefix can be read back from a composed expert name |
| NodeNames.KindIgnoresNumber | calibration/step-5-unify_measurements.py:28-33 | renumbering an expert does not change what kind of node its name denotes |
| NodeNames.KindsByName | calibration/step-5-unify_measurements.py:28-33 | names that mention moe in either case are fused operations or experts, never both, and others are neither |
| NodeNames.ListsOfOperation | calibration/step-5-unify_measurements.py:28-33 | both kinds of lists below an operation hold experts, and the operation itself is fused unless it lies in one |
| Calibration.UnifyNode | calibration/step-5-unify_measurements.py:115-174 | the loops over ranks and channels compute the rank-by-rank merge |
| Calibration.InputsAreMaxima | calibration/step-5-unify_measurements.py:160-162 | every unified channel is the maximum over the ranks, attained, with the rest of its list untouched |
| Calibration.OutputsAreMaxima | calibration/step-5-unify_measurements.py:163-171 | every merged output channel is the maximum over the ranks, attained, with shape and rest of the first rank; without gathering these are all channels |
| Calibration.WeightsAreMaxima | calibration/step-5-unify_measurements.py:172-174 | the same for every weight channel |
| Calibration.UnifiedIsMaximal | calibration/step-5-unify_measurements.py:160-174 | a unified node has the first rank's shape and the attained maximum in every merged channel |
| Calibration.FusedOutputs | calibration/step-5-unify_measurements.py:163-166 | the fused operation's first output is the maximum and the others are all ranks' expert outputs in rank order |
| Calibration.GatheredSlices | calibration/step-5-unify_measurements.py:163-166 | the block of each rank in the gathered outputs is that rank's own list |
| Calibration.ExpertSlot | calibration/step-5-unify_measurements.py:150-166 | each expert's entry of the fused operation sits at one plus its new number |
| Calibration.UnifyThenExpand | calibration/step-6-expand-measurements.py:104-124 | unifying W ranks and slicing for W ranks gives each rank its own expert outputs behind the maximum |
| Calibration.ExpansionCompleteIff | calibration/step-6-expand-measurements.py:112-121 | the shares of all ranks are all experts exactly when the world size divides their number |
| Calibration.ExpandedShape | calibration/step-6-expand-measurements.py:112-124 | each rank's share is the first output followed by as many experts as each rank gets |
| Calibration.RenumberingIsBijective | calibration/step-5-unify_measurements.py:154-156 | rank and local number determine the new number and every number below ranks times experts comes from exactly one pair |
| Calibration.NumberedBounds | calibration/step-5-unify_measurements.py:154-157 | new numbers stay below ranks times experts, and those of later ranks lie above all original ones |
| Calibration.GroupsPartitionCards | calibration/step-5-unify_measurements.py:258-266 | each original card is in exactly one place of exactly one group, consecutive cards together, all groups of one size |
| Measurements.GetLocalExpertNum | calibration/step-5-unify_measurements.py:50-56 | one more than the greatest expert number; raises exactly when an expert name has no number |
| Measurements.NewNamesCollide | calibration/step-5-unify_measurements.py:153-157 | two new names coincide only for the same rank and experts with the same prefix and number |
| Measurements.AddExpertEntries | calibration/step-5-unify_measurements.py:148-158 | the loop over ranks for one expert; the not-already-present assertion fires exactly when a new name is taken |
| Measurements.DistinctNeverCollide | calibration/step-5-unify_measurements.py:156-157 | experts with distinct prefix or number never trip the assertion |
| Measurements.AllExpertsValues | calibration/step-5-unify_measurements.py:148-158 | every rank's measurement of every expert is kept under its new name |
| Measurements.UnifyMeasurements | calibration/step-5-unify_measurements.py:98-195 | succeeds exactly when expert names are numbered and, for several ranks, distinct; the file then holds every expert of every rank, every other node merged, and nothing else |
| Measurements.UnifiedFileIsMaximal | calibration/step-5-unify_measurements.py:160-193 | in a unified file every node that is not kept for each rank is maximal over the ranks |
| Measurements.PaddedNumberCollides | calibration/step-5-unify_measurements.py:153-157 | two different expert names share prefix and number when one number is padded, and then two ranks cannot be unified |
| Measurements.LoopUnifies | calibration/step-5-unify_measurements.py:176-195 | the maps left by the loop over nodes form the unified file and the name conditions hold |
| Expansion.ExpandMeasurements | calibration/step-6-expand-measurements.py:90-135 | succeeds exactly when expert names are numbered and every fused operation has one output per expert; only fused operations change, to the rank's share |
| Expansion.UnifiedExpertNum | calibration/step-6-expand-measurements.py:90-91 | the expert number found in a unified file is the number of ranks times the local number |
| Expansion.UnifiedIsExpandable | calibration/step-6-expand-measurements.py:104-111 | a unified file never trips the assertions of the expansion |
| Expansion.UnifyThenExpandFiles | calibration/step-6-expand-measurements.py:93-135 | over whole files, every rank gets back its own expert outputs of every fused operation behind the group's maximum, and all experts of the group |
| BadWords.NoBadWordsLogitsProcessor.CheckTokenIdsBounds | vllm/logits_process.py:105-119 | raises exactly when a token is outside the vocabulary, with the offending ids in order |
| BadWords.ReportedIff | vllm/logits_process.py:105-112 | a token is reported exactly when some word holds it and it is outside the vocabulary |
| BadWords.NoBadWordsLogitsProcessor.InitWordBias | vllm/logits_process.py:88-103 | the cached bias masks exactly the one-token bad words |
| BadWords.NoBadWordsLogitsProcessor.Call | vllm/logits_process.py:56-86 | for logits of the cached size the result masks exactly the tokens that complete a bad word; the cache equals its recomputation; each error case and what it leaves behind, logits of another size included |
| BadWords.OutcomeOfSameSize | vllm/logits_process.py:65-86 | for logits of the cached size the only failure is an empty bad word |
| BadWords.OutcomeOfOtherSize | vllm/logits_process.py:84 | logits of another size fail unless one side is a single entry, and then what is added to each |
| BadWords.BannedSplits | vllm/logits_process.py:65-84 | the one-token bias and the per-step bias together cover exactly the completed bad words |
| BadWords.MaskedIff | vllm/logits_process.py:84-86 | a token is minus infinity exactly when it was, or it completes a bad word and its logit is finite; other logits become NaN there |
| BadWords.UnmaskedRunsAreClean | vllm/logits_process.py:56-86 | a run samples only unmasked tokens exactly when no bad word is a contiguous block of it |
| HiddenStates.HiddenStates.Update | vllm/sequence.py:1311-1329 | appends ids and rows, the rows cut to the number of groups; a missing second-last row becomes zeros |
| HiddenStates.HiddenStates.Prune | vllm/sequence.py:1331-1353 | selects and orders the rows of the requested ids, padded with the last row; fails exactly when a position is past the rows, with the rows already selected if only the second-last ones are too few |
| HiddenStates.HiddenStates.ExpandWithBonusTokens | vllm/sequence.py:1355-1371 | selects from rows and second-last rows by the built index; nothing changes without bonus tokens |
| HiddenStates.UpdateRefines | vllm/sequence.py:1311-1329 | rows found by id: an update adds the new sequences' rows and changes no other |
| HiddenStates.SeqIdAt | vllm/sequence.py:1258-1263 | ids are listed group after group, in the order within each |
| HiddenStates.UpdateByGroup | vllm/sequence.py:1311-1320 | with one sequence in each group, the sequence of group g gets row g, older sequences keep theirs, and rows beyond the groups are dropped |
| HiddenStates.UpdateSecondByGroup | vllm/sequence.py:1322-1329 | the same for second-last rows, which become zeros if none are given |
| HiddenStates.UpdateReadyIff | vllm/sequence.py:1311-1329 | rows and ids stay matched exactly when a row, and a second-last row, is delivered for each new sequence |
| HiddenStates.PaddedUpdate | vllm/sequence.py:1316-1329 | rows padded beyond the groups are cut, padded second-last rows are not and break the match |
| HiddenStates.PruneRefines | vllm/sequence.py:1331-1353 | rows found by id: pruning to known sequences keeps exactly their rows in the requested order |
| HiddenStates.KnownInOrder | vllm/sequence.py:1341-1342 | the ids kept are in the requested order |
| HiddenStates.PrunedRows | vllm/sequence.py:1341-1353 | the rows of the known ids come first, and every further row is a copy of the last one |
| HiddenStates.PruneReadyIff | vllm/sequence.py:1341-1353 | rows and ids stay matched exactly when every requested sequence is known; fails exactly when there is no row to pad with |
| HiddenStates.ExpandedMeaning | vllm/sequence.py:1355-1371 | in id order every row, preceded by the second-last row exactly for sequences with a bonus token |
| HiddenStates.RunRefinesMap | vllm/sequence.py:1311-1353 | over any run of updates and prunes, finding a row or a second-last row by position is looking it up in a map |
| Batching.RunHf | benchmarks/benchmark_throughput.py:369-410 | batches concatenate to the requests in order, are non-empty and within both limits, no batch could have taken the next request, and the backend gets each batch with its longest output |
| Batching.SoundIff | benchmarks/benchmark_throughput.py:377-389 | a batch is within the limits exactly if it holds one request, or not too many and no prompt exceeds 2048 with any output |
| Batching.GreedyStaysAhead | benchmarks/benchmark_throughput.py:377-389 | after each number of batches the loop has covered at least as many requests as any other split within the limits |
| Batching.GreedyNeedsFewest | benchmarks/benchmark_throughput.py:377-389 | no in-order split within the limits needs fewer batches |

## Left out

- Reading the ninja log and grouping its lines into targets, and all printing of the build
  report; a build whose length is zero is modelled up to the division.
- Proxy: HTTP, failed upstream calls, adding and removing instances, and round robin. The
  instance lists are fixed and their names distinct, as in a running server.
- The engine scheduler and the stop-string checker are not part of this model; they appear as
  guards of steps (`Replication.Enabled`, `DeltaStream.Enabled`).
- `SequenceData`: embeddings, cached-token counts, the deprecated setters and multi-modal
  fields. Block keys are compared as keys, not as hash values, and prompt adapters and
  multi-modal hashes in them are left out.
- OutputStreaming.EmitCached: does not model prompt fields and metrics of the reused output.
- Streaming outputs: a request that wants only the final output, prompt text, prompt log
  probabilities, metrics. Runs poll into new output objects; the reuse of cached objects is
  modelled for one poll.
- StopStrings.SamplingParams.PostInit: does not model the checks of argument types, since the
  model is typed, nor fields without checks.
- Parallel sampling: creation of the sub-requests and their seeds.
- `ScalarType`: `has_nans`, `is_ieee_754` and `__str__`; exponents and mantissas are
  non-negative; asking a type for its id twice records it twice instead of using a cache.
- Measurements.UnifyMeasurements: does not model the branch for scales, a second set of loops
  of the same kind over flat lists, nor the index errors of nodes whose shapes differ between
  ranks.
- Calibration: file names, JSON and NPZ input and output; only ASCII digits count as a number.
- BadWords: turning bad words into tokens.
- `HiddenStates`: tensors are sequences of rows, and rows are opaque values.
- Batching: tokenisation, generation and timing.
- Rounding of floating-point numbers: times, log probabilities and logits are exact.
- Tensor kernels, bucketing, tracing, environment tables, data sets and metrics.
