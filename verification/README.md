# Verification of the inference-optimization control plane

These Dafny modules model the parts of the system whose correctness is spread over many
steps, files or processes, and prove what they promise. `dafny verify dfyconfig.toml`
checks everything.

Values are datatypes. Code that changes state in steps is imperative: the campaign
store, the GGUF reader, the bundle's task store and all loops are classes and methods,
each proved against a specification function or predicate, and the theorems are about
that specification. Processes and clients that interleave are state machines over
events. Operating-system facts, digests and server replies are parameters (a function
from contents to digests, from artifacts to "verifies", from cases to replies), so
every theorem holds for whatever these are; injectivity is required only where it is
written as a `requires`.

| part | modules |
|---|---|
| campaign coordinator | `CampaignModels`, `ControlPolicy`, `CampaignEngine` (engine calls), `CampaignSerial`, `CampaignLedger`, `CampaignRuns` (invariants of whole runs), `CampaignProgress`, `CampaignBlocked`, `CampaignPlans` (when a campaign can go on, and what a plan decides), `CampaignOutcomes`, `CampaignWinners` (what calls leave behind), `CampaignAdvances` (which calls are accepted), `CampaignStore` (many clients, one record), `CampaignControl` (the planner and the step of the control plane), `CampaignGates`, `CampaignDecisions` (what its documents decide), `CampaignFinish` (driving it to the end) |
| publication of prepared models | `Publication` (protocol, one file-system operation a step), `PublicationRuns`, `PublicationProgress` (whose manifest, and that it comes), `PublicationRefusals` (when it fails), `PublicationFiles` (whose files), `PublicationLayout` (paths) |
| GGUF headers | `GgufFormat` (parser and encoder), `GgufTheorems`, `GgufAccepts` (accepted files are encoded headers), `Utf8Scalars`, `GgufEarlyStop`, `GgufReader` (the cursor) |
| scoring | `ProgressLog`, `McNemar`, `QualityGate` |
| fixtures and selections | `Fixture`, `FixturePrompts` (what a prompt shows), `FixtureSizes`, `FixtureReader`, `Ranking`, `Selection`, `MixedSelection`, `MixedEval` |
| quantizer rules | `QuantRules`, `QuantMeaning`, `QuantArguments` (the command line read back) |
| merges and projections | `ExecutionMap`, `Bundle`, `BundleIndex` (what its documents say), `BundleTampering` (what a loaded one guarantees), `BundleRefresh`, `BundleFailures` (refreshes that fail), `BundleStore` |
| shared | `Wrappers`, `Bytes` |

## What the proofs found

Several promises hold only under a condition that the code does not check. Each is
proved together with its exact condition.

- A campaign's running candidate can never report once a peer carries the fingerprint
  that its own result would get; the campaign is then stuck for good
  (`StuckIffContentTaken`). The engine accepts plans that lead there
  (`BlockedIsReachable`): from the planning call on, some calls block the campaign
  exactly when two of the planned candidates have one fingerprint, and some complete it
  exactly when none have (`PlanDecides`). This concerns direct callers of the engine. The
  control plane's planner fingerprints every candidate, so the planning call refuses such
  a plan and no campaign that the control plane drives is ever blocked
  (`ControlledNeverBlocked`); the control plane itself can decide each of them to its end
  (`ControlledCompletes`).
- The path checks of the model preparation accept a manifest path that is the `.partial`
  path of an artifact; publication is safe for exactly the other layouts
  (`SafeIffManifestApart`).
- The early-stopping GGUF reader returns, of a repeated key, the last value up to the
  entry at which it has seen both of its keys, where the full reader returns the last of
  all; an accepted file is read alike exactly when these values are equal
  (`EarlyStopAgreesIff`), and all accepted files with given keys are exactly when no
  wanted key follows that entry (`AllAgreeIff`). Unique keys suffice
  (`UniqueKeysSuffice`).
- Rounded percentages determine the answers exactly below fifty million rows
  (`RecoversIffShort`).
- The two merges of an execution map agree exactly when the current map has unique ids
  (`MergesAgreeIff`).
- The mixed evaluation keys its answers by case id alone and checks only that ids are
  unique within a source; its output is the sequential one exactly when no two cases with
  one id are answered differently (`OutputIsSequentialIff`, `CoherentIffUnique`), and it
  requests an id again after saving it only for such suites (`NoRepeatedRequestIff`). The
  repository's own library puts the source in front of every id, so suites from its files
  meet the condition in every run (`LibrarySuite`).
- A refresh may take the bundle's own index, summary or manifest as evidence; the loader
  then refuses what the refresh wrote. It accepts exactly when none of the three is
  selected or registered as profile evidence (`LoadsIffSourcesApart`); with the index
  selected, a refresh that succeeds cannot be loaded (`ChosenIndexRefused`).
- A refresh writes the attempt index before it knows whether a summary can be made. When
  none can, it fails with the index replaced, and a bundle that loaded before still loads
  exactly when its index was already the new one (`FailedRefreshLoadsIff`); a further
  quality attempt whose result cannot be read is an instance
  (`UnreadableEvidenceUnloads`). All other failures change nothing (`RefreshOkIff`).
- The id of a profile attempt is written in three forms. Evidence is current for exactly
  the attempts with the selected one's id, whatever the other attempts, if and only if
  that id is present, neither empty nor the text `None`, and does not end in `.json`
  (`ProfileFlagIff`).

## Model

| member | source | states |
|---|---|---|
| CampaignEngine.ActivateNextCandidate | src/amd_inference_opt/campaign.py:53-81 | the scanning loop starts the first planned candidate of the stage's strategy when nothing is running, and otherwise changes no candidate |
| CampaignSerial.NewSerial | src/amd_inference_opt/campaign.py:39-45 | a new campaign satisfies serial execution |
| CampaignSerial.StepSerial | src/amd_inference_opt/campaign.py:113-426 | every accepted engine call keeps serial execution: earlier strategies all terminal, later ones all planned, the current one a terminal prefix, then at most one running candidate (absent only if all are terminal), then planned ones; all terminal from winner selection on |
| ControlPolicy.SelectStackLoop | src/amd_inference_opt/control_policy.py:320-345 | the appending loop computes the stack selection, error case included |
| ControlPolicy.SelectStackMeaning | src/amd_inference_opt/control_policy.py:320-345 | selection succeeds exactly when every id has an accepted attempt, and gives one entry per id, in order, from the first accepted attempt of that id |
| CampaignLedger.StepMirrored | src/amd_inference_opt/campaign.py:381-426 | every engine call keeps the ledger equal, in order, to the trials of the finished candidates that were not skipped, accepted for accepted ones, rejected for rejected ones and inconclusive for inconclusive ones, although `model_copy` bypasses the ledger's validator |
| CampaignLedger.StepStackMirrored | src/amd_inference_opt/campaign.py:219-250 | every engine call keeps the accepted stack empty before winner selection and one entry per selected id, in order, afterwards |
| CampaignLedger.MirrorIsOneToOne | src/amd_inference_opt/control_policy.py:299-318 | a mirrored ledger and the tried candidates correspond one to one under the same ids and fingerprints: an attempt is accepted, rejected or inconclusive exactly when its candidate is experimentally accepted, rejected or inconclusive |
| CampaignLedger.MirrorIsValid | src/amd_inference_opt/control_policy.py:277-297 | a mirrored ledger satisfies the validator that was never run on it: fingerprints unique, every stack entry backed by an accepted attempt |
| CampaignRuns.StepInv | src/amd_inference_opt/campaign.py:101-426 | every accepted engine call keeps the whole invariant: the record validators, serial execution, both mirrors, the completion prefix and the revision count |
| CampaignRuns.StepDecreases | src/amd_inference_opt/campaign.py:84-111 | every accepted call adds one to the revision, keeps the configuration and strictly decreases (stages left, unfinished candidates) |
| CampaignRuns.RunInv | src/amd_inference_opt/campaign_models.py:291-382 | in every run the n-th record satisfies the invariant, with the initial configuration and revision n |
| CampaignRuns.RunIsSerial | src/amd_inference_opt/campaign.py:53-98 | serial execution holds in every record of every run |
| CampaignRuns.RunLedgerMirrors | src/amd_inference_opt/campaign.py:381-423 | in every record of every run the ledger matches the tried candidates one to one, verdict by verdict, its validator holds and the record would load again |
| CampaignRuns.RunLength | src/amd_inference_opt/campaign.py:47-111 | a complete campaign has revision 7 + strategies + candidates and lists its stages as completed in the configured order; no run is longer than 7 + strategies + the candidate limit |
| CampaignProgress.ResultAcceptedIff | src/amd_inference_opt/campaign.py:353-423 | a terminal verdict on the running candidate is accepted exactly when no other candidate carries its content fingerprint |
| CampaignProgress.StuckIffContentTaken | src/amd_inference_opt/campaign.py:312-426 | in every run an active campaign has an acceptable next call exactly when its running candidate's content is not already a peer's |
| CampaignBlocked.BlockedIsReachable | src/amd_inference_opt/campaign.py:187-218 | for every fingerprint function some run reaches an active campaign that no call can move |
| CampaignPlans.BlocksIffShared | src/amd_inference_opt/campaign.py:312-426 | from any record with a plan, some calls lead to a blocked campaign exactly when two candidates have one content fingerprint, and some lead to completion exactly when no two have |
| CampaignPlans.PlanDecides | src/amd_inference_opt/campaign.py:157-192 | in every run, before the planning call: the candidates passed to it decide by their fingerprints whether the campaign can block and whether it can complete |
| CampaignAdvances.AdvanceAcceptedIff | src/amd_inference_opt/campaign.py:113-310 | in every run, for every record and input: the engine accepts an advance exactly when the campaign is active and the input brings what the stage asks for, as written out for each stage (evidence, baselines of the task under different ids, plannable candidates, finished candidates, accepted winners, a combination of winners, a final status that says what became of it) |
| CampaignAdvances.AdvanceMakes | src/amd_inference_opt/campaign.py:113-310 | in every run an accepted advance makes of the record what its stage says and nothing else: the next stage in the configured order, the first planned candidate of a strategy started, exactly the selected candidates marked as winners, the combination and status passed |
| CampaignAdvances.ResultAcceptedExactly | src/amd_inference_opt/campaign.py:312-426 | in every run a result is accepted exactly for a running candidate of that id, a final verdict and a fingerprint that no other candidate has |
| CampaignOutcomes.ResultRecorded | src/amd_inference_opt/campaign.py:312-426 | a recorded result gives the running candidate the disposition that the verdict says, with its artifacts and reasons, starts at most a planned peer, logs one attempt of the same verdict unless the candidate is skipped, and changes nothing else |
| CampaignOutcomes.DispositionsTold | src/amd_inference_opt/campaign.py:312-426 | in every record of every run a candidate has ended in a disposition exactly when one of the calls so far told so about it |
| CampaignOutcomes.FinishedStays | src/amd_inference_opt/campaign.py:312-426 | in every run a finished candidate never changes again, but for the winner flag |
| CampaignWinners.ElectsAccepted | src/amd_inference_opt/campaign.py:219-250 | in every run the engine accepts, at the winner stage, exactly the selections of distinct, experimentally accepted candidates, and marks just these as winners |
| CampaignWinners.ElectsAllByDefault | src/amd_inference_opt/campaign.py:219-250 | in every run an advance without a selection is accepted there and makes winners of exactly the experimentally accepted candidates |
| CampaignWinners.FinalStatusMeans | src/amd_inference_opt/campaign.py:251-310 | in every run a complete campaign was accepted, rejected or left open exactly as its final combination was, accepted only for a compatible, non-empty combination of winners |
| CampaignWinners.CompletedWith | src/amd_inference_opt/campaign.py:113-156 | an advance completes the current stage with exactly the evidence passed, the artifacts of the baselines captured and the result artifacts of the strategy's candidates |
| CampaignStore.Store.constructor | src/amd_inference_opt/campaign_store.py:26-27 | a store starts without a record |
| CampaignStore.Store.Create | src/amd_inference_opt/campaign_store.py:29-101 | creation persists revision zero, and refuses, changing nothing, when a campaign exists |
| CampaignStore.LoadReturnsLatest | src/amd_inference_opt/campaign_store.py:103-136 | after any interleaving of clients a load returns the last record of the history, whose revision counts the accepted calls; it is an error only while no record exists |
| CampaignStore.Store.Save | src/amd_inference_opt/campaign_store.py:138-185 | saving replaces the record exactly for an unchanged configuration, the next revision and verified platform evidence; a refusal changes nothing |
| CampaignStore.NextConsistent | src/amd_inference_opt/campaign_store.py:138-185 | each load, engine call, save or creation of any client keeps the history a single run and every client's base a record of it; the history is only extended |
| CampaignStore.HistoryTheorem | src/amd_inference_opt/campaign_control.py:69-76 | in every interleaving of any number of clients the persisted history is one engine run: record i has revision i, satisfies the invariant and keeps the configuration |
| CampaignStore.HistoryGrows | src/amd_inference_opt/campaign_store.py:138-185 | no update is lost: later histories extend earlier ones |
| CampaignStore.SaveSucceedsIffFresh | src/amd_inference_opt/campaign_store.py:143-152 | a prepared client's save succeeds exactly when the record it started from is still the persisted one |
| CampaignControl.StepOneWinner | src/amd_inference_opt/campaign_control.py:145-398 | a step of the control plane keeps at most one winner among mixed-bit and among KV-cache candidates |
| CampaignControl.AtMostOneOfAKind | src/amd_inference_opt/campaign_control.py:145-398 | in every record of every controlled run at most one mixed-bit and one KV-cache candidate is a winner, a bound the engine itself does not enforce |
| CampaignControl.LeavesStrategyIff | src/amd_inference_opt/campaign.py:137-218 | when nothing is running at a strategy's stage the engine accepts an advance without further input exactly when the strategy's candidates left evidence |
| CampaignControl.MaterializedFully | src/amd_inference_opt/campaign_planning.py:191-337 | a plan that the planner returns has a candidate for every configured strategy, and every candidate carries its fingerprint |
| CampaignControl.RunDecisionAccepted | src/amd_inference_opt/campaign_control.py:209-330 | in every controlled run, at a strategy's stage, the engine accepts whatever call the control plane decides, so a strategy without a running candidate can always be left; which dispositions these calls lead to is `CampaignGates.DispositionIffDocumented` |
| CampaignControl.ControlledNeverBlocked | src/amd_inference_opt/campaign_control.py:145-398 | no record of a controlled run is blocked, and from the plan on no engine call can make it so |
| CampaignGates.DispositionIffDocumented | src/amd_inference_opt/campaign_control.py:79-142 | in every record of every controlled run a candidate is experimentally accepted exactly when a document passed while it ran names it, does not skip it, has an accepted performance outcome and a quality result within the policy; rejected, inconclusive or skipped exactly when such a document calls for that |
| CampaignGates.WinnersPassed | src/amd_inference_opt/campaign_control.py:271-347 | every winner of a controlled run passed both gates in one document, whose performance and quality evidence it carries |
| CampaignDecisions.DecidesIff | src/amd_inference_opt/campaign_control.py:145-398 | for every record with distinct ids and at most one running candidate the control plane decides a call exactly when it has been given enough at that stage: a plan of allowed size with distinct prepared ids, a decisive document about the running candidate, a choice of accepted candidates with at most one mixed-bit and one KV-cache; it waits exactly for a missing document at the stages that wait, and reports completion exactly when complete |
| CampaignDecisions.DecidedPassesOn | src/amd_inference_opt/campaign_control.py:145-398 | the call passes on the document of the stage, one planned candidate for every arm of the configured strategies, or the verdict with exactly the evidence and reasons that the document warrants, and nothing else |
| CampaignFinish.NextCallAccepted | src/amd_inference_opt/campaign_control.py:209-398 | after the plan, a document that skips the running candidate, selects nobody and rejects makes the control plane decide a call at every stage, and the engine accepts it |
| CampaignFinish.ControlledCompletes | src/amd_inference_opt/campaign_control.py:145-398 | every controlled run extends, from any record with a plan, to a controlled run that is complete: the calls that get there are ones the control plane decides |
| PublicationRuns.AlwaysSafe | tools/prepare_mixed_bit_models.py:595-733 | in every interleaving of create, adopt and reuse processes dying anywhere, a manifest at its final path has its three artifacts in place with the recorded sizes and digests, and a created one binds files of one process |
| PublicationRuns.PublishedForever | tools/prepare_mixed_bit_models.py:595-733 | once a manifest is at its final path no later step of any process changes any file |
| PublicationProgress.ManifestsBelong | tools/prepare_mixed_bit_models.py:595-733 | in every reachable state a manifest that a process stages, writes or commits has its own job's coordinates and says whether the job created or adopted, and one that it returns has its own job's coordinates |
| PublicationProgress.HowItSucceeded | tools/prepare_mixed_bit_models.py:595-733 | a process that returned a manifest had either checked all three artifacts of the one in place, or committed one that it had made in its job's mode |
| PublicationProgress.AlonePublishes | tools/prepare_mixed_bit_models.py:595-733 | a process alone publishes the manifest of its job: creating from a directory without any of its files within 35 steps, adopting three accepted artifacts without a manifest within 13 |
| PublicationRefusals.AlonePublishesIff | tools/prepare_mixed_bit_models.py:595-733 | where no manifest is in place, a process alone whose commands write what is accepted has published after 36 steps exactly when it found nothing of its files (creating) or three accepted artifacts and no partial manifest (adopting); otherwise it has failed and there is no manifest |
| PublicationRefusals.NobodyMakes | tools/prepare_mixed_bit_models.py:595-733 | in every reachable state with a manifest in place no process is making one: a lock holder is about to look |
| PublicationRefusals.WaitersFail | tools/prepare_mixed_bit_models.py:636-673 | a process that waits for the lock to create or to adopt when a manifest is in place never succeeds |
| PublicationFiles.StepKeepsOthers | tools/prepare_mixed_bit_models.py:595-733 | in every reachable state the step of a process neither changes nor removes a file that it did not write itself |
| PublicationFiles.PriorFilesStay | tools/prepare_mixed_bit_models.py:595-733 | a file that was there before all processes stays as it is in every run |
| PublicationFiles.QuantizesAccepted | tools/prepare_mixed_bit_models.py:678-687 | quantization never starts from an importance matrix that is not accepted |
| PublicationFiles.FoundIsKept | tools/prepare_mixed_bit_models.py:602-615 | where a manifest is found, whole or torn, no process ever changes a file |
| PublicationFiles.FoundDecides | tools/prepare_mixed_bit_models.py:456-481 | in a directory with a manifest, a process that has taken nine steps has returned it exactly when it is whole, has the job's coordinates and describes the three artifacts, which are accepted; otherwise it has failed |
| PublicationRuns.SuccessIsPublished | tools/prepare_mixed_bit_models.py:618-733 | a process that returns a manifest returns the one on disk, and it is published; whose manifest it is says `PublicationProgress.ManifestsBelong` |
| PublicationRuns.LateProcessReuses | tools/prepare_mixed_bit_models.py:456-481 | a process started with the published coordinates never fails: at any later point it is dead or on the way to returning that manifest |
| PublicationProgress.AgainReuses | tools/prepare_mixed_bit_models.py:456-481 | once a process has returned a manifest, a further process with the same coordinates is dead or on the way to returning that manifest, whatever others do, and after nine steps of its own has returned it |
| PublicationLayout.OverlapIsUnsafe | tools/prepare_mixed_bit_models.py:547-554 | with the manifest path equal to an artifact's partial path, one process alone reaches a state with a torn or unbound manifest |
| PublicationLayout.SafeIffManifestApart | tools/prepare_mixed_bit_models.py:547-554 | among the layouts the path checks accept, publication from an empty directory is safe for all runs exactly when the manifest path is no artifact's partial path |
| PublicationLayout.SuffixIff | tools/prepare_mixed_bit_models.py:549-550 | an output path is accepted for its suffix exactly when its last five characters are `.gguf` in either case, behind a further character of its name |
| Publication.StagePreserves | tools/prepare_mixed_bit_models.py:720-727 | writing the staged manifest keeps what the lock holder knows about its three partial artifacts |
| Publication.BoundaryMoves | tools/prepare_mixed_bit_models.py:728-732 | renaming artifact i moves the boundary between final and partial artifacts by one and keeps the recorded digests on both sides |
| GgufTheorems.ReadValue | tools/prepare_mixed_bit_models.py:122-154 | reading an encoded value of any nesting, anywhere in a file, returns the number, truth value, bits, text or list that was encoded and stops right after it; widths, tags and two's complement are written out on the encoder's side |
| GgufTheorems.UnpackInverts | tools/prepare_mixed_bit_models.py:122-138 | unpacking the bytes of an encoded natural, integer, float or truth value by its tag gives it back |
| GgufAccepts.ValueIsEncoded | tools/prepare_mixed_bit_models.py:122-154 | conversely, every value that the reader accepts lies there encoded, within the limits, under its tag |
| Utf8Scalars.Utf8Iff | tools/prepare_mixed_bit_models.py:112-119 | the accepted byte strings are exactly the UTF-8 encodings of sequences of Unicode scalar values |
| GgufTheorems.SkipAsKeep | tools/prepare_mixed_bit_models.py:122-154 | on every byte string skipping a value ends at the same position, or fails with the same error, as keeping it |
| GgufTheorems.InspectInvertsEncode | tools/prepare_mixed_bit_models.py:157-200 | inspecting an encoded header returns its version and counts, the meaning of the last value of each of the three named keys and the number of tensors of each type, numbered as GGML numbers them |
| GgufAccepts.AcceptsExactlyEncoded | tools/prepare_mixed_bit_models.py:157-200 | the full reader accepts a file exactly when it starts with the encoding of a header within the limits |
| GgufTheorems.HistogramAccountsForTensors | tools/prepare_mixed_bit_models.py:181-200 | on every accepted file the histogram adds up to the tensor count |
| GgufEarlyStop.EarlyStopAgrees | tools/prepare_q8_model.py:262-286 | on every file the full reader accepts that holds the wanted keys at most once, the early-stopping reader returns the same counts, architecture and file type |
| GgufEarlyStop.UniqueKeysSuffice | tools/prepare_q8_model.py:262-286 | so do both readers on every accepted file with unique keys |
| GgufEarlyStop.RepeatedKeyDisagrees | tools/prepare_q8_model.py:271-279 | for every key sequence with a wanted key behind the cut there is an accepted file with these keys that the two readers read differently |
| GgufEarlyStop.EarlyIsPrefix | tools/prepare_q8_model.py:271-279 | from any position and whatever was found before, the early loop returns under each of its keys the last value that the full loop reads up to the entry completing the keys |
| GgufEarlyStop.EarlyReadsFront | tools/prepare_q8_model.py:262-286 | on every accepted file the early-stopping reader returns the full reader's counts and the last values among the entries up to the cut |
| GgufEarlyStop.EarlyStopAgreesIff | tools/prepare_q8_model.py:262-286 | the readers agree on an accepted file exactly when, for both keys, the last value up to the cut is the last of all |
| GgufEarlyStop.AllAgreeIff | tools/prepare_q8_model.py:262-286 | all accepted files with a given sequence of keys are read alike exactly when no wanted key stands behind the cut |
| GgufReader.Source.ReadExact | tools/prepare_mixed_bit_models.py:105-109 | the cursor moves past the bytes returned, and a short file is an error |
| GgufReader.Source.ReadUnsigned | tools/prepare_mixed_bit_models.py:122-154 | the cursor reads a little-endian number as the format has it |
| GgufReader.Source.ReadString | tools/prepare_mixed_bit_models.py:112-119 | the cursor reads a length-prefixed UTF-8 string within the limit |
| GgufReader.Source.ReadValue | tools/prepare_mixed_bit_models.py:122-154 | the recursive reader computes the parser's value and position for every tag and terminates on every byte string |
| GgufReader.Source.ReadItems | tools/prepare_mixed_bit_models.py:122-154 | the loop over array elements computes the parser's list, or nothing when skipping |
| GgufReader.Source.MetadataLoop | tools/prepare_mixed_bit_models.py:171-179 | the loop that fills the wanted values, with or without an early break, computes the parser's map |
| GgufReader.Source.ReadTensors | tools/prepare_mixed_bit_models.py:181-191 | the loop over tensor descriptions computes the parser's histogram |
| GgufReader.Source.InspectFile | tools/prepare_mixed_bit_models.py:157-200 | the full reader computes the inspection of the file, error cases included |
| GgufReader.Source.InspectQ8File | tools/prepare_q8_model.py:262-286 | the early-stopping reader computes its inspection, error cases included |
| ProgressLog.ParseMathCorrectness | tools/q8_runtime_quality_eval.py:468-514 | the row loop with its running count computes the parse of the log |
| ProgressLog.ParseIffRenders | tools/q8_runtime_quality_eval.py:468-514 | below fifty million rows the parser returns a vector exactly when the log renders that vector's cumulative percentages within the tolerances |
| ProgressLog.AcceptedLogRenders | tools/q8_runtime_quality_eval.py:468-514 | an accepted log of any length renders the vector that is returned |
| ProgressLog.LogDeterminesAnswers | tools/q8_runtime_quality_eval.py:468-514 | below fifty million rows a log renders at most one vector |
| ProgressLog.RecoversIffShort | tools/q8_runtime_quality_eval.py:488-508 | every rendering of every vector of length n is parsed back exactly when n is below fifty million |
| ProgressLog.NearlyBlankMisread | tools/q8_runtime_quality_eval.py:488-508 | from fifty million rows on a rendering of the all-wrong vector is not parsed back to it |
| ProgressLog.ParseSuiteResult | src/amd_inference_opt/eval_suites.py:716-777 | the suite parser accepts exactly unique cases with one final line and a log the other parser accepts, returns the same answers case by case, and its result passes the consistency validator |
| McNemar.ProbabilityCounts | tools/q8_runtime_quality_eval.py:517-529 | the value is the number of outcomes at least as extreme as the observed one, over two to the number of discordant pairs |
| McNemar.TailsCount | tools/q8_runtime_quality_eval.py:517-529 | the doubled tail counts exactly those outcomes for uneven splits and overshoots all outcomes for an even one |
| McNemar.ClampOnlyWhenEven | tools/q8_runtime_quality_eval.py:529 | the clamp at 1 changes the doubled tail exactly for an even split |
| McNemar.MoreUnevenIsRarer | tools/q8_runtime_quality_eval.py:517-529 | for as many discordant pairs the value never rises as the imbalance grows |
| McNemar.ProbabilityRange | tools/q8_runtime_quality_eval.py:517-529 | the value is in (0, 1] and symmetric in its arguments |
| McNemar.OneSided | tools/q8_runtime_quality_eval.py:517-529 | with nothing gained, at most five lost answers stay above the 5% level |
| McNemar.WithOnesSize | tools/q8_runtime_quality_eval.py:525-528 | the binomial coefficients count the outcomes with that many ones |
| McNemar.EveryOutcome | tools/q8_runtime_quality_eval.py:525-528 | the outcome set holds exactly the vectors of its length |
| QualityGate.CompareMathCorrectness | tools/q8_runtime_quality_eval.py:532-563 | the paired comparison accepts exactly equal-length vectors of zeros and ones; its four counts partition the questions, give both totals, and the net is the difference of correct answers |
| QualityGate.PassIff | tools/q8_runtime_quality_eval.py:566-626 | the gate passes exactly on the full 848 questions with at most eight net lost answers, a McNemar value above 0.05 whenever any is lost, bounded perplexity and no greedy regression |
| QualityGate.FailIff | tools/q8_runtime_quality_eval.py:566-626 | the gate is an error exactly for a zero baseline perplexity, does not apply exactly off the full fixture, and fails exactly when it applies and one of these bounds is broken |
| QualityGate.PassWithoutGains | tools/q8_runtime_quality_eval.py:566-626 | a passing candidate that gains no answer loses at most five |
| FixtureReader.TextDecodes | src/amd_inference_opt/eval_suites.py:664-668 | wherever a length-prefixed text of at most 32 bits of length lies, reading it returns the text and stops right after it |
| Fixture.PackTask | src/amd_inference_opt/eval_suites.py:680-702 | the growing buffer ends as the encoded record, refused for an oversized question |
| Fixture.Assemble | src/amd_inference_opt/eval_suites.py:703-713 | the loop over positions ends as count, offset table and records, refused when a position exceeds 32 bits |
| Fixture.SerializeSuite | src/amd_inference_opt/eval_suites.py:671-713 | the suite serializer computes the fixture of its cases, error cases included |
| Fixture.SerializeFourChoice | tools/q8_runtime_quality_eval.py:347-378 | on four-choice items the second serializer emits the same bytes; the empty list, which the first refuses, becomes a bare zero count |
| FixtureSizes.SerializedIff | src/amd_inference_opt/eval_suites.py:671-713 | from lengths alone: the serializer accepts exactly the non-empty suites whose cases have two to 26 choices, an answer among them and a prompt of at most 32 bits of length, and whose records all start below two to the 32; then each record starts at the sum of the sizes before it, and the buffer ends where a further one would start |
| FixtureReader.RecordAtOffset | src/amd_inference_opt/eval_suites.py:671-713 | in every accepted fixture offsets increase strictly from the end of the table to the end of the buffer, and decoding at the i-th position ends where the next begins and gives a task that presents the i-th case: the question, then one line per choice with its label and its text in order, one mark, at the answer's label, and an empty second answer set |
| FixturePrompts.ReadsChoices | src/amd_inference_opt/eval_suites.py:684-701 | reading the lines of a presented prompt gives the choices of the case back, when these have no line breaks, and the marked one is the answer |
| FixtureReader.ChoicesReadBack | src/amd_inference_opt/eval_suites.py:671-713 | in every accepted fixture, decoding at the i-th position and reading the lines of the prompt gives the i-th case's choices and its answer |
| FixtureReader.ReadInOrderInverts | src/amd_inference_opt/eval_suites.py:671-713 | in every accepted fixture, decoding the count and then that many records one after another consumes the whole buffer and gives, case by case, the tasks that the table leads to |
| FixtureReader.RecordsTile | src/amd_inference_opt/eval_suites.py:703-713 | the records tile the buffer behind the table, each at its offset |
| FixtureReader.TaskDecodes | src/amd_inference_opt/eval_suites.py:664-702 | wherever an encoded task lies, the reader returns it and stops right after it |
| Selection.Candidates | src/amd_inference_opt/eval_suites.py:464-508 | deduplicating one source accepts exactly normal rows whose ids do not conflict, and keeps each case once, whatever the order and repetition of rows |
| Selection.SelectGeneral100 | src/amd_inference_opt/eval_suites.py:464-508 | success depends only on the set of rows of each source and the set of sources; the result is the hundred-case selection of the pools |
| Selection.OneSelection | src/amd_inference_opt/eval_suites.py:448-508 | for given pools there is one selection, so row and source order cannot show |
| Selection.SelectionIsTop | src/amd_inference_opt/eval_suites.py:448-508 | exactly 25 cases of each group are selected and every other case of the group ranks after each of them |
| Ranking.SortedIsAscending | src/amd_inference_opt/eval_suites.py:448-450 | sorting by rank keeps the elements and orders them strictly |
| Ranking.FirstOfAscending | src/amd_inference_opt/eval_suites.py:497-508 | the first n of the sorted list are the elements with fewer than n before them |
| Ranking.OneAscendingOrder | src/amd_inference_opt/eval_suites.py:497-508 | a set has one strictly ascending listing |
| Ranking.LeftOutComesLater | src/amd_inference_opt/eval_suites.py:497-508 | what a top-n leaves out comes after everything it takes |
| QuantRules.GroupAssignments | src/amd_inference_opt/mixed_precision_llama.py:71-79 | grouping succeeds exactly when every overridden precision is supported, and files each overridden tensor under its precision only |
| QuantRules.EmitRules | src/amd_inference_opt/mixed_precision_llama.py:81-85 | the chunking loop emits one rule per chunk of the group |
| QuantRules.BuildArgv | src/amd_inference_opt/mixed_precision_llama.py:54-93 | the command line is refused exactly for a wrong provider, missing format, non-positive counts or unsupported precision, and otherwise lists the policy's rules between the fixed arguments |
| QuantRules.ReadAlternatives | src/amd_inference_opt/mixed_precision_llama.py:48-51 | reading an alternation of escaped names gives the names back, so no escaped character acts as an operator |
| QuantRules.SelectorMatches | src/amd_inference_opt/mixed_precision_llama.py:48-51 | a selector matches exactly its names |
| QuantMeaning.OneRulePerTensor | src/amd_inference_opt/mixed_precision_llama.py:71-85 | each tensor with a non-base precision is matched by exactly one emitted rule, every other name by none |
| QuantMeaning.RuleGivesPrecision | src/amd_inference_opt/mixed_precision_llama.py:71-85 | a rule that matches a tensor gives it the precision that the policy assigns, never the base |
| QuantArguments.CommandMeansPolicy | src/amd_inference_opt/mixed_precision_llama.py:80-93 | reading the options of the command line back, type names included, asks for every overridden tensor exactly the precision that the policy assigns to it, once, and for no other tensor anything |
| QuantMeaning.RuleTotal | src/amd_inference_opt/mixed_precision_llama.py:81-85 | the number of rules is the sum over precisions of group size over chunk size, rounded up |
| QuantMeaning.ChunkCount | src/amd_inference_opt/mixed_precision_llama.py:83-85 | stepping through a list by a size gives the rounded-up quotient of chunks |
| QuantMeaning.ArgumentDetermines | src/amd_inference_opt/mixed_precision_llama.py:85 | the text of a rule argument determines its pattern and type, even for names that contain the separator |
| MixedSelection.TakeTop | tools/vllm_mixed500_eval.py:131-156 | whatever the digests, a sound file yields the cases with fewer than the quota before them by digest and id, strictly ascending |
| MixedSelection.LoadSelection | tools/vllm_mixed500_eval.py:131-161 | loading succeeds exactly when every file is sound and has its quota; then the suite holds exactly the top cases of each source, each once, and no case comes before an earlier one by digest and id |
| MixedSelection.OneSuite | tools/vllm_mixed500_eval.py:157-161 | with unique ids the suite is strictly ascending and the only one of its files |
| Ranking.SortedNondescending | tools/vllm_mixed500_eval.py:153-157 | sorting by digest and id puts any cases in order, ties included |
| MixedEval.StepInv | tools/vllm_mixed500_eval.py:297-342 | requests, completions, checkpoint writes, crashes and restarts keep results honest and within what the checkpoint and the flying requests say |
| MixedEval.OutputIsSequentialIff | tools/vllm_mixed500_eval.py:297-342 | after any completion order, crashes and resumes the output equals sequential evaluation exactly when cases with one id are answered alike |
| MixedEval.CoherentIffUnique | tools/vllm_mixed500_eval.py:305-331 | since answers carry their source, that is exactly when ids are unique over the whole suite |
| MixedEval.LibraryIdsUnique | src/amd_inference_opt/full_eval_library.py:252-273 | with ids as the evaluation library writes them, source first, uniqueness within each source gives it for the whole suite, so the output is sequential |
| MixedEval.LoadedOutputIff | tools/vllm_mixed500_eval.py:131-342 | for a loaded suite, after any completion order, crashes and resumes: the output is the sequential evaluation of the top cases exactly when no id is among the top cases of two sources |
| MixedEval.LibrarySuite | tools/vllm_mixed500_eval.py:131-342 | a suite loaded from the library's files is evaluated as if sequentially in every run, and no run requests a case it has saved |
| MixedEval.NoRepeatedRequest | tools/vllm_mixed500_eval.py:308-322 | with unique ids, no run requests a case that is in the persisted checkpoint |
| MixedEval.RepeatedRequest | tools/vllm_mixed500_eval.py:308-326 | two cases with one id: a run that requests the second after saving the first |
| MixedEval.NoRepeatedRequestIff | tools/vllm_mixed500_eval.py:308-326 | so all runs request only cases outside the checkpoint exactly for suites with unique ids |
| MixedEval.CheckpointGrows | tools/vllm_mixed500_eval.py:252-264 | the checkpoint never loses a case that it holds, over any crashes and resumes |
| MixedEval.NothingMissing | tools/vllm_mixed500_eval.py:323-329 | when nothing is pending every case has an answer, so ordering cannot fail |
| MixedEval.EvaluatePending | tools/vllm_mixed500_eval.py:308-329 | the collecting loop, for any completion order of the pending cases, ends with an answer for every case, sequential exactly under the same condition |
| ExecutionMap.MergeWithPositions | src/amd_inference_opt/agent_handoff.py:138-159 | the loop with its position index refuses repeated update ids and otherwise upserts in order |
| ExecutionMap.MergeWithDictionary | src/amd_inference_opt/cli.py:178-195 | the dictionary loop lists each id once, at its first place, with its last entry |
| ExecutionMap.MergesAgreeIff | src/amd_inference_opt/agent_handoff.py:138-159 | for updates with unique ids both merges give the same entries exactly when the current ids are unique |
| ExecutionMap.MergeKeepsUnique | src/amd_inference_opt/agent_handoff.py:138-159 | merging keeps ids unique |
| ExecutionMap.ListMergeSnoc | src/amd_inference_opt/agent_handoff.py:138-159 | one more update replaces the entry of its id in place, or is appended when the id is new |
| Bundle.ApplySelection | src/amd_inference_opt/experiment_bundle.py:1026-1048 | the loop marks every entry as current or not, in order |
| Bundle.AtMostOneSelected | src/amd_inference_opt/experiment_bundle.py:875-1023 | at most one attempt of each kind is selected |
| Bundle.SelectedNames | src/amd_inference_opt/experiment_bundle.py:1018-1023 | the index's selection names exactly the selected attempts |
| Bundle.SelectedIsLast | src/amd_inference_opt/experiment_bundle.py:912-986 | for reruns, extended pairs and quality runs the index selects the last attempt that has finished, and none if none has |
| BundleIndex.IndexLists | src/amd_inference_opt/experiment_bundle.py:875-1023 | the index lists the runner's attempt when there is a result of it, then one attempt for every rerun, extended pair, quality run and profile, with its id and status and, in order, the source files that belong to it |
| BundleIndex.SourceSays | src/amd_inference_opt/experiment_bundle.py:615-709 | a source shows the registered file; its role, attempt and flag are those of the last profile trial with this evidence, without one those of the last selection of the path, without one those of the path |
| BundleIndex.FlagSays | src/amd_inference_opt/experiment_bundle.py:1026-1048 | selection changes nothing but the flags: baselines, benchmarks and decisions are current when their path is selected, other files of attempts when the attempt that the path names is, or for profile evidence the profile attempt, and all others stay |
| BundleIndex.DocumentsSay | src/amd_inference_opt/experiment_bundle.py:1222-1328 | a refresh that succeeds leaves a summary that counts and digests the listed sources, repeats the index's selection and has the date of the latest source; the manifest lists sources, index and summary and has the latest of their dates |
| Bundle.CurrentIffSelected | src/amd_inference_opt/experiment_bundle.py:1026-1048 | an attempt's artifact that is not bound by an evidence path is current exactly when the index selects an attempt of its kind and id |
| Bundle.SelectedProfileNamed | src/amd_inference_opt/experiment_bundle.py:987-1016 | the index's selection names a profile id exactly when the last successful profile attempt has it, in the index's form |
| Bundle.ProfileEvidenceFlag | src/amd_inference_opt/experiment_bundle.py:674-700 | after selection the evidence of a profile attempt is current exactly when the index's form of the selected id is its own id or, for an attempt without one, when the ids as text are equal |
| Bundle.ProfileFlagIff | src/amd_inference_opt/experiment_bundle.py:674-700 | these flags single out the attempts with the selected one's id, for all attempts, exactly when that id is present, non-empty, not the text of a missing one and without the suffix that the index removes |
| BundleRefresh.LoadsAfterRefresh | src/amd_inference_opt/experiment_bundle.py:1252-1433 | right after a refresh whose sources are not derived files the loader accepts the bundle |
| BundleRefresh.DerivedSourceRefused | src/amd_inference_opt/experiment_bundle.py:1372-1433 | when the written index or summary is itself a source the loader refuses |
| BundleRefresh.ManifestSourceRefused | src/amd_inference_opt/experiment_bundle.py:1416-1423 | when the manifest is itself a source it lists its own earlier version, which the refresh replaced, and the loader refuses |
| BundleTampering.TamperingRefused | src/amd_inference_opt/experiment_bundle.py:1372-1433 | where hashes do not collide, any change to the content of the manifest, the summary, the index or a listed file of a bundle that loads makes the loader refuse it |
| BundleTampering.LoadedAgrees | src/amd_inference_opt/experiment_bundle.py:1372-1433 | a bundle that loads is consistent: one digest in summary and manifest, which is that of the listed files other than index and summary, counted by the summary; every listed file registered as listed and verified, none twice |
| BundleRefresh.SourcesAre | src/amd_inference_opt/experiment_bundle.py:615-709 | the sources are exactly the registered files that are owned and not derived, selected, or profile evidence |
| BundleRefresh.SourcesOkIff | src/amd_inference_opt/experiment_bundle.py:615-709 | collecting succeeds exactly when all selected evidence is registered and every source verifies |
| BundleRefresh.ChosenIndexRefused | src/amd_inference_opt/experiment_bundle.py:1252-1433 | for every bundle that was refreshed, selecting its index as evidence gives a refresh that either can make no summary or is refused by the loader |
| BundleRefresh.LoadsIffSourcesApart | src/amd_inference_opt/experiment_bundle.py:1372-1433 | right after a refresh the loader accepts exactly when, before it, none of index, summary and manifest was selected as evidence or registered as the evidence of a profile attempt |
| BundleRefresh.PublishAgain | src/amd_inference_opt/experiment_bundle.py:1252-1328 | writing index, summary and manifest of the same sources again changes no file |
| BundleRefresh.RefreshIsFixpoint | src/amd_inference_opt/experiment_bundle.py:1252-1328 | refreshing again with unchanged sources, at any later times, returns the same manifest and leaves every file as it is |
| BundleFailures.RefreshOkIff | src/amd_inference_opt/experiment_bundle.py:1252-1328 | a refresh succeeds exactly when the selected evidence is registered, every source verifies, quality attempts carry the ids of their files and a summary can be made, of the evidence as it was before the call unless the index itself is selected; otherwise only the index may have been written, and only in the last case |
| BundleFailures.FailedRefreshLoadsIff | src/amd_inference_opt/experiment_bundle.py:1274-1410 | a bundle that loaded before still loads after a refresh that could make no summary exactly when its index already was the new one, which for a registration that verifies is the writer's own up-to-date check |
| BundleFailures.UnreadableEvidenceUnloads | src/amd_inference_opt/experiment_bundle.py:1274-1410 | a published bundle with one more quality attempt whose selected result cannot be read loads, fails to refresh and then does not load |
| BundleStore.ListInOrder | src/amd_inference_opt/experiment_bundle.py:1252-1328 | listing a dictionary of entries sorted by path gives its one ordered listing |
| BundleStore.CollectEntries | src/amd_inference_opt/experiment_bundle.py:615-709 | the collecting loops, which overwrite earlier entries of a path, compute the source entries or the integrity error |
| BundleStore.TaskStore.CanonicalWrite | src/amd_inference_opt/experiment_bundle.py:1156-1184 | after the write the path holds the content and its registered digest is returned, no other file has changed, and an up-to-date file keeps its date |
| BundleStore.TaskStore.Refresh | src/amd_inference_opt/experiment_bundle.py:1252-1328 | the refresh returns the specified result and leaves the specified files, also when it fails; only a summary that cannot be made leaves changed files |
| BundleStore.TaskStore.Load | src/amd_inference_opt/experiment_bundle.py:1372-1433 | the loader accepts exactly the stores that the loading theorems describe and returns the stored summary and manifest |

## Left out

Campaigns
- Field validators that look at one identifier, label or hash format, timestamps, and the text of error messages: kinds of errors stand for messages, and which of several applies is proved only where a row says so.
- JSON encoding of records: saving and loading a record is the identity on datatypes, and loading applies the validators.
- Comparison of the stored task document in store creation, platform probing, the session breakdown and the event log: they do not affect the record.
- Lookup of a campaign by campaign id across task directories: one store stands for one task.
- The planning adapters and the internals of the quality policy: what each adapter plans and the gate's verdict are inputs of a control-plane step. The model relies on every configured adapter planning at least one spec (src/amd_inference_opt/campaign_adapters.py:471-560 and 802-860, src/amd_inference_opt/kv_cache.py:840-890); a spec's fingerprint is an opaque text.

Publication
- Child commands that outlive a killed parent, processes with different layouts that share an artifact path, symbolic links, and dry runs, which write nothing.
- The manifest's preparation coordinates are one opaque string, and a manifest's write is a step that may leave a torn file behind.

GGUF
- Python's recursion limit on nested arrays; floating-point payloads are kept as their bits.
- The tensor names, shapes and offsets, which the reader also discards.

Scoring
- IEEE rounding, infinities and NaN: percentages and probabilities are reals. The regular expressions that cut rows out of a log are not modelled; rows are an input.
- McNemar.ProbabilityRange: the value is the exact rational; its rounding to a float is not modelled.

Fixtures and selections
- FixtureSizes.SerializedIff: does not tell blank questions and choices apart, which the validator of a case refuses, because texts are bytes here; the same goes for Fixture.SerializeSuite.
- Row normalization of each dataset is a function parameter that may reject a row; SHA-256 ranks are a function parameter and may collide.
- The greedy canary and the draw of math items, which are plain ranked selections.
- MixedEval.StepInv: a failed request counts as a crash, and one process works on a checkpoint at a time; protocol-hash mismatch, HTTP and tokenization are not part of this model.

Quantizer rules
- QuantRules.SelectorMatches: reads the pattern as an anchored alternation of escaped literals; the quantizer's own lower-casing, and `$` matching before a final newline, are not modelled.
- QuantRules.BuildArgv: the digest over the command line and path normalization are left out, and the decimal text of the thread count is an input.

Merges and bundles
- ExecutionMap.MergeWithPositions: the error for a map of another task and the update time are left out.
- Discovery of unregistered outputs and declared patches, selection of evidence paths, and the descriptive contents of a summary, which is an opaque function of the selected files and the model's provenance that may refuse them.
- Refreshes killed between two writes.
- Profile attempts whose id is neither missing nor a string, stage and ownership labels, task and experiment id checks, and the SQLite catalog.

Elsewhere
- Running commands, GPU locks, profilers, the user interface, the experiment workflow around these parts, and git patch generation: operating-system effects and plumbing.
