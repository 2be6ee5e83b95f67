# Verification model of the Mandarin subtitle platform

A Dafny model of the parts of the platform that turn a YouTube video into annotated subtitles and show them: the
progressive batch pipeline with its database, queue and worker; the arithmetic of its progress reports; translation with
recovery; segmentation and token alignment; the checks on model answers; the viewer's merges; speech recognition in
chunks; the rate limiter; the approval of agent requests; and the two services that answer with the same subtitles.

`dafny verify dfyconfig.toml` checks all of it within Dafny's default time limit.

How it is organised:

- One module per component. Code that works by assignment is a method (on a class where the source has an object with
  fields) proved equal to a specification function; the properties are lemmas about those functions.
- **The pipeline** (`Database`, `Schedule`, `BatchWork`, `Progress`, `Pipeline`, `Runs`, `Service`, `Preparation`, `Queue`,
  `Traces`, `Worker`). `Session` models a database session: committed rows, rows as the session sees them, and a log of every state
  it commits. `Pipeline.Step` lists the transactions that can commit. Every operation of `Service` and `Worker` proves
  which steps its commits amount to, so what holds for all runs of steps holds for every state any operation leaves
  behind, and, since a crash keeps only what was committed, for every crash. `Queue` says what seeks, retries and picks
  make of the pending batches and hints; the worker's picks are proved to be the queue's. `Traces` sorts steps into what
  was processed, retried and written.
- `OwnProviders` and `Answers` join the parts: the program's own translator and analyzer are providers as the results
  about batches ask for, and the states the pipeline commits are such as the results about the two answers ask for.
- Models, HTTP services, dictionaries and clocks are arbitrary functions or arguments; results hold for every behaviour of
  theirs. Numbers that are floating point in the program are exact reals.

Where the code does not do what its documentation promises or a reader expects, the model follows the code:

- `README.md:39` promises that a seek puts the batch at that time and the next two first. The queue forgets every pending
  hint after one pick, so only the first hint counts; `Schedule.SeekPromiseIff` says exactly when the promise is kept.
- The handler for a failed preparation reads a name that is not bound, so its "failed" status is never committed;
  `Service.PrepareVideoContent` says what is.
- A client that waits its Retry-After can be refused again in the same window, because the time to live is rounded;
  `RateLimit.RetryAfterFallsShortIff` says exactly when.
- A failure while a completed batch is being announced marks the committed batch failed (`Pipeline.LateFailure`). A retry of
  a completed batch is the other way to take a completed batch back. `Runs.Calm` names exactly these two, and
  `Runs.TakingBackLowersProgressIff` says when these make the reported progress fall. A report of 1 never falls this way.
- The check on model answers takes hexagram symbols for Chinese characters and supplementary ideographs not, the local
  pronunciation the other way round (`OwnProviders.HanDefinitionsDiffer`).
- An expired request is not closed while an executor is under way (`Approval.ExpiredCompletesIff`).

## Model

| member | source | states |
|---|---|---|
| `Pipeline.EveryCommittedStateIsConsistent` | backend/app/services/subtitle_service.py:150-188 | in every state committed by any sequence of imports, preparations, batch successes and failures, late failures and retries: no batch is stored as "processing"; every subtitle has its number as position, its batch is its time window's and exists; every batch has a subtitle; a completed batch has all its subtitles processed and translated; a video stored as completed has batches, all of them completed, and progress 1 |
| `Pipeline.StepKeeps` | backend/app/services/subtitle_service.py:258-338 | each single transaction, from any consistent state and with any providers, leaves a consistent state |
| `Pipeline.StoreKeeps` | backend/app/services/subtitle_service.py:164-187 | storing retrieved lines and their batches in one transaction gives a consistent state, whatever lines were retrieved |
| `Pipeline.ResumeKeeps` | backend/app/services/subtitle_service.py:172-187 | preparing a video that already has lines changes nothing but the video's own row: no batch is missing |
| `Pipeline.CreateMissingAdds` | backend/app/repositories/batch_repository.py:30-44 | exactly the wanted windows without a row get a pending one; existing rows are untouched and all rows keep their windows |
| `Pipeline.JoinMissesNoLine` | backend/app/repositories/subtitle_repository.py:76-96 | in a consistent state, a successful batch has a processed line for the sequence number of every one of its subtitles, so the join by number skips none |
| `Runs.BatchesAreIsolated` | backend/app/services/subtitle_service.py:279-338 | processing a batch, failing it and retrying it change no other batch and no subtitle of another batch |
| `Runs.ProcessingSettlesTheBatch` | backend/app/services/subtitle_service.py:281-338 | a batch that is not completed ends either completed with all its subtitles processed and translated, the video being completed with it if it was the last and untouched otherwise; or failed with all of them failed and the video failed; never in between |
| `Runs.SuccessStoresEachLinesOwnText` | backend/app/services/subtitle_service.py:287-297 | after a successful batch every one of its subtitles is processed and holds the translation or gloss and the tokens that the providers brought for its own text, when the batch's texts were sent in the order of the subtitles; number, times, text and batch are as they were |
| `Runs.ProgressNeverFalls` | backend/app/services/subtitle_service.py:346-369 | along every run that takes back no completed batch, whatever else fails and wherever it stops, reported progress stays in [0, 1] and never decreases |
| `Runs.CompletedReportIsExact` | backend/app/services/subtitle_service.py:353-358 | in every reachable state "completed" is reported if and only if there are batches and all are completed, and then progress is 1 |
| `Runs.ReportedStatusIs` | backend/app/services/subtitle_service.py:353-353 | in every reachable state the report says completed if there are batches and all are completed, and otherwise the status given last: processing by an import of a video that was not done or by a retry, failed by a batch that failed |
| `Runs.FailureStaysReported` | backend/app/services/subtitle_service.py:319-324 | after a batch has failed every report says failed until an import, a retry or the completion of all batches |
| `Runs.TakingBackIs` | backend/app/services/subtitle_queue.py:88-95 | a retry makes an existing batch pending and the video processing, a late failure makes batch, lines and video failed; both change nothing else, and the report says so at once |
| `Runs.TakingBackLowersProgressIff` | backend/app/services/subtitle_service.py:346-369 | in every reachable state, retrying a completed batch, or failing it after its commit, lowers the reported progress if and only if not all batches are completed and the persisted progress is behind 0.30 + 0.68 k/n, k of n batches being completed |
| `Runs.RetryLowersProgressExample` | backend/app/services/subtitle_queue.py:88-95 | a run from a fresh video to such a state: two batches, 0.6332 persisted, one completed; retrying it takes the report from 0.64 to 0.6332 |
| `Runs.RetryRepairsAFailure` | backend/app/services/subtitle_queue.py:88-100 | failing a batch, retrying it and processing it again leaves the same batch rows, subtitles and progress as processing it without the failure, whichever way that goes |
| `Service.PrepareVideoContent` | backend/app/services/subtitle_service.py:150-188 | which transactions a preparation commits in each case; a failed retrieval commits the phases it went through and no status, no lines and no batches |
| `Preparation.FirstPreparationStores` | backend/app/services/subtitle_service.py:164-187 | a first preparation that gets its lines stores exactly the retrieved lines with text, in order, each with its start, end and text, its number, and the batch floor(start / W), raw and without tokens; exactly the windows of these lines are batches, all pending; the video is ready, at 0.30 or wherever it was ahead |
| `Preparation.LaterPreparationResumes` | backend/app/services/subtitle_service.py:172-187 | preparing a video again that is not done makes it ready in the same way and leaves subtitles and batches alone |
| `Preparation.RetrievalPhases` | backend/app/services/subtitle_service.py:213-233 | which phases and progress are committed while lines are fetched or transcribed |
| `Preparation.RetrievalMovesOn` | backend/app/services/subtitle_service.py:213-233 | when chunks are reported one by one, each of these commits is ahead of the one before and all stay below 0.28 |
| `Service.RetrieveOrTranscribe` | backend/app/services/subtitle_service.py:213-238 | the phases committed while lines are fetched or transcribed, one by one, and nothing but the video's row |
| `Service.ProcessBatch` | backend/app/services/subtitle_service.py:258-338 | the progress writes, the retries of other batches that land meanwhile, one transaction that completes or fails the batch, and a second one if announcing fails; the claim itself is never committed; it returns the batch's subtitles if and only if the batch ends completed |
| `Service.LandRetries` | backend/app/services/subtitle_queue.py:88-95 | retries of other batches that commit while a batch is claimed are kept, and leave the claim as it is |
| `Service.ImportVideo` | backend/app/services/subtitle_service.py:128-143 | an import commits the processing status and phase unless every subtitle is already processed |
| `Service.RetryBatch` | backend/app/services/subtitle_queue.py:88-95 | a retry commits exactly the batch as pending and the video as processing |
| `Service.ForwardRunNeverFalls` | backend/app/services/subtitle_service.py:346-369 | any run of transactions without retries and late failures never lowers the reported progress, from any consistent state |
| `Worker.Work` | backend/app/services/subtitle_queue.py:102-201 | the worker always ends; its picks are exactly those the queue makes of the prepared batches, the hints and everything that arrives, until nothing is pending; its commits are the preparation and then exactly the retries that arrived, in order, the progress written, and each pick processed with its own turn's providers and fault; it announces completion if and only if all batches are completed, and surely when there were batches, none had failed and nothing goes wrong, whatever seeks and retries arrive |
| `Worker.WorkIsBounded` | backend/app/services/subtitle_queue.py:131-198 | the batches processed are at most those pending after the preparation plus one per committed retry |
| `Worker.RetryFreeWorkIsExact` | backend/app/services/subtitle_queue.py:131-198 | when no retry is committed the batches processed are exactly those that were pending, each once, and at most 3N + 22 progress commits are made while N batches are processed |
| `Worker.QuietWorkFollowsTheOrder` | backend/app/services/subtitle_queue.py:210-224 | when nothing arrives, the batches come in the order foretold by the hints and indexes at the start |
| `Worker.RetryFreeWorkNeverFalls` | backend/app/services/subtitle_service.py:346-369 | a worker that commits no retry and no late failure never lowers the reported progress, from its first commit to its last |
| `Worker.FirstPreparationIsPromising` | backend/app/services/subtitle_service.py:164-187 | the first preparation of a video whose lines have text gives batches, none of them failed, so that a worker with which nothing goes wrong announces completion |
| `Worker.Turn` | backend/app/services/subtitle_queue.py:131-198 | one turn, for every list of requests before and during it: the pick is the head of the order after the requests before it; what is pending and hinted afterwards is what the pick and the requests during it leave; the commits are exactly the retries, the progress written and the pick processed |
| `Queue.SeekIsTheNextPickIff` | backend/app/services/subtitle_queue.py:70-86 | whatever arrived before it, a seek into a pending batch that only seeks follow makes its batch the next pick if and only if no other batch was hinted and pending before |
| `Queue.SeekIsServedIff` | backend/app/services/subtitle_queue.py:70-86 | the same of the worker's own picks, for a seek that arrives anywhere between two of them, also while a batch is being processed |
| `Queue.RetryIsTheNextPickIff` | backend/app/services/subtitle_queue.py:88-100 | whatever arrived before it, a retry of an existing batch that only seeks follow is the next pick if and only if its batch was not hinted or is the first pending hint |
| `Queue.WhatLandsMeanwhile` | backend/app/services/subtitle_queue.py:70-100 | of what arrives while a batch is processed everything but the retries of that batch counts, in its order; the retries are those asked for, in their order |
| `Queue.PicksArePaidFor` | backend/app/services/subtitle_queue.py:210-224 | every pick is paid for by a batch that was pending at the start or by a committed retry |
| `Queue.RetryFreePicks` | backend/app/services/subtitle_queue.py:210-224 | picking until nothing is pending, without a retry, picks exactly what was pending, each once |
| `Traces.TraceOfBatch` | backend/app/services/subtitle_service.py:258-338 | what the commits of one batch come to: one process, the retries of other batches that landed, the progress written, and a late failure exactly if the fault comes after a commit that succeeded |
| `Worker.SettledPending` | backend/app/services/subtitle_service.py:295-324 | settling a batch, also with a late failure, removes it and no other from the pending ones |
| `Schedule.PlaybackBatchIsFloor` | backend/app/services/subtitle_queue.py:76-79 | batch windows do not overlap: a playback time has at most one batch, the one numbered floor(t / W) |
| `Schedule.InWindowIffFloor` | backend/app/services/subtitle_service.py:504-525 | a start lies in a batch's window if and only if the batch is the one assigned to it |
| `Schedule.PrioritizedBatchOrder` | backend/app/services/subtitle_queue.py:247-253 | the loop computes: pending hints in the order of first mention, then the rest by index |
| `Schedule.OrderIsPermutation` | backend/app/services/subtitle_queue.py:247-253 | the order has every pending batch exactly once and nothing else |
| `Schedule.FirstOfOrderIsNext` | backend/app/services/subtitle_queue.py:222-224 | the pick is the first hint that is pending, or the least pending index when no hint is |
| `Schedule.VideoQueueState.NextBatch` | backend/app/services/subtitle_queue.py:210-224 | the pick, and that every hint that was pending is forgotten, picked or not |
| `Schedule.VideoQueueState.PrioritizeBatch` | backend/app/services/subtitle_queue.py:70-85 | a seek adds the batch containing the time and its two successors, in this order, unless hinted already; a time outside all batches adds nothing |
| `Schedule.VideoQueueState.PrioritizeRetry` | backend/app/services/subtitle_queue.py:96-99 | a retried batch becomes the first hint unless it is hinted already |
| `Schedule.OnlyTheFirstHintCounts` | backend/app/services/subtitle_queue.py:220-224 | whatever hints there are, after the first pick the remaining batches follow by index |
| `Schedule.SeekIsServedNext` | backend/app/services/subtitle_queue.py:70-86 | a seek into a pending batch, no older hint being pending, makes it the very next pick, the others following by index |
| `Schedule.SeekPromiseIff` | README.md:39 | after such a seek the picks are in the promised order (that batch, the next two, the rest) if and only if neither of the next two is pending or no pending batch is before the target |
| `Schedule.SeekPromiseFails` | README.md:39 | with batches 0, 5 and 6 pending a seek into 5 is not followed by 6 |
| `Progress.CompletedExactlyWhenAllBatchesAre` | backend/app/services/subtitle_service.py:346-369 | for rows that claim no more than they should: progress in [0, 1]; completed if and only if there are batches and all are completed, and then 1 |
| `Progress.ReportShowsTheRows` | backend/app/services/subtitle_service.py:346-369 | what is reported of any rows: the video's own status and phase unless there are batches and all are completed; the number of completed batches and of processed subtitles; the progress of the video or the share of its completed batches, whichever is more, and 1 when completed |
| `Progress.ReportGrows` | backend/app/services/subtitle_service.py:346-369 | more persisted progress and more completed batches never report less |
| `Progress.BatchProgressPublisher.PublishAll` | backend/app/services/subtitle_queue.py:142-182 | which reports of a batch are persisted, with which phase and progress, each in a transaction of its own; and that viewers are sent a snapshot for every report, persisted or not, as processing, in the phase of the report and with its share of the progress |
| `Progress.CommittedKeepsUp` | backend/app/services/subtitle_queue.py:146-173 | after any prefix of the reports of a batch: the progress that is polled is less than 0.03 behind the last report, and so is the committed row once something was written; the committed phase is the last report's if and only if the row was in it already or the last write is not behind the progress the row had |
| `Progress.WritesMoveOn` | backend/app/services/subtitle_queue.py:146-173 | over the reports of a batch, which never fall, the progress written never falls and the phases only move from translating to segmenting to saving |
| `Progress.RowFollowsWrites` | backend/app/repositories/video_repository.py:136-142 | the row after such writes: the furthest progress, and the last phase unless the row was ahead of it |
| `Progress.WritesPerBatch` | backend/app/services/subtitle_queue.py:146-173 | for reports that never fall, a batch of an N-batch video persists at most 3 + floor(0.68 / (0.03 N)) of them |
| `Progress.WritesPerRun` | backend/app/services/subtitle_queue.py:131-198 | summed over at most N batches these are at most 3N + 22 |
| `BatchWork.ProcessSubtitleBatch` | backend/app/services/subtitle_service.py:394-431 | the translation, analysis and line loops compute the batch's lines; the reports are one after every chunk translated, every chunk analysed and every line made, each with its share of 0.05 to 0.4, 0.4 to 0.8 and 0.8 to 0.96, up to the first call that raises |
| `BatchWork.CollectChunks` | backend/app/services/subtitle_service.py:402-410 | the chunk loop concatenates the answers of consecutive chunks, stops at the first that raises, and reports the share done after each |
| `BatchWork.AnalyzeSubtitles` | backend/app/services/subtitle_service.py:433-466 | the analyses by provider chunk or by local segmentation, with a report after each chunk or a single one of 0.8 |
| `BatchWork.CollectAnswersEveryText` | backend/app/services/subtitle_service.py:402-412 | for every chunk size: there are answers if and only if the call for the texts from each multiple of the size on returns; and a provider that keeps lengths then answers every text once, in order, in the one call that contained it |
| `BatchWork.LinesKeepTheirOwnText` | backend/app/services/subtitle_service.py:401-431 | for every chunk size and subtitle list a processed batch has one line per subtitle with text, in order, with its number, times and text; its tokens are those of the analysis its own text received, enriched one by one; its translation is the one its own text received, unless that is the text's placeholder and some token has a meaning |
| `BatchWork.TranslationIsGlossed` | backend/app/services/subtitle_service.py:496-502 | a translation that is not the text's placeholder is stored as it is; a placeholder gives way to the tokens' meanings that are more than white space, in order and joined by " / ", if there are any |
| `BatchWork.LocalTokensSpoken` | backend/app/services/subtitle_service.py:453-464 | the local analysis has the segmented words, each with the pinyin spoken at the place where it is found |
| `BatchWork.RaisesOnlyWithAProvider` | backend/app/services/subtitle_service.py:413-416 | with such providers the strict zip never fails: a batch raises if and only if the call for some chunk of its texts does, or a local reading, or a lookup for a word of some text's own analysis |
| `BatchWork.TokensKeepTheirOwnPinyin` | backend/app/services/subtitle_service.py:472-494 | for every analysis, empty tokens included: stored token k is analysed token k at the place where it is found, with its own analysed pinyin if it has characters, the dictionary's where that is missing, and the dictionary's meaning; tokens that share a place have the last one's pinyin; it raises if and only if a lookup does |
| `OwnProviders.OwnProvidersKeepEveryLine` | backend/app/services/subtitle_service.py:394-431 | with the program's own translator and either analyzer: whatever the models answer, each line's translation is what the model said of that very text in its last request about it, or the placeholder or gloss where that failed; its tokens are those of an answer that covers the text, or of the local analysis; and a batch raises only when a provider or a lookup does |
| `OwnProviders.TranslatorKeepsLength` | backend/app/services/translation_service.py:36-118 | the translator, as a batch calls it, returns one translation per text or raises |
| `OwnProviders.AnalyzerKeepsItsLength` | backend/app/services/subtitle_nlp_service.py:76-94 | the model's analyses and the local ones have one entry per text or raise |
| `OwnProviders.HanDefinitionsDiffer` | backend/app/services/subtitle_nlp_service.py:206-207 | the check on model answers and the local pronunciation differ about what a Chinese character is exactly for the hexagram symbols and the supplementary ideographs |
| `Translation.TranslationIsSound` | backend/app/services/translation_service.py:36-118 | for every model: the replies are the model's own, in the order of the requests, an answer of another length counting as unusable; at most 3n - 1 requests for n texts, none without texts or key; failure if and only if the key is missing or a request met a fatal reply, which is then the last one and gives the error; otherwise one entry per text, in order, each from the last request that covers the text, or the text's own placeholder when that one failed too, and no other covering request was answered |
| `Translation.RequestBoundIsTight` | backend/app/services/translation_service.py:87-107 | a model that never answers usably is asked exactly 3n - 1 times for n >= 2 texts |
| `Translation.TextIsAskedSeldom` | backend/app/services/translation_service.py:87-107 | however the model behaves, each of n texts is asked about at most 2 + log2(n) times, rounded up |
| `Translation.HalvesSound` | backend/app/services/translation_service.py:87-97 | two halves with sound outcomes make a sound whole: sources, order and failures carry over |
| `Segmentation.FallbackSegment` | backend/app/services/segmentation_service.py:35-46 | the tokens spell the text, and each is the longest known word at its place, or one character where no word is known |
| `Segmentation.LongestSegmentationIsUnique` | backend/app/services/segmentation_service.py:35-46 | these two promises leave exactly one segmentation |
| `Segmentation.LocateTokens` | backend/app/services/segmentation_service.py:57-67 | the cursor loop computes the greedy location of each token |
| `Segmentation.LocatedInTurn` | backend/app/services/segmentation_service.py:57-67 | every token is at its first occurrence after the end of the token before it, or right there if it does not occur any more |
| `Segmentation.LocatedInOrder` | backend/app/services/segmentation_service.py:57-67 | spans have their tokens' lengths, keep their order and never overlap, also where a token was not found |
| `Segmentation.GreedyIsComplete` | backend/app/services/segmentation_service.py:57-67 | if the tokens can be placed in the text in order without overlap at all, every one is found, and no span ends later than in that placement |
| `Segmentation.LocateExactIffPlaceable` | backend/app/services/segmentation_service.py:57-67 | every span shows its token if and only if some placement exists |
| `Segmentation.TilesIffNoStraddle` | backend/app/services/segmentation_service.py:24-67 | for tokens that spell the cleaned line, the spans cover every word character once, in order, and nothing else, if and only if no token reaches over a removed character |
| `Segmentation.StraddlingTokenMissesPlace` | backend/app/services/segmentation_service.py:57-67 | a line whose first token reaches over a dash is covered wrongly |
| `Pronunciation.AlignSentencePinyin` | backend/app/services/pronunciation_service.py:21-27 | one slot per character, a reading exactly for Han characters that have one; any other length is an error |
| `Pronunciation.TokenIsSpoken` | backend/app/services/pronunciation_service.py:30-36 | a token's pinyin is made of all the readings at its place, in order: none if there are none, two as one word, others with spaces |
| `Pronunciation.TokensKeepEverySyllable` | backend/app/services/subtitle_service.py:453-464 | when no token reaches over a removed character, the syllables taken token by token are the line's syllables in order, none lost and none repeated |
| `NlpAnalysis.ValidateResult` | backend/app/services/subtitle_nlp_service.py:132-150 | the verdict of the id check and of the loop over sentences, including which sentence is complained about first |
| `NlpAnalysis.AcceptedIffEverySentenceAnswered` | backend/app/services/subtitle_nlp_service.py:132-150 | an answer is accepted with given token lists if and only if it has as many sentences as asked and the i-th list is that of the sentence with id i, spells it and lacks no pinyin; so duplicate, missing and unknown ids are rejected |
| `NlpAnalysis.DecimalIsDecimal` | backend/app/services/subtitle_nlp_service.py:137-137 | sentence ids are the numbers in decimal digits without leading zeros |
| `NlpAnalysis.RefusalNamesTheFirst` | backend/app/services/subtitle_nlp_service.py:137-148 | a refusal is about the ids if and only if there is not exactly one sentence for each; and otherwise about the first sentence that is not acceptable, that it does not spell its text or else that pinyin is missing |
| `NlpAnalysis.AnswerOrderDoesNotMatter` | backend/app/services/subtitle_nlp_service.py:132-150 | any order of the same sentences gets the same verdict, errors included |
| `NlpAnalysis.AnalyzeBatch` | backend/app/services/subtitle_nlp_service.py:76-94 | the attempt loop computes the analysis of a batch, for every answer of the model and a local analysis that may itself raise |
| `NlpAnalysis.FirstUsableAnswerOrFallback` | backend/app/services/subtitle_nlp_service.py:76-94 | at most two requests, the second exactly after a first that does not answer every sentence; the first answer that does is taken, the local analysis otherwise, and an unexpected exception escapes |
| `Database.Session.SetProcessingPhase` | backend/app/repositories/video_repository.py:136-142 | progress is clamped and never lowered; the phase changes only when progress does not fall |
| `Database.Session.UpdateProcessedBatch` | backend/app/repositories/subtitle_repository.py:76-96 | exactly the batch's subtitles whose number is among the lines get their line's translation and tokens |
| `Database.Session.ReplaceRawForVideo` | backend/app/repositories/subtitle_repository.py:57-74 | the stored subtitles are exactly the lines, numbered from 0, raw, each in its batch |
| `Database.Session.CreateMissing` | backend/app/repositories/batch_repository.py:30-44 | the loop adds a pending row for every window that has none |
| `SubtitleMerge.MergeSubtitleBatch` | frontend/src/lib/subtitles.ts:16-25 | filling the insertion-ordered map and sorting its values computes the merge |
| `SubtitleMerge.MergedListHoldsTheLatest` | frontend/src/lib/subtitles.ts:16-25 | after any events the list is in order of start and end, has every line once, known by its identifier or for lack of one by times and text, and holds exactly the last version of every line ever seen |
| `SubtitleMerge.MergingConverges` | frontend/src/lib/subtitles.ts:16-25 | events that carry the same lines in any order, grouping and number lead to the same list, when lines differ in their times and events agree with each other |
| `SubtitleMerge.KnownLinesKeepTheirPlaces` | frontend/src/lib/subtitles.ts:16-25 | events about lines of the raw list leave the stably sorted raw list with each line in place and in its latest version, however many lines share their times |
| `SubtitleMerge.MergeIsIdempotent` | frontend/src/lib/subtitles.ts:16-25 | merging the same batch again changes nothing, for every list and every batch |
| `SubtitleMerge.OrdersAgreeIff` | frontend/src/lib/subtitles.ts:16-25 | for any new lines that agree with each other: all orders and groupings of their arrival lead to one list if and only if different lines have different times |
| `SubtitleMerge.TiesShowArrivalOrder` | frontend/src/lib/subtitles.ts:24-24 | two unknown lines with the same times stay in order of arrival |
| `SubtitleMerge.FindActiveSubtitleIndex` | frontend/src/lib/subtitles.ts:3-14 | the loop ends and an index it returns contains the time, for every list |
| `SubtitleMerge.SearchFindsNothingIff` | frontend/src/lib/subtitles.ts:3-14 | for every list in order of start: -1 is returned if and only if none of the lines asked contains the time, and which lines are asked depends only on the length and on how many lines have started |
| `SubtitleMerge.LastStartedIsFound` | frontend/src/lib/subtitles.ts:3-14 | the line that started last is always asked: when it contains the time, a line is found, whatever the ends |
| `SubtitleMerge.SearchIsComplete` | frontend/src/lib/subtitles.ts:3-14 | when neither starts nor ends ever fall, overlaps allowed, -1 is returned if and only if no line contains the time |
| `SubtitleMerge.SearchMissesALongLine` | frontend/src/lib/subtitles.ts:3-14 | in a sorted list a long line in front of short ones is missed, so falling ends break it |
| `ServerProgress.LastTerminalIsShown` | frontend/src/lib/importProcessing.ts:86-100 | once a completed or failed snapshot has arrived, exactly the last such snapshot is shown; none in progress undoes it |
| `ServerProgress.CompletedIsShown` | frontend/src/lib/importProcessing.ts:86-100 | with a completed and no failed snapshot, in any order, the video is shown completed with progress 1 |
| `ServerProgress.InProgressShowsMaxima` | frontend/src/lib/importProcessing.ts:92-99 | with only snapshots in progress every counter shown is the maximum seen, and status and phase are those of the last one |
| `ServerProgress.AnotherVideoStartsOver` | frontend/src/lib/importProcessing.ts:87-87 | a snapshot of another video starts over: what is shown is what the snapshots from it on show |
| `ServerProgress.MergeLowersProgressIff` | frontend/src/lib/importProcessing.ts:86-100 | a merge lowers the progress shown if and only if a failed snapshot with less of it arrives |
| `ServerProgress.ShownProgressNeverFalls` | frontend/src/lib/importProcessing.ts:86-100 | between two moments without a failed snapshot in between the progress shown does not fall |
| `ServerProgress.ServerKeepsPromise` | backend/app/services/subtitle_service.py:353-369 | what is reported of a consistent database satisfies what these results assume of a snapshot |
| `ServerProgress.BatchKeepsPromise` | backend/app/services/subtitle_queue.py:174-182 | so does every snapshot sent while a batch is processed, and none of them is terminal |
| `AsrChunks.ChunksCover` | backend/app/services/asr_service.py:48-66 | chunks start at 0 and follow one another without gap or overlap; several chunks last between 1 second and a full chunk; the uncovered tail is exactly the remainder if there are several chunks and it is under a second, and nothing otherwise |
| `AsrChunks.CountIs` | backend/app/services/asr_service.py:49-49 | there are several chunks if and only if the track is at least one second longer than a chunk, and a remainder under a second gets none |
| `AsrChunks.WholeSecondsAreCovered` | backend/app/services/asr_service.py:48-66 | a track of whole seconds is covered to its end |
| `AsrChunks.TranscribeWithRetry` | backend/app/services/asr_service.py:109-122 | the retry loop returns the deciding attempt's segments shifted by the chunk's offset, or raises |
| `AsrChunks.SettleIsTheFirstDecision` | backend/app/services/asr_service.py:110-122 | at most max(1, setting) attempts; all before the last met a transient error; giving up on one takes all attempts |
| `AsrChunks.TranscribeYoutubeAudio` | backend/app/services/asr_service.py:48-66 | the chunk loop concatenates the chunks' segments, reports after each, and raises if and only if some chunk is not heard |
| `AsrChunks.TranscriptHoldsEverySegment` | backend/app/services/asr_service.py:51-66 | there is a transcript if and only if every chunk was heard by its first attempt without a transient error, within the attempts allowed; it has exactly the segments heard, chunk after chunk, moved by index times chunk length and otherwise as heard |
| `AsrChunks.TranscriptIsOrdered` | backend/app/services/asr_service.py:51-66 | segments that come back in order and inside their chunk make a transcript in order of time, inside the track |
| `RateLimit.RedisCounter.Eval` | go-api/internal/httpapi/rate_limit.go:18-29 | the script counts every key once and returns whether one is over the limit and the longest time to live, rounded from milliseconds to seconds as Redis does |
| `RateLimit.ServeHTTP` | go-api/internal/httpapi/rate_limit.go:71-117 | the middleware's decision and the counters it leaves, for every setting and every failure of the counter |
| `RateLimit.RuleOfGroup` | go-api/internal/httpapi/rate_limit.go:120-144 | every rule of a group has the group's one window and limit |
| `RateLimit.GroupOfRequest` | go-api/internal/httpapi/rate_limit.go:120-144 | which requests belong to which group, by their path and method |
| `RateLimit.HitsIff` | go-api/internal/httpapi/rate_limit.go:88-93 | who is counted: in the rule's group and the window of the moment, the request's address and its guest, if it has one, and nobody else |
| `RateLimit.OtherDecisions` | go-api/internal/httpapi/rate_limit.go:73-107 | which requests pass uncounted, which are gone, and what a failing counter makes of each group |
| `RateLimit.CountersCount` | go-api/internal/httpapi/rate_limit.go:18-29 | over every run a counter holds exactly the number of requests counted in its window, expires exactly one window length after the first of them, and so not before its window has ended |
| `RateLimit.ServedIffWithinLimit` | go-api/internal/httpapi/rate_limit.go:88-116 | with a working counter a limited request is served if and only if it is among the first `limit` of its group and window for its address and, if it carries one, for its guest cookie; a refused one is told to wait exactly the rounded time to live of the counter started last, at least a second |
| `RateLimit.RetryAfterFallsShortIff` | go-api/internal/httpapi/rate_limit.go:109-114 | waiting as long as Retry-After says ends in the same window if and only if the time to live is a second or more and its rounding down takes off more than the counter outlives its window; it is then less than half a second short, and one second more always reaches a later window |
| `RateLimit.RefusedForTheWindow` | go-api/internal/httpapi/rate_limit.go:96-116 | a refused request that comes back in the same window is refused again, whatever came in between |
| `RateLimit.RetryAfterExample` | go-api/internal/httpapi/rate_limit.go:109-114 | with one request a minute, a request 30.6 seconds after the first is told to wait 29 seconds, waits them and is refused again |
| `RateLimit.AtMostLimitPerWindow` | go-api/internal/httpapi/rate_limit.go:96-107 | at most `limit` requests per identity and window are let through by the counter; for the expensive and admin groups this counts every request let through, whatever errors the counter meets |
| `RateLimit.AtMostTwiceTheLimit` | go-api/internal/httpapi/rate_limit.go:146-149 | in any stretch of time as long as a window at most twice the limit gets through |
| `RateLimit.TwiceTheLimitIsReached` | go-api/internal/httpapi/rate_limit.go:146-149 | bursts on both sides of a window's end reach that bound |
| `Approval.AtMostOneDecision` | backend/app/services/agent_request_service.py:157-225 | over every run at most one approval or rejection succeeds; without a successful approval the request is pending, rejected or expired and nothing executes it |
| `Approval.FirstDecisionWins` | backend/app/services/agent_request_service.py:157-183 | the first approval or rejection in time succeeds if no late one came before it |
| `Approval.CookieEndsAsExported` | backend/app/services/agent_request_service.py:185-194 | an approved cookie request ends as its first export says, completed or failed, unless a late decision comes |
| `Approval.CrashIsMadeGood` | backend/app/services/agent_request_service.py:196-219 | a crash leaves no executor, and the next start takes an executing request up again and completes it, its words imported |
| `Approval.OnlyApprovedRequestsRun` | backend/app/services/agent_request_service.py:157-225 | a request that is approved, executing, completed or failed, or has an executor, was approved exactly once and never rejected |
| `Approval.ClosedForGood` | backend/app/services/agent_request_service.py:172-183 | once rejected, or expired before anyone approved it, a request is never approved, executed or completed |
| `Approval.ExpiredCompletesIff` | backend/app/services/agent_request_service.py:196-225 | from any expired state, completion is reachable if and only if some executor has loaded the request, is working on it or has done the work |
| `Approval.ExpiryCanBeOverwritten` | backend/app/services/agent_request_service.py:157-162 | a late approval marks a running request expired, and its executor still completes it |
| `Approval.AgentRequest.Approve` | backend/app/services/agent_request_service.py:157-170 | an approval succeeds if and only if the request is pending and not expired at either look at the clock; after its expiry it is marked expired, and otherwise it is left as it was |
| `Approval.AgentRequest.Reject` | backend/app/services/agent_request_service.py:172-183 | the same of a rejection |
| `Approval.AgentRequest.CompleteExport` | backend/app/services/agent_request_service.py:185-194 | only an approved cookie request is finished by an export, as completed or failed |
| `Approval.AgentRequest.Execute` | backend/app/services/agent_request_service.py:196-225 | an uninterrupted executor amounts to loading, claiming, working, recording and announcing: it has no effect on a request that is neither approved nor executing, and otherwise ends completed, or failed if the work or the message afterwards failed; all words of a vocabulary request are imported, or those before the one that raised |
| `Approval.ExecuteVocabulary` | backend/app/services/agent_request_service.py:251-279 | the loop over words with its set of known forms computes the import |
| `Approval.ImportTeachesAll` | backend/app/services/agent_request_service.py:251-279 | an import only appends, and afterwards the dictionary has a form of every word |
| `Approval.ImportAddsExactly` | backend/app/services/agent_request_service.py:253-278 | word by word: exactly the words none of whose forms an entry has get one, under their traditional form or for lack of one the simplified form |
| `Approval.ImportIsIdempotent` | backend/app/services/agent_request_service.py:251-279 | importing the same words again adds nothing |
| `Approval.LaterWorkChangesNothing` | backend/app/services/agent_request_service.py:196-225 | after some executor has done the work, no later execution changes the dictionary, whether it succeeds or fails midway, whatever crashed, was resumed or was added by others in between |
| `Approval.FailedImportIsMadeGood` | backend/app/services/agent_request_service.py:251-279 | an import that raised at any word and is done again leaves the dictionary as one import does |
| `Approval.DoneMeansImported` | backend/app/services/agent_request_service.py:213-219 | a completed vocabulary request has all its words in the dictionary |
| `JoinRows.GetSubtitles` | go-api/internal/store/postgres.go:97-130 | the loop with its map of positions computes the regrouping, nothing found when there are no rows |
| `JoinRows.RegroupRebuilds` | go-api/internal/store/postgres.go:108-123 | regrouping the joined rows of subtitles with distinct identifiers rebuilds every line with its tokens, also lines without tokens |
| `JoinRows.AnswersAgreeIff` | go-api/internal/store/postgres.go:97-130 | for subtitles with distinct identifiers and sequence numbers: Go's answer is Python's for every order the database may choose within ORDER BY, if and only if tokens of one line with the same start index are equal |
| `JoinRows.GoAnswersAsPython` | backend/app/services/subtitle_service.py:542-569 | then any such order of the joined rows, tokens' ties broken either way, regroups to Python's answer |
| `Answers.CommittedAnswersAgreeIff` | backend/app/services/subtitle_service.py:542-569 | in every committed state of a video both services give the same answer, whatever order the database chooses, if and only if tokens of one line that start at the same place are equal |
| `Answers.CommittedAnswerShowsTheRows` | backend/app/services/subtitle_service.py:542-569 | in every committed state the answer has every stored subtitle, in order, with its times, text, translation and status, and all its tokens as stored; nothing is answered when there are none |
| `Answers.CommittedAnswersAgree` | backend/app/services/subtitle_service.py:542-569 | and so they do when none of the analyses its batches received has an empty token |
| `Answers.StoredAreWellKeyed` | backend/app/repositories/subtitle_repository.py:57-74 | the subtitles of a consistent state have distinct sequence numbers, whatever identifiers the database gave |
| `JoinRows.LocatedTokensAreApart` | backend/app/services/segmentation_service.py:57-67 | located start indexes never fall, and two tokens share one only when the first of them is empty |

## Left out

- Video deletion, missing videos and database errors: every operation assumes its video row exists and its commits succeed.
- Pipeline.EveryCommittedStateIsConsistent: transactions are atomic and follow one another. Two transactions of different
  sessions that overlap (a retry between the completion check and its commit, two preparations of one video) are not
  modelled; a late failure is always its own transaction.
- Worker.Work: one worker per video, as the queue intends. That a request arriving while a worker ends finds the next
  worker started is not claimed, because the queue can miss it; topic classification beside the worker is not modelled.
- Worker.Turn: a retry of the very batch that is being processed is excluded. It meets the worker's row locks, and with a
  stored status of "failed" each side can hold a row the other waits for; row locking is outside the model.
- Worker.WorkIsBounded: what arrives around the n-th pick is a function of n with finitely many retries, so a worker that
  is retried for ever is outside it.
- Service.PrepareVideoContent: a preparation that fails after its lines were retrieved, while storing them, is a database
  error. Batch rows without subtitles, which manual edits could leave behind, are outside the invariant.
- Service.ImportVideo: metadata, tags and the cached answer that shortens an import.
- Server-sent events and their heartbeats. The stream reads a snapshot and only then subscribes, so no result says that a
  viewer receives every event; results about merging hold for whatever is received.
- The Redis cache of whole videos and batches and the caching translation and analysis providers: an answer may be cached
  while a video is partly processed, so coherence is not a property of the code.
- Floating point: progress, times and playback positions are reals, and rounding at window borders is not modelled.
- HTTP, OpenAI, Telegram, yt-dlp, ffmpeg and YouTube: arbitrary replies. jieba and pypinyin: tokens that concatenate to
  their input and one slot per character are assumed by the lemmas that need them.
- Segmentation.TilesIffNoStraddle: Unicode categories are an arbitrary classification of characters.
- Translation.TranslationIsSound: how a reply is read from JSON; a reply of the wrong length is one of the recoverable ones.
- AsrChunks.TranscribeYoutubeAudio: downloading, cutting and deleting files, and the pauses between attempts.
- RateLimit.ServedIffWithinLimit: the API server and Redis share one clock of milliseconds, read once per request, and
  hashes of identities do not collide.
- SubtitleMerge.SearchFindsNothingIff: lists whose starts fall, which a merge never produces.
- Approval.LaterWorkChangesNothing: reading the dictionary and adding words is one transaction; two executors of one
  request reading at the same moment would clash on identifiers. Creating requests, guest limits and what messages
  say are not modelled.
- JoinRows.GoAnswersAsPython: the video's own columns.
- Dictionary lookup, tag cleaning, pagination, formatting of times, learning progress, pages and components, storage in the
  browser, migrations, crawlers and deployment: flat code with no property beyond its own lines.
