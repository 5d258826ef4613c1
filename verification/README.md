# A verified model of the audiobook backend

The backend turns manuscripts into audiobooks. Workers take jobs from a shared
table, render the chapters of a book with a text-to-speech provider, keep the
audio in object storage, and bill what was synthesized. Before synthesis the
text passes through splitters, chunkers, tag parsers and a chain of agents. This
project models that behaviour in Dafny and proves what it keeps.

- **The durable queue.** `JobRecords` holds job rows, attempt rows and what each
  queue primitive does to them. `JobStore` is the store whose methods update the
  rows in place. `JobSystem` lets any number of workers, users and sweepers take
  atomic steps in any order, with crashes, and proves a global invariant. `JobHistory`
  says column by column what each step does to each job, by the documented lifecycle.
  `Worker` executes the sequential worker program while the others act between its
  steps, shows that this is a run of that system, and how long a heartbeat protects it.
- **Chapter production.** `ChapterRecords` holds chapter rows, immutable
  revisions, the usage ledger and what must be true of every committed state.
  `ChapterTakes` says what may become of a chapter and what that means for its
  row, its stored audio and the book. `ExportManifest` is the manifest and
  the QC gate. `Production` is the run itself: a transactional database beside
  storage, cache and disk that are not, a provider and a storage that may do
  anything, and a history of every durable state, so that a crash between any two
  durable steps is covered. `RunOutcomes` says when a run succeeds, what a failed
  upload costs and what is never billed; `Incidents` runs the inputs that show it.
  `SharedCache` lets several jobs with several voices fill one cache.
- **Text.** `Text` and `Utf8` are strings and bytes. `ChapterSplitter`,
  `MarkerSplitter` and `TextChunker` are the splitters, `ChunkPacking` says what the
  chunks keep and how full they are; `TextWords` are the words of a text.
  `DialogueSegments` finds speech with source offsets, `DialogueLabels` reads off the
  manuscript what each segment must say. `SsmlTokens` and `SsmlConverter` are the
  ACX/SSML converters, `SsmlScales` their tables. `ProsodyParser` is the tag parser;
  `ProsodyHints` says what it reads, `ProsodyVoices` what each character must be spoken
  with, `ProsodyEmphasis` what becomes of stress. `StructureParser` is the document
  parser, `StructureLines` ties its result to the lines, `AgentChain` are the five agents
  with their typed fallbacks, `NumberWords` is the number speller.
- **Small algorithms.** `RateLimiter` is the fixed-window limiter and
  `SilenceScan` the silent-run scanner.

Imperative code is a class or a method with loops, proved equal to a specification
function or to the property itself; the lemmas then speak about that function.
The provider, the language models, object storage, audio tools, patterns and the
clock are parameters, so every statement holds whatever they do. Digests are
taken to be injective, and `validate_media` to be a function of the bytes.

## Model

| member | source | states |
|---|---|---|
| JobStore.Store.EnqueueJob | backend/jobs/queue.py:28-37 | the new row is queued, unlocked and unclaimed; nothing else changes |
| JobStore.Store.ClaimNextJob | backend/jobs/queue.py:44-87 | takes a claimable row that no other claimable row precedes, locks it, counts the attempt and appends its attempt row; claims nothing only when nothing is claimable |
| JobStore.Store.RefreshHeartbeat | backend/jobs/queue.py:94-108 | lease lost, stop or continue, decided by holder, status and cancel flag; only "continue" writes, and only the lock time, which becomes now |
| JobStore.Store.FindLatestOpen | backend/jobs/queue.py:279-288 | the scan finds the open attempt of the job with the highest number, or none |
| JobStore.Store.CloseAttemptOf | backend/jobs/queue.py:278-293 | closes the latest open attempt of the job, whichever worker's it is |
| JobStore.Store.CompleteJob | backend/jobs/queue.py:137-145 | for the holder of a running row: succeeded, unlocked, attempt closed; otherwise nothing is written |
| JobStore.Store.HoldForReview | backend/jobs/queue.py:148-157 | the same towards needs_review |
| JobStore.Store.FailJob | backend/jobs/queue.py:179-203 | requeues with backoff while attempts remain, else fails; writes nothing for a worker that does not hold the lock |
| JobStore.Store.WriteCanceled | backend/worker.py:91-96 | the cancel handler's write, which checks no ownership |
| JobStore.Store.RequestJobCancel | backend/jobs/queue.py:206-215 | sets the flag; a queued job is canceled at once |
| JobStore.Store.RecoverRow | backend/jobs/queue.py:239-262 | one stale row: its latest open attempt is orphaned, the row requeued or failed, the lock released |
| JobStore.Store.RecoverOrphans | backend/jobs/queue.py:218-267 | the row-by-row loop equals one sweep of all expired leases at once, and counts them |
| JobStore.Store.ApproveReviewed | backend/jobs/queue.py:160-166 | only a job awaiting review is approved |
| JobStore.Store.RejectReviewed | backend/jobs/queue.py:169-176 | only a job awaiting review is rejected, with a reason |
| JobStore.Store.RerenderJob | backend/app.py:423-447 | a finished job is queued again with its attempts reset; its cancel flag stays |
| JobStore.SweepOneMore | backend/jobs/queue.py:238-263 | recovering one more job after a swept set is sweeping the larger set: no recovery disturbs another |
| JobSystem.RunStepIsFenced | backend/jobs/queue.py:94-203 | under the invariant, a step of a worker keeps rows and audit in step and writes at most its own job's row and the attempt its own claim opened |
| JobSystem.StepKeepsInv | backend/jobs/queue.py:44-293 | every step of every worker, user, sweeper, and every crash keeps the global invariant |
| JobSystem.RunKeepsInv | backend/jobs/queue.py:44-293 | so does every run |
| JobSystem.FencingIsSound | backend/jobs/queue.py:123-134 | in every reachable state a worker whose ownership check passes is executing the job's one open attempt, which carries its id and the job's attempt number: the worker id alone is a sufficient fence |
| JobSystem.StaleWorkerWritesNothing | backend/jobs/queue.py:94-203 | a worker whose attempt was closed or taken changes no table, whatever it does next |
| JobSystem.TerminalStepClosesOwnAttempt | backend/jobs/queue.py:137-203 | completing, holding, failing or canceling closes exactly the caller's own attempt row |
| JobSystem.AuditMatchesState | backend/jobs/queue.py:70-85 | a running job has exactly one open attempt, with its lock holder and attempt number; any other job has none |
| JobSystem.ClaimsAreBounded | backend/jobs/queue.py:195-203 | between rerenders every claim uses up one of the remaining attempts, so there are at most max_attempts - attempts of them |
| JobSystem.CancelIsSticky | backend/jobs/queue.py:101-108 | once a cancel is requested no later heartbeat lets a chapter of the job start, in any run, rerenders included |
| JobSystem.StepFollowsLifecycle | backend/db/models.py:40-50 | every step moves a job along the documented lifecycle or leaves its status |
| JobSystem.CanceledIsFinal | backend/app.py:437-440 | a canceled job stays canceled in every run |
| JobSystem.SweepLeavesNoExpiredLease | backend/jobs/queue.py:225-263 | after a sweep no running row has an expired lease, swept jobs are queued or failed by their attempts, and rows within their lease are untouched |
| JobSystem.LateCancelWriteIsOwnIffStillOwner | backend/worker.py:91-96 | the cancel handler's write, taken apart from the heartbeat before it, stays within what the worker may write if and only if the worker still owns the row or the row is canceled already, for every executing worker in every reachable state; otherwise it cancels a job the worker does not hold and closes the open attempt of whoever runs it |
| JobSystem.LateCancelWriteCanHitAQueuedJob | backend/worker.py:91-96 | one input: swept and requeued, not yet claimed again, the late write cancels a queued row that the worker does not hold |
| JobSystem.LateCancelWriteCanHitAnotherWorker | backend/worker.py:91-96 | another input: claimed again by another worker, whose attempt the late write closes |
| JobSystem.McpCancelIsSafeIffNotRunning | backend/mcp_server.py:239-242 | the MCP cancel keeps the invariant if and only if the job is not running |
| JobHistory.ColumnsFollowTheLifecycle | backend/db/models.py:40-50 | in every reachable state every step moves the status, the recorded error and the time of availability of every job as the lifecycle says: approval succeeds a held job, rejection fails it with its reason, a failure requeues it thirty seconds later or fails it, a sweep at once |
| JobHistory.CountersFollowTheLifecycle | backend/jobs/queue.py:44-293 | and its attempt count, cancel flag and lock: counted by claims, reset by a rerender alone, locked now by a claim or a heartbeat that goes on, released with the status |
| JobHistory.ProgressStep | backend/jobs/queue.py:137-157 | the progress becomes 100 by completing or holding, and nothing else touches it |
| JobHistory.RetryWaits | backend/jobs/queue.py:195-203 | in no run is a failed attempt retried before its thirty seconds are over, whoever acts in between |
| JobHistory.NewJobIsClaimable | backend/jobs/queue.py:28-37 | a job appears only by being enqueued, and can be claimed at once |
| JobHistory.ReachableIsTold | backend/jobs/queue.py:137-203 | in every reachable state a finished job has progress 100 and a failed one says why |
| JobHistory.AttemptTellsTheOutcome | backend/jobs/queue.py:278-293 | the owner that ends an attempt writes its own outcome into its own attempt row, with the error of a failure |
| JobHistory.SweepTellsTheOutcome | backend/jobs/queue.py:239-262 | a sweep marks exactly the open attempts of jobs whose lease expired as orphaned |
| JobHistory.ClaimOpensTheAttempt | backend/jobs/queue.py:62-87 | a claim opens one attempt, started now with the next number, and no other step opens any |
| Worker.ForeignStep | backend/jobs/queue.py:94-267 | of all that users, sweeps and other workers may do, only a sweep that finds its lock too old takes a job from the worker that holds it, nothing gives it back while the worker is at it, and only a cancel request changes its row otherwise |
| Worker.LeaseIsLostIffSwept | backend/jobs/queue.py:218-263 | so over any stretch of other parties' steps the lease is lost if and only if some sweep found the lock too old |
| Worker.SweptIffLate | backend/jobs/queue.py:225-236 | among other parties' steps the lock is found too old if and only if some sweep comes later than its lease after the lock was last set |
| Worker.HeartbeatRenewsTheLease | backend/jobs/queue.py:94-108 | after a heartbeat that says continue, whatever the others do, the worker keeps the job if and only if no sweep comes later than its lease after that heartbeat |
| Worker.NoSweepWithinTheLease | backend/jobs/queue.py:94-108 | so for a whole lease after such a heartbeat no sweep takes the job, in any run of the others |
| Worker.EndOfRun | backend/worker.py:81-103 | the last step of a run: either the whole course was run with one heartbeat before every chapter, or a heartbeat that did not say continue stopped it; it writes its status if and only if no sweep took the job, and otherwise writes nothing; and a sweep took it if and only if some sweep came later than its lease after the claim or the latest heartbeat |
| Worker.RunClaimed | backend/worker.py:69-103 | the program after the claim, executed on the store while others act between any two of its steps, is a run of the step system that ends in such a last step: lease lost at a heartbeat or at a terminal write, canceled, failed before the first heartbeat, in a chapter or after the last one, completed, or held; it never leaves the job its own, and undisturbed it leaves the status the course calls for |
| Worker.ProcessOne | backend/worker.py:56-109 | one pass of the worker claims the earliest claimable row, or nothing when nothing is claimable, and then is such a run |
| ChapterRecords.TextsHaveTheirOwnIds | backend/jobs/pipeline.py:205-208 | within a job two texts share a chapter id, a chunk id or a cache key only when they are equal, although the hashed string could be read in several ways |
| ChapterRecords.PublishedKeepsTheChain | backend/jobs/pipeline.py:440-469 | recording a revision keeps numbers 1..k without gaps, exactly the last one active, row and revision in agreement, and all earlier revisions as they were |
| ChapterRecords.RecordedKeepsLedger | backend/billing/usage.py:101-123 | recording usage keeps at most one ledger row per job and chunk id, each earned by audio that passed validation, and never drops a row |
| ChapterRecords.BilledAtMostOnce | backend/billing/usage.py:85-123 | billed characters never exceed the total length of the distinct chunks billed |
| ChapterRecords.HistoryOnlyGrows | backend/jobs/pipeline.py:425-474 | over any history of durable states no ledger row, upload stage or revision is lost, and revisions change only by being superseded |
| Production.Studio.SynthesizeWithRetry | backend/jobs/pipeline.py:112-138 | the answer and the time taken are those of the first of up to three calls that answers |
| Production.Studio.RecordUsage | backend/billing/usage.py:85-123 | the ledger gains the chunk's row unless it has one with that id, and stays sound |
| Production.Studio.RenderChunk | backend/jobs/pipeline.py:308-378 | a hit if and only if a valid entry was cached, and then nothing is called, changed or billed; otherwise the result is the provider's: heard, rejected twice, or unanswered three times; an accepted entry is valid, was heard in this job's voice for this chunk, and other entries are untouched; the ledger gains a row exactly for a paid fresh chunk, and a chunk that is not accepted leaves no usable entry |
| Production.Studio.RenderChunks | backend/jobs/pipeline.py:307-378 | the accepted pieces are those of a prefix of the chunks, the whole list unless the provider left the next one unanswered or was rejected; each file is still cached with the same valid bytes, repeated chunks included; the cache then has valid audio for exactly what it had and these chunks, and the ledger holds exactly what it had and the paid chunks that were not cached |
| Production.Studio.AssembleChapter | backend/jobs/pipeline.py:380-413 | the merge, which skips missing files, misses none: it fails exactly when the merge of the pieces fails or gives audio that does not pass validation, and otherwise the audio is made of one approved piece per chunk in order |
| Production.Studio.UploadChapterAudio | backend/jobs/pipeline.py:71-109 | succeeds if and only if storage keeps the upload, can be read back, and reads back as what was sent; what the key holds afterwards is what storage made of the upload, no other key changes, and a failed upload changes no row |
| Production.Studio.ResumeChapter | backend/jobs/pipeline.py:210-244 | a current chapter is reused from storage when the checksum matches, else from a valid local file, and an intact reachable stored copy is never passed over |
| Production.Studio.RenderChapter | backend/jobs/pipeline.py:251-474 | from "processing" to done, with its commits: the new row and stored audio are those of the outcome, a failure names the answer of the provider, the merge, the QC check or the storage that caused it, the ledger gains exactly what was accepted, committed and not cached, and every durable state on the way is safe |
| Production.Studio.ProduceChapter | backend/jobs/pipeline.py:176-474 | one iteration, for texts with and without the agents' commit: the chapter's row, stored bytes and local file are what its outcome says, other chapters are untouched, the committed ledger gains exactly the accepted and uncached chunks of a paid job, and none when the provider, the merge or the QC check raised |
| Production.Studio.SyncChapterRows | backend/jobs/pipeline.py:579-588 | afterwards every chapter has a row with its title; old rows keep everything else |
| Production.Studio.RunChapters | backend/jobs/pipeline.py:160-474 | on every way out of the loop the committed rows are what the outcomes say, and it raises only at a failed chapter, whose outcome names its cause; every chapter was preceded by a heartbeat that said continue, and a canceled or lost run ends at one that said so; the files accepted are still on disk unchanged, in index order next to their titles; the ledger is exactly what was there and the paid chunks accepted, committed and not cached when the run began |
| Production.Studio.FinishJob | backend/jobs/pipeline.py:476-576 | raises if and only if nothing was said, no output exists, or storage refused a write; each format that can be bound is bound from exactly the accepted audio, the manifest is read off the final rows and stored, and the job is held if and only if the policy is block and some chapter failed QC; the stored book of a format that is not bound stays as it was |
| Production.Studio.RunJob | backend/jobs/pipeline.py:141-576 | all of this for a whole run, the books of the formats it did not bind included, with a cause in the environment for every way out but passing; with an answering provider, valid media, storage that keeps what it is given and continuing heartbeats, a job that has text and can show an output passes or is held; and with nothing changed and storage intact it calls no provider, adds no ledger row and leaves the stored chapters alone |
| Production.Studio.RunAttempt | backend/worker.py:81-103 | an exception rolls back what was not committed, every other way out leaves nothing uncommitted, and rows, cache and ledger are then what the outcomes say: what the cache gained was heard in this job's voice, under the key of its text |
| Production.Studio.Crash | backend/jobs/pipeline.py:141-474 | the process may die at any durable state of its history, and what remains is a valid start |
| Production.Studio.Attempts | backend/jobs/pipeline.py:141-576 | any sequence of attempts, failures, crashes, text edits, lost caches and disks, and storage changed from outside: revision chains and ledger stay sound, nothing recorded is lost, and no chunk is billed twice |
| SharedCache.JobsMeetIff | backend/services/synthesis_cache.py:19-21 | two jobs can meet in the cache, with any texts, if and only if provider, voice and engine of one, joined, begin like those of the other |
| SharedCache.CacheKeysTellVoices | backend/services/synthesis_cache.py:19-21 | when no provider, voice or engine holds a bar, two cache keys are equal if and only if provider, voice, engine and text all are |
| SharedCache.BarsConfuseVoices | backend/services/synthesis_cache.py:19-21 | an input: with a bar in a name, two voices share an entry |
| SharedCache.IdsTellVoices | backend/jobs/pipeline.py:205-208 | the same for chunk ids and chapter ids, when no name holds a colon |
| SharedCache.VoiceChangeIsNotCurrent | backend/jobs/pipeline.py:205-213 | a chapter rendered for one job description is current for another if and only if requested provider, voice, engine and text are the same |
| SharedCache.HitIsInVoice | backend/jobs/pipeline.py:315-330 | in a cache that several jobs filled, the audio of a hit was spoken by the provider, in the voice of the job that is served, for the chunk that is served |
| SharedCache.SourcedIsInVoice | backend/jobs/pipeline.py:307-378 | so is every piece a later job accepts |
| SharedCache.RunNext | backend/jobs/pipeline.py:141-576 | one more job on that cache leaves it filled only by what was heard |
| SharedCache.RunInTurn | backend/jobs/pipeline.py:141-576 | and so does any number of jobs in turn |
| ChapterTakes.FilesAreAligned | backend/jobs/pipeline.py:470-471 | the book has one file per spoken chapter in index order, each next to its own title and holding its accepted audio |
| ChapterTakes.SpokenChaptersContribute | backend/jobs/pipeline.py:199-305 | a chapter contributes when its text gives chunks; never when it is empty; otherwise exactly when its old audio was kept |
| ChapterTakes.FilesAreAccountedFor | backend/jobs/pipeline.py:214-474 | each file is checksum-matched storage bytes, a validated leftover, or new audio that was normalized where the normalizer gave anything, validated, uploaded, read back and recorded |
| ChapterTakes.RerenderIsSelective | backend/jobs/pipeline.py:210-256 | a finished intact chapter gains exactly one revision, with the new text, when its text changed, and otherwise keeps its row and its stored bytes |
| ChapterTakes.PriorAudioIsLostIffUploadFails | backend/jobs/pipeline.py:425-438 | a chapter loses the key to its audio if and only if it is uploaded anew and storage, at that moment, does not keep the upload or cannot give it back; its stored bytes change exactly by what storage made of an upload; unless it is rendered it keeps its revisions and the active one, and a failed chapter is not done |
| RunOutcomes.UndisturbedRunEnds | backend/jobs/pipeline.py:141-576 | a run to which nothing happens reaches its end, and passes or is held if and only if some chapter has something to say and some output was made, now or by an earlier attempt |
| RunOutcomes.ObligingRunSucceeds | backend/jobs/pipeline.py:141-576 | so a job with text and a format that can be bound, or an output from before, passes or is held |
| RunOutcomes.OutageLosesAKey | backend/jobs/pipeline.py:425-438 | a finished job rerendered with one changed text while storage takes no writes raises at a chapter that had audio; that chapter has no key, although its bytes are stored unharmed and its last revision names them |
| RunOutcomes.RenderedChunkIsBilledIff | backend/jobs/pipeline.py:318-371 | a chunk of a chapter that a run rendered is in the committed ledger after the run if and only if it was there before, or the job is paid and the chunk was not cached when the run began |
| RunOutcomes.MutedRunRollsBack | backend/jobs/pipeline.py:112-138 | a pending chapter of two chunks of which the provider never speaks the second: the run raises there, having accepted the first and committed nothing |
| RunOutcomes.SynthesisGoesCallByCall | backend/jobs/pipeline.py:112-138 | a fresh chunk is over at the first valid answer, at the second invalid one, or at the third call in a row without an answer, whichever comes first, and so after six calls at most |
| RunOutcomes.OldChaptersAreTrusted | backend/jobs/pipeline.py:210-213 | a finished chapter without a synthesis id is reused from its intact stored copy whatever its text is now |
| Incidents.RerenderInAnOutage | backend/jobs/pipeline.py:425-438 | the outage, run on the studio: a chapter ends with no key to bytes that are still stored |
| Incidents.FailAndResume | backend/worker.py:81-103 | a first chunk is synthesized, the second gets no answer, the rollback drops the first one's ledger row, and the next run renders the chapter and bills the second chunk alone |
| Incidents.StaleBookPasses | backend/jobs/pipeline.py:506-507 | with one format that cannot be bound and that an earlier attempt left, the run passes or is held with the earlier book of that format beside new books of exactly the formats it can bind |
| Incidents.EmptiedChapterStaysListed | backend/jobs/pipeline.py:199-203 | a finished chapter whose text became empty: the run passes or is held, and its stored manifest lists the chapter although the book does not have it |
| ExportManifest.BuildManifest | backend/jobs/pipeline.py:512-531 | one entry per finished row |
| ExportManifest.EntriesInOrder | backend/jobs/pipeline.py:512-531 | entries stand for finished rows in strictly increasing index order |
| ExportManifest.ManifestMatchesActiveRevisions | backend/jobs/pipeline.py:509-531 | each entry repeats the chapter's title and newest revision: its number, text digest, synthesis id and checksum |
| ExportManifest.ManifestTellsTheBook | backend/jobs/pipeline.py:470-531 | every chapter of the book has an entry with the chapter's current title, the digest of its current text, and the checksum of the audio in the book, unless that is a local file |
| ExportManifest.ManifestListsTheBook | backend/jobs/pipeline.py:509-531 | the manifest lists the chapters of the book and, besides, exactly the finished chapters whose text became empty and the finished rows beyond the last chapter |
| Utf8.DecodeEncode | backend/services/text_processor.py:169-177 | decoding inverts encoding (section 3 of RFC 3629) |
| Utf8.SliceDecodes | backend/services/text_processor.py:173 | decoding a byte slice while ignoring errors gives exactly the characters wholly inside it |
| Utf8.TailDecodesStrictly | backend/services/text_processor.py:177 | decoding the rest strictly raises exactly when the cut goes through a character |
| TextChunker.HardSplit | backend/services/text_processor.py:168-177 | the byte-wise split of a run-on sentence: every chunk within the limit, and the characters lost are exactly those the cuts go through |
| TextChunker.AddSentences | backend/services/text_processor.py:162-177 | the sentence loop keeps that account over a paragraph, and packs its sentences and slices |
| TextChunker.ChunkPieces | backend/services/text_processor.py:143-178 | and the paragraph loop over the text |
| TextChunker.ChunkForProvider | backend/services/text_processor.py:126-185 | it raises if and only if some last cut goes through a character; otherwise the chunks are those of the packing, stripped, non-empty, within the byte limit, and hold the text but for the characters cut, unless all were cut, when the fallback takes over; and all chunks are within the byte limit if and only if some character was left, or the text is blank, or the fallback happens to fit |
| TextChunker.AsciiRunOnsAreSafe | backend/services/text_processor.py:167-177 | when every sentence over the limit is ASCII nothing is lost and nothing raises, so the fallback is unreachable |
| TextChunker.TwoByteRunLosesText | backend/services/text_processor.py:170-177 | outside ASCII text is lost: a long run of two-byte letters with an odd limit |
| TextChunker.FallbackOverrunsTheLimit | backend/services/text_processor.py:179-184 | the fallback, cut by characters, can exceed the byte limit |
| ChunkPacking.WordsAreKept | backend/services/text_processor.py:143-178 | the chunks hold the words of the paragraphs and sentences that fit and of the slices of those that do not, whole, apart and in order; when every sentence fits these are the words of the text; a text within the limit is one chunk |
| ChunkPacking.ChunksAreGreedy | backend/services/text_processor.py:148-177 | a chunk is a run of neighbouring pieces, and ends only where the next piece does not fit behind it or must start a chunk |
| ChunkPacking.FittingPiecesStayWhole | backend/services/text_processor.py:155-177 | a paragraph that fits, and a sentence that fits, is inside one chunk |
| ChunkPacking.SentencesAreCutAtMarks | backend/services/text_processor.py:163 | a paragraph is cut into sentences at every full stop, exclamation or question mark before whitespace, and nowhere else |
| ChunkPacking.ParagraphsAreCutAtEmptyLines | backend/services/text_processor.py:155 | no paragraph holds an empty line |
| ChunkPacking.ParagraphsJoin | backend/services/text_processor.py:155 | the text is its paragraphs with empty lines between them |
| ChapterSplitter.SplitByHeuristics | backend/services/text_processor.py:77-104 | chapters are consecutive runs of lines: exactly the headings after more than 500 characters of body start a new one and title it, a heading before any text retitles the first, other headings stay in the body; all but a sole chapter have a body over 500 characters; only a last run that is too short is dropped |
| ChapterSplitter.SplitConservesText | backend/services/text_processor.py:77-104 | the words of every line that did not become a title land in exactly one body, whole and in order, and only headings became titles |
| MarkerSplitter.SplitByMarker | backend/services/text_processor.py:58-75 | the loop gives the runs between markers that have text, titled by their markers |
| MarkerSplitter.MarkersConserveText | backend/services/text_processor.py:58-75 | every word outside marker lines is in exactly one chapter, whole and in order; with no such word the whole text, markers included, becomes one chapter |
| MarkerSplitter.ChapterIsARun | backend/services/text_processor.py:58-75 | every chapter is what stands between two neighbouring markers, titled by what follows the first of them or, when nothing does, by its own number; what stands before all markers is front matter |
| DialogueSegments.QuoteLoop | backend/services/voice_city/direction_engine.py:108-122 | the quote loop gives the alternation of narration and speech of its line |
| DialogueSegments.DetectItems | backend/services/voice_city/direction_engine.py:86-122 | the line loop with its running offset gives the items of all lines |
| DialogueSegments.PartLoop | backend/services/voice_city/direction_engine.py:124-147 | the sentence loop cuts an item at its sentence ends |
| DialogueSegments.DetectDialogueSegments | backend/services/voice_city/direction_engine.py:80-147 | the whole detector equals the specified segments |
| DialogueSegments.BlankMatchIsLast | backend/services/voice_city/direction_engine.py:73-77 | a whitespace-only sentence match occurs only where nothing but whitespace follows |
| DialogueSegments.PartsTile | backend/services/voice_city/direction_engine.py:124-147 | so dropping such matches keeps the running offset right |
| DialogueSegments.SegmentsTileTheSource | backend/services/voice_city/direction_engine.py:80-147 | each segment is exactly its source slice, segments are ordered and disjoint, and every character outside them is whitespace |
| DialogueSegments.ScenesNeverDecrease | backend/services/voice_city/direction_engine.py:86-147 | scene indices never decrease and each segment has the kind, speaker and scene of the one item it was cut from |
| DialogueLabels.SegmentsAreRight | backend/services/voice_city/direction_engine.py:80-147 | read off the manuscript: each character of a segment is in the segment's kind, dialogue exactly inside a quote or behind a stage label; it has the speaker inferred for that quote or named by that label, and the scene that counts the scene breaks above its line; a segment holds no sentence end but its own, and ends with one, or with its line, quote or stretch of narration |
| DialogueLabels.FindQuoteIsFirst | backend/services/voice_city/direction_engine.py:34-36 | the next quote starts at the first mark that some closing mark follows behind a character, and ends at the first such closing mark |
| DialogueLabels.MatchIsASentence | backend/services/voice_city/direction_engine.py:38 | a sentence match goes on until the first sentence end after its first character, or until the text ends |
| DialogueLabels.StageBodyIsSpokenAloneIff | backend/services/voice_city/direction_engine.py:101-105 | what is spoken of a stage line begins at its body if and only if the body does not occur in the label before it; of `Ann: Ann` the label is spoken too |
| SsmlTokens.TokenizeAcx | backend/services/ssml_converter.py:235-277 | the tokenizer loop gives the tokens of the text |
| SsmlTokens.TokenizeIsLossless | backend/services/ssml_converter.py:235-277 | the tokens' source texts, in order, are the input |
| SsmlTokens.TokenizeShown | backend/services/ssml_converter.py:235-277 | separated tokens with plain text are what the tokenizer reads from their own text |
| SsmlConverter.EmphasisLoop | backend/services/ssml_converter.py:311-325 | the inner loop collects text and pauses up to the closing tag |
| SsmlConverter.LangLoop | backend/services/ssml_converter.py:327-338 | the inner loop collects text up to the closing tag |
| SsmlConverter.InlineLoop | backend/services/ssml_converter.py:340-374 | the inner loop collects the text up to the next tag |
| SsmlConverter.ConvertAcxToSsml | backend/services/ssml_converter.py:280-389 | the index-paired loops give the element tree of the tokens, with the pitches, rates and pauses that SsmlScales reads |
| SsmlConverter.ConvertedText | backend/services/ssml_converter.py:86-158 | reading the built tree back gives the text of the cleaned tokens |
| SsmlConverter.PitchReads | backend/services/ssml_converter.py:51-72 | every emotion survives the pitch mapping but happy, read as excited, and melancholy, read as sad |
| SsmlScales.EmotionIsPitched | backend/services/ssml_converter.py:340-374 | the tree of an emotion tag and its text is a prosody element around the text, whose pitch is that of the emotion's place on the scale ominous, dark, dejected, sad, melancholy, happy, excited, surprised, shocked: -50% to -10% and +10% to +30% in tens, then +50% |
| SsmlScales.PitchRisesAlongTheScale | backend/services/ssml_converter.py:209-220 | the pitch rises strictly along that scale, so no two emotions get the same |
| SsmlScales.SignedPitchReads | backend/services/ssml_converter.py:51-72 | which emotion every signed percentage is read as |
| SsmlScales.UnsignedPitchReads | backend/services/ssml_converter.py:51-72 | and every percentage without a sign |
| SsmlScales.BucketsAreNotMonotone | backend/services/ssml_converter.py:51-72 | an input: a higher pitch can read as a lower emotion |
| SsmlScales.SpeedsKeepTheirOrder | backend/services/ssml_converter.py:18-38 | the named rates keep their order in both directions |
| SsmlScales.ForeignMarkupReads | backend/services/ssml_converter.py:86-158 | what foreign elements and missing attributes are read as |
| SsmlScales.TagsAreSpelled | backend/services/ssml_converter.py:235-277 | each tag is read from its own spelling |
| SsmlScales.ValueTagsAreSpelled | backend/services/ssml_converter.py:235-277 | and so are the tags with values |
| SsmlConverter.PauseReads | backend/services/ssml_converter.py:107-116 | a pause of digits comes back as the same number |
| SsmlConverter.CanonIsCanonical | backend/services/ssml_converter.py:86-158 | canonical form is reached in one step, and fixes exactly the canonical lists |
| SsmlConverter.RoundTripIsCanon | backend/services/ssml_converter.py:86-158 | ACX to SSML to ACX is canonicalization: the identity exactly on canonical token lists, idempotent on all |
| SsmlConverter.AcxSurvivesSsml | backend/services/ssml_converter.py:280-389 | the same on strings; only blank text is dropped |
| SsmlConverter.TextSurvives | backend/services/ssml_converter.py:86-158 | every text token survives the round trip in order |
| ProsodyParser.HandleTag | backend/pipeline/prosody_parser.py:92-152 | one tag: what it flushes, what control segment it yields, what state it leaves, a new speaker starting afresh; an unknown tag is kept as text |
| ProsodyParser.ParseTaggedText | backend/pipeline/prosody_parser.py:38-178 | the parse and merge loops give the specified segments |
| ProsodyParser.MergeLoop | backend/pipeline/prosody_parser.py:163-178 | the merge pass, as a fold |
| ProsodyParser.SegmentsKeepLabels | backend/pipeline/prosody_parser.py:57-161 | the spoken characters, each with its speaker, emotion and rate, are those of the input with the state in force there |
| ProsodyParser.MergeKeepsLabels | backend/pipeline/prosody_parser.py:163-178 | merging changes no labelled character |
| ProsodyParser.MergeSettles | backend/pipeline/prosody_parser.py:163-178 | merging leaves no neighbours that could be merged |
| ProsodyParser.ParsingKeepsTextAndLabels | backend/pipeline/prosody_parser.py:38-178 | text and labels are kept if and only if no flushed stretch of the text, read without its pronunciation tags, holds a hint; always, nothing mergeable is left, control segments are those asked for in order, and pauses lie in 0..10000 |
| ProsodyParser.NoSlashKeepsTextAndLabels | backend/pipeline/prosody_parser.py:38-178 | in particular on every text without a slash |
| ProsodyVoices.SpokenInTheRightVoice | backend/pipeline/prosody_parser.py:92-145 | looking back from each character: it is spoken by the last speaker named before it or the starting one, with the last emotion and the last rate since that speaker, or none and 1.0; this holds if and only if no stretch holds a hint |
| ProsodyVoices.ControlsAreThoseOfTheTags | backend/pipeline/prosody_parser.py:93-125 | the pauses, scene breaks and speaker changes are those of the tags in order, with numbers kept within 0..10000 and an unreadable scene break taken as 3000 |
| ProsodyVoices.SegmentsListTheirTags | backend/pipeline/prosody_parser.py:57-145 | before merging, each spoken stretch lists exactly the emotion and rate tags since its speaker was named, in order |
| ProsodyVoices.MergeKeepsTagsIff | backend/pipeline/prosody_parser.py:163-178 | merging keeps these lists if and only if the stretches it joins list the same tags |
| ProsodyVoices.TagsAreListedIff | backend/pipeline/prosody_parser.py:38-178 | so in the result each character is listed with those tags if and only if no stretch holds a hint and joined stretches agree |
| ProsodyVoices.NewSpeakerStartsAfresh | backend/pipeline/prosody_parser.py:93-104 | an input: in `[sad]a[SPEAKER:Bob]b` Bob is not sad |
| ProsodyVoices.RepeatedTagIsLost | backend/pipeline/prosody_parser.py:163-178 | an input: in `[sad]a[sad]b` the merged segment lists one tag, though two are in force at its end |
| ProsodyHints.HintsAreSaidAsWords | backend/pipeline/prosody_parser.py:35-79 | of a text with pronunciation hints the words are said and the hints are not |
| ProsodyHints.LexesAreLossless | backend/pipeline/prosody_parser.py:34-90 | the tags and the text between them are the text, nothing lost or added |
| ProsodyHints.ChunksAreTagless | backend/pipeline/prosody_parser.py:81-90 | and no tag is left in the text between them |
| ProsodyParser.HintAcrossEmphasis | backend/pipeline/prosody_parser.py:57-73 | a text that loses characters: in `[pr[emphasis]on:a]b[/pron]` dropping the emphasis tag completes a hint across it |
| ProsodyEmphasis.StressIsAsPromisedIffEveryWordTagged | backend/pipeline/prosody_parser.py:38-178 | the spoken characters are stressed as promised, the word after an emphasis tag and no other, if and only if no stretch holds a hint and, from the first stretch with an emphasis tag on, every word follows a tag of its own |
| ProsodyEmphasis.ClearingMattersUnlessTagged | backend/pipeline/prosody_parser.py:54-73 | the parser gives what a parser that clears its flag after each spoken stretch would give, if and only if, once a tag was seen, every stretch with text has a tag of its own |
| ProsodyEmphasis.StressLeaksIntoTheNextStretch | backend/pipeline/prosody_parser.py:141-142 | an input: in `[emphasis]a[sad]b` both segments are stressed; with the flag cleared only the first would be |
| StructureParser.Run | backend/pipeline/agents/structure_parser.py:85-228 | the line-by-line parser gives the grouping by headings, then scene breaks, then blank lines |
| StructureParser.FlushParagraph | backend/pipeline/agents/structure_parser.py:104-118 | the pending lines become one more paragraph, numbered by its position, unless they are blank |
| StructureParser.LineLoop | backend/pipeline/agents/structure_parser.py:179-197 | without a heading, one paragraph per non-blank line, numbered by its line |
| StructureParser.StepKeepsRest | backend/pipeline/agents/structure_parser.py:104-170 | no line changes what the chapter under way will become |
| StructureParser.FoldIsGrouping | backend/pipeline/agents/structure_parser.py:132-177 | the state machine over all lines is the grouping |
| StructureParser.ParsingKeepsText | backend/pipeline/agents/structure_parser.py:85-228 | with a heading, every word is in the front matter, a title, a paragraph or a scene break, whole, once and in order |
| StructureParser.NoHeadingKeepsTextTwice | backend/pipeline/agents/structure_parser.py:154-216 | without a heading the whole text is kept both as front matter and as the one chapter |
| StructureParser.ChaptersAreNumbered | backend/pipeline/agents/structure_parser.py:104-151 | chapters count from 1, scenes and paragraphs from 0, without gaps; no paragraph is empty and no chapter without a scene |
| StructureLines.EveryParagraphIsARun | backend/pipeline/agents/structure_parser.py:104-177 | each paragraph is a maximal run of lines that are neither blank nor breaks nor headings, joined; its chapter is the one of the last heading before it, by number and title, its scene counts the breaks since, and it has a speaker hint exactly when it is dialogue and the pattern finds one |
| StructureLines.HeadingsAndBreaksCount | backend/pipeline/agents/structure_parser.py:120-177 | there is a chapter for every heading, in it one scene more than breaks up to the next heading, and the front matter is what stands before the first |
| StructureLines.EveryLineIsAParagraph | backend/pipeline/agents/structure_parser.py:179-216 | without a heading there is one chapter named "Chapter 1" with one scene, in which every non-blank line is a paragraph with the number of its line |
| AgentChain.RunAttribution | backend/pipeline/agents/character_attribution.py:120-202 | each paragraph gains its speaker: the answer of the model for its index; else a hint that is not empty; else "unknown" for dialogue and "narrator" for the rest; stripped and capitalized |
| AgentChain.RunNormalizer | backend/pipeline/agents/text_normalizer.py:188-232 | each paragraph's text is normalized and its original kept |
| AgentChain.PlanBatch | backend/pipeline/agents/prosody_planner.py:140-178 | a batch's answer is merged by index; what it misses gets rule-based tags |
| AgentChain.PlanScene | backend/pipeline/agents/prosody_planner.py:211-258 | the batches of ten tile the paragraphs: the k-th is answered by batch k/10 |
| AgentChain.RunPlanner | backend/pipeline/agents/prosody_planner.py:186-272 | the same for all chapters |
| AgentChain.CheckCompleteness | backend/pipeline/agents/qa_validator.py:108-135 | paragraphs are reported missing if and only if there are fewer of them |
| AgentChain.RunQa | backend/pipeline/agents/qa_validator.py:203-264 | QA finds an error if and only if paragraphs are missing or some text has one |
| AgentChain.FallsIffSomethingFails | backend/pipeline/integration.py:75-249 | the chain's text is used if and only if no required stage fails and nothing outside the stages raises |
| AgentChain.ReportsAreThoseStages | backend/pipeline/integration.py:75-249 | it falls at the first stage that is required and failed or outside of which something broke, and reports, in the order of the stages, exactly the optional ones that had raised by then and the required one |
| AgentChain.ContinueChapter | backend/pipeline/integration.py:101-215 | the stages after the parser, for every pattern of failures |
| AgentChain.PreprocessChapter | backend/pipeline/integration.py:40-249 | for every pattern of failures: basic text if and only if the chain falls back, reported with the optional stages that had failed by then and the required one that failed, but with no stage when the last-resort guard caught something else; otherwise each parsed paragraph in its place, with the speaker that attribution gives it or none without attribution, its normalized text, and the tags of the model or else rule-based ones that begin with exactly that speaker; degraded if and only if a stage fell back and by exactly those, never missing paragraphs, and passing QA only when QA ran and found no error |
| AgentChain.SameShapeCount | backend/pipeline/agents/qa_validator.py:115-124 | the same shape has the same paragraph count |
| AgentChain.SilentModelKeepsTexts | backend/pipeline/agents/prosody_planner.py:239-251 | with no answer from the model every paragraph's normalized text is spoken in full |
| AgentChain.PlainChainSpeaksTheBody | backend/pipeline/integration.py:188-196 | with the planner down and nothing to expand, the chain speaks exactly the words of the paragraphs, whole and in order |
| AgentChain.SpokenInFullIffNoHeading | backend/pipeline/integration.py:188-196 | with the planner down and nothing to expand, the words of a text that is not blank are all spoken if and only if no line of it is a heading: titles and front matter stay out |
| AgentChain.ChapterHeadingIsNotSpoken | backend/pipeline/integration.py:188-196 | an input: of `Chapter 1` and a line below it, only that line is spoken |
| NumberWords.WordsRead | backend/pipeline/agents/text_normalizer.py:91-114 | a strict word reader, which splits at the last "million" and accepts nothing but number names put together as in English, inverts the word list of every integer |
| NumberWords.SpokenWords | backend/pipeline/agents/text_normalizer.py:91-114 | the spoken string is that list joined by spaces |
| NumberWords.WordsAreSpelled | backend/pipeline/agents/text_normalizer.py:84-114 | the reader accepts no word list but that of the integer it reads |
| NumberWords.SpokenNumbersDecode | backend/pipeline/agents/text_normalizer.py:91-114 | a string is read as an integer, negative or beyond a billion, if and only if it is what is spoken for that integer |
| NumberWords.SpokenNumbersDiffer | backend/pipeline/agents/text_normalizer.py:91-114 | no two integers sound the same |
| SilenceScan.DetectSilence | backend/services/waveform_generator.py:238-271 | the markers are, in order and once each, exactly the maximal runs of silent windows that last at least the minimum, one reaching the end of a partial last window included; each begins at a multiple of 200 ms and ends at one or with the audio |
| RateLimiter.PostgresLimiter.Check | backend/ratelimit/limiter.py:40-80 | upsert and read-modify-write leave the same counts and give the same answer; a refused caller waits 1..window seconds, to a window boundary |
| RateLimiter.AlignedWindowAllowsExactly | backend/ratelimit/limiter.py:40-80 | in an aligned window exactly the first `limit` checks pass |
| RateLimiter.SpanAllowsAtMostTwice | backend/ratelimit/limiter.py:40-80 | in any half-open span no longer than the window at most twice the limit passes, whatever happens on other keys |
| RateLimiter.SpanWithinOneWindow | backend/ratelimit/limiter.py:40-80 | a span that no window boundary cuts passes at most the limit |
| RateLimiter.TwiceTheLimitHappens | backend/ratelimit/limiter.py:40-80 | a span that a window boundary cuts, no longer than the window and not starting at one, can pass twice the limit: a burst on either side of the boundary |
| RateLimiter.TwiceTheLimitNeedsTwoSeconds | backend/ratelimit/limiter.py:40-80 | so a window of one second never passes more than the limit, and every longer one can pass twice the limit |

## Where the code and its documentation differ

- The worker's cancel handler writes the row without the ownership check that every
  other terminal write makes (backend/worker.py:91-96): LateCancelWriteIsOwnIffStillOwner
  and the two inputs beside it.
- Chunks are promised to stay within the provider's byte limit, but the fallback
  cuts by characters (backend/services/text_processor.py:179-184), and the byte-wise
  split drops characters it cuts or raises (backend/services/text_processor.py:170-177).
  ChunkForProvider says exactly when, FallbackOverrunsTheLimit and TwoByteRunLosesText
  show it.
- The rerender endpoint promises that prior audio stays live until its replacement
  is verified; a failed upload clears the audio key
  (backend/jobs/pipeline.py:433-436), and all revisions of a chapter share one
  storage key (backend/jobs/pipeline.py:91). PriorAudioIsLostIffUploadFails says
  exactly when, RerenderInAnOutage shows it.
- The manifest is described as the active-revision set of the export; a
  chapter whose text became empty stays in it without being in the book
  (backend/jobs/pipeline.py:199-203, 509-531). ManifestListsTheBook says exactly
  when, EmptiedChapterStaysListed shows it.
- Billing is at most once, not exactly once: a rolled-back ledger row is not written
  again when its audio comes from the cache (backend/jobs/pipeline.py:321-330, backend/worker.py:99).
  RenderedChunkIsBilledIff says exactly when, FailAndResume shows it.
- The key of the synthesis cache joins provider, voice, engine and text with bars
  that it does not escape (backend/services/synthesis_cache.py:19-21), so a bar in a
  name can serve one voice's audio for another: JobsMeetIff says exactly when,
  BarsConfuseVoices shows it, and without bars HitIsInVoice rules it out.
- A pitch in percent is said to go to the closest bucket, but it goes to the last one
  whose bound it has passed, unless it has a name (backend/services/ssml_converter.py:51-72),
  so that +35% is read as calmer than +30%: SignedPitchReads says what is read,
  BucketsAreNotMonotone shows it.
- A segment is said to list the tags in force, but merging keeps the first list only
  (backend/pipeline/prosody_parser.py:163-178): TagsAreListedIff says exactly when,
  RepeatedTagIsLost shows it.
- A stage line is split at the first place where its body occurs, which can be in the
  label (backend/services/voice_city/direction_engine.py:101-105), so that the label is
  spoken: StageBodyIsSpokenAloneIff.
- The agent chain's text has neither titles nor front matter
  (backend/pipeline/integration.py:188-196): SpokenInFullIffNoHeading and
  ChapterHeadingIsNotSpoken.
- An output made by an earlier attempt satisfies the check that an output exists
  (backend/jobs/pipeline.py:506-507), so a run can pass with a book that is not
  the text's, in every format it did not bind: UndisturbedRunEnds, RunJob and
  StaleBookPasses.
- `[emphasis]` is promised as stress on the next word
  (backend/pipeline/agents/prosody_planner.py:55), but the parser stresses the whole
  stretch around the tag and, because the flag is never reset, every later one
  (backend/pipeline/prosody_parser.py:54-73, 141-142). StressIsAsPromisedIffEveryWordTagged
  and ClearingMattersUnlessTagged say exactly when it matters,
  StressLeaksIntoTheNextStretch shows it.

## Left out

- ChunkForProvider: requires a limit of at least one byte, because with a smaller one the source's loop does not end.
- RunJob: voice snapshots and directed segments, the provenance file, progress and chunk counters, output checksums in the manifest, errors of the database other than a crash, and commits by a stale worker racing with its successor: attempts of one job are sequential.
- ClaimNextJob: one atomic step, as with row locks; several workers claiming without them, as on SQLite, are not modelled.
- StepKeepsInv: the cancel handler's write is one step with the heartbeat before it; taken apart it is judged by LateCancelWriteIsOwnIffStillOwner.
- SynthesizeWithRetry: the sleep between calls is not modelled.
- RunClaimed: how a run would go by itself is an input; the worker's own heartbeat row and its signals are not modelled.
- ConvertAcxToSsml: gives the element tree; printing and parsing XML, where text with `<` or `&` would be read as markup, and the whitespace collapsing of convert_ssml_to_acx are not modelled.
- AcxSurvivesSsml: text tokens hold no `[`, `<` or `&`.
- TokenizeAcx: word characters and digits are the ASCII ones.
- ParseTaggedText: word characters of tag names are the ASCII ones, number parsing is a parameter, and emotion conditioning and the dictionary of hints are not modelled.
- DetectDialogueSegments: scene-break and stage-line recognition and speaker inference are parameters; confidence and evidence fields and the counts of analyze_dialogue are not modelled.
- DetectSilence: which windows are silent is an input; clipping markers are not modelled.
- PreprocessChapter: what a language model answers is arbitrary, so for answered paragraphs the shape is kept but nothing is claimed of their text beyond being the stripped answer; mood keywords and capitalization are parameters; costs, timings, the completeness score, lexicon suggestions and the order of issues are not modelled, nor is a raise before the guarded block or in the guard's own commit.
- TextsHaveTheirOwnIds: digests are taken whole, not cut to their first characters.
- RunQa: the findings within one text are a parameter.
- SplitByHeuristics: heading patterns are a parameter.
- MarkerTitle: printing the chapter number is a parameter.
- Check: the Upstash limiter is not modelled.
- DecodeEncode: lone surrogates cannot occur.
- BilledAtMostOnce: costs in dollars, monthly quotas and month_usage are not modelled; record_usage is one atomic step.
- McpCancel: the MCP cancel is not a step of the system, because it breaks the invariant on a running job; it is judged on its own.
- The batch processor's second claim path, job deletion, the retention sweep, and the deletion of outputs.
- Audio processing, loudness, waveform peaks and embeddings.
- Web routes, authentication, dashboards, metrics, migrations and provisioning.
- Direction plans, voice optimization and stream previews.
