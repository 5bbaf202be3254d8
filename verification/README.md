# Verified model of the document question-answering service

The service indexes PDF documents, answers questions about them with cited sources and streams the answers to
a browser. This project models its stateful and algorithmic cores and proves what they keep over all inputs,
all runs or all interleavings. The database, the language model, the embedding service, the PDF pipeline, JSON
and the network are inputs: whatever they answer, the theorems hold.

| file | component |
|---|---|
| `Lifecycle`, `Protocol`, `ProtocolInvariant`, `ProtocolTheorems`, `AbortedJob` | preset changes, reindex jobs, uploads, deletions, crashes and restarts as one state machine, one step per commit |
| `Store`, `ThreadRuns` | the same transactions as methods that change the rows field by field, and the proof that an uninterrupted thread is a run of the machine |
| `Chunker`, `History`, `QueryPlan`, `PromptBuilder` | text windows, history budget, query slots, and the exact prompt budget |
| `Fusion`, `Anchors`, `Scores`, `Reranker`, `Adjacent`, `Retriever` | the retrieval pipeline and its composition, scores over the reals |
| `Coverage` | the bounded evidence check, its log, and the evidence matrix rebuilt from the log |
| `Citations`, `CitationText` | citation normalization, validation and the source list, on tokens; printing and reading one citation, on characters |
| `Streaming`, `Sse`, `ChatStream` | the streamed answer, its framing (section 9.2.5, "Parsing an event stream", of the WHATWG HTML Living Standard), and the page the browser shows |
| `Registry` | the endpoint file replaced under a lock by several processes, and their cached snapshots |
| `Prelude`, `Text`, `Retrieved` | shared vocabulary |

Where the source updates state, a method with the same loops is proved against a specification function or a
declarative contract; the lemmas are about that specification.

Four places where the code does less than one might read into it are stated as results, each with an input that
shows it and the exact condition:

- a reindex job that ends by exception can leave searchable documents at two versions
  (`AbortedJob.AbortLeavesMixedVersions`), exactly when one already carries the job's target version
  (`ProtocolTheorems.AbortKeepsUniformExactly`, `ProtocolTheorems.SearchableDocumentsAreUniformExactly`);
- a process can serve an old endpoint configuration as up to date (`Registry.ReplacementCanBeMissed`), exactly when
  its last reload was overtaken by different bytes or failed behind the file
  (`Registry.CachedAnswersAreCurrentExactly`);
- a retry of the evidence check can drop chunks that were there (`Coverage.RetryDropsRetrievedChunks`), exactly when
  they exceed the caps (`Coverage.RetriesKeepTheInitialChunksExactlyWithinCaps`);
- a query's first hit can be lost among the candidates (`Anchors.ThirteenHitsLoseOne`), exactly when there are more
  distinct first hits than the limit (`Anchors.HeadsSurviveExactly`).

## Model

| member | source | states |
|---|---|---|
| Lifecycle.RecoveryRestoresJobs | app/services/reindex_service.py:55-87 | from any database state, consistent or not, job recovery leaves at most one unfinished job, the newest, with cleared counters, and the flag and pending preset that belong to it; running it again changes nothing |
| Lifecycle.PresetChangeIsGrantedExactly | app/services/reindex_service.py:101-145 | a request is accepted if and only if there is no maintenance and no active document and both presets exist and differ; with the same chunking the target is active at once and its job completed, otherwise the active preset stays, the target is pending under maintenance and its job waits at the next version |
| Lifecycle.RetryIsGrantedExactly | app/services/reindex_service.py:148-180 | a retry is granted if and only if nothing is under way and the job failed, and then opens a new job for the failed job's own target at the next version |
| Lifecycle.RecoveryRestartsInterruptedDocuments | app/services/document_recovery_service.py:11-33 | outside maintenance every interrupted document that has its file starts again as uploaded and every other one is failed; nothing else changes, and nothing at all under maintenance |
| ProtocolInvariant.StepKeepsInv | app/services/reindex_service.py:55-242 | every step of every actor (requests, threads, exceptions, crash, recovery) keeps the joint invariant of configuration, jobs, documents and threads |
| ProtocolInvariant.NewJobKeepsInv | app/services/reindex_service.py:101-180 | a preset change or retry that is granted finds no other worker, and opens the only unfinished job |
| ProtocolInvariant.UploadKeepsInv | app/services/document_service.py:27-58 | inserting, accepting and rejecting an upload keep the invariant |
| ProtocolInvariant.DeleteKeepsInv | app/services/document_service.py:80-92 | deleting inactive documents keeps it, even when the maintenance guard has become stale |
| ProtocolInvariant.IndexerKeepsInv | app/services/document_processor.py:42-102 | both commits and the failure path of a single-document thread keep it |
| ProtocolInvariant.ReindexerBeginKeepsInv | app/services/document_processor.py:56-63 | the reset and status commit inside a job keep it |
| ProtocolInvariant.ReindexerPublishKeepsInv | app/services/document_processor.py:89-93 | publishing chunks, metadata and status in one commit inside a job keeps it |
| ProtocolInvariant.ReindexerFailDocumentKeepsInv | app/services/document_processor.py:94-102 | the failure path of a document inside a job keeps it |
| ProtocolInvariant.ReindexerProgressKeepsInv | app/services/reindex_service.py:183-215 | starting a job and counting a document keep it |
| ProtocolInvariant.ReindexerEndKeepsInv | app/services/reindex_service.py:217-242 | finishing, failing or losing the reindex thread keep it |
| ProtocolInvariant.RecoveryKeepsInv | app/services/runtime_service.py:15-38 | a crash at any point and both recovery commits keep it |
| ProtocolTheorems.RunKeepsInv | app/services/reindex_service.py:55-242 | the invariant holds in every state of every run |
| ProtocolTheorems.MaintenanceExactlyWhileOneJobUnfinished | app/services/reindex_service.py:118-145 | in every reachable state maintenance is on exactly while one job is pending or running, never two, with its target pending and its version one above the index version |
| ProtocolTheorems.IndexedDocumentsStoreOneCompletePass | app/services/document_processor.py:56-93 | an indexed document stores, row by row, chunks 0 to n - 1 of exactly one pass that extracted n, at its preset and version; an uploaded or processing one stores none; for any interleaving of reset, failure, crash and rerun |
| ProtocolTheorems.WorkersExcludeEachOther | app/repositories/document_repository.py:84-90 | single-document threads and a reindex thread never coexist, no document has two threads |
| ProtocolTheorems.FinishedJobLeavesOneIndexVersion | app/services/reindex_service.py:192-226 | a job that ends has completed + failed = total, every document failed or indexed at exactly its preset and version, and the configuration equal to them |
| ProtocolTheorems.SearchableDocumentsAreUniformExactly | app/services/reindex_service.py:183-242 | in every reachable state, whatever jobs ended by exception before, all searchable documents are at the index version and the active chunking if and only if none carries the version after it |
| ProtocolTheorems.AbortKeepsUniformExactly | app/services/reindex_service.py:227-242 | a job that ends by exception is failed and leaves them so if and only if no searchable document carries its target version when it ends |
| ProtocolTheorems.SearchableDocumentsStayUniform | app/services/reindex_service.py:106-145 | after a job that ran to its end, and as long as no later job ends by exception with a searchable document at its target version, all searchable documents outside maintenance are at the index version and the active chunking |
| ProtocolTheorems.SearchableDocumentsUniformFromTheStart | app/services/document_processor.py:48-54 | the same from the first start, under the same condition |
| ProtocolTheorems.RestartCanAlwaysEndMaintenance | app/services/runtime_service.py:30-38 | from every reachable state with an unfinished job a restart can lead out of maintenance with its target active |
| ProtocolTheorems.GrantedChangeCanTakeEffect | app/services/reindex_service.py:101-226 | from wherever a granted preset change ends up there is a continuation after which its target is active and maintenance over |
| AbortedJob.AbortLeavesMixedVersions | app/services/reindex_service.py:227-242 | from every first start with two chunkings there is a run that ends in an aborted job, no maintenance, and a searchable document at another version than the index |
| Store.RetrievalStore.StartPresetChange | app/services/reindex_service.py:101-145 | the transaction field by field: who is refused and why, the immediate switch, and the job that is opened; refusals change nothing |
| Store.RetrievalStore.RetryReindexJob | app/services/reindex_service.py:148-180 | likewise for a retry, which opens a job for the failed job's target |
| Store.RetrievalStore.RecoverInterruptedReindexJobs | app/services/reindex_service.py:55-87 | the loop over the jobs is job recovery; it returns the job to resume |
| Store.RetrievalStore.PrepareInterruptedDocuments | app/services/document_recovery_service.py:11-33 | the loop over the interrupted documents is document recovery; it returns exactly those to restart |
| Store.RetrievalStore.InitializeRuntime | app/services/runtime_service.py:15-38 | start-up makes the job table consistent, resumes the job exactly under maintenance and never starts both kinds of thread |
| Store.RetrievalStore.CreateDocumentFromUpload | app/services/document_service.py:27-58 | the row exists with its file, or not at all |
| Store.RetrievalStore.DeleteDocument | app/services/document_service.py:80-92 | removes exactly one inactive document |
| Store.RetrievalStore.ProcessDocument | app/services/document_processor.py:33-104 | one call appends chunks 0 to n - 1 of one pass at the given preset and version, after removing the old ones if asked to, and indexes the document; or fails it, keeping exactly the chunks and metadata the last commit left; no other row changes |
| Store.RetrievalStore.ReindexDocuments | app/services/reindex_service.py:202-215 | the loop processes every listed document once and counts completions and failures exactly |
| Store.RetrievalStore.RunReindexJob | app/services/reindex_service.py:183-226 | a run processes all documents, publishes target and version, and its status tells whether any failed |
| Store.RetrievalStore.FailJob | app/services/reindex_service.py:227-240 | the exception handler fails the job and ends maintenance, and leaves the active preset and the index version as they are |
| ThreadRuns.ReindexRunIsAProtocolRun | app/services/reindex_service.py:183-226 | what that run leaves in the store is the database at the end of a run of the state machine, from any state in which the thread is about to start the job |
| ThreadRuns.IndexingCallIsAProtocolRun | app/services/document_processor.py:33-104 | an uninterrupted call for one document is a run of its thread |
| Chunker.ChunkPages | app/services/chunker.py:18-102 | the nested loops compute the windows of every page and terminate for any size and overlap |
| Chunker.WindowsClosedForm | app/services/chunker.py:31-68 | the number of windows is ceil((len - size)/(size - overlap)) + 1, or 1 |
| Chunker.NeighboursOverlapExactly | app/services/chunker.py:66-68 | neighbouring windows share exactly the overlap |
| Chunker.ShortPassageInOneWindow | app/services/chunker.py:30-35 | every passage of at most overlap + 1 characters lies inside one window |
| Chunker.WindowsRebuildTheText | app/services/chunker.py:31-68 | the stripped page can be put together again from its windows |
| Chunker.VisibleCharacterIsInAChunk | app/services/chunker.py:34-64 | every non-space character is in an emitted chunk at the place its window implies |
| Chunker.ChunkIndexesCountTheDocument | app/services/chunker.py:25-64 | chunk_index runs 0..n-1 over all pages and captions, no chunk is empty |
| Chunker.ChunksFollowThePages | app/services/chunker.py:28-102 | every chunk is a stripped window or the caption of the page it names, and the pages come in their order |
| Chunker.CaptionIsThePagesLastChunk | app/services/chunker.py:70-100 | a caption that is not blank is the last chunk of its page, under the next index |
| History.LimitConversationContext | app/services/conversation_service.py:20-42 | the loop from the newest message computes the limited history |
| History.BuildConversationContext | app/services/conversation_service.py:10-17 | the stored messages are cut to the last ones and then limited |
| History.LimitKeepsTheLastCharacters | app/services/conversation_service.py:20-42 | the kept text is exactly the last min(max, total) characters said, each with its role |
| History.LimitKeepsEligibleMessages | app/services/conversation_service.py:28-41 | no empty message and no role but user and assistant is kept |
| History.LimitKeepsTheNewestMessages | app/services/conversation_service.py:28-41 | the kept messages are the newest that count, with their roles, whole but for the oldest kept, of which the end is |
| History.LimitTwiceIsLimitOnce | app/services/generator.py:126-135 | limiting by a then b is limiting by min(a, b) |
| QueryPlan.Allocate | app/services/query_rewriter.py:243-267 | every goal gets a prefix of its queries with the first one, exactly min(budget - 1, total) slots are used, fair to within one |
| QueryPlan.FairSharesAreUnique | app/services/query_rewriter.py:243-267 | no other division is fair and uses the budget |
| QueryPlan.DeduplicateQueries | app/services/query_rewriter.py:315-325 | the loop keeps the first query of every folded key |
| QueryPlan.DeduplicateKeepsEveryKey | app/services/query_rewriter.py:315-325 | for every query asked for, one with its key is searched |
| QueryPlan.DeduplicateKeepsFirsts | app/services/query_rewriter.py:315-325 | kept are exactly the first query of each key that is not empty, in order |
| QueryPlan.PlanStartsWithTheQuestion | app/services/query_rewriter.py:41-48 | a plan asks the standalone question first, then the goals' queries goal by goal, up to the cap |
| QueryPlan.CapDropsNoGrantedQuery | app/services/query_rewriter.py:41-48 | the cap of a plan drops no allocated query |
| PromptBuilder.Prioritize | app/services/prompt_builder.py:76-108 | evidence chunks first, then new pages, then pages again, each in retrieval order |
| PromptBuilder.EveryChunkIsOffered | app/services/prompt_builder.py:85-108 | the order is a permutation of the retrieved chunks |
| PromptBuilder.OfferGoesByRank | app/services/prompt_builder.py:85-108 | the offer visits every retrieved position once, by rank and then by position |
| PromptBuilder.ContextIsItsNumberedBlocks | app/services/prompt_builder.py:29-45 | the rendered context is one block per chunk, blank lines between; block i starts with its own number i from 1, names document, page and chunk, and ends with the content; no number occurs twice |
| PromptBuilder.NextBlockGetsTheNextNumber | app/services/prompt_builder.py:133-138 | one more chunk adds one block behind the others, under the next number |
| PromptBuilder.FittedChunkFits | app/services/prompt_builder.py:45-66 | a fitted block fits; it is whole if and only if it fits whole, otherwise its content is cut to exactly the room there is, without trailing white space and with the marker, unless that is below the minimum |
| PromptBuilder.Offer | app/services/prompt_builder.py:112-129 | the running count is the length of the rendered context, separators and growing source numbers included |
| PromptBuilder.SelectGenerationChunks | app/services/prompt_builder.py:69-130 | the rendered context never exceeds the budget, only the first block may be cut and then to all the room there is, no rejected chunk could be appended whole at the end, and none before the first source could have been cut |
| Fusion.FuseResults | app/services/retriever.py:327-342 | returns exactly the best min(k, distinct) keys by the summed 1/(60 + rank), ties by id, each with its score and the title of its last row |
| Fusion.ListAddsItsReciprocalRank | app/services/retriever.py:327-337 | one more list adds 1/(60 + rank) to the score of a key it holds and nothing to any other |
| Fusion.TitleIsTheLastOne | app/services/retriever.py:330-336 | the title is that of the key's last row in the last list that holds it |
| Fusion.TopIsUnique | app/services/retriever.py:338-342 | that answer is the only one |
| Fusion.FusedRowsAreDetermined | app/services/retriever.py:327-342 | keys, scores and titles together: two answers for the same lists are equal |
| Fusion.BetterEverywhereComesFirst | app/services/retriever.py:327-342 | a key ranked above another in every list holding the other precedes it |
| Anchors.MergeQueryAnchors | app/services/retriever.py:345-364 | the loops put every query's first hit before the fused rows, without duplicates, up to the limit |
| Anchors.MergePageAnchors | app/services/hierarchical_retriever.py:136-159 | the same with two pages per query |
| Anchors.AnchoringFillsTheLimit | app/services/retriever.py:345-364 | exactly min(limit, distinct keys) rows, none twice, none invented |
| Anchors.MergedRowsGoInOrder | app/services/retriever.py:345-364 | the merged rows are, in order, the first occurrences of the keys among the lists' first hits, list by list, and then the fused rows |
| Anchors.HeadsSurvive | app/services/retriever.py:345-364 | if the anchors fit, every query's first hits survive, in front |
| Anchors.HeadsSurviveExactly | app/services/retriever.py:345-364 | all first hits survive if and only if there are no more distinct ones than the limit |
| Anchors.ThirteenHitsLoseOne | app/services/retriever.py:60-88 | four goals of three queries and the question, four results wanted: of thirteen distinct first hits one is lost among the twelve candidates |
| Anchors.NormalizeQueries | app/services/hierarchical_retriever.py:104-115 | the queries and the question without duplicates, at most four |
| Anchors.PageCandidates | app/services/hierarchical_retriever.py:30-60 | in the page fallback the pages are the two first of every query and then the fused ones, and every query's top two always survive |
| Scores.CauchySchwarz | app/services/reranker.py:166-175 | the inequality behind the range of the cosine similarity, for all vectors |
| Scores.QueryScoreInUnitInterval | app/services/reranker.py:95-105 | every query score is the similarity if that is positive and otherwise 0, and lies in [0, 1] |
| Scores.SimilarityIsTheCosine | app/services/reranker.py:166-175 | similarity times the norms is the sum of products for two vectors of one length that are not zero, and 0 for all others |
| Scores.DotAddsProducts | app/services/reranker.py:170-172 | the sums run over the products and the squares of equal places |
| Scores.SimilarToItself | app/services/reranker.py:166-175 | a vector other than zero has similarity 1 to itself |
| Scores.CombinedScoreInUnitInterval | app/services/reranker.py:119-137 | both convex mixes and the rank score stay in [0, 1] |
| Scores.ScoreWeighsQueriesAndRank | app/services/reranker.py:119-137 | 0.56 of the original question, 0.24 of the best other query and 0.2 of the rank; 0.8 and 0.2 with one query |
| Scores.RankScoreFallsEvenly | app/services/reranker.py:134-134 | the rank score is 1 for the first row, 0 for the last, and falls in equal steps |
| Scores.BetterRowScoresHigher | app/services/reranker.py:119-137 | a row at least as similar to every query and retrieved earlier scores higher |
| Reranker.BestForGoal | app/services/reranker.py:142-151 | the maximum over a goal's queries, ties by retrieval rank |
| Reranker.GoalScoreIsTheBest | app/services/reranker.py:142-147 | the score of a row on a goal is the largest among the goal's queries |
| Reranker.SelectRows | app/services/reranker.py:108-163 | sorting, reserving and filling compute the selection over the sorted rows |
| Reranker.SelectionKeepsEveryGoal | app/services/reranker.py:139-163 | with distinct ids and a limit of at least 1 and the number of goals: min(limit, n) rows in score order, every goal's best and otherwise exactly the rows before a cut |
| Reranker.SelectedRowsKeepEveryGoal | app/services/reranker.py:108-163 | the same for the unsorted candidates: falling scores with ties by rank, a best row of every goal, and nothing left out that scores higher than a selected row other than a goal's best |
| Reranker.SelectedRowsCarryTheirScores | app/services/reranker.py:115-138 | every selected row carries the id, the rank, the query scores and the combined score of one candidate |
| Reranker.SelectionWithoutGoalsIsTheTop | app/services/reranker.py:154-163 | without goals the selection is the plain top-k |
| Adjacent.RequestedPlaces | app/services/retriever.py:236-248 | the nested loops with their set of seen places compute the request list |
| Adjacent.RequestsAreTheNeighbours | app/services/retriever.py:236-248 | the requests are exactly the places beside ranked rows, each once, with the score of the first such row |
| Adjacent.RequestsGoByRank | app/services/retriever.py:236-248 | the requests follow the rank of the row that asks first, the place before it ahead of the place after it |
| Adjacent.ExpandWithAdjacentChunks | app/services/retriever.py:231-271 | the ranked rows stay in front and the greedy additions follow |
| Adjacent.AdditionsFitTheBudgets | app/services/retriever.py:254-270 | at most 8 additions, at most 8000 characters, none twice, none ranked already |
| Adjacent.AdditionsAnswerRequests | app/services/retriever.py:257-268 | additions follow the order of the requests |
| Adjacent.EveryAdditionIsBesideItsFirstSeed | app/services/retriever.py:238-268 | every addition is next to a ranked row of its document and has the first such row's score |
| Adjacent.NoNeighbourStillFits | app/services/retriever.py:257-270 | at the end no neighbour that was found and not added still fits |
| Retriever.GatherCandidates | app/services/retriever.py:89-133 | one search is handed on as it is; of several, the candidates are the first hits and then the fused rows, min(limit, distinct) of them, with every query's first hit if and only if they fit |
| Retriever.RerankRows | app/services/reranker.py:18-49 | reranking returns min(limit, candidates) of them with every goal's best, or their front when it fails |
| Retriever.RetrieveChunks | app/services/retriever.py:42-174 | three times the result limit max(top_k, goals) are gathered for reranking; as many distinct chunks as that limit allows come first, row by row with their chunk, score and title, in rank order, every goal's best among them when reranked; then at most eight neighbours |
| Retriever.FirstHitsSurviveSmallPlans | app/services/retriever.py:60-88 | with reranking, fewer goals than wanted results and at most three queries each, every query's first hit is a candidate |
| Coverage.ParseCoverageResponse | app/services/evidence_coverage.py:295-369 | accepts exactly the answers that judge every planned goal once, cite known chunks, and cite any exactly where the status needs it |
| Coverage.CoverageSaysWhatTheModelAnswered | app/services/evidence_coverage.py:295-369 | an accepted judgement keeps its goal, exactly the cited chunks each once, its queries, and the status its name stands for |
| Coverage.AssessEvidenceCoverage | app/services/evidence_coverage.py:79-137 | the reply, else the repaired reply, else no assessment |
| Coverage.MergeRetryChunks | app/services/evidence_coverage.py:465-483 | the merge loop with its two caps: a subsequence of old and new chunks, first occurrences only, from which a chunk is missing only if 16 are in it or its characters would exceed 24,000 |
| Coverage.RetryTakesWhatFits | app/services/evidence_coverage.py:465-483 | every chunk that is not merged found the merge full for it; within the caps nothing is left out |
| Coverage.FoundChunksJoinTheRound | app/services/evidence_coverage.py:186-208 | in every run a chunk that a round's search found is among the round's chunks, or the round is full for it |
| Coverage.RetryAsksForTheOpenGoals | app/services/evidence_coverage.py:403-421 | a retry asks for exactly the planned goals that are not supported, in order, with the model's queries or else the goal's own |
| Coverage.MergeStaysWithinCaps | app/services/evidence_coverage.py:473-482 | distinct chunks, at most 16, at most 24,000 characters unless it is one chunk |
| Coverage.RetryKeepsTheOriginalExactlyWithinCaps | app/services/evidence_coverage.py:465-483 | the old list stays in front whole if and only if it is within the caps |
| Coverage.RetriesKeepTheInitialChunksExactlyWithinCaps | app/services/evidence_coverage.py:186-208 | in every run, once there is a retry, the initial chunks stay in front whole if and only if they are within the caps |
| Coverage.RetryDropsRetrievedChunks | app/services/evidence_coverage.py:465-483 | a whole run in which a retry that finds nothing cuts a full retrieval of 28 chunks to 16 |
| Coverage.RetrievalTrace.RecordAssessment | app/services/retrieval_trace.py:109-123 | appends one event and changes no earlier one |
| Coverage.CompleteEvidenceCoverage | app/services/evidence_coverage.py:140-210 | the control flow is exactly a run of rounds, each logged, stopping where the rounds stop |
| Coverage.RunsStartGoOnAndAreLogged | app/services/evidence_coverage.py:140-210 | a run starts from the retrieved chunks, or with the fallback search as its first action; it ends exactly when every goal is supported, two actions are spent or a check fails, other than the first one over no chunks; every round is logged with its own judgement |
| Coverage.AtMostTwoActions | app/services/evidence_coverage.py:156-208 | at most two retrieval actions |
| Coverage.EveryRetryHasAGoal | app/services/evidence_coverage.py:186-190 | a retry always has an unsupported goal to search for |
| Coverage.InitialChunksStayInFront | app/services/evidence_coverage.py:203-204 | an initial list within the caps is a prefix of the result |
| Coverage.BuildEvidenceMatrix | app/services/evidence_coverage.py:213-269 | the loop rebuilds the matrix from the newest event that has goals |
| Coverage.MatrixIsTheLastAssessment | app/services/evidence_coverage.py:213-269 | every reference of the matrix names a chunk of the returned list, its status is complete exactly when the last assessment supports every goal, older events do not matter, and the conversion of its pages fails exactly when a cited chunk has none |
| Coverage.MatrixOverPagedChunksIsBuilt | app/services/evidence_coverage.py:241-249 | over chunks with page numbers, as the chunker makes them, it is always built |
| Citations.NormalizeIsIdempotent | app/services/citation_validator.py:99-122 | normalizing twice changes nothing more |
| Citations.NormalizeTokenByToken | app/services/citation_validator.py:99-136 | chunk suffixes go, references to existing sources with known pages get exactly the pages of their chunk, every other token stays, in order |
| Citations.NormalizeKeepsSourceNumbers | app/services/citation_validator.py:99-136 | source numbers and their order are kept |
| Citations.NormalizedCitationsAreValid | app/services/citation_validator.py:125-136 | afterwards every citation of an existing source with a known page is valid |
| Citations.ValidCitedSourceIndexes | app/services/citation_validator.py:155-172 | the loop collects the valid citations in order of first occurrence |
| Citations.CitedAreTheFirstValid | app/services/citation_validator.py:155-188 | the indexes are exactly those of the references that name the right first and last page, in the order of the first of each |
| Citations.FirstGroup | app/services/citation_validator.py:23-26 | what stands in brackets: up to the next closing bracket, if a reference is in between all of them count, otherwise the search goes on behind the opening bracket |
| Citations.NormalizationMakesEveryCitableReferenceCount | app/services/citation_validator.py:99-172 | the valid citations of a normalized answer are exactly its bracketed references to existing sources with known pages |
| Citations.PrintedCitationsReadBack | app/services/generator.py:400-408 | a list of printed citations reads back as exactly the excerpts with known pages, in order, each under its own number |
| CitationText.PrintedCitationReads | app/services/citation_validator.py:18-26 | on characters: the printed citation for source i, read by the group and item expressions, gives exactly its reference, or nothing if it has no page |
| Citations.SourcesForCitations | app/services/generator.py:726-745 | one source per document and page of the validly cited chunks |
| Citations.SourcesFollowTheCitations | app/services/generator.py:726-745 | sources are retrieved chunks in first-citation order, distinct by document and page, and cover every cited chunk |
| Citations.ExtractiveContextFallback | app/services/generator.py:335-381 | the first three candidates from different pages, each cited under its own number, with their documents and pages as sources |
| Citations.ExcerptedPages | app/services/generator.py:345-354 | at most three excerpts, from distinct pages of the candidates |
| Citations.ExcerptsAreTheFirstPages | app/services/generator.py:345-354 | the excerpts are candidates in order, and every candidate up to the third of them, or every one if there are fewer, stands on the page of an excerpt not behind it |
| Citations.ExcerptsArePrinted | app/services/generator.py:357-381 | excerpt k is printed as its text and the citation of source k with the pages of its chunk |
| Citations.FallbackCitesItsSources | app/services/generator.py:357-381 | its citations read back as the sources of exactly the excerpts with known pages, which is its source list if and only if all have one |
| Streaming.StreamChatCompletion | app/clients/llm_client.py:197-254 | at most two requests, the second exactly when the first overflowed before any content and the server's numbers leave between 128 and 899 tokens, and then for those; the deltas and the ending are those of the last request |
| Streaming.ContentKeepsTheText | app/clients/llm_client.py:215-232 | skipping empty deltas loses no text |
| Streaming.MarkerIsNotShown | app/services/generator.py:701-710 | of an answer that starts with the marker only what follows it and the separators is shown, or the sentence that denies sources; every other answer is shown as it is |
| Streaming.SourceNormalizer.PushDelta | app/services/generator.py:781-801 | one delta: held back, decided or passed on |
| Streaming.SourceNormalizer.FinishAnswer | app/services/generator.py:803-816 | the end of the stream decides what is still held back |
| Streaming.GroundedShowsItsInput | app/services/generator.py:768-801 | while undecided nothing is shown or lost; once grounded, what is shown is the input, wherever it was cut |
| Streaming.FinishedAnswer | app/services/generator.py:803-816 | a finished answer is decided; a grounded one is its input, one without sources is not empty |
| Streaming.NormalizerWaitsForTheDecision | app/services/generator.py:781-801 | nothing is shown before the first prefix that decides; then that prefix, without its marker, and every later delta as it is |
| Streaming.AnswerOfAStream | app/services/generator.py:781-816 | the whole answer of every finished stream, word for word, decided early or at the end |
| Streaming.StreamingAnswer.Attempt | app/services/generator.py:187-211 | one attempt; its deltas are suppressed if something was shown before |
| Streaming.StreamingAnswer.Iterate | app/services/generator.py:165-269 | deltas, final answer and revision of a whole run; without a revision the deltas are the answer, a revision is the answer |
| Streaming.OneRequestIsShown | app/services/generator.py:187-221 | all visible deltas come from one request of one attempt, and every earlier attempt overflowed unseen |
| Streaming.FirstFittingAttemptAnswers | app/services/generator.py:187-223 | the kept answer is made from the first attempt that did not overflow |
| Streaming.WhichAnswerIsGiven | app/services/generator.py:165-269 | the early answer, else what is made of the first attempt that fits, else the fallback; the deltas of the first attempt that showed any; a revision only where the answer differs or the fallback follows shown text |
| Streaming.GroundedAnswerIsTheModelsText | app/services/generator.py:187-240 | a grounded first attempt shows the model's own text |
| Sse.ScanInPieces | app/static/js/api-client.js:298-306 | splitting at blank lines with the tail kept does not depend on the fragments |
| Sse.BlockReadsBack | app/api/chat.py:159-161 | a printed event reads back as itself |
| Sse.CutBlockReads | app/static/js/api-client.js:270-309 | a block cut short gives nothing or its event with a prefix of the data |
| Sse.PartOfStreamScans | app/static/js/api-client.js:297-309 | any part of a printed stream gives its whole frames' events and a part of the next |
| Sse.StreamHasNoCarriageReturn | app/static/js/api-client.js:300-300 | printed streams have no carriage return |
| ChatStream.PrintedTextHasNoCarriageReturn | app/static/js/api-client.js:299-300 | neither has any part of one, so replacing line ends changes nothing |
| ChatStream.Exchange.ChatEventStream | app/api/chat.py:163-253 | message by message what is sent up to where the client closes; a stream taken to its end says done if and only if the session was there, an answer was generated, stored and reread, and then right after the sources of the stored answer, otherwise it ends in the one error; the final answer is stored exactly when the whole answer was taken; a session made for the stream is there afterwards exactly if the exchange is; with done the fold is exactly what is stored |
| ChatStream.EventReader.Read | app/static/js/api-client.js:298-306 | one fragment processes exactly the blocks it completes |
| ChatStream.StreamQuestion | app/static/js/api-client.js:263-320 | the result depends on the text only, not on its fragments |
| ChatStream.PageShowsAPrefix | app/static/js/api-client.js:263-309 | whatever arrives, the page shows the fold of a prefix of the messages or the reader throws |
| ChatStream.BrowserShowsWhatIsStored | app/static/js/api-client.js:263-320 | when the reader returns, its answer and sources are those stored |
| ChatStream.WholeStreamReturnsExactlyWhenDone | app/static/js/api-client.js:309-320 | a stream that arrives whole makes the reader return exactly when it ends with done |
| ChatStream.WholeStreamReturnsWhatIsStored | app/static/js/api-client.js:263-320 | a stream that ends with done and arrives whole makes the reader return the stored answer and sources |
| ChatStream.AskQuestion | app/api/chat.py:163-253 | end to end, however the network cuts the stream: the page shows the stored answer with its sources if and only if the session was there and the answer was generated, stored and reread |
| Registry.StepKeepsInv | app/services/language_model_registry.py:96-146 | every step of every process keeps the lock, chain and snapshot invariant |
| Registry.RunKeepsInv | app/services/language_model_registry.py:115-146 | in all interleavings the replacements form a chain in which each expected revision is that of the bytes overwritten |
| Registry.NoUpdateIsLost | app/services/language_model_registry.py:129-141 | with an injective revision a replacement overwrote exactly what its caller had read |
| Registry.EveryWriteWasAskedFor | app/services/language_model_registry.py:115-146 | in every run every write is the configuration of a call that named the revision it replaced, resolved its credentials and was accepted |
| Registry.UndisturbedReplacement | app/services/language_model_registry.py:115-146 | a call that nobody disturbs puts its configuration into file and cache if it names the file's revision, and otherwise changes nothing |
| Registry.UndisturbedReload | app/services/language_model_registry.py:96-113 | a reload that nobody disturbs caches the file's content, or keeps the old snapshot until the file changes again |
| Registry.CallsWithoutReplacementChangeNothing | app/services/language_model_registry.py:115-146 | in every run, as long as a thread does not replace the file, no step of its replace calls changes the file, a snapshot or the history, however they end |
| Registry.FileIsStillDuringACall | app/services/language_model_registry.py:124-141 | in every run, while a call is on nobody else changes the file |
| Registry.OnlyReplacementsChangeTheFile | app/services/language_model_registry.py:115-146 | conflicts, failed validations and failures before the write change neither file nor snapshot |
| Registry.ServedSnapshotsAreGood | app/config.py:73-86 | every snapshot served was the file's content at some time, has unique keys and an enabled default that can be selected |
| Registry.CachedAnswersAreCurrentExactly | app/services/language_model_registry.py:96-113 | in every run, a snapshot answered from the cache is the file's content if and only if the last reload of its process was neither overtaken by different bytes nor failed behind the file |
| Registry.ReloadIsCurrentExactly | app/services/language_model_registry.py:212-216 | in every run, a reload publishes the file's content if and only if it was not overtaken by different bytes |
| Registry.ReplacementCanBeMissed | app/services/language_model_registry.py:212-216 | for any two contents there is a run of two processes after which one serves the old content as up to date |

## Left out

- Fields that no branch depends on: timestamps, titles of jobs, error texts, the page table, chat sessions deleted with a document, metrics and logs.
- Several API processes in the document protocol: one process is assumed, and the maintenance guard of an upload together with its row insert is one step, as is the check of a deletion with its row delete.
- The order in which a query lists documents and the order of jobs by creation time are parameters of the model.
- Liveness after a job that ended by exception: only safety, and what the next successful job restores, is proved.
- Database, vector and full-text search, embeddings, PDF extraction, vision captions: their results are arbitrary inputs.
- Floating-point rounding: scores are reals, and the norms of two vectors are passed in as exact square roots.
- Unicode case folding and the regular expressions: folding, marker detection and tokenization are arbitrary functions; an answer is a list of citation tokens, so text that becomes a citation only after a substitution is not covered.
- CitationText.PrintedCitationReads: one citation by itself, for page numbers that are not negative; the digits are 0 to 9 and every character beyond ASCII counts as part of a word.
- Citations.PrintedCitationsReadBack: excerpts count as plain words, also when a document's own text holds a bracketed source.
- NormalizeQueries: case folding is an arbitrary function of the query.
- Retry queries of an assessment arrive already normalized; of the text of prompts and requests only the source blocks of the context are modelled, with the evidence-quality line as a string of the chunk.
- The arguments of the fallback search of the evidence check: it is any search that returns a list of chunks. The code calls it without its required question argument, so as it stands the call raises.
- An exception from a search inside the evidence check ends the request; the model covers runs in which the searches return.
- Literal repair, channel tables, repetition detection, clarification and visual-evidence guards: arbitrary functions of the streamed answer.
- JSON: a pair of functions on the payloads of the events, of which it is assumed that payloads are printed on one line, parse back, and have no proper prefix that parses. UTF-8 decoding of fragments is not modelled.
- Independence of fragments for streams with carriage returns: a lone carriage return before a split line end is handled differently by the reader, and the endpoint never prints one.
- Independence of the visible text from delta boundaries for answers that start with the NO_SOURCE marker does not hold: a marker that arrives alone gets a default sentence. What is shown for given boundaries is stated exactly.
- A client that closes before the first message: the server's generator is then never started.
- Registry: editors that do not take the lock; the file system below one atomic replace.
- Encryption of credentials: whether they resolve is an input of each step.
- Views, polling, authentication, upload size checks, migrations, scripts and benchmarks.
