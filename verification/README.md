# Verified model of the incident analysis product

A Dafny model of the Python product under `cmd/thesis_demo`, with the Docker event collector and the evaluation runner
that stand beside it, and proofs of what these components promise. `dafny verify dfyconfig.toml` checks everything.

Code that works step by step is a method or a class whose contract equates it with a specification function; the
promises are lemmas about that function, over all inputs, all runs or all interleavings. What a specification function
yields is stated a second time, in terms of the fields of its input alone, in the modules named after meanings, origins,
rows and verdicts. Concurrent and crash-prone
parts are state machines whose steps are the program's lock blocks and transactions; the network, the clock, random
identifiers and other processes are arbitrary inputs of a step.

| part | files | what is proved |
|---|---|---|
| trace search | `TraceSearch`, `TraceCollection` | a search that returns has lost nothing and invented nothing, and one that fails says why; at most 128 requests; splitting and arrival order leave no mark after merging |
| trace merge and decoding | `TraceStore`, `TraceAccumulator`, `ProjectionMeaning`, `TraceExport`, `OtlpDecoder`, `OtlpMeaning`, `LastValues`, `Json` | acceptance and result depend on the set of projected spans alone; exactly what a projected or converted span says; decoding and re-adding an export are fixed points |
| span graph and timings | `SpanGraph`, `SpanTimings`, `IntervalUnion`, `TimingSummary`, `Sorting` | the cycle check is exact; validated lists make the descendant search finish; wait and exclusive time are cardinalities of microsecond sets |
| result cache | `OrderedStore`, `AnalysisRequests`, `RequestProtocol`, `RequestOrigins`, `Tombstones` | one computation, one joiner, same answer, never blocked; every answer and error belongs to its own key; bounded cache of complete results; exactly how long deleted results stay gone |
| evidence | `Binning`, `SeriesMeaning`, `EvidenceRegistry` | what a series says of its points; two-stage binning equals one-stage aggregation; the TTL store agrees with its call history and serves what it accepted |
| prompt encoding | `PromptContext`, `PromptLayout`, `ContextBuilder`, `ContextMeaning`, `Numerals` | what is copied, factored out and tabulated; a decoder, exactly what it gives back, and exactly when that is everything; what the builder makes always survives |
| tool workflow | `ToolWorkflow`, `RunbookCitations`, `CompletedReports` | token accounts, budgets, no repeats, batches, citations, repair, completion and stop conditions against any provider; a completed run's report is valid and can be restored |
| identities | `ReportIdentity`, `ReportMeaning`, `OutboundProjection`, `OutboundNames`, `RankingHint` | which names and which complaints; relabel, restore and relabel again is the identity on valid reports; names depend on neither order, mode nor ranking |
| event outbox | `EventOutbox`, `EventRows` | which events count, exactly which rows they add; one row per event, coverage and at-least-once delivery across crashes, progress of delivery |
| investigation queue | `InvestigationQueue`, `InvestigationVerdicts` | with which status a job ends and why; queue, pending set and event map agree; bounded; progress; one shutdown race |
| evaluation runner | `EvaluationRunner`, `EvaluationSeries` | the order of the plan, what the totals count, where outcomes come from; at most one transmission per assignment across crashes and resumes |

## What the proofs found

Where the code does less than it, its comments or its documentation suggest, the model keeps the code and the lemmas say
exactly when the promise holds.

- **Merged traces and number spelling.** The accumulator compares with Python's `==`, so `true`, `1` and `1.0` do not
  conflict and the last spelling stays. Confluence holds up to that equality (`TraceStore.Confluence`) and outright when
  no span is spelled in two ways (`TraceStore.SpelledAlike`); `TraceCollection.SpelledPayloads` is a
  pair of payloads whose two orders differ.
- **Tombstones.** A deletion is kept by a line of at most 256 tombstones. A step forgets a deletion exactly when its time
  is up, or when another result that has no tombstone yet is deleted while the line is full and this tombstone heads it
  (`Tombstones.SurvivesDeletionIff`, and over runs `Tombstones.StaysBuriedIff`); until then the result stays out of the
  cache (`Tombstones.DeletedStaysGone`). `Tombstones.CapForgets` is a run from the empty start in which a request that was
  still computing stores and serves the deleted result after 256 further deletions.
- **Refused registry puts.** A catalog that is too large is refused before the old one is removed: after a put the new
  catalog is served exactly when it fits, and otherwise the old one still is (`EvidenceRegistry.ServesNewIffFits`).
- **Series check.** A series of in-window points passes the outbound check exactly when no bin boundary falls between
  two equal timestamps (`Binning.SeriesPassesIff`); `Binning.SplitStampExample` is a list of 65 points that is refused.
  Live collection refuses two points of one series with one timestamp (`cmd/thesis_demo/live_sources.py:411-416`), so such
  a list comes only from a window that was not collected there, such as an uploaded one
  (`cmd/thesis_demo/server.py:155-200`); collected points always pass (`Binning.DistinctStampsPass`).
- **"Lossless" prompt encoding.** It is lossless exactly when every observation has both times, a time equal to the
  interval's is spelled like it, and no comparison has a field named like the reference
  (`PromptContext.LosslessIff`); an observation without times is not returned (`PromptContext.LossyExample`). Every context
  that the builder makes from a catalog satisfies the condition, so none of them is lost
  (`ContextBuilder.BuiltContextsSurvive`).
- **Batches of tool calls.** The comment promises validation of the whole batch before any call is executed; a call is
  executed as soon as it passes, exactly when the batch up to it would be admitted (`ToolWorkflow.BatchRunsIff`). That a
  rejected batch has executed nothing holds exactly for batches that are admitted or whose first call is unusable
  (`ToolWorkflow.ValidatedFirstIff`). It fails whenever two model calls and two tool calls are allowed and a first reply
  that fits every budget asks twice for one call that can be read and answered (`ToolWorkflow.RejectedBatchExecutes`). No output of a rejected batch is ever shown to the model
  (`ToolWorkflow.RejectedBatchUnseen`, `ToolWorkflow.ShownWereAdmitted`).
- **Runbook citations** are checked by identifier, not by section as the instructions ask, and only for identifiers that
  the pattern `rb-...` finds. Completed runs are guaranteed to have read every section of the corpus that they name
  exactly when the pattern finds every identifier of the corpus and no search finds one section of an identifier without
  the others (`RunbookCitations.SectionsReadIff`), for which one section an identifier is enough
  (`RunbookCitations.OneSectionEach`). Made up sections are kept out exactly when no such identifier can be searched for
  (`RunbookCitations.InventsNothingIff`). `RunbookCitations.CitesUnreadExample` is a completed run that read one section and
  cites another.
- **Event coverage.** A poll misses an event of its window exactly when the event is newer than the clock reading taken
  after the read and was not captured before (`EventOutbox.PollCoversIff`); that needs a clock that steps back within
  the poll (`EventOutbox.SteadyRunComplete`). The stored second moves on all the same (`EventOutbox.RecordedAnyway`), and `EventOutbox.EventLostExample` is a
  run of two recorded polls that loses an event although the second clock is right.
- **Shutdown race.** `close` sets its flag outside the lock: a submission that has passed the check can enqueue after
  the worker has gone, and is then stranded (`InvestigationQueue.StrandedIff`, `InvestigationQueue.StrandedExample`).

## Model

| member | source | states |
|---|---|---|
| IntervalUnion.Union | cmd/thesis_demo/trace_evidence.py:23-30 | the sweep over any interval list, in any order, with empty and reversed intervals, returns the number of microseconds that some interval covers |
| IntervalUnion.CoveredIgnoresOrder | cmd/thesis_demo/trace_evidence.py:25 | the covered set does not depend on the order of the intervals |
| SpanGraph.Walk | cmd/thesis_demo/trace_adapters.py:481-488 | one parent walk reports a cycle exactly when it runs into its own trail, and stays within the unvisited spans |
| SpanGraph.HasParentCycle | cmd/thesis_demo/trace_adapters.py:476-488 | the check over one trace reports a cycle exactly when some span is its own ancestor, and on acyclic input takes at most one inner step per span in all |
| SpanGraph.ReadIff | cmd/thesis_demo/trace_adapters.py:448-469 | a record is read exactly when its texts, its parent and its two times are well formed, and then says what they say |
| SpanGraph.ReadRefuses | cmd/thesis_demo/trace_adapters.py:449-469 | a refused record has the defect its error names |
| SpanGraph.ValidateCanonicalSpans | cmd/thesis_demo/trace_adapters.py:439-489 | accepts exactly the admissible lists, returns them unchanged, raises the cycle error exactly when all else passes and some trace has a parent cycle, and any other error for the first record that is refused, repeats an identifier or exceeds a budget |
| SpanTimings.Descend | cmd/thesis_demo/trace_evidence.py:51-67 | the stack search finishes with every strict descendant visited once and the same-service CLIENT intervals collected, or stops for a cycle through the root, or for the visit budget |
| SpanTimings.ExploredAll | cmd/thesis_demo/trace_evidence.py:54-63 | when the stack empties, the seen set is exactly the root and its strict descendants, and the root is not its own ancestor |
| SpanTimings.RepeatIsRoot | cmd/thesis_demo/trace_evidence.py:60-61 | an identifier seen twice can only be the root, on a cycle |
| SpanTimings.OverBudget | cmd/thesis_demo/trace_evidence.py:56-59 | a span still on the stack is a descendant not yet counted, so the budget stop tells the truth about the descendant count |
| TimingSummary.QuantileIsBetween | cmd/thesis_demo/trace_evidence.py:13-20 | the quantile lies between the two order statistics around its position, as far along as the position is, and is the one at it when the position is whole |
| TimingSummary.QuantileIgnoresOrder | cmd/thesis_demo/trace_evidence.py:14 | the quantile depends on the multiset of values only |
| TimingSummary.WaitPlusExclusive | cmd/thesis_demo/trace_evidence.py:65-72 | observed wait and exclusive time add up to the span's duration, and wait lies between zero and the duration |
| TimingSummary.ObservedWait | cmd/thesis_demo/trace_evidence.py:70-72 | the minimum with the duration never changes the value, and what is subtracted leaves exactly the microseconds no same-service CLIENT descendant covers |
| TimingSummary.Collect | cmd/thesis_demo/trace_evidence.py:34-40 | one pass yields the children of every span, the selected spans of every service and the known identifiers |
| TimingSummary.LocalIs | cmd/thesis_demo/trace_evidence.py:39-44 | the spans selected for a service are exactly those of its name that start in the closed window, in input order |
| TimingSummary.ServersIs | cmd/thesis_demo/trace_evidence.py:45 | the spans that are split are exactly the SERVER spans among them, in order |
| TimingSummary.OrphansCount | cmd/thesis_demo/trace_evidence.py:73 | the unresolved parents are counted once for every selected span that names an unknown parent |
| TimingSummary.SplitServers | cmd/thesis_demo/trace_evidence.py:45-72 | on a validated list the cycle error cannot occur, the budget runs out exactly when the descendant counts say so, and otherwise every SERVER span is split exactly |
| TimingSummary.SummarizeTimings | cmd/thesis_demo/trace_evidence.py:33-84 | on a validated list every service gets a summary of the durations of its SERVER spans, or of all its spans when it has none: median, 90th percentile and maximum, the medians of waiting and exclusive time unless the visits ran out, and the number of unknown parents; the last mention of a repeated service wins |
| TimingSummary.AdmittedIsSound | cmd/thesis_demo/trace_adapters.py:439-489 | whatever validation admits satisfies what the timing projection relies on |
| TimingSummary.ValidateThenSummarize | cmd/thesis_demo/server.py:163-200 | validation before projection: every admitted list is summarised without the cycle error, and exactly the admissible lists are admitted |
| TraceStore.RunSucceedsIff | cmd/thesis_demo/trace_adapters.py:56-178 | adding succeeds exactly when nothing is malformed, no two spans conflict and both span budgets hold, and then the store holds one of the spans put under each key and nothing else |
| TraceStore.RunFailsOn | cmd/thesis_demo/trace_adapters.py:161-171 | a run fails at the first operation that is malformed, in conflict with a span put before, or new and over a budget; what was stored before stays, and only the last raises the counter |
| Json.PyEqIff | cmd/thesis_demo/trace_adapters.py:162 | the equality of the merge: numbers by value, booleans among them, lists by element, objects by key, all else only with itself |
| ProjectionMeaning.ProjectIff | cmd/thesis_demo/trace_adapters.py:67-160 | exactly which spans are projected, and to what: identity, service, times, the last value of each relevant tag with the two newer names folded in, and the one parent they name |
| ProjectionMeaning.TagsIff | cmd/thesis_demo/trace_adapters.py:84-107 | tags are read exactly when each is well formed and the values of one key agree, and then the last value of each key counts |
| ProjectionMeaning.NormalizeIff | cmd/thesis_demo/trace_adapters.py:108-133 | the stable HTTP name replaces the old one and must agree with it; an OpenTelemetry status of ERROR sets the error flag, and UNSET and OK leave it |
| ProjectionMeaning.PayloadPuts | cmd/thesis_demo/trace_adapters.py:56-160 | a payload stores exactly what its spans mean, all in its own trace |
| ProjectionMeaning.PayloadReads | cmd/thesis_demo/trace_adapters.py:57-160 | a payload is malformed exactly when it is none or one of its spans means nothing |
| TraceStore.Confluence | cmd/thesis_demo/trace_adapters.py:161-172 | order, repetition and grouping do not matter: the same set of projected spans is accepted alike and leaves the same store up to Python's equality |
| TraceStore.SpelledAlike | cmd/thesis_demo/trace_adapters.py:162 | with one spelling per span the stores are equal outright |
| TraceStore.LastSpellingWins | cmd/thesis_demo/trace_adapters.py:161-171 | when a span was put in two spellings, the order of two further puts shows in the store |
| TraceCollection.SpelledPayloads | cmd/thesis_demo/trace_adapters.py:161-171 | two payloads of one span, its status written true and 1, are accepted in either order and leave different stores |
| TraceAccumulator.TraceAccumulator.Add | cmd/thesis_demo/trace_adapters.py:56-172 | adding a payload to the object is running its projected operations on the store, including what an error leaves behind |
| TraceAccumulator.TraceAccumulator.Data | cmd/thesis_demo/trace_adapters.py:174-178 | the export lists every trace and span of the store once, with the tags sorted by name |
| TraceAccumulator.ExportIsFixedPoint | cmd/thesis_demo/trace_adapters.py:56-178 | adding an export to a fresh accumulator rebuilds exactly the exported store |
| TraceExport.ProjectIsNormal | cmd/thesis_demo/trace_adapters.py:84-160 | projection yields spans in a normal form of tags and service |
| TraceExport.ProjectEmitted | cmd/thesis_demo/trace_adapters.py:67-160 | projecting an exported span gives the span back: the tag and status normalisation is idempotent |
| TraceExport.ExportedParent | cmd/thesis_demo/trace_adapters.py:155-159 | an exported span names its parent once, as a span of its own trace |
| TraceExport.ReadBack | cmd/thesis_demo/trace_adapters.py:56-178 | any export of a merged store, traces, spans and tags in any order, rebuilds that store |
| OtlpDecoder.Decode | cmd/thesis_demo/trace_adapters.py:267-436 | succeeds exactly when the payload is small enough, has an envelope and all of its spans can be merged, and then returns that merge; a late error leaves nothing |
| OtlpMeaning.ConvertIff | cmd/thesis_demo/trace_adapters.py:331-416 | exactly which spans convert, and to what: identifiers in lower case, the six kinds by number or name, whole microseconds of the given nanoseconds, and an error flag set by an error status, an error attribute or an HTTP status of 500 and above |
| OtlpMeaning.AttributesIff | cmd/thesis_demo/trace_adapters.py:217-245 | attributes are read exactly when each wanted one carries one admitted scalar and the values of one key agree, and then the last value of each key counts |
| OtlpMeaning.GroupServiceIff | cmd/thesis_demo/trace_adapters.py:308-322 | a group serves a name of at most 512 characters that is not blank, given by its resource |
| OtlpMeaning.PayloadPuts | cmd/thesis_demo/trace_adapters.py:283-416 | the spans a payload stores are exactly those that its spans mean under the service of their group |
| OtlpMeaning.PayloadReads | cmd/thesis_demo/trace_adapters.py:283-410 | a payload meets no malformed value exactly when each line is blank or wraps groups of named services whose spans all mean something |
| OtlpDecoder.ConvertIsNormal | cmd/thesis_demo/trace_adapters.py:334-416 | a converted span is already in the accumulator's normal form |
| OtlpDecoder.DecodedIsAccepted | cmd/thesis_demo/trace_adapters.py:433-436 | everything the decoder returns is accepted by a fresh accumulator and stored as the same spans |
| TraceSearch.SameWindow | cmd/thesis_demo/trace_adapters.py:256-262 | the v3 upper bound plus one microsecond asks for the same closed window as the older contract |
| TraceSearch.JaegerInterval | cmd/thesis_demo/live_sources.py:317-342 | the splitting search stops for every source, spends at least one unit of the shared budget, asks only for the window and for halves of saturated windows, and on an honest source returns all and only the traces of the closed window; it returns exactly when the budget lasts and every request was answered or split, and otherwise reports the trouble of its last request |
| TraceSearch.ChunkJoins | cmd/thesis_demo/live_sources.py:439-444 | adjoining chunks cover the joined window, shared endpoints included |
| TraceCollection.Collect | cmd/thesis_demo/live_sources.py:429-446 | at most 128 requests over all services, each for a chunk of five minutes or half of a saturated window; a collection that returns has merged exactly the traces seen in the window, and one that fails reports a bad window, the spent budget, its last request or the merge |
| TraceCollection.SplittingIsInvisible | cmd/thesis_demo/live_sources.py:433-445 | two successful collections of one window hold the same store, however they were split, saturated, rendered and ordered, when the source's replies, each of which may show a part of its trace, hold between them every piece of every matching trace |
| TraceCollection.WholeReplies | cmd/thesis_demo/live_sources.py:433-445 | a source that is honest about whole traces, each shown whole by one payload, meets that condition |
| TraceCollection.RearrangedPayloads | cmd/thesis_demo/live_sources.py:442-443 | payloads may be repeated and rearranged |
| TraceCollection.SplitPayload | cmd/thesis_demo/trace_adapters.py:63-66 | anywhere in a list of payloads, a trace may arrive whole or split into partial payloads that number their processes in their own way |
| TraceCollection.LocalProcessIds | cmd/thesis_demo/trace_adapters.py:73-80 | renumbering the process identifiers of one response does not change what its spans project to |
| OrderedStore.EvictedIsSuffix | cmd/thesis_demo/analysis_requests.py:127-132 | eviction drops the oldest entries first and leaves both bounds satisfied |
| OrderedStore.EvictedIsLongest | cmd/thesis_demo/analysis_requests.py:127-132 | eviction keeps the longest suffix that fits |
| OrderedStore.StaysIff | cmd/thesis_demo/analysis_requests.py:127-132 | an entry stays exactly when it and everything newer fit together |
| OrderedStore.NewestSurvives | cmd/thesis_demo/analysis_requests.py:122-132 | an insertion never evicts itself, unless the store may hold nothing at all |
| RequestCache.AnalysisRequests.RunEnter | cmd/thesis_demo/analysis_requests.py:53-77 | the first lock block: expire, look up, then answer, join, own or refuse |
| RequestCache.HitIff | cmd/thesis_demo/analysis_requests.py:55-61 | a request is answered from the cache exactly when it asks for no refresh and the cache holds an unexpired entry of its own key, and then with that entry's value |
| RequestCache.EnterReplies | cmd/thesis_demo/analysis_requests.py:64-77 | any other request owns a new computation when none is in flight, joins the one that is for its key and not yet joined, and is refused otherwise |
| RequestCache.EnterLeaves | cmd/thesis_demo/analysis_requests.py:55-63 | the cache keeps its unexpired entries in order, without the one a refresh replaces; the one that answers moves to the end |
| RequestCache.AnalysisRequests.RunStore | cmd/thesis_demo/analysis_requests.py:91-132 | the second lock block: only a usable, fitting, undeleted result is stored, and the oldest entries make room |
| RequestCache.AnalysisRequests.RunSettle | cmd/thesis_demo/analysis_requests.py:137-140 | the last lock block clears the pending record and wakes the joiner |
| RequestCache.AnalysisRequests.DeleteResult | cmd/thesis_demo/analysis_requests.py:24-37 | a deletion drops expired tombstones, buries the identifier, keeps the newest 256 and removes the cached result |
| RequestCache.StoreKeepsCache | cmd/thesis_demo/analysis_requests.py:119-132 | storing keeps distinct keys, both bounds, and no unusable or buried entry |
| RequestCache.DeleteKeepsCache | cmd/thesis_demo/analysis_requests.py:24-37 | so does deleting |
| RequestProtocol.RunKeeps | cmd/thesis_demo/analysis_requests.py:52-140 | the invariant of cache, flights and requests holds in every state of every interleaving |
| RequestProtocol.SingleFlight | cmd/thesis_demo/analysis_requests.py:64-77 | at most one computation is in flight and at most one request ever joins it |
| RequestProtocol.SameAnswer | cmd/thesis_demo/analysis_requests.py:79-85 | an owner and a joiner that waited to the end get the same payload or the same error |
| RequestProtocol.JoinsOwnKey | cmd/thesis_demo/analysis_requests.py:66-73 | a request joins only a computation for its own key |
| RequestOrigins.AnswersAreOwn | cmd/thesis_demo/analysis_requests.py:58-132 | in every reachable state whatever a request was answered with, from the cache, as owner or by joining, was computed by a request for the same key |
| RequestOrigins.ErrorsAreOwn | cmd/thesis_demo/analysis_requests.py:79-140 | in every reachable state whatever error a request ended with is one that a request for the same key failed with |
| RequestOrigins.CachedIsComplete | cmd/thesis_demo/analysis_requests.py:91-132 | in every reachable state nothing in the cache, or answered from it, lacks a source, a family, coverage or spans, and a result is refused by the cache exactly when it lacks something, is too large or was deleted |
| RequestProtocol.NeverBlocked | cmd/thesis_demo/analysis_requests.py:134-140 | once every owner has ended, however it ended, no request is refused as busy |
| RequestProtocol.OwnerCanMove | cmd/thesis_demo/analysis_requests.py:86-140 | an owner can always take its next step |
| RequestProtocol.OwnerProgresses | cmd/thesis_demo/analysis_requests.py:86-140 | each of its steps brings an owner nearer to its end, and the end clears the pending record |
| Tombstones.RunKeepsLine | cmd/thesis_demo/analysis_requests.py:26-32 | in every reachable state there is one tombstone for an identifier and at most 256 in all |
| Tombstones.EntombedIs | cmd/thesis_demo/analysis_requests.py:27-32 | a deletion renews a tombstone in its place or adds one at the end of the line, where a full line loses its first |
| Tombstones.SurvivesDeletionIff | cmd/thesis_demo/analysis_requests.py:27-32 | a live tombstone survives a deletion exactly when the deleted result is buried already, or there is room, or the tombstone does not head the line |
| Tombstones.StaysBuriedIff | cmd/thesis_demo/analysis_requests.py:26-32 | over any interleaving a tombstone stands throughout exactly when every step spares it |
| Tombstones.DeletedStaysGone | cmd/thesis_demo/analysis_requests.py:24-37 | while its tombstone stands, no interleaving of requests brings the deleted result into the cache |
| Tombstones.EntersIff | cmd/thesis_demo/analysis_requests.py:119-132 | a result that is not cached enters the cache exactly when an owner stores it, usable, fitting and unburied |
| Tombstones.DeletionStands | cmd/thesis_demo/analysis_requests.py:27-30 | any deletion, first or repeated, gives the tombstone its full time, at the end of the line or in its old place |
| Tombstones.FewAddedSpare | cmd/thesis_demo/analysis_requests.py:26-32 | until its time is up, and while fewer than 256 tombstones join the line behind it, every step spares a tombstone; repeated deletions do not count |
| Tombstones.CapForgets | cmd/thesis_demo/analysis_requests.py:31-32 | a run from the empty start in which the 257th live tombstone drops the first and the deleted result is stored and served |
| EvidenceRegistry.EvidenceRegistry.Make | cmd/thesis_demo/evidence_catalog.py:212-219 | the registry is refused exactly when a limit is not positive, and starts empty |
| EvidenceRegistry.EvidenceRegistry.PutCatalog | cmd/thesis_demo/evidence_catalog.py:227-236 | the put of the object is the put of the specification |
| EvidenceRegistry.EvidenceRegistry.GetCatalog | cmd/thesis_demo/evidence_catalog.py:238-242 | the lookup of the object is the lookup of the specification |
| EvidenceRegistry.EvidenceRegistry.DeleteCatalog | cmd/thesis_demo/evidence_catalog.py:244-246 | the deletion of the object is the deletion of the specification, and tells whether anything was there |
| EvidenceRegistry.RegistryAgrees | cmd/thesis_demo/evidence_catalog.py:210-246 | after any calls both bounds hold, every entry is the current put of its identifier, and entries stand oldest first |
| EvidenceRegistry.GetIsLatest | cmd/thesis_demo/evidence_catalog.py:238-242 | a lookup answers only with the last accepted, undeleted and unexpired put of that identifier |
| EvidenceRegistry.EvictionIsExact | cmd/thesis_demo/evidence_catalog.py:231-236 | a live entry survives a put exactly when it, everything put after it and the new catalog fit together |
| EvidenceRegistry.AcceptedIsServed | cmd/thesis_demo/evidence_catalog.py:227-242 | an accepted put is what its identifier is answered with until it expires |
| EvidenceRegistry.ServesNewIffFits | cmd/thesis_demo/evidence_catalog.py:228-242 | after any calls and a put, the new catalog is served exactly when it fits, and otherwise whatever was served before |
| Binning.GroupsPartition | cmd/thesis_demo/evidence_catalog.py:51-56 | grouping loses and repeats no point |
| Binning.GroupLimit | cmd/thesis_demo/evidence_catalog.py:51 | grouping under the computed width makes no more groups than allowed |
| SeriesMeaning.SeriesIs | cmd/thesis_demo/evidence_catalog.py:46-56 | a series describes the points ordered by time and value, cut into runs of the least width that makes at most 64: first and last time, lowest and highest value, mean and number of each run |
| Binning.Coarsen | cmd/thesis_demo/assistant_tools.py:25-42 | the merge yields one bin per group, at most eight by default, and fails exactly when a group has no samples |
| Binning.TwoStages | cmd/thesis_demo/assistant_tools.py:25-42 | each coarse bin of a series is the summary, with count, extremes, ends and mean, of consecutive raw points, and together they are all points |
| Binning.IntervalIsExact | cmd/thesis_demo/assistant_tools.py:311-347 | an interval check merges exactly the stored bins all of whose points lie inside the interval |
| Binning.CheckSeries | cmd/thesis_demo/assistant_privacy.py:133-164 | the outbound check accepts exactly the ordered, in-range, sane series of at most 64 bins |
| Binning.SeriesPassesIff | cmd/thesis_demo/assistant_privacy.py:150-162 | a series of in-window points passes exactly when no bin boundary splits a timestamp |
| Binning.SplitStampExample | cmd/thesis_demo/assistant_privacy.py:150-162 | a list of 65 in-window points, two of them with one timestamp, whose series is refused |
| Binning.OneStampFails | cmd/thesis_demo/assistant_privacy.py:150-162 | more than 64 points of one timestamp are always refused |
| Binning.DistinctStampsPass | cmd/thesis_demo/evidence_catalog.py:46-56 | with distinct timestamps the series always passes |
| Numerals.LengthThenTextOrders | tools/docker_context_collector.py:144 | ordering stamps by length and then text is ordering them as numbers |
| PromptContext.CompactContext | cmd/thesis_demo/assistant_context.py:186-268 | the three in-place passes compute the factored context of the specification |
| PromptLayout.ContextsLayout | cmd/thesis_demo/assistant_context.py:207-218 | the factored contexts are the distinct shared parts of the comparisons, numbered from one in order of first use |
| PromptLayout.ColumnsLayout | cmd/thesis_demo/assistant_context.py:219-240 | comparisons become rows exactly when there are some and all have the same fields, and then under these in ascending order |
| PromptLayout.TablesLayout | cmd/thesis_demo/assistant_context.py:241-259 | there is one table for each shape of observations, with ascending columns and rows as wide as they are, and the tables stand in order of kind and columns |
| PromptContext.ExpandCompacted | cmd/thesis_demo/assistant_context.py:259-268 | decoding gives back the interval and, in some order, exactly the returned form of every observation |
| PromptContext.ReturnedIff | cmd/thesis_demo/assistant_context.py:200-215 | an observation comes back unchanged exactly when it is restorable |
| PromptContext.SortedExpansion | cmd/thesis_demo/assistant_context.py:140 | decoding and sorting by service, kind and identifier gives the returned observations in their original order |
| PromptContext.LosslessIff | cmd/thesis_demo/assistant_context.py:186-191 | the encoding is lossless exactly when every observation is restorable |
| PromptContext.LossyExample | cmd/thesis_demo/assistant_context.py:200-206 | a context whose observation has no times of its own is not returned |
| PromptContext.LosslessAsMultiset | cmd/thesis_demo/assistant_context.py:186-191 | without any order, restorable observations come back as the same multiset |
| ContextBuilder.BuiltInOrder | cmd/thesis_demo/assistant_context.py:20-140 | from a catalog with unique identifiers the builder makes an ascending list with distinct keys of allowlisted copies |
| ContextMeaning.CleanIff | cmd/thesis_demo/assistant_context.py:20-122 | what the copy of an observation holds, kind by kind: its names and times and the allowlisted values; only an incident context may be left out |
| ContextMeaning.MetricIff | cmd/thesis_demo/assistant_context.py:27-75 | a metric is copied with its allowlisted values, its comparison and its bins; a supplemental HTTP family must state its unit, statistic and lookback and that it is no model input |
| ContextMeaning.TraceIff | cmd/thesis_demo/assistant_context.py:76-106 | a trace observation is copied with its allowlisted values, examples and timing |
| ContextMeaning.DependencyIff | cmd/thesis_demo/assistant_context.py:107-114 | a dependency observation is copied with its allowlisted values and edges |
| ContextMeaning.BuildIs | cmd/thesis_demo/assistant_context.py:20-140 | the builder succeeds exactly when every observation can be copied, and puts the copies in order of service, kind and identifier, ties in source order |
| ContextBuilder.BuiltContextsSurvive | cmd/thesis_demo/assistant_context.py:20-140 | every context built from a catalog survives encoding, decoding and sorting unchanged |
| ToolWorkflow.RunWithTools | cmd/thesis_demo/assistant_workflow.py:146-348 | the loop computes the run of the specification for every sequence of provider, clock and cancel behaviour |
| ToolWorkflow.RunIsBounded | cmd/thesis_demo/assistant_workflow.py:146-216 | call, tool and step limits hold, and every request sent fits the input budget together with the input tokens of all replies before it and offers tools exactly when the rules allow |
| ToolWorkflow.RunIsBooked | cmd/thesis_demo/assistant_workflow.py:206-240 | the counters are sums over the requests sent: input and output tokens of the replies that state them, the number of the others, and the reservations |
| ToolWorkflow.AskOutcome | cmd/thesis_demo/assistant_workflow.py:147-249 | how a turn ends before its reply is looked at: interruption, input budget, provider failure, unstated usage, interruption again, token budgets, in that order |
| ToolWorkflow.WithheldIff | cmd/thesis_demo/assistant_workflow.py:150-186 | tools are withheld exactly on the last call, at a tool limit, after a repair, in a tight follow-up, or when another planning turn would not leave room for the report |
| ToolWorkflow.BatchOutcome | cmd/thesis_demo/assistant_workflow.py:250-317 | what a reply with calls leads to: the name of each refusal, or items and outputs added to the history up to an interruption |
| ToolWorkflow.FaultIs | cmd/thesis_demo/assistant_workflow.py:259-281 | a batch ends with the fault of its first call that is not executed: unreadable, repeated or unanswerable, in that order |
| ToolWorkflow.ReportOutcome | cmd/thesis_demo/assistant_workflow.py:319-347 | an accepted report completes the run; the first rejected one is answered with its complaint, the second ends the run |
| ToolWorkflow.BatchAdmittedIff | cmd/thesis_demo/assistant_workflow.py:258-284 | a batch is admitted exactly when all of its calls are readable, answerable, fresh and unrepeated |
| ToolWorkflow.BatchRunsIff | cmd/thesis_demo/assistant_workflow.py:255-284 | a call of a batch is executed exactly when the batch up to and including it would be admitted |
| ToolWorkflow.ValidatedFirstIff | cmd/thesis_demo/assistant_workflow.py:255-276 | that a rejected batch has executed nothing holds exactly for batches that are admitted or whose first call is unusable |
| ToolWorkflow.RejectedBatchExecutes | cmd/thesis_demo/assistant_workflow.py:255-276 | with two model calls and two tool calls allowed, a first reply without cost that asks twice for one readable and answerable call stops the run with the call executed and unseen |
| ToolWorkflow.RejectedBatchUnseen | cmd/thesis_demo/assistant_workflow.py:255-310 | a rejected batch ends the run and adds nothing to the history |
| ToolWorkflow.ShownWereAdmitted | cmd/thesis_demo/assistant_workflow.py:255-310 | every call whose output the model sees came in a batch that was admitted as a whole |
| ToolWorkflow.RunNeverRepeats | cmd/thesis_demo/assistant_workflow.py:250-317 | no call identifier and no request is executed twice, and the history shows exactly the outputs of the shown calls, a part of the executed ones |
| ToolWorkflow.NoToolsAfterRepair | cmd/thesis_demo/assistant_workflow.py:150-155 | after a repair was asked for, no tool is executed and nothing joins the history |
| ToolWorkflow.CompletedIsSound | cmd/thesis_demo/assistant_workflow.py:319-347 | a completed run has an accepted report read from its last reply; all of its replies state their usage, whose sums are within both token limits; and it cites only runbooks an executed search returned |
| RunbookCitations.SectionsReadIff | cmd/thesis_demo/assistant_workflow.py:298-323 | when the reader finds what the citation pattern finds, every completed run has read every section of the corpus it names exactly when the pattern finds all identifiers and no search finds one section of an identifier without the others |
| RunbookCitations.InventsNothingIff | cmd/thesis_demo/assistant_workflow.py:321-323 | no completed run cites a section it has not read, made up ones included, exactly when no identifier that the pattern finds can be searched for |
| RunbookCitations.MatchAt | cmd/thesis_demo/assistant_tools.py:273-284 | a search refers to the first three sections of its topic in the order of the corpus, by identifier, version, section and digest of the text |
| RunbookCitations.RunConsults | cmd/thesis_demo/assistant_workflow.py:298-302 | what a run has consulted is what its shown searches match, each once, in order of first occurrence |
| RunbookCitations.SpottedIff | cmd/thesis_demo/assistant_workflow.py:321 | the identifiers the citation pattern finds whole: the prefix, word characters and hyphens, a word character last |
| RunbookCitations.OneSectionEach | cmd/thesis_demo/assistant_workflow.py:298-323 | with one section an identifier, every completed run has read every section of the corpus it names |
| RunbookCitations.TwoTopicsCiteUnread | cmd/thesis_demo/assistant_tools.py:99-122 | two sections of one identifier under two topics: a completed run reads the one and cites the other |
| RunbookCitations.CitesUnreadExample | cmd/thesis_demo/assistant_workflow.py:321-323 | such a run, in full |
| ToolWorkflow.BudgetStopIff | cmd/thesis_demo/assistant_workflow.py:324-348 | the run ends for lack of model calls exactly when the first rejected report answered the last allowed call |
| CompletedReports.CompletedIsValid | cmd/thesis_demo/assistant_workflow.py:319-347 | with the report check as reader, a completed run's report is valid for the services and observations it was checked against |
| CompletedReports.CompletedIsRestored | cmd/thesis_demo/investigations.py:24-81 | on outbound names, a completed run's report can be restored, is valid for the snapshot's own names and relabels to the same report |
| ReportIdentity.ValidateIff | cmd/thesis_demo/assistant_contract.py:200-280 | the check, complaint by complaint in its order, passes exactly the valid reports |
| ReportMeaning.ValidateIsFirst | cmd/thesis_demo/assistant_contract.py:200-280 | the complaint about a report is the first of all demands it fails, in the order of the report |
| ReportMeaning.RelabelIff | cmd/thesis_demo/investigations.py:24-47 | relabelling gives exactly the same report with every name replaced in its place |
| ReportIdentity.RelabelKeepsValid | cmd/thesis_demo/investigations.py:24-47 | a valid report can be relabelled under injective maps and stays valid for the new names |
| ReportIdentity.RelabelBack | cmd/thesis_demo/investigations.py:50-81 | relabelling with the reversed maps and then with the maps gives the same report |
| OutboundProjection.ProjectAll | cmd/thesis_demo/assistant_privacy.py:84-248 | the naming loop computes the walk of the specification, stopping at the first refusal |
| OutboundProjection.WalkIff | cmd/thesis_demo/assistant_privacy.py:89-96 | it succeeds exactly when no identity and no identifier repeats, every service is known and every value can be projected |
| OutboundNames.PrepareIff | cmd/thesis_demo/assistant_privacy.py:51-96 | a snapshot is projected exactly when it has one to a hundred distinct services, no identity and no identifier twice, and only projectable facts of known services |
| OutboundNames.ServiceNumber | cmd/thesis_demo/assistant_privacy.py:53 | a service is numbered one more than there are services with a smaller name |
| OutboundNames.ObservationNumber | cmd/thesis_demo/assistant_privacy.py:85-96 | an observation is numbered one more than there are facts before it by service, kind and family, and goes out under that number with its kind, new service name and projected values |
| OutboundProjection.MapsAreExact | cmd/thesis_demo/assistant_privacy.py:52-96 | both maps are injective and name exactly the services and the facts handed to the projection |
| OutboundProjection.CatalogNames | cmd/thesis_demo/assistant_privacy.py:53-54 | the names in the outbound catalog are exactly the values of the maps |
| OutboundProjection.OrderIrrelevant | cmd/thesis_demo/assistant_privacy.py:84-88 | the order in which services and observations are stored does not matter |
| OutboundProjection.ModeIrrelevant | cmd/thesis_demo/assistant_privacy.py:259-266 | brief and detailed projections of one snapshot use the same names |
| RankingHint.RankingIrrelevant | cmd/thesis_demo/assistant_privacy.py:41-53 | a ranking can only be refused: names and facts are those of the projection without it |
| RankingHint.RankingOkIff | cmd/thesis_demo/assistant_context.py:163-178 | a ranking is accepted exactly when it has a row for every service and none else, rank and score in every row, and every rank from one on |
| RankingHint.HintIsRanking | cmd/thesis_demo/assistant_privacy.py:250-258 | the hint lists every service once in order of rank under its neutral name, and reads back as the ranking |
| RankingHint.HintIgnoresOrder | cmd/thesis_demo/assistant_context.py:163-182 | the order of the ranking's rows does not matter |
| OutboundProjection.RestoreRoundTrip | cmd/thesis_demo/investigations.py:24-70 | a report valid for the outbound catalog is restored with every name found, is valid for the real names, and relabels to the very same report |
| OutboundProjection.PreviousDiscussion | cmd/thesis_demo/investigations.py:50-81 | the last two completed turns go out relabelled and revalidated; a lookup or check that fails ends it |
| OutboundProjection.DiscussionIsVerbatim | cmd/thesis_demo/investigations.py:50-81 | a follow-up repeats every earlier report exactly as the provider wrote it |
| EventOutbox.Collector.SaveBatch | tools/docker_context_collector.py:64-126 | one transaction saves the whole batch or, when the ledger overflows, nothing |
| EventOutbox.Collector.Poll | tools/docker_context_collector.py:128-141 | read, save, advance: the stored second moves only after the batch was saved |
| EventOutbox.Collector.Flush | tools/docker_context_collector.py:143-158 | the batch is marked only after the log store has answered |
| EventOutbox.CaptureFailsIff | tools/docker_context_collector.py:124-125 | a batch fails exactly when all of it would not fit |
| EventOutbox.ReplayChangesNothing | tools/docker_context_collector.py:82-84 | replaying captured events, all or some, changes nothing |
| EventOutbox.CapturedOnce | tools/docker_context_collector.py:82-122 | a captured event has exactly one base row, which names its instance and stamp and is called exit for die, oom, start, restart, or health_change for a health status |
| EventRows.CapturedIff | tools/docker_context_collector.py:67-84 | an event leaves a trace exactly when it is a container event of the installed scope with a listed action, its stamp is reached and no row has its digest |
| EventRows.CaptureOneAdds | tools/docker_context_collector.py:85-123 | a captured event adds its own row, a deployment row exactly when a usable inspected start shows another image than the compared instance, a configuration_change row exactly when it shows another memory limit, and each holds the event's fields |
| EventRows.InstancesAfter | tools/docker_context_collector.py:91-117 | a death marks its instance, a compared start registers its own and drops the one stopped instance it replaces, and nothing else changes |
| EventRows.RowsAreWritten | tools/docker_context_collector.py:64-126 | every row of every run was added, as described, by an event of a saved reply |
| EventRows.DeliveredWasAccepted | tools/docker_context_collector.py:143-158 | whatever is marked delivered was in a push that the log store accepted |
| EventOutbox.PollCoversIff | tools/docker_context_collector.py:76-78 | after an honest poll its window is covered exactly when no event of it is both newer than the observation clock and not captured before |
| EventOutbox.RecordedAnyway | tools/docker_context_collector.py:128-141 | a recorded poll advances the stored second whether or not it has covered its window |
| EventOutbox.EventLostExample | tools/docker_context_collector.py:76-141 | a run of two recorded honest polls that leaves an event of the recorded window without a row |
| EventOutbox.RunSafe | tools/docker_context_collector.py:64-158 | across polls, pushes and crashes rows stay unique and truthful, the ledger stays within its limit, and a row is delivered only after it was pushed |
| EventOutbox.RunKeeps | tools/docker_context_collector.py:64-158 | no row is ever removed or rewritten, apart from being marked delivered |
| EventOutbox.RunComplete | tools/docker_context_collector.py:128-141 | when the clock read after each reply catches its window, every relevant event from the start of the first recorded poll to the stored second has its row |
| EventOutbox.SteadyRunComplete | tools/docker_context_collector.py:128-141 | so it has when the clock never steps back within a poll |
| EventOutbox.FlushesDrain | tools/docker_context_collector.py:143-158 | each answered push takes a hundred rows off what waits, until nothing does |
| EventOutbox.PushesDeliverAll | tools/docker_context_collector.py:143-158 | from any idle state, answered pushes without a poll between them deliver everything, a hundred pushes at most, and lose no row |
| EventOutbox.BatchIsEarliest | tools/docker_context_collector.py:144 | a push takes undelivered rows and leaves none behind that is older than one it takes |
| EventOutbox.PollIsThreeSteps | tools/docker_context_collector.py:128-141 | an undisturbed poll is the three crash-prone steps in a row |
| InvestigationQueue.AlwaysInv | cmd/thesis_demo/investigations.py:187-399 | the invariant of queue, pending set, event map, stored states and worker holds in every reachable state |
| InvestigationQueue.QueueNeverOverflows | cmd/thesis_demo/investigations.py:200-209 | the queue and the worker's hand are the pending set without duplicates, events exist for exactly the pending jobs, at most two are pending, and enqueueing always finds room |
| InvestigationQueue.AcceptedLeavesOnce | cmd/thesis_demo/investigations.py:387-391 | an accepted job is pending or has left, never both, leaves once, and never reaches the runner if it was cancelled before the worker took it |
| InvestigationQueue.NotPendingIsFinal | cmd/thesis_demo/investigations.py:361-391 | a stored job that is not pending is in a final state |
| InvestigationVerdicts.FinalIsDecided | cmd/thesis_demo/investigations.py:361-386 | every stored final status was decided by a step of the worker on that job and has stood since: failed where it met a failure, and otherwise the status it arrived with |
| InvestigationVerdicts.WorkerArrived | cmd/thesis_demo/investigations.py:274-366 | the status it arrives with: cancelled when the event was set at one of the two looks, completed for deterministic checks, and otherwise the runner's |
| InvestigationVerdicts.StateMoves | cmd/thesis_demo/investigations.py:187-391 | a stored state changes exactly as a table of steps says |
| InvestigationVerdicts.GoneIff | cmd/thesis_demo/investigations.py:250-256 | a job leaves the store exactly when its snapshot is deleted |
| InvestigationVerdicts.JobsAreSubmitted | cmd/thesis_demo/investigations.py:187-235 | every stored job belongs to the snapshot it was submitted for |
| InvestigationQueue.WorkerDrains | cmd/thesis_demo/investigations.py:258-391 | whatever failures it meets, the living worker empties the pending set in a bounded number of its own steps |
| InvestigationQueue.ExitIsClean | cmd/thesis_demo/investigations.py:260 | the worker goes only after shutdown and with nothing pending |
| InvestigationQueue.StrandedIff | cmd/thesis_demo/investigations.py:393-400 | after the exit a job is stranded exactly when a submission had passed the closed check before and enqueues afterwards |
| InvestigationQueue.StrandedExample | cmd/thesis_demo/investigations.py:192-209 | that race is reachable |
| InvestigationQueue.InvestigationService.Enqueue | cmd/thesis_demo/investigations.py:200-210 | the enqueueing block accepts exactly when fewer than two jobs are pending and this one is not |
| InvestigationQueue.InvestigationService.Cancel | cmd/thesis_demo/investigations.py:237-248 | the cancel block sets the event of a pending job and moves its stored state |
| InvestigationQueue.InvestigationService.DeleteSnapshot | cmd/thesis_demo/investigations.py:250-256 | the delete block sets the events of exactly the snapshot's pending jobs |
| InvestigationQueue.InvestigationService.Take | cmd/thesis_demo/investigations.py:275-282 | the worker's first block finds the stored job and moves it from queued to running |
| InvestigationQueue.InvestigationService.Finish | cmd/thesis_demo/investigations.py:387-390 | the worker's last block takes the job out of the pending set and the event map |
| EvaluationRunner.PlanIsExact | scripts/evaluate_assistant_cases.py:222-228 | the rotated plan assigns every case, repetition and mode exactly once |
| EvaluationSeries.PlanAt | scripts/evaluate_assistant_cases.py:222-228 | case after case and repetition after repetition, the order of the modes starting one further each time |
| EvaluationRunner.NamesApart | scripts/evaluate_assistant_cases.py:95-96 | different assignments have different receipt names, and a started receipt is never taken for a result |
| EvaluationRunner.LoadCompleted | scripts/evaluate_assistant_cases.py:86-121 | the resume loop computes the reading of the specification, stopping at the first refusal |
| EvaluationRunner.LoadIff | scripts/evaluate_assistant_cases.py:92-121 | a series can be read back exactly when nothing was left half done, and then exactly the complete receipts are counted and their outcomes folded |
| EvaluationSeries.ReadableIff | scripts/evaluate_assistant_cases.py:92-121 | any directory can be read back exactly when complete receipts stand for a prefix of the plan and nothing for the rest |
| EvaluationSeries.RefusalIsTrue | scripts/evaluate_assistant_cases.py:99-113 | a refusal is about the first assignment whose receipts are not in order, and true of it |
| EvaluationSeries.SumIs | scripts/evaluate_assistant_cases.py:114-120 | the totals: how many outcomes, how many of them not completed, and the sums of their counters |
| EvaluationRunner.AtMostOnce | scripts/evaluate_assistant_cases.py:242-373 | over any launches, crashes, torn writes and resumes no attempt is transmitted twice |
| EvaluationRunner.CompleteReceiptsFormAPrefix | scripts/evaluate_assistant_cases.py:274-353 | complete receipts form a prefix of the plan, and a running session's totals are the fold of their outcomes |
| EvaluationSeries.OutcomesAreReported | scripts/evaluate_assistant_cases.py:296-340 | every outcome that counts is what the worker reported for that assignment, or the costless failure of an input that was not collected |
| EvaluationSeries.GoesOnIff | scripts/evaluate_assistant_cases.py:341-373 | after a result the session goes on exactly while the unknown attempts of the whole series are below the limit and the outcome's code does not end it |
| EvaluationRunner.ResumableIff | scripts/evaluate_assistant_cases.py:252-256 | a stopped series can be resumed exactly when it stopped between assignments and below the unknown limit |
| EvaluationRunner.StuckForGood | scripts/evaluate_assistant_cases.py:99-101 | a series left with a started-only or unreadable assignment is refused for good and sends nothing again |

## Left out

- TimingSummary.SummarizeTimings: says what the summaries mean for lists that validation admits; for other lists only that it ends.
- SpanGraph.ValidateCanonicalSpans: times are whole microseconds; the floats the validator also lets through are not modelled.
- EventOutbox.PollCoversIff: assumes the daemon's reply holds every event of the window; its 256-entry backlog is what the program itself reports as unknown coverage.
- EventOutbox.RunComplete: the same assumption on every reply, and that each clock reading catches its window; `PollCoversIff` says what happens otherwise.
- ContextBuilder.BuiltContextsSurvive: the projection of incident contexts and the rest of the context are parameters; a comparison is a record or nothing, as the catalog makes it.
- RunbookCitations.SectionsReadIff: how a report's prose names a section is left to the reader; an identifier counts as found where the pattern finds it whole.
- CompletedReports.CompletedIsValid: JSON parsing and the pattern search are parameters of the reader.
- InvestigationQueue.NotPendingIsFinal: the store's compare-and-set is assumed to work; a second storage failure while recording a failure is not modelled.
- ToolWorkflow.RunWithTools: input estimates are arbitrary numbers, and what a report cites is whatever reading it finds.
- ReportIdentity.ValidateIff: reports are typed; the checks that a field is a string, a list or present at all belong to JSON parsing.
- OutboundProjection.ProjectAll: the projected values of a fact are one parameter; only the series check of that part is modelled, in `Binning`.
- PromptContext.CompactContext: the four keys the encoding adds are fields of their own, so a context that already holds one of them is not modelled; the builder makes none.
- EvidenceRegistry.RegistryAgrees: limits are natural numbers; the constructor's refusal of non-positive ones is a plain check.
- Arithmetic is on integers and exact reals; rounding of Python floats is not modelled.
- Digits and white space are the ASCII ones where Python also knows Unicode ones (`isdigit`, `isdecimal`, `strip`).
- SHA-256 digests of different inputs differ in some place; identifiers from random sources are fresh names.
- Symbolic links among the receipts, refused by the runner's resume.
- JSON text, HTTP, OAuth, sockets, file locks, process spawning and worker processes: only what they guarantee, as a step that succeeds, fails or is cut short.
- Free-text rewriting in questions, prompt texts, token estimation and the report's JSON schema.
- `canonicalize_jaeger`, `rca_ml` and the workspace store are not part of this model; the store appears as compare-and-set on stored states.
- Metrics collection, baselines, profiles, the HTTP server, the user interface and the Go programs: single checks and glue.
