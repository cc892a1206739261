# Agent search gateway: verified model

This project models the parts of the agent search gateway whose correctness depends on whole runs, and
proves what they promise. `dafny verify dfyconfig.toml` checks everything.

- **Paper identity resolution** (`Identity`, `Clustering`, `PaperClusters`, `Merging`, `Aggregation`,
  `Recency`, `Priority`, over `Ordering`): candidates are sorted, attached one at a time to clusters through rebuilt
  indexes, and merged into records. The class `PaperClusters` deletes from and appends to its list in
  place; the loops that build indexes, topics and counts are methods. All are proved equal to
  specification functions, about which the theorems are.
- **The URL-fetch protocol** (`Capacity`, `KeyedLocks`, `Singleflight`, `UrlStore`, `FetchScheduler`,
  `FetchProtocol`, `FetchRequests`, `SchedulerLeases`, `Search`): each shared object is a class whose methods
  are the guarded bodies, and a step system over every interleaving of tasks. `FetchProtocol` composes the lock pool, the
  store and the workflow's program counters (its class `FetchOrchestrator` holds the code between two
  awaits); `FetchRequests` puts the singleflight group on top, and `SchedulerLeases` puts a scheduler run
  among the other users of the capacity gates.
- **The wire protocol** (`Utf8`, `Json`, `JsonGrammar`, `WireProtocol`, `NdjsonDecoder`): strings with lone
  surrogates, UTF-8, JSON as Python reads and writes it (escaping as section 7 of RFC 8259 requires), proved
  to accept exactly a grammar given as trees, payloads, and the streaming decoder, proved against the meaning
  of its whole input stream.
- **Shutdown** (`Shutdown`): admission, snapshot, grace period, cancellation, one close, then the reply.
- **Retries** (`Retry`) and **abstract reconstruction** (`Abstracts`).

A step system is a state, an `Action` datatype and a total `Step`; an action that is not possible leaves
the state unchanged, so that a theorem about all lists of actions covers every interleaving. One action is
what a task does between two awaits that can suspend it; a body guarded by one of the gateway's own locks
awaits nothing that suspends, so it is one action.

## Where the code does less than one might expect

- *Two papers that match bibliographically may stay apart.* Weak evidence is consulted only when no strong
  reference exists at that moment, so a repeated source id can hide a match. `Clustering.WeakMatchTogetherIff`
  says of every run exactly when a match ends in one cluster; `Clustering.WeakMatchCanStaySplit` gives a
  failing family of candidates and `Aggregation.SplitWeakMatchExists` three hits for which it happens.
- *A repeated hit of one source id replaces the fields of the earlier one.* Merging prefers lower ranks,
  but attaching puts the newest candidate first and the final sort is stable, so between hits of one source
  and id the one discovered last supplies a field (`Recency.DuplicatesYieldLatest`). For two hits this is
  `Recency.SecondHitSupplies`, and `Recency.LaterAbstractReplaces` a case of it.
- *A configured source can rank behind sources that are not configured.* Ranks are places in the list, but the
  ranks of unlisted sources count different names only, and the runtime lists a provider once for each model
  it is configured with. `Priority.ListedRanksFirstIff` says exactly when a listed source still comes first,
  and `Priority.RepeatedNamesBuryOne` is a list in which one does not; when no name stands that far behind
  (`Compact`), `Priority.RanksFollowList` and `Priority.RecordsFollowList` say that the list decides.
- *Shutdown waits for connections, not for workflows.* A client that keeps its connection open after its
  answer is waited for until the grace period ends and is then cancelled. `Shutdown.CancelledIff` with
  `Shutdown.SnapshotIff` says exactly who is cancelled in every run, `Shutdown.NobodyCancelledIff` exactly
  when nobody is, `Shutdown.LeftAlone` what a client can do about it, and
  `Shutdown.IdleConnectionIsCancelled` is a run in which it happens.
- *An abort of the shutdown coordinator before its first step leaves shutdown requests unanswered*, because
  a task cancelled before it starts never reaches its `finally`. `Shutdown.AnswersLockedIff` says that this
  is exactly when they stay unanswered once the coordinator is over, `Shutdown.LockedForGood` that no
  continuation answers them, and `Shutdown.UnansweredRequest` is such a run.
- *A fetch that marks a URL unavailable while a search runs can change the search's rows.* A hit for a URL
  known to be unavailable skips the judge. Nothing else a search reads of the store matters, and searches
  never mark, so rows do not depend on the order in which pipelines or searches complete
  (`Search.StagingsIgnoreSearches`, `Search.SearchIgnoresCompletionOrder`). With fetches running,
  `Search.StagingDiffersIff` and `Search.StagingsDifferIff` say exactly when a fetch's mark changes a
  staging, `Search.MarkChangesRow` gives a family of hits for which it does, and `Search.RowsIgnoreKnown`
  says that only bodies change when no judge fails.

## Model

| member | source | states |
|---|---|---|
| Identity.FingerprintsMatchMeaning | src/agent_search_gateway/academic/normalization.py:201-231 | two candidates match bibliographically exactly when both have a folded title and a year, these agree, and some non-blank author occurs in both |
| Clustering.AttachConserves | src/agent_search_gateway/academic/aggregator.py:275-320 | an attach step keeps the multiset of clustered candidates, plus the new one exactly when it is accepted |
| Clustering.AttachKeepsWellClustered | src/agent_search_gateway/academic/aggregator.py:275-320 | every attach step keeps clusters nonempty, with at most one DOI and one arXiv id, connected by links, and with no DOI, arXiv id or source key in two clusters |
| Clustering.RejectedIff | src/agent_search_gateway/academic/aggregator.py:350-357 | a candidate is rejected exactly when two members it would bring together carry different DOIs or different arXiv ids |
| Clustering.IdlessAlwaysAccepted | src/agent_search_gateway/academic/aggregator.py:285-304 | a candidate with neither DOI nor arXiv id is never rejected |
| Clustering.AttachKeepsTogether | src/agent_search_gateway/academic/aggregator.py:309-314 | candidates that share a cluster keep sharing one when more are attached |
| Clustering.WeakMatchJoinsIff | src/agent_search_gateway/academic/aggregator.py:285-300 | exactly when a bibliographic match brings an accepted candidate into the cluster of its match |
| Clustering.WeakMatchCanStaySplit | src/agent_search_gateway/academic/aggregator.py:285-300 | for a whole family of inputs, two accepted weakly matching candidates end in different clusters |
| Clustering.WeakMatchTogetherIff | src/agent_search_gateway/academic/aggregator.py:275-320 | in a whole run, an accepted candidate ends in the cluster of an earlier bibliographic match exactly when the guard of the weak branch held at its step, the cluster shared an identifier with it, or a later candidate bridged the two clusters |
| Aggregation.SplitWeakMatchExists | src/agent_search_gateway/academic/aggregator.py:103-121 | three hits, processed in that order, of which two match weakly, are accepted and end in different clusters |
| Clustering.ResolveConserves | src/agent_search_gateway/academic/aggregator.py:103-109 | over a run, the clusters hold exactly the accepted candidates, and accepted and rejected ones are exactly those processed, as multisets |
| Clustering.ResolveWellClustered | src/agent_search_gateway/academic/aggregator.py:103-109 | the final clusters are a conflict-free partition |
| Clustering.ResolveTiesHold | src/agent_search_gateway/academic/aggregator.py:285-300 | every weak link a run relied on joins two candidates without DOI and arXiv id that match, in one final cluster |
| Clustering.ClustersAreComponents | src/agent_search_gateway/academic/aggregator.py:103-109 | two accepted candidates share a final cluster if and only if a chain of shared identities and relied-on weak links joins them |
| PaperClusters.StrongIndexes | src/agent_search_gateway/academic/aggregator.py:322-336 | each index maps a key to the last cluster that holds it and has no other keys |
| PaperClusters.WeakIndex | src/agent_search_gateway/academic/aggregator.py:338-348 | the weak index lists a cluster under a title and year exactly when it has no global id and a member with that fingerprint |
| PaperClusters.IndexesAgreeWithSearch | src/agent_search_gateway/academic/aggregator.py:276-283 | looking a candidate up in the indexes finds exactly the clusters a linear search for a shared identity finds |
| PaperClusters.FindReferences | src/agent_search_gateway/academic/aggregator.py:276-300 | the references computed through the indexes are those of the specification |
| PaperClusters.FindWeakReferences | src/agent_search_gateway/academic/aggregator.py:286-300 | the clusters found through the weak index are exactly those that match weakly |
| PaperClusters.StrongConflict | src/agent_search_gateway/academic/aggregator.py:350-357 | the growing-set check finds exactly the conflicts of the specification |
| PaperClusters.PaperClusters.AttachCandidate | src/agent_search_gateway/academic/aggregator.py:275-320 | the in-place deletion and appending computes the specified clusters, rejects exactly what it should, and keeps the list the result of all candidates processed |
| PaperClusters.PaperClusters.DeleteAll | src/agent_search_gateway/academic/aggregator.py:312-313 | deleting the referenced positions from the back leaves the other clusters in their order |
| Merging.CollectTopics | src/agent_search_gateway/academic/aggregator.py:443-453 | the topic loop computes the specified topics |
| Merging.CollectCitationCounts | src/agent_search_gateway/academic/aggregator.py:455-464 | the counting loop computes the specified counts |
| Merging.MergedFields | src/agent_search_gateway/academic/aggregator.py:359-421 | every scalar field of a record is the value held by the precedence-least member that has the field |
| Merging.GeneratedNeverOverrides | src/agent_search_gateway/academic/aggregator.py:359-421 | every scalar field of the record that an academic member of the cluster has is the field of an academic member; so are title and URL when there is one |
| Merging.MergedIdentifiers | src/agent_search_gateway/academic/aggregator.py:423-441 | in a conflict-free cluster the record carries the one DOI and arXiv id, and for each native source an id of a member of that source, if and only if there is one |
| Merging.MergedCollections | src/agent_search_gateway/academic/aggregator.py:443-468 | citation counts are per-source maxima; `sources` is the first of each source and `topics` the first of each folded form, in the order in which the members, by precedence, bring them |
| Merging.SourcesOnce | src/agent_search_gateway/academic/aggregator.py:466-468 | `sources` holds every source once, in the order in which the candidates bring them |
| Merging.StableTopicsKeep | src/agent_search_gateway/academic/aggregator.py:443-453 | of the topics of all candidates, in their order, exactly the first with each folded form is kept, with its own spelling |
| Merging.CitationCountsAreMaxima | src/agent_search_gateway/academic/aggregator.py:455-464 | a source has a count exactly when a member of it has one, and it is the greatest |
| Aggregation.PaperAggregator.NormalizeHits | src/agent_search_gateway/academic/aggregator.py:111-121 | the dictionary of positions gives every hit the number of earlier hits of its source |
| Aggregation.PaperAggregator.constructor | src/agent_search_gateway/academic/aggregator.py:96-101 | a name's priority is its last place in the configured list; blank names have none |
| Aggregation.NormalizeMeaning | src/agent_search_gateway/academic/aggregator.py:123-201 | a hit is used exactly when nothing in it is missing, malformed or contradictory; a used hit keeps its fields, and a crossref or arXiv record always has its id as DOI or arXiv id |
| Aggregation.PaperAggregator.Aggregate | src/agent_search_gateway/academic/aggregator.py:103-109 | the imperative pipeline computes the specified records |
| Aggregation.NormalizePerSource | src/agent_search_gateway/academic/aggregator.py:111-121 | what a source contributes depends on its own hits only |
| Aggregation.ProcessingKeysDiffer | src/agent_search_gateway/academic/aggregator.py:271-273 | processing keys tell any two candidates of a run apart, even when ranks collide |
| Aggregation.ProcessingIsStrict | src/agent_search_gateway/academic/aggregator.py:106-107 | candidates are attached in strictly increasing key order |
| Aggregation.AggregateIgnoresInterleaving | src/agent_search_gateway/academic/aggregator.py:103-121 | inputs with equal per-source subsequences give the same list of records |
| Aggregation.OriginRankIsLeast | src/agent_search_gateway/academic/aggregator.py:76-86 | the origin rank is the least processing key of the cluster, and belongs to a member |
| Aggregation.RecordsOrderedByOrigin | src/agent_search_gateway/academic/aggregator.py:108-109 | there is one record for each cluster, strictly ordered by origin rank |
| Aggregation.RecordsCarryIdentifiers | src/agent_search_gateway/academic/aggregator.py:103-109 | every record an aggregation returns carries its cluster's identifiers: run clusters are free of conflicts and their members have ids |
| Aggregation.RecordsShareNoIdentifier | src/agent_search_gateway/academic/aggregator.py:103-109 | no two records of an aggregation carry the same DOI, arXiv id or native id |
| Aggregation.AcceptedIdentifiersCarried | src/agent_search_gateway/academic/aggregator.py:103-109 | a record carries the DOI and arXiv id of each accepted candidate and lists its source |
| Priority.ListedRankInOrder | src/agent_search_gateway/academic/aggregator.py:264-269 | of two listed sources the one whose last place comes first ranks lower, whatever the list |
| Priority.ListedRanksFirstIff | src/agent_search_gateway/academic/aggregator.py:264-269 | exactly when a listed source ranks before an unlisted one: its last place is at most the number of different names, or one more when the other is generated |
| Priority.RepeatedNamesBuryOne | src/agent_search_gateway/academic/aggregator.py:264-269 | a list in which a name repeated often enough pushes another behind the unlisted ones |
| Priority.RanksFollowList | src/agent_search_gateway/academic/aggregator.py:264-269 | in any other list ranks are exactly the preference it expresses: place in the list, listed before unlisted, unlisted academic before unlisted generated |
| Priority.PrecedenceMeaning | src/agent_search_gateway/academic/aggregator.py:191-200 | which of two candidates supplies a field first: generated ones last, then the list, then the names of source and id by code point |
| Priority.RecordsFollowList | src/agent_search_gateway/academic/aggregator.py:103-109 | in every aggregation a record takes title, URL and each scalar field from a member that no other with the field outranks |
| Priority.ProcessedInListOrder | src/agent_search_gateway/academic/aggregator.py:106-107 | candidates are processed in the order of the list, each source's in the order it gave them |
| Priority.RecordsInListOrder | src/agent_search_gateway/academic/aggregator.py:108-109 | of two records the one whose first processed member came first comes first |
| Priority.FirstListedSupplies | src/agent_search_gateway/academic/aggregator.py:103-109 | of two academic hits that share a DOI and do not contradict each other, the one whose source is listed first names the one record and supplies every field it has, whichever came first |
| Recency.DuplicatesYieldLatest | src/agent_search_gateway/academic/aggregator.py:306-314 | among hits of one source and source id, the one discovered last supplies a field |
| Recency.SecondHitSupplies | src/agent_search_gateway/academic/aggregator.py:103-121 | of two hits with one source and id that do not contradict each other, the second names the one record and supplies its abstract when it has one |
| Recency.LaterAbstractReplaces | src/agent_search_gateway/academic/aggregator.py:103-121 | two such hits with different abstracts, whose record carries the second one |
| Capacity.CapacityGate.TryLease | src/agent_search_gateway/concurrency.py:62-68 | a lease is granted exactly when there is room, and then counted |
| Capacity.CapacityLease.Release | src/agent_search_gateway/concurrency.py:31-35 | the first release of an acquired lease gives its slot back, any other does nothing |
| Capacity.CapacityConserved | src/agent_search_gateway/concurrency.py:16-97 | in every interleaving the count is the number of acquired unreleased leases, bounded by the observed maximum and the limit, and double release is unreachable |
| Capacity.MaximumIsPeak | src/agent_search_gateway/concurrency.py:86-89 | the recorded maximum is the peak of the count over the run |
| Capacity.AllReleasedIsFree | src/agent_search_gateway/concurrency.py:91-97 | a gate whose leases are all released is empty |
| Capacity.ReleasedForGood | src/agent_search_gateway/concurrency.py:28-35 | a lease that was acquired and released never holds a slot again, whatever else happens |
| Capacity.LeaseIff | src/agent_search_gateway/concurrency.py:16-97 | a lease was acquired exactly when it was once asked for while fewer than the limit were held, and released exactly when it was given back while held |
| Capacity.StepWaits | src/agent_search_gateway/concurrency.py:76-84 | a lease waits exactly from asking in vain until it is granted or its wait is cancelled |
| Capacity.WaiterGetsFreeSlot | src/agent_search_gateway/concurrency.py:76-97 | in every run a waiting task can have its lease exactly when fewer leases than the limit are held |
| KeyedLocks.PerKeyLockPool.Reserve | src/agent_search_gateway/concurrency.py:250-257 | reserving maps the key to an entry and counts the reservation |
| KeyedLocks.PerKeyLockPool.Unreserve | src/agent_search_gateway/concurrency.py:259-263 | the last reservation takes the entry out of the mapping |
| KeyedLocks.StepKeepsSound | src/agent_search_gateway/concurrency.py:224-263 | every reservation, acquisition, cancellation and release keeps counts, sharing and exclusion |
| KeyedLocks.PoolTracksReservers | src/agent_search_gateway/concurrency.py:212-263 | in every reachable state an entry exists for a key exactly while it is reserved, references count holders and waiters, they share the entry, at most one holds, and an idle pool is empty |
| KeyedLocks.FreeIffUnheld | src/agent_search_gateway/concurrency.py:224-241 | a task that waits can take the lock exactly when no task holds its key |
| Singleflight.SingleflightGroup.Join | src/agent_search_gateway/concurrency.py:279-286 | a call leads a new flight exactly when none is in flight for its key |
| Singleflight.SingleflightGroup.Cleanup | src/agent_search_gateway/concurrency.py:317-320 | only the future that is still registered is removed |
| Singleflight.OneLeaderPerKey | src/agent_search_gateway/concurrency.py:271-307 | at most one computation runs for a key at a time |
| Singleflight.FollowersShareOutcome | src/agent_search_gateway/concurrency.py:288-307 | a call that was not cancelled ends with exactly its leader's outcome, and its flight had not finished when it began |
| Singleflight.CleanupIsOwn | src/agent_search_gateway/concurrency.py:306-320 | finishing removes exactly the leader's own future |
| Singleflight.CancelledFollowerDisturbsNothing | src/agent_search_gateway/concurrency.py:288-290 | whatever happens later, every other call goes as if the cancelled follower had kept waiting |
| Singleflight.StepCall | src/agent_search_gateway/concurrency.py:271-307 | a call changes exactly by joining or leading its key's flight, finishing, getting the outcome of its resolved flight, or being cancelled as a follower |
| Singleflight.FollowersCanEnd | src/agent_search_gateway/concurrency.py:288-307 | no follower waits in vain: its flight is led by a call that still runs, or its outcome can be delivered at once |
| UrlStore.URLStore.Admit | src/agent_search_gateway/url_store.py:17-45 | admitting fails exactly for a blank abstract, and otherwise follows the specification of the history |
| UrlStore.URLStore.MergeBody | src/agent_search_gateway/url_store.py:47-61 | merging fails exactly for an unknown URL, and otherwise follows the specification of the history |
| UrlStore.URLStore.MarkUnavailable | src/agent_search_gateway/url_store.py:63-69 | marking fails exactly for an unknown URL, and otherwise follows the specification of the history |
| UrlStore.StoreSummarizesHistory | src/agent_search_gateway/url_store.py:9-79 | after any operations a record's abstract, raw content and content are the first non-empty values ever offered, and it is unavailable exactly when it was marked |
| UrlStore.UnavailableIffMarked | src/agent_search_gateway/url_store.py:63-69 | after any operations a URL is held as unavailable exactly when it was marked while it was known |
| UrlStore.MarkedIgnoresSearches | src/agent_search_gateway/url_store.py:17-61 | operations that do not mark, in any number and order, leave every URL's marks as they were |
| UrlStore.RunExtends | src/agent_search_gateway/url_store.py:9-79 | every run of operations is write-once |
| Strings.StripMeaning | src/agent_search_gateway/url_store.py:25-25 | the stripped abstract is the abstract without the whitespace at both ends, and nothing else is taken |
| FetchScheduler.SelectAvailableProvider | src/agent_search_gateway/scheduler/fetch.py:77-94 | the first scan that finds capacity chooses the first remaining provider that has some |
| FetchScheduler.FetchUntilAccepted | src/agent_search_gateway/scheduler/fetch.py:37-75 | each provider is attempted at most once, always the first untried one with capacity at the first scan that finds any; outcome and failures are those of the attempts, and the run's lease events are complete at every exit |
| FetchScheduler.OutcomeMeaning | src/agent_search_gateway/scheduler/fetch.py:59-75 | accepted iff the last attempt accepted; semantic failure iff all were tried, none settled the run and some was rejected; execution failure iff all were tried and all failed to execute |
| FetchScheduler.AttemptMeaning | src/agent_search_gateway/scheduler/fetch.py:96-190 | one equivalence for each way an attempt ends, in terms of what the fetch and the judge did |
| FetchScheduler.RunMeaning | src/agent_search_gateway/scheduler/fetch.py:37-75 | how a whole run ends, in terms of the fetches and judgements of its turns: accepted, rejected semantically, failed to execute with exactly the failed fetches' reasons in order, raised or cancelled |
| FetchScheduler.AcceptedCandidate | src/agent_search_gateway/scheduler/fetch.py:96-190 | an accepted candidate is the one fetched last and judged good, with non-empty raw content and content that is empty or not blank |
| SchedulerLeases.RunHoldsOneSlot | src/agent_search_gateway/scheduler/fetch.py:41-58 | whatever other tasks do to the gates, a scheduler run never holds two slots, and holds one only while its lease events are not complete |
| SchedulerLeases.FinishedRunHoldsNone | src/agent_search_gateway/scheduler/fetch.py:41-58 | a run whose lease events are complete, which they are at every exit, holds no slot of any gate |
| SchedulerLeases.SlotIff | src/agent_search_gateway/scheduler/fetch.py:41-58 | in every interleaving a slot of a gate is held exactly from the step that takes it, when there is room, to the step that frees it |
| FetchProtocol.FetchOrchestrator.Enter | src/agent_search_gateway/orchestrators/fetch.py:70-112 | the code from acquiring the lock to the first stage is the specified move |
| FetchProtocol.FetchOrchestrator.AfterFetch | src/agent_search_gateway/orchestrators/fetch.py:113-145 | the code after the scheduler run is the specified move of the task and of the store |
| FetchProtocol.FetchOrchestrator.AfterCleaning | src/agent_search_gateway/orchestrators/fetch.py:144-155 | the code after content cleaning is the specified move of the task and of the store |
| FetchProtocol.FetchOrchestrator.AfterSafety | src/agent_search_gateway/orchestrators/fetch.py:90-96 | the code after the safety check is the specified move of the task and of the store |
| FetchProtocol.StepKeepsSound | src/agent_search_gateway/orchestrators/fetch.py:64-190 | every step of every task keeps lock exclusion, the link between tasks and records, and single decisive runs |
| FetchProtocol.OneDecisiveRunPerUrl | src/agent_search_gateway/orchestrators/fetch.py:100-155 | at most one scheduler run per URL ever ends accepted or with a semantic failure; the others end in execution failure, a raise or cancellation |
| FetchProtocol.SectionsExclude | src/agent_search_gateway/orchestrators/fetch.py:70-98 | at most one task is inside a URL's section, and an idle lock pool is empty |
| FetchProtocol.TextsPassedSafety | src/agent_search_gateway/orchestrators/fetch.py:86-98 | a returned text is the URL's stored content or a summary of it, after a safety pass in the same section; the unavailable message is returned for URLs marked unavailable only; the errors that should not happen do not |
| FetchProtocol.UnfocusedFetchesAgree | src/agent_search_gateway/orchestrators/fetch.py:86-98 | any two fetches without focus that return content return the same non-empty text |
| FetchProtocol.UnavailableIsFinal | src/agent_search_gateway/orchestrators/fetch.py:78-88 | once a URL is unavailable no later section calls a provider or a model; it returns the unavailable message |
| FetchProtocol.FetchCanReturnContent | src/agent_search_gateway/orchestrators/fetch.py:70-98 | for any content that is not blank some run returns it, so the guarantees above are not empty |
| FetchProtocol.StepPc | src/agent_search_gateway/orchestrators/fetch.py:64-190 | after a step a task is at a stage or a result exactly when it was there and did not act, or when a stated condition on the records and the stage's end brings it there |
| FetchProtocol.ResultIff | src/agent_search_gateway/orchestrators/fetch.py:64-98 | in every run a task ends with a result exactly when one of its actions brought it there: failed exactly when a stage failed or there was no provider, unavailable exactly when rejected or found so, and so on |
| FetchProtocol.UnavailableIffRejected | src/agent_search_gateway/orchestrators/fetch.py:114-122 | in every run a URL is unavailable exactly when a scheduler run of one of its tasks ended in a semantic failure or a safety check said no |
| FetchProtocol.RecordsReplayHistory | src/agent_search_gateway/orchestrators/fetch.py:100-178 | the records are exactly what admissions, accepted candidates, cleaned texts and rejections make of them; no other action touches them |
| FetchProtocol.FailedRunLeavesRecords | src/agent_search_gateway/orchestrators/fetch.py:114-118 | a scheduler run that raises or whose every provider fails ends its task as failed and leaves the records as they were |
| FetchProtocol.ScheduledIff | src/agent_search_gateway/orchestrators/fetch.py:113-113 | a task remembers a scheduler end exactly when its scheduler run ended so |
| FetchProtocol.PassedIff | src/agent_search_gateway/orchestrators/fetch.py:166-175 | a task remembers a content as safe exactly when its safety check passed it |
| FetchProtocol.CalledWithIff | src/agent_search_gateway/orchestrators/fetch.py:36-62 | a task works on exactly the URL and focus it was called with |
| FetchProtocol.EntersIff | src/agent_search_gateway/orchestrators/fetch.py:70-76 | in every run a waiting task can enter its section exactly when no task is in a section of its URL, so the lock is given back however a section ends |
| FetchRequests.RequestGotItsWorkflow | src/agent_search_gateway/orchestrators/fetch.py:36-62 | what a request gets, leading or following, is the result of one workflow run for its URL and focus that was not done when it began |
| FetchRequests.RequestTextsPassedSafety | src/agent_search_gateway/orchestrators/fetch.py:36-98 | the safety guarantee holds for every request, followers included |
| FetchRequests.UnfocusedRequestsAgree | src/agent_search_gateway/orchestrators/fetch.py:36-98 | any two requests without focus that get content get the same non-empty text |
| FetchRequests.WorkflowsFollowProtocol | src/agent_search_gateway/orchestrators/fetch.py:36-62 | the workflows of any run of requests are a run of the protocol, so everything proved of its runs holds of theirs |
| FetchRequests.RequestsFollowFlights | src/agent_search_gateway/orchestrators/fetch.py:36-62 | the requests of any run share flights as a singleflight group does |
| FetchRequests.RequestsCanEnd | src/agent_search_gateway/orchestrators/fetch.py:36-62 | no request waits in vain: the workflow it shares, for its own URL and focus, still runs, or its result can be delivered at once |
| Search.StagedIsAdmissible | src/agent_search_gateway/orchestrators/search.py:671-744 | a staged row has a non-blank abstract, from the snippet or else the title, and carries the hit's non-blank bodies exactly when the judge accepted one for a URL not known to be unavailable |
| Search.StageMeaning | src/agent_search_gateway/orchestrators/search.py:671-744 | exactly when a hit is dropped, breaks the pipeline, fails alone or is staged |
| Search.RunKeywordPipeline | src/agent_search_gateway/orchestrators/search.py:594-669 | a pipeline fails exactly when a hit breaks it, or a judge failed and no hit was staged; otherwise its rows are exactly those of the staged hits in the order of the hits |
| Search.GatherIgnoresCompletionOrder | src/agent_search_gateway/orchestrators/search.py:124-133 | given each pipeline's outcome, the gathered list does not depend on the order of completion |
| Search.KnownMattersIff | src/agent_search_gateway/orchestrators/search.py:710-731 | the record known at staging changes a hit's staging exactly when its availability differs, for a hit with an abstract, a URL and a body that the judge does not reject |
| Search.RowsIgnoreKnown | src/agent_search_gateway/orchestrators/search.py:594-744 | when no judge fails, the URLs and abstracts of a provider's rows, and whether it fails, do not depend on the records known at staging |
| Search.StagingDiffersIff | src/agent_search_gateway/orchestrators/search.py:707-731 | whatever happened to the store, a hit is staged differently after two histories exactly when its URL was marked in one only, and it has an abstract and a body that is not blank and that the judge does not reject |
| Search.StagingsDifferIff | src/agent_search_gateway/orchestrators/search.py:594-744 | a pipeline's stagings under two courses of events differ exactly when this happens to one of its hits |
| Search.StagingsIgnoreSearches | src/agent_search_gateway/orchestrators/search.py:594-744 | whatever searches commit meanwhile, and in whatever order, each pipeline stages the same |
| Search.SearchIgnoresCompletionOrder | src/agent_search_gateway/orchestrators/search.py:124-160 | while the store is only searched, a search gathers the same outcomes and commits the same rows in whatever order its pipelines complete and other searches commit |
| Search.MarkChangesRow | src/agent_search_gateway/orchestrators/search.py:707-744 | for every URL and content that is not blank, a hit whose row loses its body when a fetch marks the URL first |
| Search.CommitRows | src/agent_search_gateway/orchestrators/search.py:128-160 | exactly the rows of successful providers are admitted, in provider order, and there is one record for each URL; a search fails exactly when every provider failed |
| Search.AllRowsConcat | src/agent_search_gateway/orchestrators/search.py:135-139 | a provider's rows are committed behind those of the providers before it |
| Search.CommittedRecords | src/agent_search_gateway/orchestrators/search.py:135-145 | what a search leaves in the store: its URLs are there, fields that were empty hold the first non-empty value its rows brought, every other field and all marks are unchanged |
| Search.FirstAppearancesMeaning | src/agent_search_gateway/orchestrators/search.py:135-160 | the rows' URLs are exactly the committed URLs, in the order of first appearance |
| Search.SearchesAgreeOnAbstracts | src/agent_search_gateway/orchestrators/search.py:135-160 | a URL in the records of two searches of a run carries the same non-empty abstract in both, whatever happens to the store before and between them |
| Utf8.DecodesExactlyEncodings | src/agent_search_gateway/protocol.py:131-136 | decoding undoes encoding and accepts nothing else |
| Json.LoadsDumps | src/agent_search_gateway/protocol.py:223-224 | reading a written object gives back its fields |
| Json.DumpsPrintable | src/agent_search_gateway/protocol.py:223-224 | written JSON holds no control character, so no raw newline |
| JsonGrammar.LoadsExactlyGrammar | src/agent_search_gateway/protocol.py:131-136 | a text reads as a value exactly when a grammar tree spells it so, with any whitespace between tokens, any escapes in strings, nested arrays and objects, and numbers |
| WireProtocol.EncodesIff | src/agent_search_gateway/protocol.py:223-232 | a payload can be encoded exactly when none of its strings holds a lone surrogate |
| WireProtocol.PayloadRoundTrip | src/agent_search_gateway/protocol.py:193-214 | the parsers give back the request a payload was built from; elided scope and selectors are restored |
| WireProtocol.DecodesExactlyPayloads | src/agent_search_gateway/protocol.py:42-148 | an object decodes to a request exactly when its fields are those of the request's payload, the web scope elided or written out |
| WireProtocol.ParsesExactlyPayloads | src/agent_search_gateway/protocol.py:235-257 | an object parses to a response exactly when its fields are those of the response's payload |
| WireProtocol.RequestFrame | src/agent_search_gateway/protocol.py:131-148 | an encoded request ends in its only newline, and the frame before it decodes to the request |
| WireProtocol.ResponseRoundTrip | src/agent_search_gateway/protocol.py:235-257 | an encoded response ends in its only newline, and the frame before it parses to the response |
| WireProtocol.DecodesExactlyFrames | src/agent_search_gateway/protocol.py:131-148 | a frame decodes to a request exactly when it is UTF-8 of a text that spells, in any way, an object with the fields of the request's payload |
| WireProtocol.RefusalMeaning | src/agent_search_gateway/protocol.py:131-148 | for each refusal, exactly which frames get it |
| WireProtocol.ParsesExactlyFrames | src/agent_search_gateway/protocol.py:235-257 | a frame parses to a response exactly when it is UTF-8 of a text that spells the fields of the response's payload |
| NdjsonDecoder.NDJSONDecoder.Feed | src/agent_search_gateway/protocol.py:151-190 | feeding returns exactly what the outputs of the longer stream have more; the buffer stays within the limit and is empty while discarding |
| NdjsonDecoder.FramesMeaning | src/agent_search_gateway/protocol.py:156-190 | the frames of a stream, each with its newline, and the rest make up the stream, and none holds a newline |
| NdjsonDecoder.EventsExtend | src/agent_search_gateway/protocol.py:168-177 | an unfinished frame brings exactly one error, when it becomes too long |
| NdjsonDecoder.EventsEnd | src/agent_search_gateway/protocol.py:179-189 | the end of a frame brings its answer, unless its error was given before |
| NdjsonDecoder.FeedAll | src/agent_search_gateway/protocol.py:151-190 | a fresh decoder's outputs depend on the bytes only, not on the chunks |
| NdjsonDecoder.SendAndReceive | src/agent_search_gateway/protocol.py:151-231 | requests whose encodings fit the limit arrive exactly as sent, through any chunking |
| Shutdown.ForegroundDaemon.BeginShutdown | src/agent_search_gateway/daemon.py:508-513 | only the first call creates a coordinator |
| Shutdown.ForegroundDaemon.Admit | src/agent_search_gateway/daemon.py:386-400 | a workflow is admitted exactly when shutdown has not begun |
| Shutdown.StepKeepsSound | src/agent_search_gateway/daemon.py:342-586 | every step keeps the active set exact, the snapshot complete, the runtime for as long as anything runs, and answers behind the close |
| Shutdown.RuntimeOutlivesWorkflows | src/agent_search_gateway/daemon.py:515-547 | the runtime is closed at most once and never under a workflow; no admitted workflow misses it; the snapshot holds all that runs and bounds what is cancelled |
| Shutdown.NoAdmissionAfterShutdown | src/agent_search_gateway/daemon.py:386-400 | after shutdown has begun nothing is admitted, whatever happens |
| Shutdown.AnswersFollowClose | src/agent_search_gateway/daemon.py:515-537 | every shutdown reply follows the close or an abort of the coordinator; without an abort none precedes the one close |
| Shutdown.SnapshotIff | src/agent_search_gateway/daemon.py:515-519 | in every run the snapshot is exactly the tasks that ran a workflow when it was taken |
| Shutdown.CancelledIff | src/agent_search_gateway/daemon.py:520-527 | in every run a task is cancelled exactly when the snapshot found it and its connection was still open when the grace period ended |
| Shutdown.LeftAlone | src/agent_search_gateway/daemon.py:515-527 | a connection that runs no workflow at the snapshot, or is over before it is cancelled, is never cancelled |
| Shutdown.NobodyCancelledIff | src/agent_search_gateway/daemon.py:99-107 | nobody is cancelled exactly when no grace period ends before every connection of the snapshot is over |
| Shutdown.IdleConnectionIsCancelled | src/agent_search_gateway/daemon.py:515-527 | a run in which a connection whose workflow ended in time is cancelled |
| Shutdown.AnswersLockedIff | src/agent_search_gateway/daemon.py:508-537 | once the coordinator is over, shutdown requests can be answered exactly unless it was aborted before its first step |
| Shutdown.LockedForGood | src/agent_search_gateway/daemon.py:342-347 | in that case no continuation answers any |
| Shutdown.UnansweredRequest | src/agent_search_gateway/daemon.py:508-537 | a run whose shutdown request no continuation answers |
| Shutdown.StepTask | src/agent_search_gateway/daemon.py:319-437 | every task changes exactly by connecting, being admitted, leaving, asking for shutdown, being answered or ending, each under its stated condition |
| Shutdown.StepCoordinator | src/agent_search_gateway/daemon.py:508-547 | the coordinator changes stage exactly under the stated conditions |
| Shutdown.SharedIff | src/agent_search_gateway/daemon.py:508-564 | in every run: shutdown has begun, the runtime is taken, the socket is closed, answers are unlocked, and a reply was sent, each exactly when the step that does it happened |
| Shutdown.ShutdownCanComplete | src/agent_search_gateway/daemon.py:508-547 | whatever has happened, a shutdown that is not over can still close the runtime and the socket and answer every request that waits |
| Retry.RetryAsync | src/agent_search_gateway/retry.py:15-43 | the loop computes the specified run |
| Retry.RunMeets | src/agent_search_gateway/retry.py:24-43 | every attempt but the last failed retryably and was slept after by its delay; the run ends as its last attempt did, or cancelled in its last sleep |
| Retry.DelaysGrow | src/agent_search_gateway/retry.py:35-39 | delays never decrease and never exceed the maximum |
| Retry.DelayDoubles | src/agent_search_gateway/retry.py:35-38 | the first delay is the base, each further one twice the one before, none beyond the maximum |
| Retry.NoAttemptIff | src/agent_search_gateway/retry.py:24-43 | nothing is attempted exactly when no attempt is allowed, and then the loop is exhausted |
| Retry.RequestMeaning | src/agent_search_gateway/providers/http.py:167-231 | a request succeeds exactly when its last reply is JSON with a 2xx status; exactly transport failures and statuses 408, 429 and from 500 on are retried |
| Retry.RequestEnds | src/agent_search_gateway/providers/http.py:167-231 | from the replies and sleeps alone: how many requests are made, and one equivalence for each way a request ends |
| Retry.NestedBounds | src/agent_search_gateway/providers/llm/openai_chat.py:41-113 | one completion issues at most N * N requests and sleeps at most N * N - 1 times |
| Retry.NestedDelayBound | src/agent_search_gateway/providers/llm/openai_chat.py:41-113 | all sleeps of a completion take at most N * N - 1 times the maximum delay |
| Retry.NestedBoundsAttained | src/agent_search_gateway/providers/http.py:107-231 | both counts are attained, for every policy |
| Retry.OnlyProtocolFailuresRetried | src/agent_search_gateway/providers/llm/openai_chat.py:48-70 | the outer loop goes past an attempt only when its last reply was a success without a usable completion |
| Retry.GoesPastIff | src/agent_search_gateway/providers/llm/openai_chat.py:41-113 | the outer loop goes past an attempt exactly when its last reply was a success that carries no usable completion, attempts are left and the sleep is not cancelled |
| Retry.CompletionEnds | src/agent_search_gateway/providers/llm/openai_chat.py:41-113 | from the last reply of the last attempt alone, one equivalence for each way a completion ends; an exhausted transport failure or a status outside 2xx ends it at once |
| Abstracts.ReconstructAbstract | src/agent_search_gateway/providers/academic/openalex.py:23-41 | the nested loops and the sort compute the joined words of the usable postings in position order |
| Abstracts.JoinedMeaning | src/agent_search_gateway/providers/academic/openalex.py:41-41 | a single space stands between any two neighbouring words and nowhere else |
| Abstracts.PostingsMeaning | src/agent_search_gateway/providers/academic/openalex.py:29-39 | a posting is used exactly when a well-formed entry holds it; anything malformed is skipped |
| Abstracts.ReconstructionInvertsIndexing | src/agent_search_gateway/providers/academic/openalex.py:23-41 | any inverted index of some words, in any order of keys and positions, gives the words back in order |
| Abstracts.IndexOfIndexes | src/agent_search_gateway/providers/academic/openalex.py:23-41 | filing each word under its position makes such an index |
| Abstracts.ReconstructionOfBuiltIndex | src/agent_search_gateway/providers/academic/openalex.py:23-41 | indexing any words and reconstructing gives the words joined by single spaces |

## Left out

- String normalizers (DOI, arXiv id, URL, NFKC, case folding): a candidate carries canonical strings and a
  display string beside its folded form; equality of folded forms is all the model uses.
- Termination of waiting for capacity, and how the wait for any of several gates is built from tasks: a
  wait is a finite list of scans, and one whose scans run out is a cancelled wait.
- Provider selectors, result files, request-id reservation, logging, Markdown parsing and open-access
  enrichment.
- Startup, socket probing and other shutdown waiters: the daemon of `Shutdown` has started, and waits with
  the default waiter; an injected one could return early.
- Child tasks of a workflow: a connection's task is over when its workflow is.
- Python's recursion limit and its limit on the digits of an integer, which make `json.loads` raise errors
  that `decode_request_frame` does not catch.
- NdjsonDecoder.NDJSONDecoder.Feed: takes the frame decoder as a constant of the object, where the source
  calls `decode_request_frame` directly; `NdjsonDecoder.SendAndReceive` instantiates it with that decoder.
- FetchScheduler.FetchUntilAccepted: records taking and giving back leases as events instead of sharing
  gate objects with other tasks; what the events do to gates under interference is `SchedulerLeases`.
- Retry.NestedBounds: `_request_response` and `complete_text` are functions of what the network does, over
  the retry loop's specification; the loop itself is the method `Retry.RetryAsync`.
- Search.RunKeywordPipeline: the record the store held for each hit when it was staged is an argument, which
  `Search.StagingsDuring` ties to the store's history; Markdown web rows are committed by the same method with
  empty bodies.
- Floating-point rounding of delays: delays are reals.
