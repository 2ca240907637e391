# PySearch: a verified model

PySearch is a small distributed search service. Documents live on logical shards; each shard
has one primary copy and any number of replicas; a coordinator runs lexical (BM25), semantic
(exact vector) and hybrid (reciprocal rank fusion) queries over one copy of each shard. These
files model its four cores in Dafny, prove each of them against a declarative specification,
and join them at the end: a query through the coordinator, deployed in front of running and
failing shards, gives the answer of one engine holding a prefix of each shard's
history, and those prefixes contain every acknowledged write (`Clusters.SearchCluster`,
`Clusters.StillIsSingleNode`).

Check everything with `dafny verify dfyconfig.toml`.

## How the model is laid out

| files | what they hold |
|---|---|
| `Basics`, `Analysis`, `Hits` | ids, texts and finite sums; the tokenizer; the ranking order and top-k merging |
| `InvertedIndex`, `CorpusStats`, `Ranking` | the incremental index as a class over its four structures; corpus statistics; the BM25 accumulation loop |
| `VectorIndex`, `Fusion` | the swap-remove vector index as a class over an array; rank fusion |
| `Nodes`, `Engine` | one physical copy as a value, and the engine class whose methods update real structures and are proved equal to it |
| `Protocol`, `ProtocolSafety`, `ProtocolRuns` | the replication protocol of a shard as a step relation, its safety over all runs, and runs that break it when synchronizations overlap |
| `Replication` | the primary's write path and the replica's synchronizer as classes driving an engine |
| `Distribution`, `Coordinator`, `Cluster` | distributed equals single-node for lexical, semantic and hybrid queries; the coordinator class; all of it over running, failing shards |

Every engine method is stated three times over: imperatively, updating the inverted index, the
vector index and the cache in place; as a function on `Node` values, which the method's
postcondition names; and through what is proved about that function (`Fresh`, the protocol
invariant). A failure is an input of a method or a step. One that interrupts an update of
derived state leaves, in the engine, exactly the structures updated before it; in the protocol
it leaves an arbitrary condition, and no safety theorem depends on which.

In the protocol, messages are never consumed, so each may be delivered late, twice, out of
order or never, and a replicate call that timed out may still be applied. Processes crash
between any two steps; only disks survive. The four phases of a synchronization (start, read
the primary's generation, export, install) interleave with everything else.

## Where the code meets its documentation only under a condition

* **Resynchronizations of one replica must not overlap.** A replica compares generations once,
  when it comes up and before it serves; after that its endpoint resynchronizes it whenever it
  is asked to, the synchronizer takes no lock, and `resynchronize` replaces the corpus without
  comparing generations. `ProtocolRuns` has three runs of that kind in which overlap does harm:
  a stale snapshot erases an acknowledged write (`OverlapLosesAcknowledgedWrite`); it erases a
  write the replica has reported but the primary has not acknowledged yet, and the
  acknowledgement follows (`ReportedWriteIsLost`); its rebuild fails, memory stays ahead of the
  disk, and the replica answers the next write from memory, as a duplicate it does not hold
  (`DuplicateFromMemoryLosesWrite`). The exact guards are `Guarded` in `Protocol`: an installed
  snapshot contains everything this replica has told its primary it holds, and memory does not
  run ahead of it when the rebuild fails. `ProtocolSafety.StepKeepsInvIff` proves that a step
  keeps the safety invariant if and only if it is guarded; `DroppedReportLosesWrite` that
  dropping the report of a write acknowledged or still in flight leads to a lost acknowledged
  write. The guard also counts reports of writes the primary has given up on, because a replica
  cannot tell those apart. Non-overlap implies the guards (`ExclusiveRunIsGuardedRun`).
* **READY needs no such condition.** `mark_ready` is unconditional, but as the program calls it,
  a READY copy is fresh in every state of every run, with overlapping resynchronizations, stale
  snapshots and failed installs (`ProtocolSafety.ReadyIsAlwaysFresh`): the guard on comparisons
  cannot fail (`ComparisonsAreGuarded`). The protocol model also lets a serving replica compare,
  which the class would allow and no caller does; `MarkReadyIsFreshIff` says when that is sound.
* **`validate` is weaker than freshness.** It never compares postings or vectors with texts.
  From a READY engine, a put that breaks off leaves a state validation misses if and only if a
  stored document was replaced and the index, or the vectors, still answer for a text that
  analyzes, or embeds, differently (`Nodes.ValidationMissesIff`, stage by stage in
  `ValidationAfterBrokenPut` and `FreshAfterBrokenPut`). `Engines.ReplaceWithoutIndexing`
  reaches such a state. After a deletion that broke off validation is exact. The gap is the
  primary's alone: on a replica, in every guarded run, validation passes if and only if derived
  state is right (`ProtocolSafety.ReplicaValidationIsExact`). Every READY engine passes.
* **Fusion rewards agreement only up to a depth.** A document in both lists beats every
  document in one list exactly while the candidate depth is at most `rrf_k + 1`
  (`Fusion.AgreementWinsUpToDepth`). The defaults (depth up to 100, `rrf_k` 60) are beyond it.
* **idf is positive only for consistent statistics**: if and only if `df <= N`
  (`BM25.IdfPositive`). Merged statistics always are (`Distribution.MergedStatsConsistent`).

## What the proofs assume

* The primary's disk is never lost, and a storage transaction commits document and generation
  together or not at all.
* A pinned copy may change between the rounds of a query: the coordinator's contracts say what
  is ranked then (`Ranked`), `Distribution.RoundsThatDifferHarmlessly` when it makes no
  difference, and `LateWriteIsMissed` shows that it can. The single-node answer needs pinned
  copies that stand still (`Clusters.StillIsSingleNode`). For hybrid queries the two fan-outs
  choose copies independently, so it needs choices holding the same documents, which
  `Clusters.HybridSearchCluster` has when nothing is committed meanwhile and nothing
  unacknowledged is outstanding.
* A coordinator's client answers as the engine of its copy does at that moment, which refuses
  unless READY, or does not answer (`Clusters.Fronts`).
* Writes reach a shard through routing: every mutation a primary commits is for an id that
  hashes to its shard.
* Normalization, the alphanumeric test, the embedding model, the digest and the logarithm are
  function parameters. Of the logarithm only its sign around 1 is used, where stated. Scores
  are real numbers. `k1 >= 0` and `0 <= b <= 1`, which keep BM25 denominators positive.

## Model

| member | source | states |
|---|---|---|
| Analysis.Tokenize | app/search/analysis.py:37-56 | the scanner returns the contents of all maximal alphanumeric runs, left to right |
| Analysis.TokensAreMaximalRuns | app/search/analysis.py:37-56 | every text has such a listing: each token is a non-extensible non-empty run, and none is missing |
| Analysis.TokenizationIsUnique | app/search/analysis.py:37-56 | any list of the contents of all maximal runs, in order, is the tokenization |
| Analysis.TokensKeepEveryAlnum | app/search/analysis.py:37-56 | the tokens joined together are exactly the alphanumeric characters of the text, and no token is empty |
| Analysis.TokensSplitAtSeparator | app/search/analysis.py:37-56 | tokenizing around a separator is tokenizing both sides |
| Analysis.RetokenizeIsIdentity | app/search/analysis.py:37-61 | joining tokens with a separator and tokenizing again returns them unchanged |
| Analysis.AnalysisNormalizesFirst | app/search/analysis.py:59-61 | the terms of a text are the maximal runs of its normalization |
| Basics.IdLessIsLexicographic | app/search/engine.py:579-592 | identifiers are compared lexicographically by code point, a prefix before its extensions |
| Hits.RankingOrder | app/search/engine.py:579-592 | in a ranking scores never rise, and hits of equal score stand in lexicographic order of their identifiers |
| Hits.BeforeTotal | app/cluster/coordinator.py:636-649 | score descending, then id ascending, decides between any two hits with different ids |
| Hits.SortRanks | app/search/engine.py:569-592 | sorting hits with distinct ids gives the one strictly ordered listing of that set |
| Hits.TopHits | app/cluster/coordinator.py:41-47 | a hit is in the top k exactly when fewer than k hits precede it |
| Hits.TruncateLists | app/cluster/coordinator.py:41-47 | cutting every shard's list to its own top k never changes the global top k, whatever else is ranked with them |
| Hits.MergeIsGlobalTopK | app/cluster/coordinator.py:636-649 | concatenating local top-k lists, sorting and truncating gives the global top k, for every k and every disjoint split |
| Hits.MergeIgnoresArrivalOrder | app/cluster/coordinator.py:636-649 | the order in which replies are merged never influences the ranking |
| InvertedIndexes.InvertedIndex.constructor | app/search/index.py:122-130 | an empty index stands for the empty corpus |
| InvertedIndexes.InvertedIndex.AddDocument | app/search/index.py:215-230 | adding or replacing keeps all four structures canonical for the corpus with that document's term counts |
| InvertedIndexes.InvertedIndex.RemoveDocument | app/search/index.py:232-248 | removing undoes it: canonical for the corpus without the document, no empty posting list left |
| InvertedIndexes.InvertedIndex.StateIsCanonical | app/search/index.py:119-130 | the state depends only on the final corpus, never on the history of adds and removes |
| InvertedIndexes.CanonicalIsInjective | app/search/index.py:119-130 | equal index states mean equal corpora, and conversely |
| InvertedIndexes.CorpusOfCanonical | app/search/index.py:199-213 | the corpus can be read back from its index |
| InvertedIndexes.ChecksAreExact | app/search/index.py:254-314 | the consistency checks hold of a state if and only if it is the canonical index of some corpus of positive counts |
| InvertedIndexes.InvertedIndex.Validate | app/search/index.py:254-314 | validation passes, on any state whatever, if and only if the state is canonical |
| InvertedIndexes.InvertedIndex.PostingMapMeans | app/search/index.py:199-204 | a term's posting map is exactly its positive counts over the corpus |
| InvertedIndexes.CounterSum | app/search/index.py:215-230 | term counts are positive and add up to the document length |
| Statistics.CollectStats | app/search/index.py:154-164 | the statistics read from an index are those of its corpus: count, total length, one df per requested term |
| InvertedIndexes.CounterCounts | app/search/index.py:215-230 | a term's count is the number of places it stands at, and absent terms have none |
| Statistics.StatsMean | app/search/index.py:154-164 | the statistics are the number of documents, the sum of their lengths, and for each requested term the number of documents holding it |
| Statistics.AverageTimesCount | app/search/index.py:60-65 | the average length is the total over the count, and zero for an empty corpus |
| Statistics.FrequencyAtMostCount | app/search/index.py:46-69 | no term occurs in more documents than there are |
| Statistics.MergeCorpusStats | app/search/index.py:72-93 | the accumulating loop is the sum of the parts, missing terms read as zero |
| Statistics.MergedStatsAreExact | app/search/index.py:72-93 | merging the statistics of disjoint corpora gives the statistics of their union, not an estimate |
| BM25.ScoreQuery | app/search/ranking.py:69-122 | the loop scores exactly the documents containing a query term, each with the sum of its contributions over the terms with repetition; nothing when the average length is zero |
| BM25.ScoreOfOneTerm | app/search/ranking.py:1-27 | a query of one term finds exactly the documents holding it, scored by the published formula in the numbers of the document and of the statistics |
| BM25.ScoresAdd | app/search/ranking.py:69-122 | a longer query finds what its terms find, and scores add up, repetitions included |
| BM25.IdfPositive | app/search/ranking.py:63-67 | idf is positive if and only if df <= N |
| BM25.ContributionBounds | app/search/ranking.py:1-27 | a contribution lies strictly between 0 and (k1 + 1) idf |
| BM25.ContributionRisesWithFrequency | app/search/ranking.py:1-27 | a contribution strictly rises with term frequency |
| BM25.ContributionFallsWithLength | app/search/ranking.py:1-27 | with b > 0 it strictly falls with document length |
| BM25.ScoreBounds | app/search/ranking.py:69-122 | every score lies strictly between 0 and (k1 + 1) times the sum of idf over the query's terms |
| BM25.OwnStatsConsistent | app/search/index.py:154-164 | an index's own statistics satisfy what the bounds require |
| VectorIndexes.ExactVectorIndex.constructor | app/semantic/vector_index.py:72-80 | a new index holds no vectors |
| VectorIndexes.ExactVectorIndex.Add | app/semantic/vector_index.py:112-127 | ids and positions stay mutual inverses; the map gains or replaces one vector; a vector of the wrong dimension changes nothing |
| VectorIndexes.ExactVectorIndex.Remove | app/semantic/vector_index.py:129-149 | swap-remove drops exactly that id and keeps every other vector at a consistent position |
| VectorIndexes.ExactVectorIndex.GrowIfNeeded | app/semantic/vector_index.py:247-256 | growing makes room and loses no vector |
| VectorIndexes.ExactVectorIndex.Clear | app/semantic/vector_index.py:151-155 | clearing leaves the empty map |
| VectorIndexes.DotIsSumOfProducts | app/semantic/vector_index.py:175-186 | similarity is the sum of the products of the coordinates |
| VectorIndexes.DotIsSymmetric | app/semantic/vector_index.py:175-186 | it is symmetric |
| VectorIndexes.DotIsAdditive | app/semantic/vector_index.py:175-186 | additive |
| VectorIndexes.DotIsHomogeneous | app/semantic/vector_index.py:175-186 | homogeneous |
| VectorIndexes.DotPicksCoordinate | app/semantic/vector_index.py:175-186 | and picks a coordinate against its axis |
| VectorIndexes.ExactVectorIndex.Search | app/semantic/vector_index.py:161-186 | the answer is the sorted dot-product ranking of the map, truncated: a function of the map alone, whatever the history; the two refusals |
| VectorIndexes.ExactVectorIndex.Validate | app/semantic/vector_index.py:195-230 | validation passes if and only if ids and positions are mutual inverses and every live row has the dimension |
| VectorIndexes.ForwardAndCountIsInverse | app/semantic/vector_index.py:195-230 | checking one direction and the counts, as validation does, is checking both directions |
| Fusion.ReciprocalRankFusion | app/hybrid/fusion.py:147-214 | the two loops, sort and slice return the truncated ranking of the fused candidates; a limit below 1 is refused |
| Fusion.FusionIsExact | app/hybrid/fusion.py:147-214 | on lists with distinct ids: total is the size of the union, results strictly ordered, each score exactly the sum of 1/(k + rank) over the lists holding it |
| Fusion.FusionExplains | app/hybrid/fusion.py:178-214 | each fused hit carries its true place and score in each list that holds it, none for one that does not, and the text it was first found with |
| Fusion.Reciprocal | app/hybrid/fusion.py:180-198 | a place is worth exactly one over k plus its rank |
| Fusion.FusionConfig.CandidateDepth | app/hybrid/fusion.py:90-92 | the depth is the limit times the multiplier or the bound, whichever is less |
| Fusion.DominanceIsRespected | app/hybrid/fusion.py:178-214 | a document at least as well placed in both lists and different in one always comes first |
| Fusion.AgreementWinsUpToDepth | app/hybrid/fusion.py:41-51 | in two rankings, some document of one list reaches one of both lists if and only if the depth is at least rrf_k + 2 |
| Fusion.TieAtDepth | app/hybrid/fusion.py:90-92 | at depth rrf_k + 2 two rankings, ordered as retrieval returns them, in which the one-list document ties and comes first |
| Nodes.DeriveIsRebuild | app/search/engine.py:519-536 | the incremental update of cache, index and vectors equals rebuilding from the changed documents |
| Nodes.CommitKeepsFresh | app/search/engine.py:229-283 | a local mutation that goes through keeps derived state equal to a rebuild and memory at the disk's generation |
| Nodes.FollowKeepsFresh | app/search/engine.py:289-348 | so does a replicated one, deletions of unknown ids included |
| Nodes.FreshValidates | app/search/engine.py:626-674 | freshness passes validation |
| Nodes.ValidationAfterBrokenPut | app/search/engine.py:626-674 | after a put that broke off at each stage, exactly when validation passes |
| Nodes.FreshAfterBrokenPut | app/search/engine.py:519-529 | after a put that broke off at each stage, exactly when derived state is right all the same |
| Nodes.ValidationMissesIff | app/search/engine.py:626-674 | validation misses stale state exactly when a replaced document's index or vector entry is outdated and differs |
| Nodes.ValidationIsWeakerThanFresh | app/search/engine.py:626-674 | replacing a document by one with other term counts, broken off before the index, validates and is stale |
| Nodes.ValidationAfterBrokenDelete | app/search/engine.py:531-536 | after a deletion that broke off, validation passes exactly when derived state is right, which is when no vectors were left to remove |
| Nodes.ValidationAfterBrokenFollow | app/search/engine.py:318-348 | after a replicated mutation that broke off, however derived state was left, validation fails |
| Nodes.LocalReplies | app/search/engine.py:229-283 | each refusal of a local write has its own cause and changes nothing unless it came after the commit |
| Nodes.ReplicatedReplies | app/search/engine.py:289-348 | a replica applies the next generation when it serves and nothing fails, takes a lower one as a duplicate, and goes out of sync on a higher one |
| Nodes.LexicalFinds | app/search/engine.py:569-592 | a lexical query finds exactly the documents sharing a term with it |
| Nodes.SearchReturns | app/search/engine.py:542-592 | the total counts those documents; the results are the best of them in order, with their own texts and scores |
| Nodes.SemanticReturns | app/search/engine.py:451-465 | every document is counted; the best by dot product are returned in order, with their own texts |
| Nodes.HybridReturns | app/search/engine.py:467-506 | every hybrid hit tells its true place in both rankings at the candidate depth and scores their reciprocal-rank sum; the total counts both |
| Engines.DocumentStore.Put | app/storage/sqlite_store.py:107-125 | document and generation change together; reports whether the id is new |
| Engines.DocumentStore.Delete | app/storage/sqlite_store.py:139-151 | removal and generation change together |
| Engines.DocumentStore.ReplaceAll | app/storage/sqlite_store.py:153-164 | the whole corpus and the generation are replaced together |
| Engines.SearchEngine.constructor | app/search/engine.py:135-155 | a new engine is STARTING with empty derived state, whatever is on disk |
| Engines.SearchEngine.ApplyDerived | app/search/engine.py:519-529 | the in-place update gives the derived state of a put or, broken off at a stage, exactly the structures updated before it |
| Engines.SearchEngine.RemoveDerived | app/search/engine.py:531-536 | likewise for a deletion |
| Engines.SearchEngine.IndexDocument | app/search/engine.py:229-259 | state and reply are those of the node-level operation in every failure case; a READY engine stays fresh or becomes DEGRADED |
| Engines.SearchEngine.IndexLocked | app/search/engine.py:246-259 | the critical section alone meets the same contract |
| Engines.SearchEngine.CommitPut | app/search/engine.py:247-259 | past the durable write a failure leaves disk and memory advanced and the engine DEGRADED |
| Engines.SearchEngine.DeleteDocument | app/search/engine.py:261-283 | the same for deletions; an unknown id consumes no generation |
| Engines.SearchEngine.CommitDelete | app/search/engine.py:277-283 | past the durable deletion a failure leaves disk and memory advanced and the engine DEGRADED |
| Engines.SearchEngine.ClassifyGeneration | app/search/engine.py:386-396 | lower is a duplicate, a gap goes OUT_OF_SYNC, the next one is applied only when READY |
| Engines.SearchEngine.ApplyReplicatedPut | app/search/engine.py:289-326 | state and reply are those of the node-level operation in every failure case |
| Engines.SearchEngine.ApplyNextPut | app/search/engine.py:317-326 | a replica that cannot embed has committed nothing; otherwise it follows the put |
| Engines.SearchEngine.FollowPut | app/search/engine.py:305-326 | memory advances only once derived state has followed the durable write |
| Engines.SearchEngine.ApplyReplicatedDelete | app/search/engine.py:328-348 | the same for replicated deletions |
| Engines.SearchEngine.ApplyNextDelete | app/search/engine.py:336-348 | the next deletion on an engine that serves meets the same contract |
| Engines.SearchEngine.FollowDelete | app/search/engine.py:340-348 | a broken-off deletion leaves memory behind the disk and the engine DEGRADED |
| Engines.SearchEngine.SkipDelete | app/search/engine.py:336-348 | deleting an unknown document still consumes the generation and stays fresh |
| Engines.SearchEngine.Rebuild | app/search/engine.py:680-716 | replaces every derived structure by the rebuild of the disk; fails with nothing replaced, or with everything replaced and the generation unread |
| Engines.SearchEngine.Adopt | app/search/engine.py:707-710 | swapping in structures rebuilt from the disk gives the rebuilt node, at the disk's generation if that could be read |
| Engines.SearchEngine.CheckIndex | app/search/engine.py:626-640 | a well-kept index always validates |
| Engines.SearchEngine.IndexAll | app/search/engine.py:691-698 | indexing the stored documents one by one gives the index of the corpus, in any enumeration order |
| Engines.SearchEngine.EmbedAll | app/search/engine.py:718-732 | batched re-embedding gives every document its own vector exactly once, or stops at the failing batch |
| Engines.SearchEngine.Initialize | app/search/engine.py:161-179 | READY exactly when the rebuild succeeds, and then fresh |
| Engines.SearchEngine.ExportSnapshot | app/search/engine.py:350-360 | only a READY engine exports, and what it exports is what its disk holds |
| Engines.SearchEngine.Resynchronize | app/search/engine.py:362-384 | the four outcomes: untouched disk, replaced disk without a rebuild, rebuilt under the old generation, or READY and fresh |
| Engines.SearchEngine.MarkRecovering | app/search/engine.py:207-211 | stops serving and changes nothing else |
| Engines.SearchEngine.MarkOutOfSync | app/search/engine.py:213-217 | stops serving and changes nothing else |
| Engines.SearchEngine.MarkReady | app/search/engine.py:219-223 | sets READY on any node; the engine stays valid exactly when that node was fresh |
| Engines.SearchEngine.CorpusStatistics | app/search/engine.py:594-605 | the incremental index reports the statistics of the documents on disk |
| Engines.SearchEngine.Search | app/search/engine.py:542-567 | the answer is a function of the documents on disk, the query and the statistics in force |
| Engines.SearchEngine.SearchLocked | app/search/engine.py:569-592 | every matching document ranked, total counted before truncation |
| Engines.SearchEngine.SemanticSearch | app/search/engine.py:432-465 | every document on disk ranked by similarity, with its own text attached; each refusal |
| Engines.SearchEngine.HybridSearch | app/search/engine.py:467-506 | fusion of both rankings at the candidate depth, over the same corpus; each refusal |
| Engines.SearchEngine.EmbedDocument | app/search/engine.py:508-517 | a vector exactly when semantic search is enabled; the model's failure is the caller's |
| Engines.SearchEngine.Validate | app/search/engine.py:626-674 | decides, torn engines included, whether the index is canonical, the vector rows consistent, and ids, texts and generations agree; a READY engine always passes |
| Engines.ReplaceWithoutIndexing | app/search/engine.py:229-259 | a READY engine that breaks off replacing a document reaches a state that validates and is stale |
| Engines.SameDocuments | app/search/engine.py:655-674 | comparing counts and then each document decides equality of storage and cache |
| Replication.Replicator.Replicate | app/cluster/replication.py:155-178 | targets are called in turn up to the first refusal |
| Replication.Replicator.Conclude | app/cluster/replication.py:128-136 | what the engine committed is sent under the generation it committed it as |
| Replication.WriteSettles | app/search/engine.py:229-283 | a local write that succeeded is the next generation on a READY node; one that failed changed nothing or left it DEGRADED |
| Replication.Replicator.IndexDocument | app/cluster/replication.py:118-136 | acknowledged if and only if the engine committed and every target took the generation just committed; otherwise committed here and unacknowledged, or unchanged, or degraded |
| Replication.Replicator.DeleteDocument | app/cluster/replication.py:138-153 | the same for deletions |
| Replication.ReplicaSynchronizer.Synchronize | app/cluster/replication.py:196-221 | from any state and with any answers, the replica becomes exactly what the five branches say, and serves exactly when success is reported |
| Replication.ReplicaSynchronizer.ResynchronizeFrom | app/cluster/replication.py:227-259 | a snapshot installed and rebuilt makes it READY with that snapshot; any failure ends OUT_OF_SYNC |
| Replication.SynchronizedIsWhereStepsLead | app/cluster/replication.py:196-259 | the result of a synchronization is where the protocol's own steps for it lead, whichever answers come |
| Replication.FromVerifying | app/main.py:208-226 | so it is from a replica that has just come up |
| Replication.FromFetching | app/api/internal.py:296-302 | and from one that was asked to resynchronize |
| Replication.SynchronizedStates | app/cluster/replication.py:196-259 | a replica serves afterwards exactly when generations were level, or it was behind and a snapshot was installed, which is then its disk; it is RECOVERING when the primary was out of reach and OUT_OF_SYNC otherwise |
| Replication.SynchronizationIsSound | app/cluster/replication.py:196-259 | with answers that qualify, from any condition the replica may be in, it stays on the log, never goes back, and serves only if fresh and no older than the primary reported |
| Replication.WaitingReplicaIsStill | app/cluster/replication.py:196-259 | in a run without overlap, disk, memory and derived state stand still while a synchronization waits for the primary |
| Replication.ComparisonQualifies | app/cluster/replication.py:199-212 | in a run without overlap the generation a synchronization reads qualifies |
| Replication.SnapshotQualifies | app/cluster/replication.py:227-259 | and so does the snapshot it goes on to take |
| ProtocolSafety.StepKeepsInvIff | app/cluster/replication.py:6-42 | a step of any node, message or process keeps the invariant (disks replay log prefixes, reports and acknowledgements are true of the disks, READY means fresh) if and only if it is guarded |
| ProtocolSafety.ApplyKeepsNode | app/search/engine.py:289-348 | delivering any logged mutation at any time keeps a replica a replay of a prefix, and an accepting reply means the disk has reached it, duplicates included |
| ProtocolSafety.InstallKeepsNode | app/search/engine.py:362-384 | installing a snapshot of the log keeps a replica on it exactly when memory does not run ahead, whichever way the rebuild ends |
| ProtocolSafety.GuardedRunIsSafe | app/cluster/replication.py:6-42 | every state of every run meeting the two unchecked conditions satisfies the invariant |
| ProtocolSafety.ExclusiveRunIsSafe | app/cluster/replication.py:181-259 | so does every state of every run in which synchronizations of a replica do not overlap |
| ProtocolSafety.ExclusiveRunIsGuardedRun | app/cluster/replication.py:192-225 | non-overlap implies the two conditions the code does not check |
| ProtocolSafety.CopyReplaysPrefix | app/cluster/replication.py:6-42 | a copy's disk is the replay of the first generation-many entries of the primary's log, and never ahead of it |
| ProtocolSafety.EqualGenerationsEqualCorpora | app/cluster/replication.py:196-221 | copies at equal generations hold equal documents |
| ProtocolSafety.ReadyIsFresh | app/search/engine.py:734-761 | under the invariant a READY copy's derived state is the rebuild of its disk |
| ProtocolSafety.ReadyIsAlwaysFresh | app/main.py:208-226 | so it is in every state of every run that compares at startup only, guarded or not, overlapping or not |
| ProtocolSafety.ComparisonsAreGuarded | app/cluster/replication.py:196-221 | in those runs only an install can go unguarded |
| ProtocolSafety.ReplicaValidationIsExact | app/search/engine.py:626-674 | whatever a replica went through, it validates if and only if it is fresh |
| ProtocolSafety.AcknowledgedIsDurableEverywhere | app/cluster/replication.py:128-136 | from its acknowledgement on, in every later state, a write is in the log prefix on the disk of every copy |
| ProtocolSafety.ReadyServesAcknowledged | app/cluster/replication.py:6-42 | every READY copy's derived state is the rebuild of a log prefix that includes every acknowledged write |
| ProtocolSafety.ReadyCopiesAgree | app/cluster/replication.py:6-42 | when the whole log is acknowledged, all READY copies hold and derive the same |
| ProtocolSafety.NeverAheadOfPrimary | app/cluster/replication.py:205-216 | the branch for a replica ahead of its primary is unreachable |
| ProtocolSafety.SynchronizationEarnsReady | app/cluster/replication.py:196-259 | a replica becomes READY only by a comparison or an install, and is then fresh and has every acknowledged write |
| ProtocolSafety.InstallLosesNothingIff | app/search/engine.py:362-384 | an install keeps the invariant if and only if the snapshot contains everything the replica has reported and memory does not run ahead of it |
| ProtocolSafety.CatchesUp | app/cluster/replication.py:196-259 | a replica no further than a READY primary can come up, synchronize, and serve at its generation |
| ProtocolSafety.HealthyWriteIsAcknowledged | app/cluster/replication.py:118-178 | when every copy serves the whole log, a write can go all the way: committed, taken by every replica, acknowledged, and served fresh by every copy |
| ProtocolSafety.ReportsAreAcknowledged | app/cluster/replication.py:155-178 | a mutation in flight can still be acknowledged, without a further word from the replicas that have reported it, whatever has happened to their disks since: the others come up, synchronize and answer as duplicates |
| ProtocolSafety.DroppedReportLosesWrite | app/search/engine.py:362-384 | an install that drops a reported generation, acknowledged or still in flight, leads to its acknowledgement with this replica's disk behind it |
| ProtocolSafety.MarkReadyIsFreshIff | app/search/engine.py:219-223 | marking READY on equal generations is sound if and only if memory is at the disk's generation |
| ProtocolRuns.OverlapLosesAcknowledgedWrite | app/cluster/replication.py:223-259 | a run with overlapping synchronizations ends READY without an acknowledged write |
| ProtocolRuns.ReportedWriteIsLost | app/cluster/replication.py:223-259 | one in which nothing was acknowledged when the stale snapshot was installed, and the write is acknowledged afterwards |
| ProtocolRuns.DuplicateFromMemoryLosesWrite | app/cluster/replication.py:223-259 | one in which the replica had reported nothing at either install, answers a write as a duplicate from memory, and the write is acknowledged with its disk empty |
| Distribution.ShardRouter.ShardFor | app/cluster/routing.py:42-48 | every document has a shard that exists |
| Distribution.SameShardIff | app/cluster/routing.py:42-48 | two ids share a shard exactly when their digests differ by a multiple of the shard count |
| Distribution.PartitionExists | app/cluster/routing.py:42-48 | every corpus can be divided over the shards, losing nothing |
| Distribution.PartitionIsUnique | app/cluster/routing.py:42-48 | and in one way only |
| Distribution.PartsAreDisjoint | app/cluster/routing.py:42-48 | routing puts no document on two shards |
| Distribution.MergedStatsOfUnion | app/cluster/coordinator.py:11-24 | round one's sums are the statistics of one engine holding everything |
| Distribution.MergedStatsConsistent | app/cluster/coordinator.py:11-24 | merged statistics never report df > N |
| Distribution.LexicalUnion | app/search/ranking.py:69-122 | under shared statistics the shards' hits are separate and together exactly the single engine's hits |
| Distribution.MergeOfPages | app/cluster/coordinator.py:636-649 | merging the pages of separate hit sets gives the page of all hits, totals included |
| Distribution.DistributedEqualsSingleNode | app/cluster/coordinator.py:292-311 | two-round search gives the same ids, scores, texts, order and total as one engine, for every limit, empty and zero-length corpora included |
| Distribution.RoundsThatDiffer | app/cluster/coordinator.py:52-64 | when a pinned copy changes between the rounds, the ranking is of what it holds in the second, scored with the statistics of the first |
| Distribution.RoundsThatDifferHarmlessly | app/cluster/coordinator.py:24-39 | which is the single-node answer at every limit exactly when every hit scores the same under both statistics, as it does when the document count, the token count and the query terms' document frequencies are the same |
| Distribution.SameNumbersSameStats | app/search/index.py:46-69 | those numbers are all that statistics consist of |
| Distribution.LateWriteIsMissed | app/cluster/coordinator.py:24-39 | for every query with terms, a write between the rounds that costs the hit one engine would find |
| Statistics.StatsAgreeIff | app/search/index.py:46-69 | statistics are equal exactly when the three kinds of numbers are |
| Distribution.DistributedSemanticEqualsSingleNode | app/cluster/coordinator.py:340-351 | so does one-round semantic search |
| Distribution.DistributedHybridEqualsSingleNode | app/cluster/coordinator.py:379-439 | so does hybrid search over copies with equal corpora, at the same candidate depth |
| Coordinators.FirstWithStats | app/cluster/coordinator.py:572-591 | the index of the first copy that answers round one, or the number of copies when none does |
| Coordinators.FirstWithVectors | app/cluster/coordinator.py:353-377 | likewise for semantic queries |
| Coordinators.SortedTermsAreTheTerms | app/cluster/coordinator.py:284-290 | round one asks for exactly the query's distinct terms, in ascending order |
| Coordinators.Coordinator.UniqueTerms | app/cluster/coordinator.py:284-290 | computes that list, whatever order a set is walked in |
| Coordinators.Coordinator.StatsFromAnyCopy | app/cluster/coordinator.py:572-591 | the first copy in serving order that answers, or none if no copy does |
| Coordinators.Coordinator.SelectAndCollect | app/cluster/coordinator.py:559-570 | one pinned copy per shard with its statistics, or exactly the shards without one |
| Coordinators.Coordinator.FanOutSearch | app/cluster/coordinator.py:593-609 | round two asks the pinned copies only, and names exactly those that did not answer |
| Coordinators.Coordinator.Merge | app/cluster/coordinator.py:636-649 | concatenation, sort, truncation and summed totals |
| Coordinators.Coordinator.PinsIff | app/cluster/coordinator.py:559-591 | there is a copy to pin for every shard exactly when each shard has one that answers |
| Coordinators.Coordinator.SteadyCopiesAnswer | app/cluster/coordinator.py:292-311 | a query is answered whenever each shard has an answering copy and copies that answer round one answer round two |
| Coordinators.Coordinator.SearchPinned | app/cluster/coordinator.py:308-311 | round two over the pinned copies ranks what one engine holding their documents would rank with these statistics |
| Coordinators.Coordinator.PinnedCorpus | app/cluster/coordinator.py:292-311 | the pinned copies' statistics are one engine's over what they were counted on |
| Coordinators.Coordinator.SearchLocked | app/cluster/coordinator.py:292-311 | succeeds exactly when every shard takes part in both rounds, ranking what the pinned copies hold when scored with the statistics of what they held when counted; failure names exactly the shards at fault and returns nothing |
| Coordinators.Coordinator.Search | app/cluster/coordinator.py:274-290 | the same with the query's terms collected once, and at once for a query without terms |
| Coordinators.Coordinator.SemanticFromAnyCopy | app/cluster/coordinator.py:353-377 | the first copy in serving order that answers, or none if no copy does |
| Coordinators.Coordinator.FanOutSemantic | app/cluster/coordinator.py:340-351 | one answer per shard from its first answering copy, or exactly the shards without one |
| Coordinators.Coordinator.SemanticSearchLocked | app/cluster/coordinator.py:340-351 | success is the single-node ranking; failure names exactly the shards with no answering copy |
| Coordinators.Coordinator.SemanticSearch | app/cluster/coordinator.py:313-338 | the same for an embedded query; refused without an embedder or when embedding fails |
| Coordinators.Coordinator.FuseBoth | app/cluster/coordinator.py:419-439 | succeeds exactly when both paths do, with the fusion of both rankings, each that of one engine over the copies its fan-out chose; failure names exactly the shards at fault in the lexical path or, if that succeeded, in the semantic one |
| Coordinators.Coordinator.FusedPages | app/cluster/coordinator.py:379-439 | fusing the rankings of copies that hold the same documents throughout is the single-node hybrid answer |
| Coordinators.Coordinator.HybridSearch | app/cluster/coordinator.py:379-439 | the same as `FuseBoth` from the query text; each refusal |
| Clusters.RunLogRouted | app/cluster/coordinator.py:234-268 | with routed writes, a shard's log never mentions another shard's ids, in any state of any run |
| Clusters.ReplayIsOwned | app/cluster/routing.py:42-48 | the documents a log leaves belong to its shard |
| Clusters.ReadyCopyServesPrefix | app/cluster/replication.py:6-42 | a READY copy serves the replay of a log prefix between the last acknowledged and the last committed generation, all of it owned by its shard |
| Clusters.SearchReflectsAcknowledged | app/cluster/coordinator.py:52-64 | over any READY copies of running shards, distributed search is one engine's search over those prefixes, and no acknowledged write is missing |
| Clusters.FailoverIsTransparent | app/cluster/coordinator.py:52-64 | with no unacknowledged write outstanding, all choices of READY copies give the same lexical, semantic and hybrid answers, those of one engine |
| Clusters.DeploymentHolds | app/cluster/coordinator.py:52-64 | what the coordinator's contracts assume of its clients follows from the runs of the shards, at any moments a query looks at them |
| Clusters.ReadyServesPrefix | app/cluster/replication.py:6-42 | a READY copy of a running shard serves the replay of a log prefix that includes everything acknowledged by then |
| Clusters.SearchCluster | app/cluster/coordinator.py:274-311 | a query through the coordinator, writes landing meanwhile, ranks prefixes of the histories missing nothing acknowledged, as counted in round one and scored in round two; it fails exactly when a shard does not take part |
| Clusters.SameGenerationSameDocuments | app/cluster/replication.py:6-42 | copies of a shard at equal generations hold the same, at any two moments of a run |
| Clusters.StillIsSingleNode | app/cluster/coordinator.py:24-39 | when no pinned copy's generation moved between the rounds, the answer is the single-node one |
| Clusters.SemanticSearchCluster | app/cluster/coordinator.py:313-351 | a semantic query is one engine's over prefixes of the histories missing nothing acknowledged |
| Clusters.QuietChoiceIsWhole | app/cluster/coordinator.py:52-64 | with nothing committed meanwhile and nothing unacknowledged, every choice of copies, for every purpose, holds the whole history |
| Clusters.HybridSearchCluster | app/cluster/coordinator.py:379-439 | a hybrid query fuses both rankings of what its copies hold at their own moments; with nothing in doubt it is one engine's over the whole history, whichever copies its two fan-outs chose |

## Left out

* HTTP, JSON models, routes, logging, settings, wiring and scripts; only their outcomes appear (an answer, a failure, or a call whose effect lands late).
* SQLite itself: the store is an atomic map with a generation, and read failures are inputs of a rebuild.
* Threads and asyncio: each lock-protected section is one atomic step, so `status` reads taken outside the lock are not modelled.
* Readiness, cluster status, index statistics, timing reports and evaluation metrics: simple reads.
* Floating point, rounding and tolerances: scores and vectors are over the reals.
* Norm and finiteness checks of vectors, and embedder identity mismatches (a mismatched copy is one that does not answer).
* Blank ids and the limits refused at the HTTP boundary: limits of lexical and distributed queries are naturals.
* A snapshot that lists an id twice: a snapshot is a map.
* Enumeration order of dictionaries and of stored ids: loops take an arbitrary order.
- Engines.SearchEngine.CommitPut: sets the memory generation after, not before, updating derived state inside the same critical section, which nothing outside can observe.
- Engines.SearchEngine.CommitDelete: orders the same two assignments the same way.
- Engines.SearchEngine.RemoveDerived: like ApplyDerived, does not model a failure inside one structure's own update.
- Engines.SearchEngine.ApplyDerived: a failure falls between the updates of cache, index and vectors, not inside one of them; the protocol model allows any wreck.
- Coordinators.Coordinator.HybridSearch: a depth below 1 is refused before asking the shards, which would each refuse it.
- BM25.ScoreQuery: requires `k1 >= 0` and `0 <= b <= 1`; the code accepts any parameters and would divide by zero for some of the others.
- VectorIndexes.ExactVectorIndex.Validate: does not check norms or finiteness of rows, which are about rounding.
- Engines.SearchEngine.Validate: reads the store as one value; a read failure during validation is not modelled.
- Fusion.ReciprocalRankFusion: keeps candidates as values in a map, where the code mutates candidate objects that nothing else references.
