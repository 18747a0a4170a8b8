# ResearchMind, verified

A Dafny model of the bookkeeping that ResearchMind keeps under its language-model and
network calls, with proofs about it. `dafny verify dfyconfig.toml` checks everything.
What a language model, an embedder, a reranker or the network answers is an arbitrary
input everywhere; what is proved holds for every answer and every failure.

## What is modelled

- **Knowledge graph** (`GraphSchema`, `GraphPaths`, `GraphSearch`, `GraphObjects`,
  `GraphStore`): the in-memory store as a class whose edge map and two adjacency indexes
  mirror each other after every operation. Breadth-first search is exact, deletion detaches
  exactly the incident edges, and a restart from the saved file gives back the same graph.
  Nodes are objects that the store and its edges share and that are updated in place:
  exactly which edges report later updates, over every history.
- **Chunking** (`Sentences`, `Splitting`, `Chunking`, `Overlap`, `Breadcrumbs`, `Documents`,
  `Outlines`): from a document with its headings to numbered chunks. Of the visible
  characters only heading lines and slivers are in no chunk's content; lengths are bounded;
  exactly when the budget is kept, and when a breadcrumb names the right headings.
- **Agents** (`AgentState`, `Agents`, `ResearchGraph`, `Rag`): eleven agents over a shared
  state merged by reducers. A run is any sequence of replies, any of which may be an
  exception. The revision bound counts failures, is proved for every run and reached for
  every number of failures by a run whose other agents behave as they can. Citation numbers
  keep naming the same source, and the answer is the last draft.
- **BM25** (`Bm25`): statistics kept incrementally equal those recomputed from what is
  left, which is why search never divides by zero and scores are positive exactly for
  documents that contain a query term.
- **Retrieval** (`Hits`, `VectorStores`, `Fusion`, `Reranking`, `Retrieval`): the pipeline
  from two searches to authorised, distinct, live results.
- **Indexing** (`Indexing`): histories of runs, re-indexes, rebuilds of the sparse index and
  replacements of a paper's rows, each cut short between any two steps: exactly what is lost
  at every point, and when everything marked is in both indexes again.
- **Context packing** (`Tokens`, `Extraction`, `Context`): the greedy packer, its true bound,
  and for which budgets it can be relied on, with the terms of queries and sentences computed.
- **Server-sent events** (`EventStream`), **Markdown tables** (`Tables`): writers and readers
  that are inverse to each other.
- **Papers and blobs** (`Blobs`): no live paper ever loses its file, and exactly when a file
  is left behind.

`Sequences`, `Ordering`, `Options` and `Text` hold what several of these share: Python's
slicing, filtering and stable sorting, and the visible characters of a text. Most theory is
stated for any characters, identifiers or terms and used at the ones the program has.

A class method and the function it is proved against are one concept: the method follows
the program step by step, the lemmas are about the function. Scores are reals; `ln` is any
strictly increasing function with `ln(1) = 0`. Dictionaries whose order is not specified are
visited in an arbitrary order, and results are stated for every order.

## Where the code and its description differ

The model follows the code in each case.

- The critic and reviser loop is said to be bounded by `MAX_REVISIONS`. That check is at the
  end of the critic (`backend/app/agents/agents.py:405-406`): if the critic raises, an earlier
  `needs_revision` survives, and if the reflector raises, nothing is counted. The bound
  proved adds the failures, and is tight.
- `_hard_split` carries a tail over after its size check, so a piece may exceed `max_chars`
  by the overlap and one space (`backend/app/ingestion/chunking.py:145-150`): the budget is kept
  for all texts only without overlap. With a budget of zero characters it returns nothing.
- `pack_context` is said to fit chunks into a budget, but charges sentences one by one and
  then their join (`backend/app/llm/context.py:59`, `backend/app/llm/context.py:115`): with 40
  tokens or more to spend some input takes it 5 over.
- The start-up rebuild of the sparse index clears it before the query that may raise, and the
  exception is swallowed (`backend/app/main.py:32-36`, `backend/app/retrieval/service.py:250-262`).
  Chunks already marked are then in no sparse index, and runs skip them until a rebuild runs
  to its end.
- A re-index drops a paper's entries but not its `is_embedded` marks, so an interrupted one
  leaves marked chunks outside the indexes until another re-index of the paper runs to its
  end; and a paper without rows returns before stale entries are dropped
  (`backend/app/retrieval/indexer.py:56-63`).
- A search is said to return the neighbouring nodes, but `upsert_relationships` registers the
  caller's edge, and `upsert_nodes` updates the stored object in place
  (`backend/app/graph/store.py:141`, `backend/app/graph/store.py:150-152`). An edge whose endpoint
  is the stored object reports every update; one registered over another object goes on
  reporting what that one said. Building a paper a second time
  (`backend/app/graph/builder.py:98-99`) leaves such edges until the next restart.
- A heading with an empty body is dropped together with its title, and never closes the
  headings before it (`backend/app/ingestion/chunking.py:104-105`): what stands under a chapter
  that begins with its first subsection is filed under the chapter before it.
- `rerank_score or score` in the ranker treats a rerank score of zero as none
  (`backend/app/agents/agents.py:288`).
- Blobs are addressed by checksum and suffix but deleted by checksum
  (`backend/app/services/paper_service.py:126-133`): the same bytes under two suffixes can
  leave a blob that nothing refers to.

## Model

| member | source | states |
|---|---|---|
| `GraphSchema.NormalizeKeyIdempotent` | backend/app/graph/schema.py:106-114 | normalising a key a second time changes nothing, so reading a stored node never moves it |
| `GraphSchema.NodeUidInjective` | backend/app/graph/schema.py:67-82 | two valid nodes with one uid have the same label and key |
| `GraphSchema.EdgeUidInjective` | backend/app/graph/schema.py:85-103 | two valid relationships with one uid have the same type and the same endpoints |
| `GraphSchema.ResearchVocabularyWellFormed` | backend/app/graph/schema.py:15-63 | labels have no colon, relation types are upper-case, allowed endpoints are labels: what makes uids unambiguous |
| `GraphSchema.MakeNode` | backend/app/graph/schema.py:72-77 | a node is accepted exactly when its label is known and its key normalises to something; what is accepted is well formed |
| `GraphSchema.MakeRelationship` | backend/app/graph/schema.py:91-99 | an edge is accepted exactly when its type allows its endpoints' labels, and is stored under the uid of its type and endpoints |
| `GraphPaths.DistanceIsLayer` | backend/app/graph/store.py:168-197 | a node's shortest undirected path over wanted edges has d edges exactly when it enters the explored set at radius d |
| `GraphPaths.BallStops` | backend/app/graph/store.py:197-199 | once a level finds nothing new the explored set never grows again, so breaking out early loses nothing |
| `GraphSearch.LayeredIsExact` | backend/app/graph/store.py:156-201 | the search result read in terms of walks: every node at distance 1 to depth once, nearest first, each with a final edge that justifies it |
| `GraphSearch.StartIsNotAHit` | backend/app/graph/store.py:168-197 | the start node is never reported |
| `GraphSearch.LimitDropsFarthest` | backend/app/graph/store.py:201 | a node dropped by the limit is at least as far away as every node kept |
| `GraphSearch.SearchesAgree` | backend/app/graph/store.py:173-197 | two exact results list the same nodes at the same distances, whatever order the edge sets were iterated in |
| `GraphSearch.IndexRegister` | backend/app/graph/store.py:127-130 | registering an edge keeps an adjacency index mirroring the edges |
| `GraphSearch.FullyDetached` | backend/app/graph/store.py:226-234 | once every edge at a node has been popped and unlisted, an index mirrors exactly the edges that are left |
| `GraphObjects.MergedProperty` | backend/app/graph/store.py:132-143 | after a batch of upserts a property of the stored object is what the last other object of the batch that mentions it said, otherwise what it was; none is removed |
| `GraphObjects.EdgeReportsStoredIff` | backend/app/graph/store.py:86-154 | from a load on, over every history of constructions, upserts, registrations and deletions: the endpoint a search reports over an edge is the stored object if and only if the edge was loaded, or registered last when nothing was stored under that uid or that very object was; any other says for ever what it said when the edge was registered |
| `GraphObjects.AttachedIff` | backend/app/graph/store.py:127-154 | the same from any graph: which edge is stored, and when its endpoint is the stored object |
| `GraphObjects.UpdateIsReportedIff` | backend/app/graph/store.py:132-143 | an upsert that changes a property is seen over an edge if and only if the edge holds the stored object, and over no other edge does anything change |
| `GraphObjects.BuildAttachesIff` | backend/app/graph/builder.py:98-99 | building a paper's graph, nodes and then edges over the same objects: an edge holds the stored node if and only if its uid was new and its object the first of the batch with it, or that object was stored before |
| `GraphObjects.RebuiltEdgeGoesStale` | backend/app/graph/store.py:132-154 | a node upserted again as a new object, with an edge to that object: the next update reaches the stored node, and the edge goes on reporting the old value |
| `GraphStore.InMemoryGraphStore.RegisterEdge` | backend/app/graph/store.py:127-130 | one edge enters the edge map and both adjacency indexes, which still mirror each other |
| `GraphStore.InMemoryGraphStore.UpsertNodes` | backend/app/graph/store.py:132-143 | new nodes are stored themselves, stored ones updated in place, one after the other; edges untouched, the invariant kept, the file written when something was added |
| `GraphStore.InMemoryGraphStore.UpsertRelationships` | backend/app/graph/store.py:145-154 | endpoints are stored where missing, the caller's edge object registered, the invariant kept |
| `GraphStore.InMemoryGraphStore.Serve` | backend/app/graph/store.py:127-235 | any sequence of requests is a history of those steps, so the results about edges and their endpoints hold after it; invariant and saved file are kept |
| `GraphStore.InMemoryGraphStore.DeletePaper` | backend/app/graph/store.py:221-235 | removes the paper's node and exactly the edges that touch it, and counts them |
| `GraphStore.InMemoryGraphStore.DetachEdges` | backend/app/graph/store.py:226-234 | the popping loop removes exactly the incident edges from the edge map and from both indexes |
| `GraphStore.InMemoryGraphStore.Follow` | backend/app/graph/store.py:176-196 | following one node's edges in one direction reports exactly its unseen wanted neighbours |
| `GraphStore.InMemoryGraphStore.ExpandLevel` | backend/app/graph/store.py:173-197 | one level reports exactly the unseen neighbours of the frontier |
| `GraphStore.InMemoryGraphStore.Neighbors` | backend/app/graph/store.py:156-201 | breadth-first search is exact before the limit, with depth at least 1; the one stored edge a hit reports carries the node it returns and ends a shortest walk to it |
| `GraphStore.InMemoryGraphStore.Flush` | backend/app/graph/store.py:104-125 | the file holds every node once and every edge once |
| `GraphStore.InMemoryGraphStore.Load` | backend/app/graph/store.py:86-102 | loading rebuilds nodes, edges and both indexes, every edge holding the stored nodes; an unreadable file leaves the store empty, a rejected entry aborts |
| `GraphStore.LoadOfSnapshotSucceeds` | backend/app/graph/store.py:86-125 | reading back a snapshot of a consistent graph succeeds and skips no edge |
| `GraphStore.FlushLoadRoundTrip` | backend/app/graph/store.py:86-125 | what a restart makes of a snapshot is the same nodes, edges and adjacency by uid |
| `GraphStore.Restart` | backend/app/graph/store.py:76-125 | a new store on the file of a saved one holds the same graph, with every edge attached to the stored nodes again |
| `Sentences.SentencesConserve` | backend/app/ingestion/chunking.py:131 | splitting into sentences removes nothing but whitespace |
| `Splitting.SplitAll` | backend/app/ingestion/chunking.py:133-150 | the two nested loops compute the splitting function; the inner one ends for every budget and overlap |
| `Splitting.HardSplit` | backend/app/ingestion/chunking.py:125-155 | the method computes the splitting function the lemmas below are about |
| `Splitting.HardSplitConserves` | backend/app/ingestion/chunking.py:125-155 | each piece is new text preceded by a repeat of at most the overlap that ends the previous piece; the new text is the input, nothing lost or reordered |
| `Splitting.HardSplitConservesIff` | backend/app/ingestion/chunking.py:125-155 | for every overlap, the pieces account for the whole input if and only if the budget is at least one character or nothing was visible |
| `Splitting.HardSplitWithoutOverlap` | backend/app/ingestion/chunking.py:125-155 | with overlap 0 the pieces hold exactly the visible characters of the input if and only if the budget is not 0 or there are none |
| `Splitting.HardSplitBounded` | backend/app/ingestion/chunking.py:137-153 | a piece is stripped and at most budget + overlap + 1 characters, within the budget when there is no overlap |
| `Splitting.HardSplitPiecesNonEmpty` | backend/app/ingestion/chunking.py:155 | no empty piece is returned |
| `Overlap.BudgetKeptIffNoOverlap` | backend/app/ingestion/chunking.py:137-150 | for every budget of at least one character, all pieces of all texts keep to it if and only if the overlap is 0 |
| `Overlap.LastPieceOverflows` | backend/app/ingestion/chunking.py:145-150 | sentences of the whole budget's length: the last piece carries the whole overlap, but for at most a space, on top of the budget |
| `Overlap.OnePieceFits` | backend/app/ingestion/chunking.py:137-153 | a split into a single piece keeps to the budget, since nothing was carried over |
| `Chunking.RawParagraphsConserve` | backend/app/ingestion/chunking.py:118-122 | splitting at blank lines removes nothing but whitespace |
| `Chunking.ParagraphsConserve` | backend/app/ingestion/chunking.py:118-122 | the paragraphs hold all visible characters of the text, in order |
| `Chunking.PackParagraphs` | backend/app/ingestion/chunking.py:171-187 | the packing loop computes the packing function |
| `Chunking.ChunkText` | backend/app/ingestion/chunking.py:158-204 | the method computes the chunks the lemmas below are about |
| `Chunking.PartsConserve` | backend/app/ingestion/chunking.py:171-192 | packing loses nothing: new text, each part after a repeat of at most the overlap of the part before it, adds up to the section |
| `Chunking.PackedFits` | backend/app/ingestion/chunking.py:172-190 | every part is non-empty and within the budget, or a hard-split piece of an oversized paragraph and at most the overlap and one space beyond it |
| `Chunking.OnlySliversAreDropped` | backend/app/ingestion/chunking.py:192-204 | the only text dropped is whole parts under 80 characters, and none when there is a single part |
| `Chunking.ChunksBounded` | backend/app/ingestion/chunking.py:158-204 | every chunk is non-empty and within four characters per token of budget and overlap, plus one character |
| `Overlap.BudgetKeptIff` | backend/app/ingestion/chunking.py:158-204 | in tokens, for every text: no chunk's estimate exceeds the maximum if and only if the maximum is 0, the overlap is 0, or they add up to less than 20, when what overflows is dropped as a sliver |
| `Overlap.PartsConserveIff` | backend/app/ingestion/chunking.py:171-192 | a section is accounted for by its parts if and only if the budget is at least one character or nothing was visible |
| `Breadcrumbs.StackIsAncestorChain` | backend/app/ingestion/chunking.py:219-222 | a section is on the stack exactly when every later section up to the current one has a greater level; order and levels follow the document |
| `Breadcrumbs.StackLevelsIncrease` | backend/app/ingestion/chunking.py:219-222 | levels strictly increase along the stack |
| `Breadcrumbs.StackIsRightIff` | backend/app/ingestion/chunking.py:216-222 | with headings left out, the stack at a kept one names the headings of the full stack if and only if every heading that encloses it was kept |
| `Documents.SplitSections` | backend/app/ingestion/chunking.py:82-115 | the loop returns the synthetic first section and the headings' sections that have a text |
| `Outlines.DocumentConserves` | backend/app/ingestion/chunking.py:82-237 | whole documents: heading lines and bodies are all that is visible, section texts are the bodies, parts account for every section if and only if the budget is not 0 or there is no section, and the chunks' contents are those parts less the slivers |
| `Outlines.ContentsAreKeptParts` | backend/app/ingestion/chunking.py:192-237 | section by section, the contents are all of a single part, and of several those of 80 characters or more |
| `Outlines.PathIsRightIff` | backend/app/ingestion/chunking.py:98-115 | a section's breadcrumb names the headings it stands under if and only if each of those has a body of its own, a preamble with text counting as a first heading of level 1 |
| `Outlines.FiledUnderTheWrongChapter` | backend/app/ingestion/chunking.py:104-222 | a second chapter that starts with its first subsection: the subsection is filed under the first chapter |
| `Outlines.SampleIsMisfiled` | backend/app/ingestion/chunking.py:82-115 | a document of five lines whose section 3.1 comes out under chapter 2 |
| `Documents.SectionsAreNonEmptyBodies` | backend/app/ingestion/chunking.py:98-105 | the section texts are the stripped preamble and bodies in order, less the empty ones |
| `Documents.PushSection` | backend/app/ingestion/chunking.py:219-221 | popping the headings that do not enclose the new one, then pushing it |
| `Documents.ChunkSections` | backend/app/ingestion/chunking.py:216-232 | the loop chunks every section under its breadcrumb, numbering on |
| `Documents.ChunkDocument` | backend/app/ingestion/chunking.py:207-237 | the document's chunks, re-indexed from 0 |
| `Documents.ChunkCarriesItsPath` | backend/app/ingestion/chunking.py:218-232 | every chunk of a document carries the breadcrumb, the text and the length bound of one section |
| `Documents.AppendNumbered` | backend/app/worker/tasks.py:218-247 | tables and figures with a caption are numbered on from the text chunks |
| `Documents.PaperChunksNumbered` | backend/app/worker/tasks.py:214-247 | text, table and figure chunks together are indexed exactly 0 to n-1 |
| `Documents.ChunkTable.ReplaceChunks` | backend/app/worker/tasks.py:203-260 | a paper's rows become exactly its new chunks under their own indices; other papers' rows are untouched |
| `Agents.Act` | backend/app/agents/agents.py:95-565 | an agent writes only its own keys: sources only the retrievers and the ranker, the flag only the critic, the count only the reflector, citations only the citation agent |
| `Agents.PlanIsUsable` | backend/app/agents/agents.py:110-124 | a plan has one to four sub-questions, none blank unless it is the question itself |
| `Agents.GraphRetrieverOnlyAdds` | backend/app/agents/agents.py:187-239 | the graph retriever keeps what was retrieved, in place, and adds everything it found |
| `Agents.CitationPublishesDraft` | backend/app/agents/agents.py:513-524 | the final answer is the draft, its citations exactly the markers that number a source |
| `Agents.RankedByRerankerIff` | backend/app/agents/agents.py:286-288 | in any list of passages with rerank scores of their own, a passage is placed as the rerank scores say if and only if its rerank score is not zero or its first score is |
| `Agents.RankedByNonnegativeRerankerIff` | backend/app/agents/agents.py:286-288 | with a reranker that never scores below zero: if and only if its rerank score is not zero or its first score is not positive |
| `Agents.ZeroRerankOutranks` | backend/app/agents/agents.py:286-288 | a chunk the reranker gave 0 comes before one it gave more, if its first score is higher still |
| `ResearchGraph.RunInvariant` | backend/app/agents/graph.py:57-102 | over every run with failures: steps are the visits in order, errors the failed visits, visits match the position, revisions are bounded |
| `ResearchGraph.RevisionsAreBounded` | backend/app/agents/agents.py:399-451 | reflector visits are at most 2 plus failed critic visits plus failed reflector visits; the revision count at most 2 plus failed critic visits |
| `ResearchGraph.RevisionBoundIsTight` | backend/app/agents/agents.py:72-89 | for any numbers c and f, any question that is not blank and any source that fits the context there is a run with c failed critics and f failed reflectors that reaches the bound, in which only visits fail that wait for something outside and retrieval finds nothing for blank queries |
| `ResearchGraph.FinishedRunSteps` | backend/app/agents/graph.py:78-102 | a finished run with r reflector visits has recorded exactly 10 + 2r steps, one error per failure |
| `ResearchGraph.StreamResearch` | backend/app/agents/graph.py:134-167 | every recorded step is streamed exactly once and in order, then the result |
| `ResearchGraph.RankedIsDistinct` | backend/app/agents/agents.py:279-292 | re-sorting and packing repeat no chunk |
| `ResearchGraph.SourcesAreDistinct` | backend/app/agents/agents.py:145-239 | in every reachable state the sources repeat no chunk and the citations are ascending numbers of sources |
| `ResearchGraph.SourcesAreSettled` | backend/app/agents/graph.py:83-102 | once the ranker has run the sources never change |
| `ResearchGraph.CitationNamesOneSource` | backend/app/agents/agents.py:513-524 | a citation number names the same source when drafting, when resolving citations and in the serialised result |
| `ResearchGraph.AnswerIsLastDraft` | backend/app/agents/agents.py:447-565 | a finished run answers with its last draft, alone or with a summary in front, and a draft once there is not lost to any later agent or failure |
| `ResearchGraph.ConfidenceIsCapped` | backend/app/agents/agents.py:467-507 | in every reachable state the confidence is the verdict's, at most 0.35 if it flagged the answer, and 0 without a verdict |
| `Rag.CitationsAre` | backend/app/llm/rag.py:109-121 | the citations are exactly the markers in range, ascending, each once |
| `Rag.ExtractCitations` | backend/app/llm/rag.py:109-121 | the loop and the sort compute them |
| `Rag.ExtendedIsDistinct` | backend/app/llm/rag.py:256-257 | adding the results of a second retrieval repeats no chunk and loses none |
| `Rag.MergeListsIs` | backend/app/agents/agents.py:152-169 | merging the results of several queries keeps exactly the chunks found, each once |
| `Rag.MergeResults` | backend/app/agents/agents.py:152-169 | the retriever's loop with its `seen` set computes that merge |
| `Bm25.BM25Index.RemoveUnlocked` | backend/app/retrieval/sparse.py:91-103 | removing a chunk leaves the statistics those of the remaining documents, with no zero entries |
| `Bm25.BM25Index.Add` | backend/app/retrieval/sparse.py:105-129 | adding or re-adding a chunk leaves the statistics those of the new set of documents |
| `Bm25.BM25Index.RemovePaper` | backend/app/retrieval/sparse.py:131-136 | removes and counts exactly the paper's documents, statistics kept |
| `Bm25.BM25Index.Clear` | backend/app/retrieval/sparse.py:138-142 | empties documents and statistics |
| `Bm25.BM25Index.Search` | backend/app/retrieval/sparse.py:152-199 | returns the top of exactly the matching documents that contain a query term, scored from the documents held, never dividing by zero |
| `Bm25.SearchedIsSound` | backend/app/retrieval/sparse.py:174-199 | every hit matches the filters, contains a query term and has a positive score; no chunk comes twice |
| `Bm25.SearchIsComplete` | backend/app/retrieval/sparse.py:174-199 | a matching document is missing only when the limit is used up by documents that score at least as well |
| `Bm25.FrequencyAtMostCorpus` | backend/app/retrieval/sparse.py:144-150 | a term's document frequency is between 1 and the number of documents, so its idf is positive |
| `Bm25.ScorePositive` | backend/app/retrieval/sparse.py:177-188 | a score is positive exactly when the document contains a query term |
| `Bm25.RarerTermsWeighMore` | backend/app/retrieval/sparse.py:144-150 | of two terms the rarer has the greater idf, and both are positive |
| `Bm25.SurvivorWasAddedLast` | backend/app/retrieval/sparse.py:105-142 | what a document holds is what its last addition said |
| `Bm25.AddedLastSurvives` | backend/app/retrieval/sparse.py:105-142 | an addition survives unless a later update re-adds the chunk, drops its paper or clears the index |
| `Bm25.Replay` | backend/app/retrieval/sparse.py:91-142 | after any history the statistics are those of the surviving documents alone |
| `Bm25.RebuildSparseIndex` | backend/app/retrieval/service.py:250-282 | the rebuild holds exactly the rows it reached before it stopped, none if it stopped at the query, and all if it ran to its end |
| `Bm25.RebuildEqualsIncremental` | backend/app/retrieval/service.py:250-282 | rebuilding from the rows gives the same documents and statistics as the incremental history |
| `Bm25.RestartFromRows` | backend/app/retrieval/service.py:250-282 | a restarted process rebuilt from the rows holds the same documents and statistics as the one before it after any history |
| `Extraction.ExtractSupportingSentences` | backend/app/retrieval/reranker.py:164-184 | the loop computes the extraction function |
| `Extraction.SupportingAreTheBest` | backend/app/retrieval/reranker.py:164-184 | the sentences returned are long enough, share a term, come best first, and a qualifying one is missing only when the limit is used up by sentences that share as many |
| `Context.KeepAffordable` | backend/app/llm/context.py:56-63 | the loop keeps the longest prefix whose separate estimates fit |
| `Context.JoinedCost` | backend/app/llm/context.py:56-71 | joining n sentences can cost n-1 tokens more than they cost one by one |
| `Context.PackContext` | backend/app/llm/context.py:75-130 | the loop computes the packing function |
| `Context.PackBounds` | backend/app/llm/context.py:75-130 | used tokens are the estimates of what was packed; packed plus dropped is the input; at most 5 over the budget, by the last passage, only after compressing, from 40 below |
| `Context.NothingAfterOvershoot` | backend/app/llm/context.py:97-115 | after an overshoot everything is dropped |
| `Context.KeepsBudgetIff` | backend/app/llm/context.py:97-115 | the budget is kept if and only if no excerpt, spaces included, is four characters or more too long for the room left |
| `Context.PackKeepsOrder` | backend/app/llm/context.py:97-117 | what is packed are whole passages or joins of their best sentences, in the order they came |
| `Context.ChargedForItsSpaces` | backend/app/llm/context.py:56-71 | a passage whose sentences fit one by one but not joined is packed as it stands and charged for its spaces too |
| `Context.SomePassageOvershoots` | backend/app/llm/context.py:75-115 | for every budget of 40 tokens or more there are a passage and a query over which it is charged 5 too many |
| `Context.WorstOvershoot` | backend/app/llm/context.py:75-130 | from the two numbers a caller passes: the budget is kept for all passages and all queries if and only if it is below 40 tokens, and from 40 on the worst excess is exactly 5 |
| `Fusion.Merge` | backend/app/retrieval/fusion.py:54-75 | the loop over one list computes the merge function, insertion order included |
| `Fusion.ReciprocalRankFusion` | backend/app/retrieval/fusion.py:37-86 | the two merges, the sort and the limit |
| `Fusion.FusedEntry` | backend/app/retrieval/fusion.py:54-78 | an entry exists for exactly the chunks some list has, scored by the sum of its places, with both ranks |
| `Fusion.MetadataIsKept` | backend/app/retrieval/fusion.py:67-69 | what an entry's metadata says is never overwritten |
| `Fusion.OutputIsDistinct` | backend/app/retrieval/fusion.py:80-86 | the output repeats no chunk and has only chunks some list has |
| `Fusion.DominantComesFirst` | backend/app/retrieval/fusion.py:54-86 | an item ahead of another in each list where the other appears precedes it in the output, whatever the limit |
| `Fusion.AgreementComesFirst` | backend/app/retrieval/fusion.py:54-86 | with equal weights an item within the first k + 2 of both lists precedes every item only one list has |
| `Fusion.AgreementReachIsExact` | backend/app/retrieval/fusion.py:54-86 | from place k + 3 in both lists on, the first item of a single list comes before it |
| `VectorStores.Matches` | backend/app/retrieval/vector_store.py:43-60 | true exactly when every filter accepts the metadata |
| `VectorStores.InMemoryVectorStore.Upsert` | backend/app/retrieval/vector_store.py:120-124 | records are inserted or replaced by chunk id, in order |
| `VectorStores.InMemoryVectorStore.Search` | backend/app/retrieval/vector_store.py:126-147 | exact search over the records, raising exactly when a vector to be compared has another dimension |
| `VectorStores.InMemoryVectorStore.DeleteByPaper` | backend/app/retrieval/vector_store.py:149-155 | removes and counts exactly the paper's records |
| `VectorStores.SearchIsSound` | backend/app/retrieval/vector_store.py:134-147 | every hit is a record the filters admit with its dot product; none comes twice |
| `VectorStores.SearchIsComplete` | backend/app/retrieval/vector_store.py:134-147 | an admitted record is missing only when the limit is used up by scores at least as good |
| `VectorStores.SearchIsSorted` | backend/app/retrieval/vector_store.py:146-147 | hits come best first |
| `Reranking.RankingIs` | backend/app/retrieval/reranker.py:54-59 | the ranking lists every candidate once, by score, equal scores in their incoming order |
| `Reranking.Rerank` | backend/app/retrieval/reranker.py:48-70 | ranks, numbers and cuts the candidates; raises exactly when there is not one score each |
| `Reranking.NoOpKeepsOrder` | backend/app/retrieval/reranker.py:151-158 | the reranker that does nothing keeps the order exactly |
| `Retrieval.CandidateCount` | backend/app/retrieval/service.py:149 | four times the limit, at most 200 |
| `Retrieval.ApplyReranker` | backend/app/retrieval/service.py:232-247 | the survivors in the order of the new scores, each with its score |
| `Retrieval.SurvivorsAre` | backend/app/retrieval/service.py:164-183 | what survives loading has a live row of a live paper in a wanted section, in fused order, none twice |
| `Retrieval.RerankedAreTheTop` | backend/app/retrieval/service.py:232-247 | with reranking the result is exactly the top-scored survivors, ties in fused order |
| `Retrieval.AnswerIsLive` | backend/app/retrieval/service.py:160-191 | no chunk twice, no more than asked for, nothing but live rows, each with the sentences that support the query |
| `Retrieval.AnswerIsAuthorised` | backend/app/retrieval/service.py:98-162 | while the indexes describe the rows faithfully, every result is in a paper the caller may see and of a kind asked for |
| `Retrieval.Retrieve` | backend/app/retrieval/service.py:118-202 | the pipeline computes its answer from the two searches, meets both contracts, and raises only for a dimension or score-count mismatch |
| `Indexing.Indexer.IndexBatch` | backend/app/retrieval/indexer.py:66-111 | wherever a batch stops: nothing written, or its dense entries, then sparse entries one by one, and the marks only at the very end |
| `Indexing.Indexer.IndexAll` | backend/app/retrieval/indexer.py:66-111 | wherever the loop stops, what it marked, what it wrote sparsely and what it wrote densely are prefixes of the chunks, each at least as long as the one before, every entry current |
| `Indexing.Indexer.Pending` | backend/app/retrieval/indexer.py:47-54 | the chunks to do are exactly the paper's, or its unmarked ones, each once, in chunk order |
| `Indexing.Indexer.IndexPaper` | backend/app/retrieval/indexer.py:24-116 | a run that nothing stops returns, with the number of chunks done, and leaves the paper marked; one without re-indexing is exact at every point of interruption; a re-index keeps the invariant at every point if and only if the paper has no marked chunk, and a completed one establishes it for the whole database if and only if nothing was lost outside the paper, and leaves exactly the rows in both indexes if and only if there are rows or were no entries |
| `Indexing.WritingKeepsSound` | backend/app/retrieval/indexer.py:66-101 | writing part of a batch marks only rows and adds only entries that describe them |
| `Indexing.WritingRestores` | backend/app/retrieval/indexer.py:66-111 | of the marked chunks an index lacks, writing brings back exactly those written |
| `Indexing.RunContinues` | backend/app/retrieval/indexer.py:48-111 | a run without re-indexing, wherever it stops, keeps marks and entries and repairs nothing: what marked chunks lacked before, they lack after |
| `Indexing.ReindexLoses` | backend/app/retrieval/indexer.py:56-111 | what marked chunks lack after a re-index stopped anywhere: what they lacked, and the paper's, less what was written again |
| `Indexing.ReindexKeepsStepIff` | backend/app/retrieval/indexer.py:56-111 | a re-index stopped anywhere keeps the invariant if and only if it has not begun or has written every marked chunk of the paper again |
| `Indexing.ReindexRestoresIff` | backend/app/retrieval/indexer.py:56-111 | a completed re-index establishes the invariant for the whole database if and only if only the paper's chunks lacked entries |
| `Indexing.ReindexIsExact` | backend/app/retrieval/indexer.py:59-111 | after dropping a paper and writing all its rows, both indexes hold exactly its rows |
| `Indexing.Indexer.Rebuild` | backend/app/retrieval/service.py:250-282 | the sparse index holds exactly the rows reached, currently, wherever the rebuild stops |
| `Indexing.RebuildKeepsStepIff` | backend/app/retrieval/service.py:250-282 | after a rebuild stopped anywhere the invariant holds if and only if every marked chunk was reached and the dense index has them all |
| `Indexing.FailedRebuildLosesAll` | backend/app/main.py:30-38 | a start-up rebuild that fails after clearing leaves every marked chunk outside the sparse index, no later run without re-indexing brings one back, and a later completed rebuild does |
| `Indexing.LastRebuildDecides` | backend/app/api/v1/endpoints/admin.py:137-150 | after a rebuild and any runs and replacements, the invariant holds if and only if no chunk that was marked and not reached is marked still |
| `Indexing.Indexer.ReplaceRows` | backend/app/worker/tasks.py:203-258 | a paper's rows are replaced by new, unmarked ones under unused ids; both indexes keep their entries |
| `Indexing.ReplacingKeepsSound` | backend/app/worker/tasks.py:203-258 | replacing rows loses nothing that is still marked |
| `Indexing.Indexer.Drive` | backend/app/retrieval/indexer.py:51-111 | every sequence of runs, re-indexes, rebuilds and replacements, each cut short anywhere, is a history of the steps the lemmas are about, so the invariant holds at its end exactly when the account of losses is empty; what is sent to the embedder is at most what was waiting, was inserted or was asked for again, plus interrupted runs times batch size |
| `Indexing.HistoryKeepsSound` | backend/app/retrieval/indexer.py:51-111 | over every history only rows are marked and every entry for a row describes it |
| `Indexing.StepLoses` | backend/app/retrieval/indexer.py:24-116 | whatever happens and wherever it is cut short, what marked chunks lack afterwards is exactly what they lacked, with what a re-index or rebuild dropped and less what it wrote again |
| `Indexing.HistoryIsInStepIff` | backend/app/retrieval/indexer.py:20-116 | over every history: every marked chunk is in both indexes if and only if the account of losses, kept event by event from what each wrote, is empty at the end |
| `Indexing.SettledHistoryIsInStep` | backend/app/retrieval/indexer.py:20-111 | over every history of runs, re-indexes, rebuilds and replacements, each cut short anywhere: every marked chunk is in both indexes once the last rebuild ran to its end and so did the last re-index of each paper |
| `EventStream.SplitConcat` | frontend/src/lib/api/client.ts:294-298 | splitting x + y gives the complete frames of x, then the split of what x left over followed by y |
| `EventStream.FrameRoundTrip` | frontend/src/lib/api/client.ts:300-310 | a newline-free payload comes back unchanged exactly when it is non-empty, trimmed and not the end marker |
| `EventStream.YieldFrames` | frontend/src/lib/api/client.ts:300-314 | the inner loop yields the payloads of the complete frames that parse |
| `EventStream.StreamResearch` | frontend/src/lib/api/client.ts:286-315 | what is yielded and what is held back depend only on the text received, never on where the reads were cut |
| `EventStream.WriteEvents` | backend/app/api/v1/endpoints/research.py:106-115 | one frame per event, then the end marker |
| `EventStream.WireRoundTrip` | backend/app/api/v1/endpoints/research.py:106-115 | reading the written stream yields exactly the events and leaves nothing in the buffer |
| `EventStream.StreamRoundTrip` | frontend/src/lib/api/client.ts:286-315 | the same under arbitrary read boundaries |
| `EventStream.CutStreamYieldsPrefix` | frontend/src/lib/api/client.ts:286-315 | a stream cut anywhere yields a prefix of the events |
| `Tables.CleanIs` | backend/app/ingestion/assets.py:48-49 | a cleaned cell is stripped, has no whitespace but spaces, and has lost nothing else |
| `Tables.UnescapeEscaped` | backend/app/ingestion/assets.py:67 | reading undoes the escaping of pipes, whatever backslashes the cell has |
| `Tables.RowRoundTrip` | backend/app/ingestion/assets.py:66-76 | a rendered row is read back as it was |
| `Tables.CellsToMarkdown` | backend/app/ingestion/assets.py:52-77 | the method computes the rendering |
| `Tables.TableRoundTrip` | backend/app/ingestion/assets.py:52-77 | a table with a non-empty row is read back as its cleaned cells padded to the width; one without renders to nothing |
| `Tables.RenderIsInjective` | backend/app/ingestion/assets.py:52-77 | two tables render alike if and only if their cleaned padded cells are the same |
| `Tables.MarkdownRoundTrip` | backend/app/ingestion/assets.py:48-77 | the round trip for the characters actually used |
| `Blobs.KeyDetermines` | backend/app/core/storage.py:83-90 | a storage key determines the checksum and the suffix |
| `Blobs.KeysAreSound` | backend/app/core/storage.py:83-90 | the keys the service builds have that property |
| `Blobs.PaperService.UploadPaper` | backend/app/services/paper_service.py:61-87 | the blob is saved unless present, then the row is added or the commit conflicts |
| `Blobs.PaperService.DeletePaper` | backend/app/services/paper_service.py:120-133 | the row is deleted, and the blob once no row has its checksum |
| `Blobs.BlobsAreSafe` | backend/app/services/paper_service.py:61-133 | over every run of uploads, conflicts and deletions the blob of every live paper exists and has its checksum |
| `Blobs.OneSuffixNoOrphans` | backend/app/services/paper_service.py:61-133 | if all uploads of the same bytes use one suffix, the blobs are exactly those of the live papers |
| `Blobs.DeleteOrphansIff` | backend/app/services/paper_service.py:126-133 | a deletion orphans a blob if and only if another paper has the checksum and none has the key |
| `Blobs.ConflictOrphansIff` | backend/app/services/paper_service.py:61-84 | a conflicting upload orphans a blob if and only if its key was not stored |
| `Blobs.TwoSuffixesOrphan` | backend/app/services/paper_service.py:61-133 | any bytes uploaded under two suffixes and deleted leave a blob for ever |

## Left out

- Neo4j, Qdrant, FAISS, SQLAlchemy, Celery, LangGraph, PyMuPDF and the model providers are not part of this model; only the state transitions around them are. LangGraph's limit on the number of steps of one run is left out, so a run here may be longer than the program allows.
- Prompts, JSON parsing of model answers, injection detection, authentication, PDF and file-name checks: an upload is modelled with whether it passes validation.
- Wall-clock durations, logging, metrics, and rounding of confidences and scores: scores are exact reals.
- Regular expressions for headings and citations: heading matches and bracketed numbers are inputs. Blank-line and sentence splitting and the tokens of queries and sentences are modelled in full; BM25 takes token lists as given.
- Letters are ASCII letters only, where keys, file suffixes and tokens are lower-cased and where tokens are cut.
- Year filters: the request carries them but no query applies them.
- Concurrent runs and several processes with their own sparse index: runs are sequential and the lock around BM25 makes a search see one state.
- `find_nodes`, `counts` and `run_read` of the graph store, and the comparison, trend, gap and evaluation code, would only add easy members.
- BM25 with other constants than the defaults 1.5 and 0.75.
- `compress_context`: it packs again with text a model rewrote; the packing bound applies to that call too.
- The lexical and cross-encoder rerankers' scores are arbitrary inputs.
- Persistence of the vector store: it is assumed to survive a restart, as the production store does.
- GraphSchema.MakeNode: gives every node object properties of its own, because the program passes a fresh dictionary to each; two objects sharing one dictionary are not modelled.
- Indexing.Indexer.IndexPaper: requires a batch size of at least 1, because `range` raises on 0 and skips everything on a negative step, and no caller passes either.
- Fusion.ReciprocalRankFusion: requires a non-negative k, because a negative k can make a denominator zero, which raises.
- Agents.Act: lets every agent fail, also those whose code cannot raise, because the bounds proved hold for more runs then.
- Blobs.BlobsAreSafe: says the stored bytes have the recorded checksum, not that they are the uploaded bytes, because that needs SHA-256 to be free of collisions.
- Indexing.Indexer.Drive: adds and removes no papers, because only their rows are written to the indexes; deleting a paper's rows is a replacement by none.
- Indexing.Indexer.ReplaceRows: requires of new row ids that no row and no index entry has them, because they are random UUIDs.
- Indexing.Indexer.Rebuild: runs while nothing else does, because runs are sequential here; a search between two additions of a rebuild sees the rows added so far.
- GraphSchema.NormalizeKeyIdempotent: lower-cases ASCII letters only, because case mappings of other characters are not modelled.
- ResearchGraph.ConfidenceIsCapped: does not model the rounding of the confidence to two digits, because scores are exact reals here.
- Outlines.DocumentConserves: takes where the headings are as given, because the heading pattern is a regular expression over whole lines.
