/** The agents, each a function from the state and what the outside world answers to
    the keys it changes (backend/app/agents/agents.py). */
module Agents {
  import opened Options
  import opened Ordering
  import opened Extraction
  import opened Context
  import opened Retrieval
  import opened Rag
  import opened AgentState

  const MAX_REVISIONS: nat := 2
  const MAX_CONTEXT_TOKENS: int := 6000
  const MAX_SUB_QUESTIONS: int := 4
  const LONG_ANSWER_CHARS: nat := 1200
  const UNSUPPORTED_CONFIDENCE: real := 0.35

  /** What comes back from the language model, the retrieval pipeline, the knowledge
      graph or the web during one visit. `Raised` is any exception, a malformed answer
      included. */
  datatype Reply<Id, C> =
    | Raised
    | Planned(intent: Intent, questions: seq<seq<C>>, needsWebSearch: bool, tokens: nat)
    | Retrieved(lists: seq<seq<RetrievedChunk<Id, seq<C>>>>)
    | Expanded(paths: seq<seq<C>>, related: seq<RetrievedChunk<Id, seq<C>>>)
    | Searched(results: seq<seq<C>>)
    | Answered(text: seq<C>, tokens: nat)
    | Critiqued(issues: seq<seq<C>>, flagged: bool, tokens: nat)
    | Verified(verdict: Verification, tokens: nat)

  /** Text handling the agents call into: the query model for packing, a space, blanks
      and stripping, the issue list as text, the fixed answer for no sources, the
      bracketed numbers in an answer, and an answer with a summary put in front. */
  datatype Words<!C(!new)> =
    Words(query: Query<C>, space: C, strip: seq<C> -> seq<C>, list: seq<seq<C>> -> seq<C>, nothingFound: seq<C>,
          markers: seq<C> -> seq<int>, summarised: (seq<C>, seq<C>) -> seq<C>)

  function Did<Id, C>(agent: Agent): Delta<Id, C> {
    Delta([Step(agent, false)])
  }

  /** An agent that returns records one step and no error, and writes only its own keys. */
  predicate KeepsToItself<Id, C>(agent: Agent, result: Option<Delta<Id, C>>) {
    result.Some? ==>
      && result.value.steps == [Step(agent, false)] && result.value.errors == []
      && (result.value.chunks.Some? ==> agent.Retriever? || agent.GraphRetriever? || agent.Ranker?)
      && (result.value.needsRevision.Some? <==> agent.Critic?)
      && (result.value.revisionCount.Some? <==> agent.Reflector?)
      && (result.value.citations.Some? <==> agent.Citation?)
      && (result.value.draftAnswer.Some? ==> agent.Reasoner? || agent.Reflector?)
      && (result.value.finalAnswer.Some? ==> agent.Citation? || agent.Summarizer?)
      && (result.value.verification.Some? || result.value.confidence.Some? ==> agent.Verifier?)
  }

  /** The wrapper around every agent: an exception becomes a step and an error. */
  function Resilient<Id, C>(agent: Agent, result: Option<Delta<Id, C>>): Delta<Id, C> {
    match result
    case Some(delta) => delta
    case None => Delta([Step(agent, true)], errors := [agent])
  }

  // ----------------------------------------------------------------- before the draft

  function Nonblank<C(!new)>(w: Words<C>): seq<C> -> bool {
    (q: seq<C>) => |w.strip(q)| > 0
  }

  function PlannerAgent<Id, C(!new)>(s: State<Id, C>, reply: Reply<Id, C>, w: Words<C>): (r: Option<Delta<Id, C>>)
    ensures KeepsToItself(Planner, r)
  {
    if !reply.Planned? then None
    else
      var questions := Upto(Filter(reply.questions, Nonblank(w)), MAX_SUB_QUESTIONS);
      var plan := Plan(reply.intent, if |questions| > 0 then questions else [s.question], reply.needsWebSearch);
      Some(Did<Id, C>(Planner).(plan := Some(plan), usageTokens := reply.tokens))
  }

  function Queries<Id, C>(s: State<Id, C>): seq<seq<C>> {
    if s.plan.Some? then s.plan.value.subQuestions else [s.question]
  }

  function RetrieverAgent<Id(==), C>(s: State<Id, C>, reply: Reply<Id, C>): (r: Option<Delta<Id, C>>)
    ensures KeepsToItself(Retriever, r)
  {
    if !reply.Retrieved? || |reply.lists| != |Queries(s)| then None
    else Some(Did<Id, C>(Retriever).(chunks := Some(MergeLists(reply.lists))))
  }

  function GraphRetrieverAgent<Id(==), C>(s: State<Id, C>, reply: Reply<Id, C>): (r: Option<Delta<Id, C>>)
    ensures KeepsToItself(GraphRetriever, r)
  {
    if !reply.Expanded? then None
    else if |reply.paths| == 0 then Some(Did<Id, C>(GraphRetriever).(graphPaths := Some([])))
    else Some(Did<Id, C>(GraphRetriever).(chunks := Some(Extended(s.chunks, reply.related)),
                                          graphPaths := Some(reply.paths)))
  }

  function WebSearchAgent<Id, C>(s: State<Id, C>, reply: Reply<Id, C>): (r: Option<Delta<Id, C>>)
    ensures KeepsToItself(WebSearch, r)
  {
    if s.plan.None? || !s.plan.value.needsWebSearch then Some(Did(WebSearch))
    else if !reply.Searched? then None
    else Some(Did<Id, C>(WebSearch).(webResults := Some(reply.results)))
  }

  /** `rerank_score or score`: a rerank score of zero counts as none. */
  function RankKey<Id, C>(c: RetrievedChunk<Id, seq<C>>): Key {
    Key(if c.rerankScore.Some? && c.rerankScore.value != 0.0 then c.rerankScore.value else c.score, 0)
  }

  /** The order the reranker asked for. */
  function RerankKey<Id, C>(c: RetrievedChunk<Id, seq<C>>): Key {
    Key(if c.rerankScore.Some? then c.rerankScore.value else 0.0, 0)
  }

  /** Passages of which every one but `c` has a rerank score that `scored` admits. */
  ghost predicate InCompany<Id(!new), C(!new)>(c: RetrievedChunk<Id, seq<C>>, scored: real -> bool,
                                               xs: seq<RetrievedChunk<Id, seq<C>>>) {
    c in xs && forall x :: x in xs && x != c ==> x.rerankScore.Some? && scored(x.rerankScore.value)
  }

  /** In such company the ranker sorts as the reranker asked for. */
  ghost predicate PlacedByReranker<Id(!new), C(!new)>(c: RetrievedChunk<Id, seq<C>>, scored: real -> bool) {
    forall xs :: InCompany(c, scored, xs) ==> SortDescending(xs, RankKey) == SortDescending(xs, RerankKey)
  }

  /** A reranked passage is placed as the rerank scores say, whatever passages with a
      score of their own come with it, if and only if its rerank score is not zero or its
      first score is. */
  lemma RankedByRerankerIff<Id(!new), C(!new)>(c: RetrievedChunk<Id, seq<C>>)
    requires c.rerankScore.Some?
    ensures PlacedByReranker(c, (s: real) => s != 0.0) <==> c.rerankScore.value != 0.0 || c.score == 0.0
  {
    var scored := (s: real) => s != 0.0;
    if c.rerankScore.value != 0.0 || c.score == 0.0 {
      forall xs | InCompany(c, scored, xs) ensures SortDescending(xs, RankKey) == SortDescending(xs, RerankKey) {
        SortAgrees(xs, RankKey, RerankKey);
      }
    } else {
      MisplacedNextTo(c, c.(rerankScore := Some(c.score / 2.0)), scored);
    }
  }

  /** A reranker that never scores below zero: the first score may also be negative. */
  lemma RankedByNonnegativeRerankerIff<Id(!new), C(!new)>(c: RetrievedChunk<Id, seq<C>>)
    requires c.rerankScore.Some? && c.rerankScore.value >= 0.0
    ensures PlacedByReranker(c, (s: real) => s > 0.0) <==> c.rerankScore.value != 0.0 || c.score <= 0.0
  {
    var scored := (s: real) => s > 0.0;
    if c.rerankScore.value != 0.0 || c.score <= 0.0 {
      forall xs | InCompany(c, scored, xs) ensures SortDescending(xs, RankKey) == SortDescending(xs, RerankKey) {
        SortAgrees(xs, RankKey, RerankKey);
      }
    } else {
      MisplacedNextTo(c, c.(rerankScore := Some(c.score / 2.0)), scored);
    }
  }

  /** Half the first score of `c` is enough to be placed wrongly against it. */
  lemma MisplacedNextTo<Id(!new), C(!new)>(c: RetrievedChunk<Id, seq<C>>, d: RetrievedChunk<Id, seq<C>>,
                                           scored: real -> bool)
    requires c.rerankScore == Some(0.0) && c.score != 0.0
    requires d.rerankScore == Some(c.score / 2.0) && scored(c.score / 2.0)
    ensures !PlacedByReranker(c, scored)
  {
    var xs := if c.score > 0.0 then [d, c] else [c, d];
    assert InCompany(c, scored, xs);
    SortPair(xs[0], xs[1], RankKey);
    SortPair(xs[0], xs[1], RerankKey);
    assert SortDescending(xs, RankKey)[0] != SortDescending(xs, RerankKey)[0];
  }

  /** So a passage the reranker gave nothing comes before one it gave something. */
  lemma ZeroRerankOutranks<Id(!new), C(!new)>(a: RetrievedChunk<Id, seq<C>>, b: RetrievedChunk<Id, seq<C>>)
    requires a.rerankScore == Some(0.0) && b.rerankScore.Some? && 0.0 < b.rerankScore.value < a.score
    ensures SortDescending([b, a], RankKey) == [a, b]
  {
    SortPair(b, a, RankKey);
  }

  function AsPassages<Id, C>(chunks: seq<RetrievedChunk<Id, seq<C>>>): (r: seq<Passage<RetrievedChunk<Id, seq<C>>, C>>)
    ensures |r| == |chunks| && forall i :: 0 <= i < |r| ==> r[i] == Passage(chunks[i], chunks[i].content)
  {
    seq(|chunks|, i requires 0 <= i < |chunks| => Passage(chunks[i], chunks[i].content))
  }

  function AsChunks<Id, C>(passages: seq<Passage<RetrievedChunk<Id, seq<C>>, C>>): (r: seq<RetrievedChunk<Id, seq<C>>>)
    ensures |r| == |passages| && forall i :: 0 <= i < |r| ==> r[i] == passages[i].id.(content := passages[i].content)
  {
    seq(|passages|, i requires 0 <= i < |passages| => passages[i].id.(content := passages[i].content))
  }

  /** The passages, best first, packed into the context budget. */
  function RankedAndPacked<Id(!new), C(!new)>(chunks: seq<RetrievedChunk<Id, seq<C>>>, w: Words<C>)
    : seq<RetrievedChunk<Id, seq<C>>>
  {
    AsChunks(PackAll(AsPassages(SortDescending(chunks, RankKey)), w.query, w.space,
                     Budget(MAX_CONTEXT_TOKENS, DEFAULT_RESERVED_TOKENS)).chunks)
  }

  function RankerAgent<Id(!new), C(!new)>(s: State<Id, C>, reply: Reply<Id, C>, w: Words<C>): (r: Option<Delta<Id, C>>)
    ensures KeepsToItself(Ranker, r)
  {
    if |s.chunks| == 0 then Some(Did(Ranker))
    else Some(Did<Id, C>(Ranker).(chunks := Some(RankedAndPacked(s.chunks, w))))
  }

  // -------------------------------------------------------------- draft and review

  function ReasonerAgent<Id, C(!new)>(s: State<Id, C>, reply: Reply<Id, C>, w: Words<C>): (r: Option<Delta<Id, C>>)
    ensures KeepsToItself(Reasoner, r)
  {
    if |s.chunks| == 0 then Some(Did<Id, C>(Reasoner).(draftAnswer := Some(w.nothingFound)))
    else if !reply.Answered? then None
    else Some(Did<Id, C>(Reasoner).(draftAnswer := Some(reply.text), usageTokens := reply.tokens))
  }

  /** The only place the revision loop is bounded: after two revisions nothing is flagged. */
  function CriticAgent<Id, C(!new)>(s: State<Id, C>, reply: Reply<Id, C>, w: Words<C>): (r: Option<Delta<Id, C>>)
    ensures KeepsToItself(Critic, r)
  {
    if |s.draftAnswer| == 0 || |s.chunks| == 0 then Some(Did<Id, C>(Critic).(needsRevision := Some(false)))
    else if !reply.Critiqued? then None
    else
      Some(Did<Id, C>(Critic).(critique := Some(w.list(reply.issues)), usageTokens := reply.tokens,
                               needsRevision := Some(reply.flagged && |reply.issues| > 0
                                                     && s.revisionCount < MAX_REVISIONS)))
  }

  function ReflectorAgent<Id, C(!new)>(s: State<Id, C>, reply: Reply<Id, C>, w: Words<C>): (r: Option<Delta<Id, C>>)
    ensures KeepsToItself(Reflector, r)
  {
    if !reply.Answered? then None
    else
      var revised := w.strip(reply.text);
      Some(Did<Id, C>(Reflector).(draftAnswer := Some(if |revised| > 0 then revised else s.draftAnswer),
                                  revisionCount := Some(s.revisionCount + 1), usageTokens := reply.tokens))
  }

  // ----------------------------------------------------------------- after the loop

  function VerifierAgent<Id, C>(s: State<Id, C>, reply: Reply<Id, C>): (r: Option<Delta<Id, C>>)
    ensures KeepsToItself(Verifier, r)
  {
    if |s.draftAnswer| == 0 || |s.chunks| == 0 then Some(Did<Id, C>(Verifier).(confidence := Some(0.0)))
    else if !reply.Verified? then None
    else
      var v := reply.verdict;
      var confidence := if v.supported || v.confidence < UNSUPPORTED_CONFIDENCE then v.confidence
                        else UNSUPPORTED_CONFIDENCE;
      Some(Did<Id, C>(Verifier).(verification := Some(v), confidence := Some(confidence), usageTokens := reply.tokens))
  }

  function CitationAgent<Id, C(!new)>(s: State<Id, C>, reply: Reply<Id, C>, w: Words<C>): (r: Option<Delta<Id, C>>)
    ensures KeepsToItself(Citation, r)
  {
    Some(Did<Id, C>(Citation).(finalAnswer := Some(s.draftAnswer),
                               citations := Some(Citations(w.markers(s.draftAnswer), |s.chunks|))))
  }

  /** `final_answer or draft_answer`. */
  function Answer<Id, C>(s: State<Id, C>): seq<C> {
    if |s.finalAnswer| > 0 then s.finalAnswer else s.draftAnswer
  }

  function SummarizerAgent<Id, C(!new)>(s: State<Id, C>, reply: Reply<Id, C>, w: Words<C>): (r: Option<Delta<Id, C>>)
    ensures KeepsToItself(Summarizer, r)
  {
    if |Answer(s)| < LONG_ANSWER_CHARS then Some(Did(Summarizer))
    else if !reply.Answered? then None
    else
      var summary := w.strip(reply.text);
      if |summary| == 0 then Some(Did(Summarizer))
      else Some(Did<Id, C>(Summarizer).(finalAnswer := Some(w.summarised(summary, Answer(s))),
                                        usageTokens := reply.tokens))
  }

  // --------------------------------------------------------------------- one visit

  function Act<Id(==, !new), C(!new)>(agent: Agent, s: State<Id, C>, reply: Reply<Id, C>, w: Words<C>)
    : (r: Option<Delta<Id, C>>)
    ensures KeepsToItself(agent, r)
  {
    if reply.Raised? then None
    else
      match agent
      case Planner => PlannerAgent(s, reply, w)
      case Retriever => RetrieverAgent(s, reply)
      case GraphRetriever => GraphRetrieverAgent(s, reply)
      case WebSearch => WebSearchAgent(s, reply)
      case Ranker => RankerAgent(s, reply, w)
      case Reasoner => ReasonerAgent(s, reply, w)
      case Critic => CriticAgent(s, reply, w)
      case Reflector => ReflectorAgent(s, reply, w)
      case Verifier => VerifierAgent(s, reply)
      case Citation => CitationAgent(s, reply, w)
      case Summarizer => SummarizerAgent(s, reply, w)
  }

  function Visit<Id(==, !new), C(!new)>(agent: Agent, s: State<Id, C>, reply: Reply<Id, C>, w: Words<C>): State<Id, C> {
    Merge(s, Resilient(agent, Act(agent, s, reply, w)))
  }

  predicate Fails<Id(==, !new), C(!new)>(agent: Agent, s: State<Id, C>, reply: Reply<Id, C>, w: Words<C>) {
    Act(agent, s, reply, w).None?
  }

  /** The visit waits for the model, the pipeline, the graph or the web, and so can raise.
      The others only compute: a web search that was not asked for, ranking, resolving
      citations, and every agent that finds it has nothing to do. */
  predicate CallsOut<Id, C>(agent: Agent, s: State<Id, C>) {
    match agent
    case Planner => true
    case Retriever => true
    case GraphRetriever => true
    case WebSearch => s.plan.Some? && s.plan.value.needsWebSearch
    case Ranker => false
    case Reasoner => |s.chunks| > 0
    case Critic => |s.draftAnswer| > 0 && |s.chunks| > 0
    case Reflector => true
    case Verifier => |s.draftAnswer| > 0 && |s.chunks| > 0
    case Citation => false
    case Summarizer => |Answer(s)| >= LONG_ANSWER_CHARS
  }

  /** Whatever happens, a visit leaves one step and, if it failed, one error; a failed
      visit changes nothing else. */
  lemma VisitRecords<Id(!new), C(!new)>(agent: Agent, s: State<Id, C>, reply: Reply<Id, C>, w: Words<C>)
    ensures var s', failed := Visit(agent, s, reply, w), Fails(agent, s, reply, w);
            && s'.steps == s.steps + [Step(agent, failed)]
            && s'.errors == s.errors + (if failed then [agent] else [])
            && (failed ==> s' == s.(steps := s'.steps, errors := s'.errors))
  {
    MergeRecords(agent, s, Act(agent, s, reply, w));
  }

  lemma MergeRecords<Id, C>(agent: Agent, s: State<Id, C>, result: Option<Delta<Id, C>>)
    requires KeepsToItself(agent, result)
    ensures var s' := Merge(s, Resilient(agent, result));
            && s'.steps == s.steps + [Step(agent, result.None?)]
            && s'.errors == s.errors + (if result.None? then [agent] else [])
            && (result.None? ==> s' == s.(steps := s'.steps, errors := s'.errors))
  {
  }

  // ------------------------------------------------- what single agents guarantee

  /** Retrieval never runs on an empty query list: a plan has one to four sub-questions,
      none blank unless it is the question itself. */
  lemma PlanIsUsable<Id(!new), C(!new)>(s: State<Id, C>, reply: Reply<Id, C>, w: Words<C>)
    requires !Fails(Planner, s, reply, w)
    ensures var plan := Visit(Planner, s, reply, w).plan;
            && plan.Some? && 1 <= |plan.value.subQuestions| <= MAX_SUB_QUESTIONS
            && forall i :: 0 <= i < |plan.value.subQuestions| ==>
                 |w.strip(plan.value.subQuestions[i])| > 0 || plan.value.subQuestions == [s.question]
  {
    FilterMembers(reply.questions, Nonblank(w));
    var kept := Filter(reply.questions, Nonblank(w));
    forall i | 0 <= i < |Upto(kept, MAX_SUB_QUESTIONS)| ensures |w.strip(Upto(kept, MAX_SUB_QUESTIONS)[i])| > 0 {
      assert kept[i] in kept;
    }
  }

  /** The graph retriever adds to what was retrieved, never replaces it. */
  lemma GraphRetrieverOnlyAdds<Id(!new), C(!new)>(s: State<Id, C>, reply: Reply<Id, C>, w: Words<C>)
    ensures s.chunks <= Visit(GraphRetriever, s, reply, w).chunks
    ensures reply.Expanded? && |reply.paths| > 0 && DistinctBy(s.chunks, RetrievedId)
            && DistinctBy(reply.related, RetrievedId) ==>
              forall c :: c in reply.related ==> Holds(Visit(GraphRetriever, s, reply, w).chunks, c.chunkId)
  {
    assert Act(GraphRetriever, s, reply, w) == if reply.Raised? then None else GraphRetrieverAgent(s, reply);
    if reply.Expanded? && DistinctBy(s.chunks, RetrievedId) && DistinctBy(reply.related, RetrievedId) {
      ExtendedIsDistinct(s.chunks, reply.related);
    }
  }

  /** The citation agent publishes the draft unchanged, with exactly its markers that number a source. */
  lemma CitationPublishesDraft<Id(!new), C(!new)>(s: State<Id, C>, reply: Reply<Id, C>, w: Words<C>, y: int)
    requires !Fails(Citation, s, reply, w)
    ensures var s' := Visit(Citation, s, reply, w);
            s'.finalAnswer == s.draftAnswer
            && (y in s'.citations <==> y in w.markers(s.draftAnswer) && 1 <= y <= |s.chunks|)
  {
    assert Act(Citation, s, reply, w) == CitationAgent(s, reply, w);
    CitationsAre(w.markers(s.draftAnswer), |s.chunks|);
  }
}
