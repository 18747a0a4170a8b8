/** The research graph: which agent runs next, whole runs in which any visit may
    fail, and the stream of steps (backend/app/agents/graph.py). */
module ResearchGraph {
  import opened Options
  import opened Ordering
  import opened Text
  import opened Sequences
  import opened Extraction
  import opened Context
  import opened Retrieval
  import opened Rag
  import opened AgentState
  import opened Agents

  /** A run in progress: the shared state, the agent to visit next, and the visits made. */
  datatype Run<Id, C> = Run(state: State<Id, C>, next: Option<Agent>, visits: seq<Step>)

  /** The edges of the graph; only the critic's is conditional. */
  function Route<Id, C>(agent: Agent, s: State<Id, C>): Option<Agent> {
    match agent
    case Planner => Some(Retriever)
    case Retriever => Some(GraphRetriever)
    case GraphRetriever => Some(WebSearch)
    case WebSearch => Some(Ranker)
    case Ranker => Some(Reasoner)
    case Reasoner => Some(Critic)
    case Critic => if s.needsRevision then Some(Reflector) else Some(Verifier)
    case Reflector => Some(Critic)
    case Verifier => Some(Citation)
    case Citation => Some(Summarizer)
    case Summarizer => None
  }

  function Start<Id, C>(question: seq<C>): Run<Id, C> {
    Run(InitialState(question), Some(Planner), [])
  }

  /** One visit; nothing happens once the run has ended. */
  function Advance<Id(==, !new), C(!new)>(run: Run<Id, C>, reply: Reply<Id, C>, w: Words<C>): Run<Id, C> {
    if run.next.None? then run
    else
      var agent := run.next.value;
      var s := Visit(agent, run.state, reply, w);
      Run(s, Route(agent, s), run.visits + [Step(agent, Fails(agent, run.state, reply, w))])
  }

  function RunFrom<Id(==, !new), C(!new)>(run: Run<Id, C>, replies: seq<Reply<Id, C>>, w: Words<C>): Run<Id, C> {
    if replies == [] then run else Advance(RunFrom(run, replies[..|replies| - 1], w), replies[|replies| - 1], w)
  }

  // ---------------------------------------------------------------- bookkeeping

  function Visits(visits: seq<Step>, agent: Agent): nat {
    if visits == [] then 0
    else Visits(visits[..|visits| - 1], agent) + if visits[|visits| - 1].agent == agent then 1 else 0
  }

  function Failures(visits: seq<Step>, agent: Agent): nat {
    if visits == [] then 0
    else Failures(visits[..|visits| - 1], agent) + if visits[|visits| - 1] == Step(agent, true) then 1 else 0
  }

  function FailedAgents(visits: seq<Step>): seq<Agent> {
    if visits == [] then []
    else FailedAgents(visits[..|visits| - 1]) + if visits[|visits| - 1].failed then [visits[|visits| - 1].agent] else []
  }

  /** How many visits have been made when this agent is next, after `r` revisions. */
  function Position(next: Option<Agent>, r: nat): nat {
    match next
    case Some(Planner) => 0
    case Some(Retriever) => 1
    case Some(GraphRetriever) => 2
    case Some(WebSearch) => 3
    case Some(Ranker) => 4
    case Some(Reasoner) => 5
    case Some(Critic) => 6 + 2 * r
    case Some(Reflector) => 7 + 2 * r
    case Some(Verifier) => 7 + 2 * r
    case Some(Citation) => 8 + 2 * r
    case Some(Summarizer) => 9 + 2 * r
    case None => 10 + 2 * r
  }

  predicate BeforeReview(next: Option<Agent>) {
    next.Some? && (next.value.Planner? || next.value.Retriever? || next.value.GraphRetriever? || next.value.WebSearch?
                   || next.value.Ranker? || next.value.Reasoner?)
  }

  /** The audit trail is the visits, in order, and the errors are the failed ones. */
  ghost predicate Audited<Id, C>(run: Run<Id, C>) {
    run.state.steps == run.visits && run.state.errors == FailedAgents(run.visits)
  }

  ghost predicate Placed<Id, C>(run: Run<Id, C>) {
    && |run.visits| == Position(run.next, Visits(run.visits, Reflector))
    && (BeforeReview(run.next) ==> Visits(run.visits, Reflector) == 0)
  }

  /** Revisions counted are those that succeeded; beyond the limit only a failed critic
      lets another one through. */
  ghost predicate Bounded<Id, C>(run: Run<Id, C>) {
    && run.state.revisionCount + Failures(run.visits, Reflector) == Visits(run.visits, Reflector)
    && run.state.revisionCount <= MAX_REVISIONS + Failures(run.visits, Critic)
    && (run.next == Some(Reflector) ==> run.state.revisionCount < MAX_REVISIONS + Failures(run.visits, Critic))
  }

  lemma OneMoreVisit(visits: seq<Step>, step: Step, agent: Agent)
    ensures Visits(visits + [step], agent) == Visits(visits, agent) + if step.agent == agent then 1 else 0
    ensures Failures(visits + [step], agent) == Failures(visits, agent) + if step == Step(agent, true) then 1 else 0
    ensures FailedAgents(visits + [step]) == FailedAgents(visits) + if step.failed then [step.agent] else []
  {
    assert (visits + [step])[..|visits|] == visits;
  }

  lemma AdvanceAudits<Id(!new), C(!new)>(run: Run<Id, C>, reply: Reply<Id, C>, w: Words<C>)
    requires Audited(run)
    ensures Audited(Advance(run, reply, w))
  {
    if run.next.Some? {
      var agent := run.next.value;
      VisitRecords(agent, run.state, reply, w);
      OneMoreVisit(run.visits, Step(agent, Fails(agent, run.state, reply, w)), agent);
    }
  }

  lemma RoutePlaces<Id, C>(run: Run<Id, C>, s: State<Id, C>, failed: bool)
    requires Placed(run) && run.next.Some?
    ensures Placed(Run(s, Route(run.next.value, s), run.visits + [Step(run.next.value, failed)]))
  {
    OneMoreVisit(run.visits, Step(run.next.value, failed), Reflector);
  }

  lemma AdvancePlaces<Id(!new), C(!new)>(run: Run<Id, C>, reply: Reply<Id, C>, w: Words<C>)
    requires Placed(run)
    ensures Placed(Advance(run, reply, w))
  {
    if run.next.Some? {
      RoutePlaces(run, Visit(run.next.value, run.state, reply, w), Fails(run.next.value, run.state, reply, w));
    }
  }

  /** The arithmetic of one visit, whatever state it leads to. */
  lemma VisitBounds<Id, C>(run: Run<Id, C>, agent: Agent, failed: bool, s: State<Id, C>)
    requires Bounded(run) && run.next == Some(agent)
    requires s.revisionCount == run.state.revisionCount + (if agent.Reflector? && !failed then 1 else 0)
    requires agent.Critic? && !failed && s.needsRevision ==> run.state.revisionCount < MAX_REVISIONS
    ensures Bounded(Run(s, Route(agent, s), run.visits + [Step(agent, failed)]))
  {
    OneMoreVisit(run.visits, Step(agent, failed), Reflector);
    OneMoreVisit(run.visits, Step(agent, failed), Critic);
  }

  lemma AdvanceBounds<Id(!new), C(!new)>(run: Run<Id, C>, reply: Reply<Id, C>, w: Words<C>)
    requires Bounded(run)
    ensures Bounded(Advance(run, reply, w))
  {
    if run.next.Some? {
      var agent := run.next.value;
      VisitCounts(agent, run.state, reply, w);
      VisitBounds(run, agent, Fails(agent, run.state, reply, w), Visit(agent, run.state, reply, w));
    }
  }

  /** How a visit moves the revision count and the flag. */
  lemma VisitCounts<Id(!new), C(!new)>(agent: Agent, s: State<Id, C>, reply: Reply<Id, C>, w: Words<C>)
    ensures var s', failed := Visit(agent, s, reply, w), Fails(agent, s, reply, w);
            && s'.revisionCount == s.revisionCount + (if agent.Reflector? && !failed then 1 else 0)
            && (!agent.Critic? || failed ==> s'.needsRevision == s.needsRevision)
            && (agent.Critic? && !failed && s'.needsRevision ==> s.revisionCount < MAX_REVISIONS)
  {
    var result := Act(agent, s, reply, w);
    if agent.Reflector? {
      assert result == if reply.Raised? then None else ReflectorAgent(s, reply, w);
    } else if agent.Critic? {
      assert result == if reply.Raised? then None else CriticAgent(s, reply, w);
    }
  }

  /** What holds of every run, however many visits fail: one recorded step per visit in
      order, one error per failed visit, as many visits as the agent to come and the
      revisions so far imply, and the revision bound. */
  lemma {:induction false} RunInvariant<Id(!new), C(!new)>(question: seq<C>, replies: seq<Reply<Id, C>>, w: Words<C>)
    ensures var run := RunFrom(Start(question), replies, w); Audited(run) && Placed(run) && Bounded(run)
  {
    if replies != [] {
      var rest, last := replies[..|replies| - 1], replies[|replies| - 1];
      RunInvariant(question, rest, w);
      AdvanceAudits(RunFrom(Start(question), rest, w), last, w);
      AdvancePlaces(RunFrom(Start(question), rest, w), last, w);
      AdvanceBounds(RunFrom(Start(question), rest, w), last, w);
    }
  }

  /** The revision loop ends: revisions are at most two, plus one for each failed visit
      of the critic or the reflector. */
  lemma RevisionsAreBounded<Id(!new), C(!new)>(question: seq<C>, replies: seq<Reply<Id, C>>, w: Words<C>)
    ensures var run := RunFrom(Start(question), replies, w);
            && Visits(run.visits, Reflector) <= MAX_REVISIONS + Failures(run.visits, Critic)
               + Failures(run.visits, Reflector)
            && run.state.revisionCount <= MAX_REVISIONS + Failures(run.visits, Critic)
  {
    RunInvariant(question, replies, w);
  }

  /** A finished run with `r` revisions has recorded exactly 10 + 2r steps. */
  lemma FinishedRunSteps<Id(!new), C(!new)>(question: seq<C>, replies: seq<Reply<Id, C>>, w: Words<C>)
    requires RunFrom(Start<Id, C>(question), replies, w).next.None?
    ensures var run := RunFrom(Start<Id, C>(question), replies, w);
            && |run.state.steps| == 10 + 2 * Visits(run.visits, Reflector)
            && run.state.steps == run.visits && run.state.errors == FailedAgents(run.visits)
  {
    RunInvariant(question, replies, w);
  }

  // ------------------------------------------------------------------- sources

  /** Replies of the retrieval pipeline repeat no chunk, as its contract says. */
  ghost predicate Legal<Id, C>(reply: Reply<Id, C>) {
    reply.Expanded? ==> DistinctBy(reply.related, RetrievedId)
  }

  lemma {:induction false} PackedDistinct<Id(!new), C(!new)>(
    packed: seq<Passage<RetrievedChunk<Id, seq<C>>, C>>, passages: seq<Passage<RetrievedChunk<Id, seq<C>>, C>>,
    q: Query<C>, space: C)
    requires PackedFrom(packed, passages, q, space) && DistinctBy(passages, PassageChunk)
    ensures DistinctBy(packed, PassageChunk)
    ensures forall p :: p in packed ==> Listed(PassageChunk(p), passages)
    decreases |passages|
  {
    if packed != [] {
      var rest, n := passages[..|passages| - 1], |packed| - 1;
      if PackedFrom(packed, rest, q, space) {
        PackedDistinct(packed, rest, q, space);
        forall p | p in packed ensures Listed(PassageChunk(p), passages) {
          assert Listed(PassageChunk(p), rest);
          var i :| 0 <= i < |rest| && PassageChunk(rest[i]) == PassageChunk(p);
          assert passages[i] == rest[i];
        }
      } else {
        PackedDistinct(packed[..n], rest, q, space);
        LastIsNew(packed, passages);
      }
    }
  }

  ghost predicate Listed<Id, C>(id: Id, passages: seq<Passage<RetrievedChunk<Id, seq<C>>, C>>) {
    exists i :: 0 <= i < |passages| && PassageChunk(passages[i]) == id
  }

  function PassageChunk<Id, C>(p: Passage<RetrievedChunk<Id, seq<C>>, C>): Id { p.id.chunkId }

  lemma LastIsNew<Id(!new), C(!new)>(packed: seq<Passage<RetrievedChunk<Id, seq<C>>, C>>,
                                     passages: seq<Passage<RetrievedChunk<Id, seq<C>>, C>>)
    requires packed != [] && passages != [] && DistinctBy(passages, PassageChunk)
    requires packed[|packed| - 1].id == passages[|passages| - 1].id
    requires var init := packed[..|packed| - 1];
             && DistinctBy(init, PassageChunk)
             && forall p :: p in init ==> Listed(PassageChunk(p), passages[..|passages| - 1])
    ensures DistinctBy(packed, PassageChunk)
    ensures forall p :: p in packed ==> Listed(PassageChunk(p), passages)
  {
    var init, rest := packed[..|packed| - 1], passages[..|passages| - 1];
    forall a, b | 0 <= a < b < |packed| ensures PassageChunk(packed[a]) != PassageChunk(packed[b]) {
      if b < |init| {
        assert PassageChunk(init[a]) != PassageChunk(init[b]);
      } else {
        assert init[a] in init;
        assert Listed(PassageChunk(init[a]), rest);
        var i :| 0 <= i < |rest| && PassageChunk(rest[i]) == PassageChunk(init[a]);
        assert PassageChunk(passages[i]) != PassageChunk(passages[|rest|]);
      }
    }
    forall p | p in packed ensures Listed(PassageChunk(p), passages) {
      if p in init {
        assert Listed(PassageChunk(p), rest);
        var i :| 0 <= i < |rest| && PassageChunk(rest[i]) == PassageChunk(p);
        assert passages[i] == rest[i];
      } else {
        assert p == packed[|init|];
        assert PassageChunk(passages[|rest|]) == PassageChunk(p);
      }
    }
  }

  /** Sorting and packing repeat no chunk. */
  lemma RankedIsDistinct<Id(!new), C(!new)>(chunks: seq<RetrievedChunk<Id, seq<C>>>, w: Words<C>)
    requires DistinctBy(chunks, RetrievedId)
    ensures DistinctBy(RankedAndPacked(chunks, w), RetrievedId)
  {
    var ordered := SortDescending(chunks, RankKey);
    SortDistinct(chunks, RankKey, RetrievedId);
    var passages := AsPassages(ordered);
    forall i, j | 0 <= i < j < |passages| ensures PassageChunk(passages[i]) != PassageChunk(passages[j]) {
      assert RetrievedId(ordered[i]) != RetrievedId(ordered[j]);
    }
    var budget := Budget(MAX_CONTEXT_TOKENS, DEFAULT_RESERVED_TOKENS);
    var packed := PackAll(passages, w.query, w.space, budget).chunks;
    PackKeepsOrder(passages, w.query, w.space, budget);
    PackedDistinct(packed, passages, w.query, w.space);
    var r := AsChunks(packed);
    forall i, j | 0 <= i < j < |r| ensures RetrievedId(r[i]) != RetrievedId(r[j]) {
      assert PassageChunk(packed[i]) != PassageChunk(packed[j]);
    }
  }

  lemma ListsAreDistinct<Id(!new), T>(lists: seq<seq<RetrievedChunk<Id, T>>>)
    ensures DistinctBy(MergeLists(lists), RetrievedId)
  {
    if |MergeLists(lists)| > 0 { MergeListsIs(lists, MergeLists(lists)[0].chunkId); }
  }

  lemma VisitKeepsDistinct<Id(!new), C(!new)>(agent: Agent, s: State<Id, C>, reply: Reply<Id, C>, w: Words<C>)
    requires DistinctBy(s.chunks, RetrievedId) && Legal(reply)
    ensures DistinctBy(Visit(agent, s, reply, w).chunks, RetrievedId)
  {
    if !Fails(agent, s, reply, w) {
      if agent.Retriever? {
        assert Visit(agent, s, reply, w).chunks == MergeLists(reply.lists);
        ListsAreDistinct(reply.lists);
      } else if agent.GraphRetriever? {
        ExtendedIsDistinct(s.chunks, reply.related);
      } else if agent.Ranker? {
        RankedIsDistinct(s.chunks, w);
      }
    }
  }

  predicate BeforeRanked(next: Option<Agent>) {
    BeforeReview(next) && !next.value.Reasoner?
  }

  predicate BeforeCited(next: Option<Agent>) {
    next.Some? && !next.value.Summarizer?
  }

  /** Citations are ascending source numbers, and none are given before the sources are settled. */
  ghost predicate Cited<Id, C>(run: Run<Id, C>) {
    && Increasing(run.state.citations)
    && (forall y :: y in run.state.citations ==> 1 <= y <= |run.state.chunks|)
    && (BeforeCited(run.next) ==> run.state.citations == [])
  }

  /** Only the two retrievers and the ranker write the sources, only the citation agent the citations. */
  lemma VisitFrames<Id(!new), C(!new)>(agent: Agent, s: State<Id, C>, reply: Reply<Id, C>, w: Words<C>)
    ensures var s' := Visit(agent, s, reply, w);
            && (!agent.Retriever? && !agent.GraphRetriever? && !agent.Ranker? ==> s'.chunks == s.chunks)
            && (!agent.Citation? ==> s'.citations == s.citations)
            && (agent.Citation? ==>
                  s'.citations == s.citations || s'.citations == Citations(w.markers(s.draftAnswer), |s.chunks|))
  {
    var result := Act(agent, s, reply, w);
    if agent.Citation? { assert result == if reply.Raised? then None else CitationAgent(s, reply, w); }
  }

  lemma AdvanceCites<Id(!new), C(!new)>(run: Run<Id, C>, reply: Reply<Id, C>, w: Words<C>)
    requires Cited(run)
    ensures Cited(Advance(run, reply, w))
  {
    if run.next.Some? {
      VisitFrames(run.next.value, run.state, reply, w);
      CitationsAre(w.markers(run.state.draftAnswer), |run.state.chunks|);
    }
  }

  lemma AdvanceSettles<Id(!new), C(!new)>(run: Run<Id, C>, reply: Reply<Id, C>, w: Words<C>)
    requires !BeforeRanked(run.next)
    ensures Advance(run, reply, w).state.chunks == run.state.chunks && !BeforeRanked(Advance(run, reply, w).next)
  {
    if run.next.Some? { VisitFrames(run.next.value, run.state, reply, w); }
  }

  /** In every reachable state the sources repeat no chunk and the citations number them. */
  lemma {:induction false} SourcesAreDistinct<Id(!new), C(!new)>(question: seq<C>, replies: seq<Reply<Id, C>>,
                                                                 w: Words<C>)
    requires forall i :: 0 <= i < |replies| ==> Legal(replies[i])
    ensures var run := RunFrom(Start(question), replies, w); DistinctBy(run.state.chunks, RetrievedId) && Cited(run)
  {
    if replies != [] {
      var rest, last := replies[..|replies| - 1], replies[|replies| - 1];
      SourcesAreDistinct(question, rest, w);
      var run := RunFrom(Start<Id, C>(question), rest, w);
      assert Legal(last);
      AdvanceCites(run, last, w);
      if run.next.Some? { VisitKeepsDistinct(run.next.value, run.state, last, w); }
    }
  }

  /** Once the ranker has run, the sources never change again. */
  lemma {:induction false} SourcesAreSettled<Id(!new), C(!new)>(question: seq<C>, replies: seq<Reply<Id, C>>,
                                                                w: Words<C>, i: nat)
    requires i <= |replies| && !BeforeRanked(RunFrom(Start<Id, C>(question), replies[..i], w).next)
    ensures !BeforeRanked(RunFrom(Start<Id, C>(question), replies, w).next)
    ensures RunFrom(Start<Id, C>(question), replies, w).state.chunks ==
              RunFrom(Start<Id, C>(question), replies[..i], w).state.chunks
    decreases |replies|
  {
    if i == |replies| {
      assert replies[..i] == replies;
    } else {
      var rest, last := replies[..|replies| - 1], replies[|replies| - 1];
      assert rest[..i] == replies[..i];
      SourcesAreSettled(question, rest, w, i);
      AdvanceSettles(RunFrom(Start<Id, C>(question), rest, w), last, w);
    }
  }

  /** The source a number names, numbered from 1 as in the prompt and in the serialised answer. */
  function SourceNumber<Id, C>(s: State<Id, C>, y: int): Option<Id> {
    if 1 <= y <= |s.chunks| then Some(s.chunks[y - 1].chunkId) else None
  }

  /** A citation number names the same source to the reasoner that drafted the answer,
      to the citation agent and to the reader of the result. */
  lemma CitationNamesOneSource<Id(!new), C(!new)>(question: seq<C>, replies: seq<Reply<Id, C>>, w: Words<C>, i: nat,
                                                  y: int)
    requires (forall k :: 0 <= k < |replies| ==> Legal(replies[k])) && i <= |replies|
    requires !BeforeRanked(RunFrom(Start<Id, C>(question), replies[..i], w).next)
    requires y in RunFrom(Start<Id, C>(question), replies, w).state.citations
    ensures var before, now :=
              RunFrom(Start<Id, C>(question), replies[..i], w).state, RunFrom(Start<Id, C>(question), replies, w).state;
            SourceNumber(now, y).Some? && SourceNumber(before, y) == SourceNumber(now, y)
  {
    SourcesAreDistinct(question, replies, w);
    SourcesAreSettled(question, replies, w, i);
  }

  // ------------------------------------------------------------ the answer given

  /** Who writes the draft, the final answer and the assessment, and what they write. */
  lemma VisitAnswers<Id(!new), C(!new)>(agent: Agent, s: State<Id, C>, reply: Reply<Id, C>, w: Words<C>)
    ensures var s' := Visit(agent, s, reply, w);
            && (!agent.Reasoner? && !agent.Reflector? ==> s'.draftAnswer == s.draftAnswer)
            && (!agent.Reasoner? && |s.draftAnswer| > 0 ==> |s'.draftAnswer| > 0)
            && (!agent.Citation? && !agent.Summarizer? ==> s'.finalAnswer == s.finalAnswer)
            && (agent.Citation? ==> s'.finalAnswer == s.finalAnswer || s'.finalAnswer == s.draftAnswer)
  {
    var result := Act(agent, s, reply, w);
    if agent.Reflector? {
      assert result == if reply.Raised? then None else ReflectorAgent(s, reply, w);
    } else if agent.Citation? {
      assert result == if reply.Raised? then None else CitationAgent(s, reply, w);
    }
  }

  /** The answer is the draft, or the draft with a summary put in front. */
  ghost predicate AnswersWithDraft<Id, C(!new)>(s: State<Id, C>, w: Words<C>) {
    Answer(s) == s.draftAnswer || exists summary :: |summary| > 0 && Answer(s) == w.summarised(summary, s.draftAnswer)
  }

  lemma SummarizerAnswers<Id(!new), C(!new)>(s: State<Id, C>, reply: Reply<Id, C>, w: Words<C>)
    requires Answer(s) == s.draftAnswer
    ensures AnswersWithDraft(Visit(Summarizer, s, reply, w), w)
  {
    assert Act(Summarizer, s, reply, w) == if reply.Raised? then None else SummarizerAgent(s, reply, w);
  }

  predicate AfterDraft(next: Option<Agent>) {
    next.None? || !(next.value.Planner? || next.value.Retriever? || next.value.GraphRetriever? || next.value.WebSearch?
                    || next.value.Ranker? || next.value.Reasoner?)
  }

  /** Until it is published nothing is; then it is the draft. */
  ghost predicate Published<Id, C(!new)>(run: Run<Id, C>, w: Words<C>) {
    match run.next
    case None => AnswersWithDraft(run.state, w)
    case Some(Summarizer) => Answer(run.state) == run.state.draftAnswer
    case Some(_) => run.state.finalAnswer == []
  }

  lemma AdvancePublishes<Id(!new), C(!new)>(run: Run<Id, C>, reply: Reply<Id, C>, w: Words<C>)
    requires Published(run, w)
    ensures Published(Advance(run, reply, w), w)
    ensures AfterDraft(run.next) ==> AfterDraft(Advance(run, reply, w).next)
    ensures AfterDraft(run.next) && |run.state.draftAnswer| > 0 ==> |Advance(run, reply, w).state.draftAnswer| > 0
  {
    if run.next.Some? {
      VisitAnswers(run.next.value, run.state, reply, w);
      if run.next == Some(Summarizer) { SummarizerAnswers(run.state, reply, w); }
    }
  }

  lemma {:induction false} RunPublishes<Id(!new), C(!new)>(question: seq<C>, replies: seq<Reply<Id, C>>, w: Words<C>)
    ensures Published(RunFrom(Start<Id, C>(question), replies, w), w)
  {
    if replies != [] {
      RunPublishes(question, replies[..|replies| - 1], w);
      AdvancePublishes(RunFrom(Start<Id, C>(question), replies[..|replies| - 1], w), replies[|replies| - 1], w);
    }
  }

  lemma {:induction false} DraftIsNeverLost<Id(!new), C(!new)>(question: seq<C>, replies: seq<Reply<Id, C>>,
                                                               w: Words<C>, i: nat)
    requires i <= |replies|
    requires var before := RunFrom(Start<Id, C>(question), replies[..i], w);
             AfterDraft(before.next) && |before.state.draftAnswer| > 0
    ensures var run := RunFrom(Start<Id, C>(question), replies, w); AfterDraft(run.next) && |run.state.draftAnswer| > 0
    decreases |replies|
  {
    if i == |replies| {
      assert replies[..i] == replies;
    } else {
      var rest, last := replies[..|replies| - 1], replies[|replies| - 1];
      assert rest[..i] == replies[..i];
      DraftIsNeverLost(question, rest, w, i);
      RunPublishes(question, rest, w);
      AdvancePublishes(RunFrom(Start<Id, C>(question), rest, w), last, w);
    }
  }

  /** Whatever fails on the way: a finished run answers with its last draft, alone or
      with a summary in front, and a draft that was there once the reasoner had run is
      never lost to a later agent. */
  lemma AnswerIsLastDraft<Id(!new), C(!new)>(question: seq<C>, replies: seq<Reply<Id, C>>, w: Words<C>, i: nat)
    requires i <= |replies| && RunFrom(Start<Id, C>(question), replies, w).next.None?
    ensures var before, run :=
              RunFrom(Start<Id, C>(question), replies[..i], w), RunFrom(Start<Id, C>(question), replies, w);
            && AnswersWithDraft(run.state, w)
            && (AfterDraft(before.next) && |before.state.draftAnswer| > 0 ==> |run.state.draftAnswer| > 0)
  {
    RunPublishes(question, replies, w);
    var before := RunFrom(Start<Id, C>(question), replies[..i], w);
    if AfterDraft(before.next) && |before.state.draftAnswer| > 0 { DraftIsNeverLost(question, replies, w, i); }
  }

  /** The confidence of a verdict: as given, but at most 0.35 if the answer was flagged. */
  function Confidence(v: Verification): (c: real)
    ensures v.supported ==> c == v.confidence
    ensures !v.supported ==>
              c <= v.confidence && c <= UNSUPPORTED_CONFIDENCE && (c == v.confidence || c == UNSUPPORTED_CONFIDENCE)
  {
    if v.supported || v.confidence < UNSUPPORTED_CONFIDENCE then v.confidence else UNSUPPORTED_CONFIDENCE
  }

  predicate BeforeVerified(next: Option<Agent>) {
    BeforeCited(next) && !next.value.Citation?
  }

  /** The confidence is that of the verdict, and none without one. */
  ghost predicate Assessed<Id, C>(run: Run<Id, C>) {
    && run.state.confidence == (if run.state.verification.Some? then Confidence(run.state.verification.value) else 0.0)
    && (BeforeVerified(run.next) ==> run.state.verification.None?)
  }

  lemma VerifierAssesses<Id(!new), C(!new)>(s: State<Id, C>, reply: Reply<Id, C>, w: Words<C>)
    requires s.verification.None? && s.confidence == 0.0
    ensures var s' := Visit(Verifier, s, reply, w);
            s'.confidence == if s'.verification.Some? then Confidence(s'.verification.value) else 0.0
  {
    assert Act(Verifier, s, reply, w) == if reply.Raised? then None else VerifierAgent(s, reply);
  }

  lemma NobodyElseAssesses<Id(!new), C(!new)>(agent: Agent, s: State<Id, C>, reply: Reply<Id, C>, w: Words<C>)
    requires !agent.Verifier?
    ensures Visit(agent, s, reply, w).confidence == s.confidence
            && Visit(agent, s, reply, w).verification == s.verification
  {
    var result := Act(agent, s, reply, w);
  }

  lemma AdvanceAssesses<Id(!new), C(!new)>(run: Run<Id, C>, reply: Reply<Id, C>, w: Words<C>)
    requires Assessed(run)
    ensures Assessed(Advance(run, reply, w))
  {
    if run.next == Some(Verifier) {
      VerifierAssesses(run.state, reply, w);
    } else if run.next.Some? {
      NobodyElseAssesses(run.next.value, run.state, reply, w);
    }
  }

  /** In every reachable state the confidence is the verdict's, capped when the answer was
      flagged, and zero as long as there is no verdict. */
  lemma {:induction false} ConfidenceIsCapped<Id(!new), C(!new)>(question: seq<C>, replies: seq<Reply<Id, C>>,
                                                                 w: Words<C>)
    ensures Assessed(RunFrom(Start<Id, C>(question), replies, w))
  {
    if replies != [] {
      ConfidenceIsCapped(question, replies[..|replies| - 1], w);
      AdvanceAssesses(RunFrom(Start<Id, C>(question), replies[..|replies| - 1], w), replies[|replies| - 1], w);
    }
  }

  // ------------------------------------------------------------------ streaming

  datatype StreamEvent<Id, C> = StepEvent(step: Step) | ResultEvent(state: State<Id, C>)

  function StepEvents<Id, C>(steps: seq<Step>): (r: seq<StreamEvent<Id, C>>)
    ensures |r| == |steps| && forall i :: 0 <= i < |r| ==> r[i] == StepEvent(steps[i])
  {
    seq(|steps|, i requires 0 <= i < |steps| => StepEvent(steps[i]))
  }

  lemma AdvanceExtends<Id(!new), C(!new)>(run: Run<Id, C>, reply: Reply<Id, C>, w: Words<C>)
    ensures run.state.steps <= Advance(run, reply, w).state.steps
  {
    if run.next.Some? { VisitRecords(run.next.value, run.state, reply, w); }
  }

  /** Each snapshot's new steps are sent as soon as it arrives, then the result: every
      recorded step is sent exactly once and in order. */
  method StreamResearch<Id(==, !new), C(==, !new)>(question: seq<C>, replies: seq<Reply<Id, C>>, w: Words<C>)
    returns (events: seq<StreamEvent<Id, C>>)
    ensures var final := RunFrom(Start<Id, C>(question), replies, w).state;
            events == StepEvents(final.steps) + [ResultEvent(final)]
  {
    events := [];
    var emitted := 0;
    var run: Run<Id, C> := Start(question);
    for n := 0 to |replies|
      invariant run == RunFrom(Start<Id, C>(question), replies[..n], w)
      invariant emitted == |run.state.steps| && events == StepEvents(run.state.steps)
    {
      assert replies[..n + 1][..n] == replies[..n];
      AdvanceExtends(run, replies[n], w);
      run := Advance(run, replies[n], w);
      var steps := run.state.steps;
      for i := emitted to |steps|
        invariant events == StepEvents(steps[..i])
      {
        events := events + [StepEvent(steps[i])];
      }
      assert steps[..|steps|] == steps;
      emitted := |steps|;
    }
    assert replies[..|replies|] == replies;
    events := events + [ResultEvent(run.state)];
  }

  // ------------------------------------------------------- the bound is tight

  /** Ready to review a draft that has a source. */
  ghost predicate Reviewing<Id, C>(run: Run<Id, C>, revisions: nat, critics: nat, reflectors: nat) {
    && run.next == Some(Critic) && |run.state.draftAnswer| > 0 && |run.state.chunks| > 0
    && run.state.revisionCount == revisions && Failures(run.visits, Critic) == critics
    && Failures(run.visits, Reflector) == reflectors
    && Visits(run.visits, Reflector) == revisions + reflectors
  }

  /** Only visits that wait for something outside have failed, and retrieval answers as it can. */
  ghost predicate Feasible<Id(!new), C(!new)>(run: Run<Id, C>, replies: seq<Reply<Id, C>>, w: Words<C>) {
    |replies| > 0 ==>
      && Feasible(run, replies[..|replies| - 1], w)
      && CanHappen(RunFrom(run, replies[..|replies| - 1], w), replies[|replies| - 1], w)
  }

  ghost predicate CanHappen<Id(!new), C(!new)>(run: Run<Id, C>, reply: Reply<Id, C>, w: Words<C>) {
    && run.next.Some? && (Fails(run.next.value, run.state, reply, w) ==> CallsOut(run.next.value, run.state))
    && (run.next.value.Retriever? && reply.Retrieved? ==> NothingForBlanks(Queries(run.state), reply.lists, w))
    && (run.next.value.GraphRetriever? && reply.Expanded? ==>
          NothingForBlanks([run.state.question], [reply.related], w))
  }

  /** Retrieval finds nothing for a blank query. */
  ghost predicate NothingForBlanks<Id(!new), C(!new)>(queries: seq<seq<C>>, lists: seq<seq<RetrievedChunk<Id, seq<C>>>>,
                                                      w: Words<C>)
  {
    forall i :: 0 <= i < |queries| && i < |lists| && |w.strip(queries[i])| == 0 ==> lists[i] == []
  }

  lemma FeasibleMore<Id(!new), C(!new)>(run: Run<Id, C>, replies: seq<Reply<Id, C>>, reply: Reply<Id, C>, w: Words<C>)
    requires Feasible(run, replies, w) && CanHappen(RunFrom(run, replies, w), reply, w)
    ensures Feasible(run, replies + [reply], w)
  {
    assert (replies + [reply])[..|replies|] == replies;
  }

  lemma ConcatLast<T>(a: seq<T>, b: seq<T>)
    requires |b| > 0
    ensures a + b == (a + b[..|b| - 1]) + [b[|b| - 1]]
  {
  }

  lemma FeasibleLast<Id(!new), C(!new)>(run: Run<Id, C>, replies: seq<Reply<Id, C>>, w: Words<C>)
    requires Feasible(run, replies, w) && |replies| > 0
    ensures var rest := replies[..|replies| - 1];
            Feasible(run, rest, w) && CanHappen(RunFrom(run, rest, w), replies[|replies| - 1], w)
  {
  }

  lemma {:induction false} FeasibleConcat<Id(!new), C(!new)>(run: Run<Id, C>, a: seq<Reply<Id, C>>,
                                                             b: seq<Reply<Id, C>>, w: Words<C>)
    requires Feasible(run, a, w) && Feasible(RunFrom(run, a, w), b, w)
    ensures Feasible(run, a + b, w)
  {
    if |b| == 0 {
      NoTail(a);
      assert a + b == a;
    } else {
      var rest, last := b[..|b| - 1], b[|b| - 1];
      FeasibleLast(RunFrom(run, a, w), b, w);
      FeasibleConcat(run, a, rest, w);
      RunFromConcat(run, a, rest, w);
      FeasibleMore(run, a + rest, last, w);
      ConcatLast(a, b);
    }
  }

  lemma FeasibleTwo<Id(!new), C(!new)>(run: Run<Id, C>, a: Reply<Id, C>, b: Reply<Id, C>, w: Words<C>)
    requires CanHappen(run, a, w) && CanHappen(Advance(run, a, w), b, w)
    ensures Feasible(run, [a, b], w)
  {
    assert [a, b][..1] == [a] && [a][..0] == [];
    assert RunFrom(run, [a], w) == Advance(run, a, w);
    assert Feasible(run, [a], w);
  }

  lemma RunFromTwo<Id(!new), C(!new)>(run: Run<Id, C>, a: Reply<Id, C>, b: Reply<Id, C>, w: Words<C>)
    ensures RunFrom(run, [a, b], w) == Advance(Advance(run, a, w), b, w)
  {
    assert [a, b][..1] == [a] && [a][..0] == [];
    assert RunFrom(run, [a], w) == Advance(run, a, w);
  }

  lemma {:induction false} RunFromConcat<Id(!new), C(!new)>(run: Run<Id, C>, a: seq<Reply<Id, C>>, b: seq<Reply<Id, C>>,
                                                            w: Words<C>)
    ensures RunFrom(run, a + b, w) == RunFrom(RunFrom(run, a, w), b, w)
  {
    if b == [] {
      assert a + b == a && RunFrom(RunFrom(run, a, w), b, w) == RunFrom(run, a, w);
    } else {
      RunFromConcat(run, a, b[..|b| - 1], w);
      var c := a + b;
      assert c[..|c| - 1] == a + b[..|b| - 1] && c[|c| - 1] == b[|b| - 1];
      assert RunFrom(run, c, w) == Advance(RunFrom(run, c[..|c| - 1], w), c[|c| - 1], w);
    }
  }

  lemma RunFromFive<Id(!new), C(!new)>(run: Run<Id, C>, a: seq<Reply<Id, C>>, b: seq<Reply<Id, C>>,
                                       c: seq<Reply<Id, C>>, d: seq<Reply<Id, C>>, e: seq<Reply<Id, C>>, w: Words<C>)
    ensures RunFrom(run, a + b + c + d + e, w)
         == RunFrom(RunFrom(RunFrom(RunFrom(RunFrom(run, a, w), b, w), c, w), d, w), e, w)
  {
    RunFromConcat(run, a + b + c + d, e, w);
    RunFromConcat(run, a + b + c, d, w);
    RunFromConcat(run, a + b, c, w);
    RunFromConcat(run, a, b, w);
  }

  lemma VisitsTwice(visits: seq<Step>, a: Step, b: Step, agent: Agent)
    ensures Visits(visits + [a] + [b], agent) ==
              Visits(visits, agent) + (if a.agent == agent then 1 else 0) + if b.agent == agent then 1 else 0
    ensures Failures(visits + [a] + [b], agent)
            == Failures(visits, agent) + (if a == Step(agent, true) then 1 else 0)
               + if b == Step(agent, true) then 1 else 0
  {
    OneMoreVisit(visits, a, agent);
    OneMoreVisit(visits + [a], b, agent);
  }

  function CriticReply<Id, C>(issue: seq<C>, fails: bool): Reply<Id, C> {
    if fails then Raised else Critiqued([issue], true, 0)
  }

  function ReflectorReply<Id, C>(fails: bool): Reply<Id, C> {
    if fails then Raised else Answered([], 0)
  }

  lemma CriticVisit<Id(!new), C(!new)>(s: State<Id, C>, w: Words<C>, issue: seq<C>, fails: bool)
    requires |s.draftAnswer| > 0 && |s.chunks| > 0 && if fails then s.needsRevision else s.revisionCount < MAX_REVISIONS
    ensures var s', reply := Visit<Id, C>(Critic, s, CriticReply(issue, fails), w), CriticReply<Id, C>(issue, fails);
            && Fails(Critic, s, reply, w) == fails && s'.needsRevision
            && s'.draftAnswer == s.draftAnswer && s'.chunks == s.chunks && s'.revisionCount == s.revisionCount
  {
    var reply := CriticReply<Id, C>(issue, fails);
    assert Act(Critic, s, reply, w) == if reply.Raised? then None else CriticAgent(s, reply, w);
  }

  lemma ReflectorVisit<Id(!new), C(!new)>(s: State<Id, C>, w: Words<C>, fails: bool)
    requires |s.draftAnswer| > 0
    ensures var s', reply := Visit<Id, C>(Reflector, s, ReflectorReply(fails), w), ReflectorReply<Id, C>(fails);
            && Fails(Reflector, s, reply, w) == fails && s'.needsRevision == s.needsRevision
            && |s'.draftAnswer| > 0 && s'.chunks == s.chunks
            && s'.revisionCount == s.revisionCount + if fails then 0 else 1
  {
    var reply := ReflectorReply<Id, C>(fails);
    assert Act(Reflector, s, reply, w) == if reply.Raised? then None else ReflectorAgent(s, reply, w);
  }

  /** One round of review: the critic flags the draft or fails while it is still flagged,
      then the reflector revises it or fails. */
  lemma ReviewRound<Id(!new), C(!new)>(run: Run<Id, C>, w: Words<C>, issue: seq<C>, revisions: nat, critics: nat,
                                       reflectors: nat, criticFails: bool, reflectorFails: bool)
    returns (replies: seq<Reply<Id, C>>)
    requires Reviewing(run, revisions, critics, reflectors)
    requires if criticFails then run.state.needsRevision else revisions < MAX_REVISIONS
    ensures var run' := RunFrom(run, replies, w);
            && Reviewing(run', revisions + (if reflectorFails then 0 else 1), critics + (if criticFails then 1 else 0),
                         reflectors + (if reflectorFails then 1 else 0))
            && run'.state.needsRevision
    ensures Feasible(run, replies, w)
  {
    var a, b := CriticReply<Id, C>(issue, criticFails), ReflectorReply<Id, C>(reflectorFails);
    replies := [a, b];
    RunFromTwo(run, a, b, w);
    CriticVisit(run.state, w, issue, criticFails);
    ReflectorVisit(Visit(Critic, run.state, a, w), w, reflectorFails);
    FeasibleTwo(run, a, b, w);
    VisitsTwice(run.visits, Step(Critic, criticFails), Step(Reflector, reflectorFails), Critic);
    VisitsTwice(run.visits, Step(Critic, criticFails), Step(Reflector, reflectorFails), Reflector);
  }

  /** So many rounds of the same kind. */
  lemma {:induction false} ReviewRounds<Id(!new), C(!new)>(run: Run<Id, C>, w: Words<C>, issue: seq<C>, revisions: nat,
                                                           critics: nat, reflectors: nat, criticFails: bool,
                                                           reflectorFails: bool, n: nat)
    returns (replies: seq<Reply<Id, C>>)
    requires Reviewing(run, revisions, critics, reflectors)
    requires if criticFails then run.state.needsRevision else reflectorFails && revisions < MAX_REVISIONS
    ensures var run' := RunFrom(run, replies, w);
            && Reviewing(run', revisions + (if reflectorFails then 0 else n), critics + (if criticFails then n else 0),
                         reflectors + (if reflectorFails then n else 0))
            && (run'.state.needsRevision || !criticFails)
    ensures Feasible(run, replies, w)
  {
    if n == 0 {
      return [];
    }
    var before := ReviewRounds(run, w, issue, revisions, critics, reflectors, criticFails, reflectorFails, n - 1);
    var run1 := RunFrom(run, before, w);
    var round := ReviewRound(run1, w, issue, run1.state.revisionCount, Failures(run1.visits, Critic),
                             Failures(run1.visits, Reflector), criticFails, reflectorFails);
    replies := before + round;
    RunFromConcat(run, before, round, w);
    FeasibleConcat(run, before, round, w);
  }

  /** On the way to the first review without a plan, with or without sources yet. */
  ghost predicate Opened<Id, C>(run: Run<Id, C>, next: Agent, sources: seq<RetrievedChunk<Id, seq<C>>>) {
    && run.next == Some(next) && run.state.plan.None? && run.state.revisionCount == 0 && run.state.chunks == sources
    && Failures(run.visits, Critic) == Failures(run.visits, Reflector) == Visits(run.visits, Reflector) == 0
  }

  lemma StillUncounted(visits: seq<Step>, agent: Agent, failed: bool)
    requires Failures(visits, Critic) == Failures(visits, Reflector) == Visits(visits, Reflector) == 0
    requires !agent.Critic? && !agent.Reflector?
    ensures var more := visits + [Step(agent, failed)];
            Failures(more, Critic) == Failures(more, Reflector) == Visits(more, Reflector) == 0
  {
    OneMoreVisit(visits, Step(agent, failed), Critic);
    OneMoreVisit(visits, Step(agent, failed), Reflector);
  }

  /** The planner or the graph retriever fails, and the run moves on. */
  lemma OpeningFails<Id(!new), C(!new)>(run: Run<Id, C>, w: Words<C>, agent: Agent,
                                        sources: seq<RetrievedChunk<Id, seq<C>>>, after: Agent)
    requires Opened(run, agent, sources) && (agent.Planner? || agent.GraphRetriever?)
             && Route(agent, run.state) == Some(after)
    ensures Opened(Advance(run, Raised, w), after, sources) && CanHappen(run, Raised, w)
    ensures Advance(run, Raised, w).state.question == run.state.question
  {
    VisitRecords(agent, run.state, Raised, w);
    StillUncounted(run.visits, agent, true);
  }

  lemma OpeningRetrieves<Id(!new), C(!new)>(run: Run<Id, C>, w: Words<C>, source: RetrievedChunk<Id, seq<C>>)
    requires Opened(run, Retriever, []) && |w.strip(run.state.question)| > 0
    ensures var reply := Retrieved([[source]]);
            Opened(Advance(run, reply, w), GraphRetriever, [source]) && CanHappen(run, reply, w)
  {
    var reply: Reply<Id, C> := Retrieved([[source]]);
    assert Act(Retriever, run.state, reply, w) == RetrieverAgent(run.state, reply);
    MergedSingle(source);
    StillUncounted(run.visits, Retriever, false);
  }

  lemma MergedSingle<Id(!new), T>(source: RetrievedChunk<Id, T>)
    ensures MergeLists([[source]]) == [source]
  {
    assert [[source]][..0] == [] && [source][..0] == [];
    var none: seq<RetrievedChunk<Id, T>> := [];
    assert AddAll(none, none) == none;
    assert AddAll(none, [source]) == [source];
  }

  /** Without a plan there is no web search, and nothing that could fail. */
  lemma OpeningSkipsWeb<Id(!new), C(!new)>(run: Run<Id, C>, w: Words<C>, sources: seq<RetrievedChunk<Id, seq<C>>>)
    requires Opened(run, WebSearch, sources)
    ensures Opened(Advance(run, Searched([]), w), Ranker, sources) && CanHappen(run, Searched([]), w)
  {
    var reply: Reply<Id, C> := Searched([]);
    assert Act(WebSearch, run.state, reply, w) == WebSearchAgent(run.state, reply);
    StillUncounted(run.visits, WebSearch, false);
  }

  /** A source that fits the context budget by itself. */
  predicate Fits<Id, C>(source: RetrievedChunk<Id, seq<C>>) {
    EstimateTokens(source.content) <= Budget(MAX_CONTEXT_TOKENS, DEFAULT_RESERVED_TOKENS)
  }

  lemma RankedSingle<Id(!new), C(!new)>(source: RetrievedChunk<Id, seq<C>>, w: Words<C>)
    requires Fits(source)
    ensures RankedAndPacked([source], w) == [source]
  {
    var passages := AsPassages([source]);
    assert [source][1..] == [] && passages[..0] == [];
    assert SortDescending([source], RankKey) == [source];
    var budget := Budget(MAX_CONTEXT_TOKENS, DEFAULT_RESERVED_TOKENS);
    assert PackAll(passages[..0], w.query, w.space, budget) == PackedContext([], 0, 0, 0);
    assert PackAll(passages, w.query, w.space, budget).chunks == [] + passages;
    NoTail(passages);
    assert AsChunks(passages)[0] == source;
  }

  lemma OpeningRanks<Id(!new), C(!new)>(run: Run<Id, C>, w: Words<C>, source: RetrievedChunk<Id, seq<C>>)
    requires Opened(run, Ranker, [source]) && Fits(source)
    ensures Opened(Advance(run, Searched([]), w), Reasoner, [source]) && CanHappen(run, Searched([]), w)
  {
    var reply: Reply<Id, C> := Searched([]);
    assert Act(Ranker, run.state, reply, w) == RankerAgent(run.state, reply, w);
    RankedSingle(source, w);
    StillUncounted(run.visits, Ranker, false);
  }

  lemma OpeningDrafts<Id(!new), C(!new)>(run: Run<Id, C>, w: Words<C>, source: RetrievedChunk<Id, seq<C>>,
                                         draft: seq<C>)
    requires Opened(run, Reasoner, [source]) && |draft| > 0
    ensures var reply := Answered(draft, 0); Reviewing(Advance(run, reply, w), 0, 0, 0) && CanHappen(run, reply, w)
  {
    var reply: Reply<Id, C> := Answered(draft, 0);
    assert Act(Reasoner, run.state, reply, w) == ReasonerAgent(run.state, reply, w);
    StillUncounted(run.visits, Reasoner, false);
  }

  /** Planner and retriever, then graph retriever and web search, then ranker and reasoner. */
  lemma OpeningRun<Id(!new), C(!new)>(question: seq<C>, w: Words<C>, source: RetrievedChunk<Id, seq<C>>, draft: seq<C>)
    returns (o: seq<Reply<Id, C>>)
    requires |w.strip(question)| > 0 && |draft| > 0 && Fits(source)
    ensures Reviewing(RunFrom(Start<Id, C>(question), o, w), 0, 0, 0) && Feasible(Start<Id, C>(question), o, w)
  {
    var start := Start<Id, C>(question);
    var a: seq<Reply<Id, C>>, b: seq<Reply<Id, C>>, c: seq<Reply<Id, C>> :=
      [Raised, Retrieved([[source]])], [Raised, Searched([])], [Searched([]), Answered(draft, 0)];
    var run1 := OpeningFinds(start, w, source, a);
    var run2 := OpeningPasses(run1, w, source, b);
    OpeningEnds(run2, w, source, draft, c);
    o := a + b + c;
    RunFromConcat(start, a + b, c, w);
    RunFromConcat(start, a, b, w);
    FeasibleConcat(start, a, b, w);
    FeasibleConcat(start, a + b, c, w);
  }

  lemma OpeningFinds<Id(!new), C(!new)>(run: Run<Id, C>, w: Words<C>, source: RetrievedChunk<Id, seq<C>>,
                                        a: seq<Reply<Id, C>>)
    returns (run': Run<Id, C>)
    requires Opened(run, Planner, []) && |w.strip(run.state.question)| > 0 && a == [Raised, Retrieved([[source]])]
    ensures run' == RunFrom(run, a, w) && Opened(run', GraphRetriever, [source]) && Feasible(run, a, w)
  {
    OpeningFails(run, w, Planner, [], Retriever);
    OpeningRetrieves(Advance(run, Raised, w), w, source);
    RunFromTwo(run, a[0], a[1], w);
    FeasibleTwo(run, a[0], a[1], w);
    run' := RunFrom(run, a, w);
  }

  lemma OpeningPasses<Id(!new), C(!new)>(run: Run<Id, C>, w: Words<C>, source: RetrievedChunk<Id, seq<C>>,
                                         b: seq<Reply<Id, C>>)
    returns (run': Run<Id, C>)
    requires Opened(run, GraphRetriever, [source]) && b == [Raised, Searched([])]
    ensures run' == RunFrom(run, b, w) && Opened(run', Ranker, [source]) && Feasible(run, b, w)
  {
    OpeningFails(run, w, GraphRetriever, [source], WebSearch);
    OpeningSkipsWeb(Advance(run, Raised, w), w, [source]);
    RunFromTwo(run, b[0], b[1], w);
    FeasibleTwo(run, b[0], b[1], w);
    run' := RunFrom(run, b, w);
  }

  lemma OpeningEnds<Id(!new), C(!new)>(run: Run<Id, C>, w: Words<C>, source: RetrievedChunk<Id, seq<C>>, draft: seq<C>,
                                       c: seq<Reply<Id, C>>)
    requires Opened(run, Ranker, [source]) && Fits(source) && |draft| > 0 && c == [Searched([]), Answered(draft, 0)]
    ensures Reviewing(RunFrom(run, c, w), 0, 0, 0) && Feasible(run, c, w)
  {
    OpeningRanks(run, w, source);
    OpeningDrafts(Advance(run, Searched([]), w), w, source, draft);
    RunFromTwo(run, c[0], c[1], w);
    FeasibleTwo(run, c[0], c[1], w);
  }

  /** Five stretches of a run, one after the other. */
  lemma FeasibleFive<Id(!new), C(!new)>(run: Run<Id, C>, a: seq<Reply<Id, C>>, b: seq<Reply<Id, C>>,
                                        c: seq<Reply<Id, C>>, d: seq<Reply<Id, C>>, e: seq<Reply<Id, C>>, w: Words<C>)
    requires Feasible(run, a, w) && Feasible(RunFrom(run, a, w), b, w)
             && Feasible(RunFrom(RunFrom(run, a, w), b, w), c, w)
    requires var run3 := RunFrom(RunFrom(RunFrom(run, a, w), b, w), c, w);
             Feasible(run3, d, w) && Feasible(RunFrom(run3, d, w), e, w)
    ensures Feasible(run, a + b + c + d + e, w)
  {
    RunFromConcat(run, a + b + c, d, w);
    RunFromConcat(run, a + b, c, w);
    RunFromConcat(run, a, b, w);
    FeasibleConcat(run, a, b, w);
    FeasibleConcat(run, a + b, c, w);
    FeasibleConcat(run, a + b + c, d, w);
    FeasibleConcat(run, a + b + c + d, e, w);
  }

  /** The revision bound is reached, whatever the numbers of failures: for every `c` and
      `f`, every question that is not blank and every source that fits the context, there
      is a run in which no visit fails that does not wait for something outside, the
      critic fails `c` times, the reflector fails `f` times, and the reflector is visited
      2 + c + f times. */
  lemma RevisionBoundIsTight<Id(!new), C(!new)>(question: seq<C>, w: Words<C>, source: RetrievedChunk<Id, seq<C>>,
                                                draft: seq<C>, c: nat, f: nat)
    returns (replies: seq<Reply<Id, C>>)
    requires |w.strip(question)| > 0 && |draft| > 0 && Fits(source)
    ensures Feasible(Start<Id, C>(question), replies, w)
    ensures var run := RunFrom(Start<Id, C>(question), replies, w);
            && Failures(run.visits, Critic) == c && Failures(run.visits, Reflector) == f
            && Visits(run.visits, Reflector) == MAX_REVISIONS + c + f && run.state.revisionCount == MAX_REVISIONS + c
  {
    var start := Start<Id, C>(question);
    var opening := OpeningRun(question, w, source, draft);
    var run0 := RunFrom(start, opening, w);
    var failing, first := ReviewsFailing(run0, w, draft, f);
    var run2 := RunFrom(RunFrom(run0, failing, w), first, w);
    var second, unchecked := ReviewsUnchecked(run2, w, draft, c, f);
    replies := opening + failing + first + second + unchecked;
    RunFromFive(start, opening, failing, first, second, unchecked, w);
    FeasibleFive(start, opening, failing, first, second, unchecked, w);
  }

  /** The reflector fails `f` times, then succeeds. */
  lemma ReviewsFailing<Id(!new), C(!new)>(run: Run<Id, C>, w: Words<C>, issue: seq<C>, f: nat)
    returns (failing: seq<Reply<Id, C>>, first: seq<Reply<Id, C>>)
    requires Reviewing(run, 0, 0, 0)
    ensures Feasible(run, failing, w) && Feasible(RunFrom(run, failing, w), first, w)
    ensures Reviewing(RunFrom(RunFrom(run, failing, w), first, w), 1, 0, f)
  {
    failing := ReviewRounds(run, w, issue, 0, 0, 0, false, true, f);
    first := ReviewRound(RunFrom(run, failing, w), w, issue, 0, 0, f, false, false);
  }

  /** A second revision, then the critic fails `c` times. */
  lemma ReviewsUnchecked<Id(!new), C(!new)>(run: Run<Id, C>, w: Words<C>, issue: seq<C>, c: nat, f: nat)
    returns (second: seq<Reply<Id, C>>, unchecked: seq<Reply<Id, C>>)
    requires Reviewing(run, 1, 0, f)
    ensures Feasible(run, second, w) && Feasible(RunFrom(run, second, w), unchecked, w)
    ensures Reviewing(RunFrom(RunFrom(run, second, w), unchecked, w), 2 + c, c, f)
  {
    second := ReviewRound(run, w, issue, 1, 0, f, false, false);
    unchecked := ReviewRounds(RunFrom(run, second, w), w, issue, 2, 0, f, true, false, c);
  }
}
