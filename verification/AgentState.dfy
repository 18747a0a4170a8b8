/** The state the agents share, and how their updates are merged into it
    (backend/app/agents/state.py). */
module AgentState {
  import opened Options
  import opened Retrieval

  datatype Agent =
    | Planner | Retriever | GraphRetriever | WebSearch | Ranker | Reasoner
    | Critic | Reflector | Verifier | Citation | Summarizer

  /** One entry of the audit trail: who, and whether it failed. */
  datatype Step = Step(agent: Agent, failed: bool)

  datatype Intent = Question | Compare | LiteratureReview | GapAnalysis | Summarize

  datatype Plan<C> = Plan(intent: Intent, subQuestions: seq<seq<C>>, needsWebSearch: bool)

  datatype Verification = Verification(supported: bool, confidence: real)

  datatype State<Id, C> =
    State(question: seq<C>, plan: Option<Plan<C>>, chunks: seq<RetrievedChunk<Id, seq<C>>>, webResults: seq<seq<C>>,
          graphPaths: seq<seq<C>>, draftAnswer: seq<C>, finalAnswer: seq<C>, citations: seq<int>, critique: seq<C>,
          needsRevision: bool, revisionCount: nat, verification: Option<Verification>, confidence: real,
          steps: seq<Step>, usageTokens: nat, errors: seq<Agent>)

  /** What an agent returns: the keys it changed. Steps, usage and errors are added to
      the state's; every other key replaces it. */
  datatype Delta<Id, C> =
    Delta(steps: seq<Step>, usageTokens: nat := 0, errors: seq<Agent> := [], plan: Option<Plan<C>> := None,
          chunks: Option<seq<RetrievedChunk<Id, seq<C>>>> := None, webResults: Option<seq<seq<C>>> := None,
          graphPaths: Option<seq<seq<C>>> := None, draftAnswer: Option<seq<C>> := None,
          finalAnswer: Option<seq<C>> := None, citations: Option<seq<int>> := None, critique: Option<seq<C>> := None,
          needsRevision: Option<bool> := None, revisionCount: Option<nat> := None,
          verification: Option<Verification> := None, confidence: Option<real> := None)

  function OrElse<T>(update: Option<T>, current: T): T {
    if update.Some? then update.value else current
  }

  function Merge<Id, C>(s: State<Id, C>, d: Delta<Id, C>): State<Id, C> {
    State(s.question, if d.plan.Some? then d.plan else s.plan, OrElse(d.chunks, s.chunks),
          OrElse(d.webResults, s.webResults), OrElse(d.graphPaths, s.graphPaths),
          OrElse(d.draftAnswer, s.draftAnswer), OrElse(d.finalAnswer, s.finalAnswer),
          OrElse(d.citations, s.citations), OrElse(d.critique, s.critique), OrElse(d.needsRevision, s.needsRevision),
          OrElse(d.revisionCount, s.revisionCount), if d.verification.Some? then d.verification else s.verification,
          OrElse(d.confidence, s.confidence), s.steps + d.steps, s.usageTokens + d.usageTokens, s.errors + d.errors)
  }

  function InitialState<Id, C>(question: seq<C>): State<Id, C> {
    State(question, None, [], [], [], [], [], [], [], false, 0, None, 0.0, [], 0, [])
  }
}
