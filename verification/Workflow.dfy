/**
 The agent's graph, agent/backend/app/graph (builder.py, nodes/workflow.py), as a state
 machine. Everything a language model, a retriever, a search service or the user may
 answer is an arbitrary input of the step that asks for it.
 */
module Workflow {
  import J = Json
  import N = Numbers

  datatype Node =
    | LoadContext | ContextualizeQuestion | RouteIntent
    | DirectChat | Reminder | Progress | UpdateProgress | Quiz
    | DraftPlan | ApprovePlan | PersistPlan
    | PrepareQuery | Retrieve | GradeRetrieval | DecideEvidence | RewriteQuery | WebSearch | GenerateGrounded
    | PlanResearch | ResearchWorkers | ResearchReason | ResearchAct | ResearchCritic | SynthesizeResearch
    | Reflect | Finalize | End

  datatype Intent = ChatIntent | KnowledgeQa | WebIntent | ReminderIntent | CreatePlan | QuizIntent | ProgressIntent | UpdateIntent | DeepResearch

  datatype Policy = Auto | LocalOnly | WebRequired

  datatype Quality = Good | Weak | Empty

  datatype Option<T> = None | Some(value: T)

  // A tool call: a tool and its arguments, an object with its keys in the order they came.
  datatype Call = Call(name: string, arguments: J.Json)

  datatype Outcome = Executed | Duplicate | Rejected

  // asked: the user was asked in this round; approved: what came back, true if nobody was asked.
  datatype Record = Branch | Observation(call: Call, outcome: Outcome, asked: bool, approved: bool)

  datatype Config = Config(maxRewrites: nat, maxIterations: nat, maxToolCalls: nat, requirePlanApproval: bool)

  datatype State = State(
    node: Node,
    policy: Policy,
    quality: Quality,
    rewrites: nat,          // rewrite_count
    webSearches: nat,       // web_search_count
    evidence: Evidence,     // evidence_action
    tasks: nat,             // how many research tasks were planned
    iterations: nat,        // research_iterations
    toolCalls: nat,         // research_tool_calls
    pending: seq<Call>,     // pending_tool_calls
    outputs: seq<Record>,   // research_outputs
    planApproved: bool,
    planSaved: bool,
    finalized: bool)

  // The input state of a run.
  const START := State(LoadContext, Auto, Empty, 0, 0, Undecided, 0, 0, 0, [], [], false, false, false)

  // What the world answers a node.
  datatype Answer =
    | Routed(intent: Intent, policy: Policy)
    | Graded(quality: Quality)
    | WebEnabled(enabled: bool)
    | Tasks(count: nat)
    | Decision(allowed: set<string>, calls: seq<Call>)
    | Approval(approved: bool)
    | Review(llm: bool, verdict: Option<bool>)
    | Nothing

  const RESEARCH_TOOLS: set<string> := {
    "search_private_knowledge", "list_knowledge_documents", "search_web", "get_learning_plan",
    "update_learning_progress", "create_learning_reminder", "list_learning_reminders"}

  const WRITE_NAMES: set<string> := {"update_learning_progress", "create_learning_reminder"}

  predicate IsWrite(call: Call) { call.name in WRITE_NAMES }

  // ---------------------------------------------------------------- evidence

  datatype Evidence = Undecided | Generate | Rewrite | Web | Refuse

  function Decide(s: State, maxRewrites: nat, webAvailable: bool): Evidence {
    if s.policy == WebRequired && webAvailable && s.webSearches == 0 then Web
    else if s.quality == Good then Generate
    else if s.rewrites < maxRewrites then Rewrite
    else if s.policy == LocalOnly then Refuse
    else if webAvailable && s.webSearches == 0 then Web
    else Refuse
  }

  // ---------------------------------------------------------------- research

  function Signature(call: Call): string { call.name + ":" + J.Print(call.arguments, "") }

  // The same tool with equal arguments, whatever order their keys are in and whether a
  // number is an int, a float or a boolean.
  ghost predicate SamePair(a: Call, b: Call) {
    a.name == b.name && J.Same(a.arguments, b.arguments)
  }

  // Numbers of the same kinds, and keys in the same order.
  predicate SameForm(a: Call, b: Call) {
    J.SameKinds(a.arguments, b.arguments) && J.SameOrder(a.arguments, b.arguments)
  }

  // What json.loads can make of a model's arguments.
  ghost predicate Parsed(calls: seq<Call>) {
    forall i :: 0 <= i < |calls| ==> calls[i].arguments.Object? && J.IsValue(calls[i].arguments)
  }

  function Signatures(outputs: seq<Record>): set<string> {
    set r | r in outputs && r.Observation? :: Signature(r.call)
  }

  // The allowed calls, cut to the budget.
  function Allowed(calls: seq<Call>, allowed: set<string>): (r: seq<Call>)
    ensures forall c :: c in r ==> c in calls && c.name in allowed
  {
    if calls == [] then []
    else (if calls[0].name in allowed then [calls[0]] else []) + Allowed(calls[1..], allowed)
  }

  function Budgeted(calls: seq<Call>, remaining: int): seq<Call> {
    if remaining <= 0 then [] else if |calls| <= remaining then calls else calls[..remaining]
  }

  predicate Asks(calls: seq<Call>) { exists i :: 0 <= i < |calls| && IsWrite(calls[i]) }

  // What becomes of a call, given the signatures already taken.
  function OutcomeOf(call: Call, approved: bool, signatures: set<string>): Outcome {
    if IsWrite(call) && !approved then Rejected
    else if Signature(call) in signatures then Duplicate
    else Executed
  }

  function Observe(calls: seq<Call>, asked: bool, approved: bool, signatures: set<string>): (r: seq<Record>)
    ensures |r| == |calls|
    ensures forall i :: 0 <= i < |r| ==> r[i].Observation? && r[i].call == calls[i] && r[i].asked == asked && r[i].approved == approved
  {
    if calls == [] then []
    else
      var outcome := OutcomeOf(calls[0], approved, signatures);
      [Observation(calls[0], outcome, asked, approved)] +
      Observe(calls[1..], asked, approved, if outcome == Executed then signatures + {Signature(calls[0])} else signatures)
  }

  lemma ObserveOne(calls: seq<Call>, asked: bool, approved: bool, signatures: set<string>)
    requires calls != []
    ensures var outcome := OutcomeOf(calls[0], approved, signatures);
      var taken := if outcome == Executed then signatures + {Signature(calls[0])} else signatures;
      var r := Observe(calls, asked, approved, signatures);
      r[0] == Observation(calls[0], outcome, asked, approved) && r[1..] == Observe(calls[1..], asked, approved, taken)
  {}

  lemma ObserveNext(done: seq<Record>, calls: seq<Call>, i: nat, asked: bool, approved: bool, signatures: set<string>)
    requires i < |calls|
    ensures var outcome := OutcomeOf(calls[i], approved, signatures);
      var taken := if outcome == Executed then signatures + {Signature(calls[i])} else signatures;
      done + Observe(calls[i..], asked, approved, signatures)
        == (done + [Observation(calls[i], outcome, asked, approved)]) + Observe(calls[i + 1..], asked, approved, taken)
  {
    hide Observe, Signature, IsWrite;
    ObserveOne(calls[i..], asked, approved, signatures);
    assert calls[i..][1..] == calls[i + 1..];
    var rest := Observe(calls[i..], asked, approved, signatures);
    assert rest == [rest[0]] + rest[1..];
    assert done + rest == (done + [rest[0]]) + rest[1..];
  }

  // The loop of research_act.
  method ActOnCalls(calls: seq<Call>, asked: bool, approved: bool, outputs: seq<Record>) returns (observations: seq<Record>)
    ensures observations == Observe(calls, asked, approved, Signatures(outputs))
  {
    hide Observe, Signature, Signatures, IsWrite;
    var signatures := Signatures(outputs);
    observations := [];
    var i := 0;
    assert calls[0..] == calls;
    while i < |calls|
      invariant i <= |calls|
      invariant observations + Observe(calls[i..], asked, approved, signatures) == Observe(calls, asked, approved, Signatures(outputs))
    {
      var call := calls[i];
      var outcome;
      if IsWrite(call) && !approved {
        outcome := Rejected;
      } else if Signature(call) in signatures {
        outcome := Duplicate;
      } else {
        outcome := Executed;
      }
      ObserveNext(observations, calls, i, asked, approved, signatures);
      if outcome == Executed {
        signatures := signatures + {Signature(call)};
      }
      observations := observations + [Observation(call, outcome, asked, approved)];
      i := i + 1;
    }
    assert Observe(calls[i..], asked, approved, signatures) == [];
    assert observations + [] == observations;
  }

  // ---------------------------------------------------------------- steps

  function Target(intent: Intent): Node {
    match intent
    case ChatIntent => DirectChat
    case KnowledgeQa => PrepareQuery
    case WebIntent => PrepareQuery
    case ReminderIntent => Reminder
    case CreatePlan => DraftPlan
    case QuizIntent => Quiz
    case ProgressIntent => Progress
    case UpdateIntent => UpdateProgress
    case DeepResearch => PlanResearch
  }

  function Reason(c: Config, s: State, allowed: set<string>, calls: seq<Call>): State {
    var pending := Budgeted(Allowed(calls, allowed), c.maxToolCalls - s.toolCalls);
    s.(pending := pending, iterations := s.iterations + 1, node := if pending != [] then ResearchAct else SynthesizeResearch)
  }

  function Act(s: State, answer: bool): State {
    var asked := Asks(s.pending);
    var observations := Observe(s.pending, asked, !asked || answer, Signatures(s.outputs));
    s.(outputs := s.outputs + observations, pending := [], toolCalls := s.toolCalls + |observations|, node := ResearchCritic)
  }

  predicate Continues(c: Config, s: State, llm: bool, verdict: Option<bool>) {
    var exhausted := s.iterations >= c.maxIterations || s.toolCalls >= c.maxToolCalls;
    if exhausted then false
    else if llm then (if verdict.Some? then verdict.value else s.pending != [])
    else s.iterations < 2 && s.toolCalls < c.maxToolCalls
  }

  // What an answer must look like for the node that asks.
  ghost predicate Answers(s: State, a: Answer) {
    match s.node
    case RouteIntent => a.Routed?
    case GradeRetrieval => a.Graded?
    case DecideEvidence => a.WebEnabled?
    case PlanResearch => a.Tasks?
    case ResearchReason => a.Decision? && a.allowed <= RESEARCH_TOOLS && Parsed(a.calls)
    case ResearchAct => a.Approval?
    case ApprovePlan => a.Approval?
    case ResearchCritic => a.Review?
    case End => false
    case _ => a.Nothing?
  }

  // The adaptive-retrieval nodes.
  predicate Evidential(n: Node) {
    n.PrepareQuery? || n.Retrieve? || n.GradeRetrieval? || n.DecideEvidence? || n.RewriteQuery? || n.WebSearch? || n.GenerateGrounded?
  }

  function EvidenceNode(c: Config, s: State, a: Answer): State
    requires Answers(s, a) && Evidential(s.node)
  {
    match s.node
    case PrepareQuery => s.(node := Retrieve)
    case Retrieve => s.(node := GradeRetrieval)
    case GradeRetrieval => s.(quality := a.quality, node := DecideEvidence)
    case DecideEvidence =>
      var action := Decide(s, c.maxRewrites, a.enabled);
      s.(evidence := action,
         node := if action == Rewrite then RewriteQuery else if action == Web then WebSearch else GenerateGrounded)
    case RewriteQuery => s.(rewrites := s.rewrites + 1, node := Retrieve)
    case WebSearch => s.(webSearches := s.webSearches + 1, node := GenerateGrounded)
    case GenerateGrounded => s.(node := Reflect)
  }

  // The research loop's nodes.
  predicate Researching(n: Node) {
    n.PlanResearch? || n.ResearchWorkers? || n.ResearchReason? || n.ResearchAct? || n.ResearchCritic? || n.SynthesizeResearch?
  }

  function ResearchNode(c: Config, s: State, a: Answer): State
    requires Answers(s, a) && Researching(s.node)
  {
    match s.node
    // With no task there is no worker to send to, and the graph has nothing left to run.
    case PlanResearch => s.(tasks := a.count, node := if a.count == 0 then End else ResearchWorkers)
    case ResearchWorkers => s.(outputs := s.outputs + seq(s.tasks, _ => Branch), node := ResearchReason)
    case ResearchReason => Reason(c, s, a.allowed, a.calls)
    case ResearchAct => Act(s, a.approved)
    case ResearchCritic => s.(node := if Continues(c, s, a.llm, a.verdict) then ResearchReason else SynthesizeResearch)
    case SynthesizeResearch => s.(node := Reflect)
  }

  function OtherNode(c: Config, s: State, a: Answer): State
    requires Answers(s, a) && !Evidential(s.node) && !Researching(s.node)
  {
    match s.node
    case LoadContext => s.(node := ContextualizeQuestion)
    case ContextualizeQuestion => s.(node := RouteIntent)
    case RouteIntent =>
      s.(policy := if a.intent == WebIntent && a.policy != LocalOnly then WebRequired else a.policy, node := Target(a.intent))
    case DraftPlan => s.(node := ApprovePlan)
    case ApprovePlan => s.(planApproved := !c.requirePlanApproval || a.approved, node := PersistPlan)
    case PersistPlan => s.(planSaved := s.planApproved, node := Reflect)
    case Reflect => s.(node := Finalize)
    case Finalize => s.(finalized := true, node := End)
    case _ => s.(node := Reflect)
  }

  function Step(c: Config, s: State, a: Answer): State
    requires Answers(s, a)
  {
    if Evidential(s.node) then EvidenceNode(c, s, a)
    else if Researching(s.node) then ResearchNode(c, s, a)
    else OtherNode(c, s, a)
  }

  ghost predicate Reaches(c: Config, s: State, answers: seq<Answer>, t: State)
    decreases |answers|
  {
    if answers == [] then t == s
    else Answers(s, answers[0]) && Reaches(c, Step(c, s, answers[0]), answers[1..], t)
  }

  // ---------------------------------------------------------------- termination

  function Max(a: nat, b: nat): nat { if a < b then b else a }

  function RewritesLeft(c: Config, s: State): nat {
    if s.rewrites < c.maxRewrites then c.maxRewrites - s.rewrites else 0
  }

  // Even a limit of zero lets the first iteration happen.
  function IterationsLeft(c: Config, s: State): nat {
    var limit := Max(1, c.maxIterations);
    if s.iterations < limit then limit - s.iterations else 0
  }

  // Rounds left at most. A rewrite costs four nodes, a research iteration three.
  function Left(c: Config, s: State): nat {
    var r, i := RewritesLeft(c, s), IterationsLeft(c, s);
    var routed := Max(4 * r + 8, 3 * i + 5);
    match s.node
    case LoadContext => routed + 3
    case ContextualizeQuestion => routed + 2
    case RouteIntent => routed + 1
    case DraftPlan => 5
    case ApprovePlan => 4
    case PrepareQuery => 4 * r + 8
    case Retrieve => 4 * r + 7
    case GradeRetrieval => 4 * r + 6
    case DecideEvidence => 4 * r + 5
    case RewriteQuery => 4 * r + 4
    case WebSearch => 4
    case PlanResearch => 3 * i + 5
    case ResearchWorkers => 3 * i + 4
    case ResearchReason => 3 * i + 3
    case ResearchAct => 3 * i + 5
    case ResearchCritic => 3 * i + 4
    case Reflect => 2
    case Finalize => 1
    case End => 0
    case _ => 3
  }

  predicate EvidenceBudget(c: Config, s: State) {
    && s.rewrites <= c.maxRewrites && (s.node.RewriteQuery? ==> s.rewrites < c.maxRewrites)
    && s.webSearches <= (if s.node.GenerateGrounded? || s.node.Reflect? || s.node.Finalize? || s.node.End? then 1 else 0)
    && (s.policy == LocalOnly ==> s.webSearches == 0 && !s.node.WebSearch?)
  }

  predicate Planning(n: Node) {
    n.LoadContext? || n.ContextualizeQuestion? || n.RouteIntent? || n.PlanResearch? || n.ResearchWorkers?
  }

  predicate ResearchBudget(c: Config, s: State) {
    && s.iterations <= Max(1, c.maxIterations) && (s.node.ResearchReason? ==> s.iterations < Max(1, c.maxIterations))
    && s.toolCalls + |s.pending| <= c.maxToolCalls
    && (Planning(s.node) ==> s.iterations == 0 && s.toolCalls == 0)
  }

  predicate BudgetsKept(c: Config, s: State) { EvidenceBudget(c, s) && ResearchBudget(c, s) }

  lemma EvidenceStep(c: Config, s: State, a: Answer)
    requires EvidenceBudget(c, s) && Answers(s, a) && Evidential(s.node)
    ensures var t := EvidenceNode(c, s, a);
      EvidenceBudget(c, t) && !Planning(t.node) && !t.node.ResearchReason?
      && t.iterations == s.iterations && t.toolCalls == s.toolCalls && t.pending == s.pending
  {
    hide Answers;
  }

  lemma DecideLeft(c: Config, s: State, a: Answer)
    requires EvidenceBudget(c, s) && Answers(s, a) && s.node.DecideEvidence?
    ensures Left(c, EvidenceNode(c, s, a)) < Left(c, s)
  {
    hide Answers, Decide, RewritesLeft, IterationsLeft, Max;
    SameCounts(c, s, EvidenceNode(c, s, a));
  }

  lemma RewriteCounts(c: Config, s: State, t: State)
    requires s.rewrites < c.maxRewrites && t.rewrites == s.rewrites + 1
    ensures RewritesLeft(c, s) == RewritesLeft(c, t) + 1
  {}

  lemma RewriteLeft(c: Config, s: State, a: Answer)
    requires EvidenceBudget(c, s) && Answers(s, a) && s.node.RewriteQuery?
    ensures Left(c, EvidenceNode(c, s, a)) == Left(c, s) - 1
  {
    hide Answers, Decide, RewritesLeft, IterationsLeft, Max;
    RewriteCounts(c, s, EvidenceNode(c, s, a));
  }

  lemma OnwardLeft(c: Config, s: State, a: Answer)
    requires Answers(s, a) && Evidential(s.node) && !s.node.DecideEvidence? && !s.node.RewriteQuery?
    ensures Left(c, EvidenceNode(c, s, a)) == Left(c, s) - 1
  {
    hide Answers, Decide, RewritesLeft, IterationsLeft, Max;
    SameCounts(c, s, EvidenceNode(c, s, a));
  }

  lemma EvidenceLeft(c: Config, s: State, a: Answer)
    requires EvidenceBudget(c, s) && Answers(s, a) && Evidential(s.node)
    ensures Left(c, EvidenceNode(c, s, a)) < Left(c, s)
    ensures !s.node.DecideEvidence? ==> Left(c, EvidenceNode(c, s, a)) == Left(c, s) - 1
  {
    hide Answers, EvidenceBudget, EvidenceNode, Left;
    if s.node.DecideEvidence? {
      DecideLeft(c, s, a);
    } else if s.node.RewriteQuery? {
      RewriteLeft(c, s, a);
    } else {
      OnwardLeft(c, s, a);
    }
  }

  lemma ResearchStep(c: Config, s: State, a: Answer)
    requires ResearchBudget(c, s) && Answers(s, a) && Researching(s.node)
    ensures var t := ResearchNode(c, s, a);
      ResearchBudget(c, t) && (Researching(t.node) || t.node.Reflect? || t.node.End?)
      && t.rewrites == s.rewrites && t.webSearches == s.webSearches && t.policy == s.policy
  {
    hide Answers, Allowed, Observe, Signatures;
  }

  lemma ReasonGoes(c: Config, s: State, allowed: set<string>, calls: seq<Call>)
    ensures var t := Reason(c, s, allowed, calls);
      t.iterations == s.iterations + 1 && t.rewrites == s.rewrites && (t.node.ResearchAct? || t.node.SynthesizeResearch?)
  {}

  lemma ActGoes(s: State, answer: bool)
    ensures var t := Act(s, answer);
      t.iterations == s.iterations && t.rewrites == s.rewrites && t.node.ResearchCritic?
  {}

  lemma ContinuesWithin(c: Config, s: State, llm: bool, verdict: Option<bool>)
    ensures Continues(c, s, llm, verdict) ==> s.iterations < c.maxIterations
  {}

  // What is left depends on where a run is and on its two counters.
  lemma SameCounts(c: Config, s: State, t: State)
    requires t.rewrites == s.rewrites && t.iterations == s.iterations
    ensures RewritesLeft(c, t) == RewritesLeft(c, s) && IterationsLeft(c, t) == IterationsLeft(c, s)
  {}

  lemma IterationCounts(c: Config, s: State, t: State)
    requires s.iterations < Max(1, c.maxIterations) && t.iterations == s.iterations + 1
    ensures IterationsLeft(c, s) == IterationsLeft(c, t) + 1
  {}

  lemma ReasonLeft(c: Config, s: State, a: Answer)
    requires ResearchBudget(c, s) && s.node.ResearchReason? && a.Decision?
    ensures Left(c, Reason(c, s, a.allowed, a.calls)) < Left(c, s)
  {
    hide Reason, RewritesLeft, IterationsLeft, Max;
    var t := Reason(c, s, a.allowed, a.calls);
    ReasonGoes(c, s, a.allowed, a.calls);
    IterationCounts(c, s, t);
  }

  lemma ActLeft(c: Config, s: State, answer: bool)
    requires s.node.ResearchAct?
    ensures Left(c, Act(s, answer)) < Left(c, s)
  {
    hide Act, RewritesLeft, IterationsLeft, Max;
    ActGoes(s, answer);
    SameCounts(c, s, Act(s, answer));
  }

  lemma CriticLeft(c: Config, s: State, a: Answer)
    requires s.node.ResearchCritic? && Answers(s, a)
    ensures Left(c, ResearchNode(c, s, a)) < Left(c, s)
  {
    hide Continues, RewritesLeft, IterationsLeft, Max;
    SameCounts(c, s, ResearchNode(c, s, a));
  }

  lemma FixedResearchLeft(c: Config, s: State, a: Answer)
    requires Answers(s, a) && (s.node.PlanResearch? || s.node.ResearchWorkers? || s.node.SynthesizeResearch?)
    ensures Left(c, ResearchNode(c, s, a)) < Left(c, s)
  {
    hide Reason, Act, Continues, RewritesLeft, IterationsLeft, Max;
    SameCounts(c, s, ResearchNode(c, s, a));
  }

  lemma ResearchLeft(c: Config, s: State, a: Answer)
    requires ResearchBudget(c, s) && Answers(s, a) && Researching(s.node)
    ensures Left(c, ResearchNode(c, s, a)) < Left(c, s)
  {
    hide Answers, Reason, Act, Continues, Left, ResearchBudget;
    ResearchAnswers(s, a);
    if s.node.ResearchReason? {
      ReasonLeft(c, s, a);
    } else if s.node.ResearchAct? {
      ActLeft(c, s, a.approved);
    } else if s.node.ResearchCritic? {
      CriticLeft(c, s, a);
    } else {
      FixedResearchLeft(c, s, a);
    }
  }

  lemma ResearchAnswers(s: State, a: Answer)
    requires Answers(s, a)
    ensures (s.node.ResearchReason? ==> a.Decision?) && (s.node.ResearchAct? ==> a.Approval?) && (s.node.ResearchCritic? ==> a.Review?)
  {}

  lemma NotEnd(s: State, a: Answer)
    requires Answers(s, a)
    ensures !s.node.End?
  {}

  lemma PlainStep(c: Config, s: State, a: Answer)
    requires BudgetsKept(c, s) && Answers(s, a) && !Evidential(s.node) && !Researching(s.node)
    ensures BudgetsKept(c, OtherNode(c, s, a))
  {
    hide Answers;
    NotEnd(s, a);
  }

  // Wherever the route leads, no more is left than was reckoned with.
  lemma TargetLeft(c: Config, t: State, intent: Intent)
    requires t.node == Target(intent)
    ensures Left(c, t) <= Max(4 * RewritesLeft(c, t) + 8, 3 * IterationsLeft(c, t) + 5)
  {
    hide RewritesLeft, IterationsLeft;
  }

  lemma RouteLeft(c: Config, s: State, a: Answer)
    requires s.node.RouteIntent? && Answers(s, a)
    ensures Left(c, OtherNode(c, s, a)) < Left(c, s)
  {
    hide RewritesLeft, IterationsLeft, Max, Target;
    var t := OtherNode(c, s, a);
    SameCounts(c, s, t);
    TargetLeft(c, t, a.intent);
  }

  lemma EntryLeft(c: Config, s: State, a: Answer)
    requires Answers(s, a) && (s.node.LoadContext? || s.node.ContextualizeQuestion?)
    ensures Left(c, OtherNode(c, s, a)) == Left(c, s) - 1
  {
    hide Answers, RewritesLeft, IterationsLeft, Max;
    SameCounts(c, s, OtherNode(c, s, a));
  }

  lemma FixedLeft(c: Config, s: State, a: Answer)
    requires Answers(s, a) && !Evidential(s.node) && !Researching(s.node) && !s.node.RouteIntent?
    ensures Left(c, OtherNode(c, s, a)) == Left(c, s) - 1
  {
    hide Answers, RewritesLeft, IterationsLeft, Max;
    NotEnd(s, a);
    if s.node.LoadContext? || s.node.ContextualizeQuestion? { EntryLeft(c, s, a); }
  }

  lemma PlainLeft(c: Config, s: State, a: Answer)
    requires Answers(s, a) && !Evidential(s.node) && !Researching(s.node)
    ensures Left(c, OtherNode(c, s, a)) < Left(c, s)
  {
    hide Answers, Left, OtherNode;
    if s.node.RouteIntent? { RouteLeft(c, s, a); } else { FixedLeft(c, s, a); }
  }

  // Every step keeps the budgets and leaves fewer rounds.
  lemma StepKeeps(c: Config, s: State, a: Answer)
    requires BudgetsKept(c, s) && Answers(s, a)
    ensures BudgetsKept(c, Step(c, s, a)) && Left(c, Step(c, s, a)) < Left(c, s)
  {
    hide Left, Answers, EvidenceNode, ResearchNode, OtherNode;
    if Evidential(s.node) {
      EvidenceStep(c, s, a);
      EvidenceLeft(c, s, a);
    } else if Researching(s.node) {
      ResearchStep(c, s, a);
      ResearchLeft(c, s, a);
    } else {
      PlainStep(c, s, a);
      PlainLeft(c, s, a);
    }
  }

  lemma {:induction false} ReachesKeeps(c: Config, s: State, answers: seq<Answer>, t: State)
    requires BudgetsKept(c, s) && Reaches(c, s, answers, t)
    ensures BudgetsKept(c, t) && |answers| + Left(c, t) <= Left(c, s)
    decreases |answers|
  {
    hide BudgetsKept, Step, Left, Answers;
    if answers != [] {
      StepKeeps(c, s, answers[0]);
      ReachesKeeps(c, Step(c, s, answers[0]), answers[1..], t);
    }
  }

  // Whatever is answered, a run is over after at most this many rounds.
  lemma Terminates(c: Config, answers: seq<Answer>, t: State)
    requires Reaches(c, START, answers, t)
    ensures |answers| <= Max(4 * c.maxRewrites + 8, 3 * Max(1, c.maxIterations) + 5) + 3
  {
    ReachesKeeps(c, START, answers, t);
  }

  // Rewrites, evidence searches, iterations and tool calls stay within their budgets in every run.
  lemma Budgets(c: Config, answers: seq<Answer>, t: State)
    requires Reaches(c, START, answers, t)
    ensures t.rewrites <= c.maxRewrites
    ensures t.webSearches <= 1 && (t.policy == LocalOnly ==> t.webSearches == 0)
    ensures t.iterations <= Max(1, c.maxIterations)
    ensures t.toolCalls <= c.maxToolCalls
  {
    ReachesKeeps(c, START, answers, t);
  }

  // ---------------------------------------------------------------- where a run goes

  // A run goes where the intent says, and a web request is answered from the web unless the
  // user kept it local.
  lemma RoutedRight(c: Config, intent: Intent, policy: Policy, t: State)
    requires Reaches(c, START, [Nothing, Nothing, Routed(intent, policy)], t)
    ensures match intent
      case ChatIntent => t.node == DirectChat
      case KnowledgeQa => t.node == PrepareQuery
      case WebIntent => t.node == PrepareQuery
      case ReminderIntent => t.node == Reminder
      case CreatePlan => t.node == DraftPlan
      case QuizIntent => t.node == Quiz
      case ProgressIntent => t.node == Progress
      case UpdateIntent => t.node == UpdateProgress
      case DeepResearch => t.node == PlanResearch
    ensures t.policy == if intent == WebIntent && policy != LocalOnly then WebRequired else policy
  {
    hide Reaches, EvidenceNode, ResearchNode;
    assert [Nothing, Nothing, Routed(intent, policy)][1..] == [Nothing, Routed(intent, policy)];
    assert [Nothing, Routed(intent, policy)][1..] == [Routed(intent, policy)];
    assert [Routed(intent, policy)][1..] == [];
    var s1 := FirstStep(c, START, [Nothing, Nothing, Routed(intent, policy)], t);
    var s2 := FirstStep(c, s1, [Nothing, Routed(intent, policy)], t);
    var s3 := FirstStep(c, s2, [Routed(intent, policy)], t);
    NoStep(c, s3, t);
  }

  lemma FirstStep(c: Config, s: State, answers: seq<Answer>, t: State) returns (next: State)
    requires answers != [] && Reaches(c, s, answers, t)
    ensures Answers(s, answers[0]) && next == Step(c, s, answers[0]) && Reaches(c, next, answers[1..], t)
  {
    hide Answers, Step;
    next := Step(c, s, answers[0]);
  }

  lemma NoStep(c: Config, s: State, t: State)
    requires Reaches(c, s, [], t)
    ensures t == s
  {}

  lemma CriticIdle(c: Config, s: State, a: Answer)
    requires Answers(s, a)
    ensures Step(c, s, a).node.ResearchCritic? ==> Step(c, s, a).pending == []
  {
    hide Reason, Continues, Decide, Observe, Asks;
    if s.node.ResearchReason? { ReasonGoes(c, s, a.allowed, a.calls); }
  }

  lemma {:induction false} CriticReach(c: Config, s: State, answers: seq<Answer>, t: State)
    requires Reaches(c, s, answers, t) && (s.node.ResearchCritic? ==> s.pending == [])
    ensures t.node.ResearchCritic? ==> t.pending == []
    decreases |answers|
  {
    hide Step, Answers;
    if answers != [] {
      CriticIdle(c, s, answers[0]);
      CriticReach(c, Step(c, s, answers[0]), answers[1..], t);
    }
  }

  // In every run the research goes on after a review if and only if neither budget is used up
  // and the critic asked for more, or, without a model, it was the first iteration.
  lemma CriticDecides(c: Config, answers: seq<Answer>, s: State, llm: bool, verdict: Option<bool>)
    requires Reaches(c, START, answers, s) && s.node.ResearchCritic?
    ensures Answers(s, Review(llm, verdict))
    ensures var t := Step(c, s, Review(llm, verdict));
      && (t.node == ResearchReason <==>
            && s.iterations < c.maxIterations && s.toolCalls < c.maxToolCalls
            && if llm then verdict == Some(true) else s.iterations < 2)
      && (t.node != ResearchReason ==> t.node == SynthesizeResearch)
  {
    hide Reaches;
    CriticReach(c, START, answers, s);
  }

  // at lists the positions of the calls that are allowed.
  ghost predicate Positions(calls: seq<Call>, allowed: set<string>, at: seq<nat>) {
    && (forall i :: 0 <= i < |at| ==> at[i] < |calls|)
    && (forall i, j :: 0 <= i < j < |at| ==> at[i] < at[j])
    && (forall j :: 0 <= j < |calls| ==> (j in at <==> calls[j].name in allowed))
  }

  lemma {:induction false} AllowedAt(calls: seq<Call>, allowed: set<string>) returns (at: seq<nat>)
    ensures Positions(calls, allowed, at) && |at| == |Allowed(calls, allowed)|
    ensures forall i :: 0 <= i < |at| ==> Allowed(calls, allowed)[i] == calls[at[i]]
    decreases |calls|
  {
    hide Allowed;
    if calls == [] {
      at := [];
      NoneAllowed(allowed);
    } else {
      var n := |calls| - 1;
      var before := AllowedAt(calls[..n], allowed);
      AllowedSnoc(calls[..n], calls[n], allowed);
      assert calls == calls[..n] + [calls[n]];
      at := before + if calls[n].name in allowed then [n] else [];
      PositionsSnoc(calls, allowed, before);
    }
  }

  lemma NoneAllowed(allowed: set<string>)
    ensures Allowed([], allowed) == []
  {}

  lemma PositionsSnoc(calls: seq<Call>, allowed: set<string>, before: seq<nat>)
    requires calls != [] && Positions(calls[..|calls| - 1], allowed, before)
    ensures Positions(calls, allowed, before + if calls[|calls| - 1].name in allowed then [|calls| - 1] else [])
  {
    var n := |calls| - 1;
    var at := before + if calls[n].name in allowed then [n] else [];
    assert forall j :: 0 <= j < n ==> calls[..n][j] == calls[j];
    assert forall j :: j in at <==> j in before || (j == n && calls[n].name in allowed);
  }

  lemma {:induction false} AllowedSnoc(calls: seq<Call>, call: Call, allowed: set<string>)
    ensures Allowed(calls + [call], allowed) == Allowed(calls, allowed) + if call.name in allowed then [call] else []
  {
    if calls == [] {
      assert calls + [call] == [call] && [call][1..] == [];
    } else {
      AllowedSnoc(calls[1..], call, allowed);
      hide Allowed;
      FirstAllowed(calls, allowed);
      FirstAllowed(calls + [call], allowed);
      assert (calls + [call])[1..] == calls[1..] + [call];
      CallsRegroup(if calls[0].name in allowed then [calls[0]] else [], Allowed(calls[1..], allowed),
                   if call.name in allowed then [call] else []);
    }
  }

  lemma FirstAllowed(calls: seq<Call>, allowed: set<string>)
    requires calls != []
    ensures Allowed(calls, allowed) == (if calls[0].name in allowed then [calls[0]] else []) + Allowed(calls[1..], allowed)
  {}

  lemma CallsRegroup(a: seq<Call>, b: seq<Call>, c: seq<Call>)
    ensures a + (b + c) == (a + b) + c
  {}

  // What a decision puts up to be done: its allowed calls in their order, as many as the budget
  // for tool calls leaves.
  lemma PendingExactly(c: Config, s: State, allowed: set<string>, calls: seq<Call>) returns (at: seq<nat>)
    requires s.node.ResearchReason? && Answers(s, Decision(allowed, calls))
    ensures Positions(calls, allowed, at)
    ensures var t := Step(c, s, Decision(allowed, calls));
      && |t.pending| == (if |at| <= c.maxToolCalls - s.toolCalls then |at| else if s.toolCalls <= c.maxToolCalls then c.maxToolCalls - s.toolCalls else 0)
      && (forall i :: 0 <= i < |t.pending| ==> t.pending[i] == calls[at[i]])
      && t.node == if t.pending == [] then SynthesizeResearch else ResearchAct
  {
    hide Allowed, Positions, EvidenceNode, OtherNode;
    at := AllowedAt(calls, allowed);
  }

  // ---------------------------------------------------------------- why evidence was searched or refused

  predicate Settled(n: Node) { n.GenerateGrounded? || n.Reflect? || n.Finalize? || n.End? }

  // What a decision that has been taken says of the run; shut and found: the web was
  // found unavailable, or available, by some decision of the run.
  predicate Why(c: Config, s: State, shut: bool, found: bool) {
    && (s.node.WebSearch? ==> s.evidence.Web?)
    && (s.webSearches > 0 ==> s.evidence.Web?)
    && (!s.evidence.Undecided? && !s.evidence.Rewrite? ==> Settled(s.node) || s.node.WebSearch?)
    && (s.evidence.Web? ==> found && !s.policy.LocalOnly?)
    && (s.evidence.Web? ==> s.policy.WebRequired? || (!s.quality.Good? && s.rewrites == c.maxRewrites))
    && (s.evidence.Refuse? ==> !s.quality.Good? && s.rewrites == c.maxRewrites && (s.policy.LocalOnly? || shut))
    && (s.evidence.Generate? ==> s.quality.Good? && (s.policy.WebRequired? ==> shut))
    && (s.node.RewriteQuery? ==> !s.quality.Good?)
    && (s.evidence.Web? ==> s.webSearches == if s.node.WebSearch? then 0 else 1)
  }

  lemma EvidenceWhy(c: Config, s: State, a: Answer, shut: bool, found: bool)
    requires EvidenceBudget(c, s) && Why(c, s, shut, found) && Answers(s, a) && Evidential(s.node)
    ensures Why(c, EvidenceNode(c, s, a), shut || a == WebEnabled(false), found || a == WebEnabled(true))
  {
    hide Left;
  }

  lemma ResearchWhy(c: Config, s: State, a: Answer, shut: bool, found: bool)
    requires Why(c, s, shut, found) && Answers(s, a) && Researching(s.node)
    ensures Why(c, ResearchNode(c, s, a), shut, found)
  {
    hide Answers, Continues, Observe, Allowed, Budgeted, Asks;
  }

  lemma PlainWhy(c: Config, s: State, a: Answer, shut: bool, found: bool)
    requires EvidenceBudget(c, s) && Why(c, s, shut, found) && Answers(s, a) && !Evidential(s.node) && !Researching(s.node)
    ensures Why(c, OtherNode(c, s, a), shut, found)
  {
    hide Answers;
    NotEnd(s, a);
  }

  lemma StepWhy(c: Config, s: State, a: Answer, shut: bool, found: bool)
    requires EvidenceBudget(c, s) && Why(c, s, shut, found) && Answers(s, a)
    ensures Why(c, Step(c, s, a), shut || a == WebEnabled(false), found || a == WebEnabled(true))
  {
    hide Answers, EvidenceNode, ResearchNode, OtherNode, EvidenceBudget;
    if Evidential(s.node) {
      EvidenceWhy(c, s, a, shut, found);
    } else if Researching(s.node) {
      ResearchWhy(c, s, a, shut, found);
    } else {
      PlainWhy(c, s, a, shut, found);
    }
  }

  lemma {:induction false} WhyReach(c: Config, s: State, answers: seq<Answer>, t: State, shut: bool, found: bool)
    requires BudgetsKept(c, s) && Why(c, s, shut, found) && Reaches(c, s, answers, t)
    ensures Why(c, t, shut || WebEnabled(false) in answers, found || WebEnabled(true) in answers)
    decreases |answers|
  {
    hide Step, Answers, Left, Why;
    if answers != [] {
      var a := answers[0];
      StepKeeps(c, s, a);
      StepWhy(c, s, a, shut, found);
      WhyReach(c, Step(c, s, a), answers[1..], t, shut || a == WebEnabled(false), found || a == WebEnabled(true));
      assert answers == [a] + answers[1..];
    }
  }

  // In every run the web is searched for evidence only if it was available and asked for
  // outright, or after all rewrites failed, and never under local_only; a question is refused
  // only with all rewrites spent and the web shut to it; good evidence is not rewritten for;
  // and a run that was asked for the
  // web answers without it only if it was not available.
  lemma EvidenceReasons(c: Config, answers: seq<Answer>, t: State)
    requires Reaches(c, START, answers, t)
    ensures t.node.WebSearch? || t.webSearches > 0 ==>
      && WebEnabled(true) in answers && t.policy != LocalOnly
      && (t.policy == WebRequired || (t.quality != Good && t.rewrites == c.maxRewrites))
    ensures t.evidence.Refuse? ==>
      t.quality != Good && t.rewrites == c.maxRewrites && (t.policy == LocalOnly || WebEnabled(false) in answers)
    ensures t.evidence.Generate? ==> t.quality == Good
    ensures t.node.RewriteQuery? ==> t.quality != Good
    ensures t.evidence.Web? ==> t.webSearches == if t.node.WebSearch? then 0 else 1
    ensures t.policy == WebRequired && WebEnabled(false) !in answers ==> !t.evidence.Generate? && !t.evidence.Refuse?
  {
    WhyReach(c, START, answers, t, false, false);
  }

  // In every run what was found is graded and the next step taken by the grade: the web if it
  // is there and was asked for outright, or is the last resort; a rewrite while a bad grade
  // has any left; an answer to a good grade; else a refusal.
  lemma GradeDecides(c: Config, answers: seq<Answer>, s: State, grade: Quality, enabled: bool)
    requires Reaches(c, START, answers, s) && s.node.GradeRetrieval?
    ensures Answers(s, Graded(grade)) && Answers(Step(c, s, Graded(grade)), WebEnabled(enabled))
    ensures var t := Step(c, Step(c, s, Graded(grade)), WebEnabled(enabled));
      && (t.node == WebSearch <==>
            && enabled
            && (s.policy == WebRequired || (grade != Good && s.rewrites >= c.maxRewrites && s.policy != LocalOnly)))
      && (t.node == RewriteQuery <==>
            grade != Good && s.rewrites < c.maxRewrites && !(s.policy == WebRequired && enabled))
      && (t.node != WebSearch && t.node != RewriteQuery ==>
            t.node == GenerateGrounded && t.evidence == if grade == Good then Generate else Refuse)
  {
    hide Reaches, ResearchNode, OtherNode;
    WhyReach(c, START, answers, s, false, false);
  }

  // ---------------------------------------------------------------- tools

  predicate Ran(r: Record) { r.Observation? && r.outcome == Executed }

  // Tool names hold no colon, so a signature gives both parts back.
  lemma ToolName(name: string)
    requires name in RESEARCH_TOOLS
    ensures ':' !in name
  {}

  lemma FirstColon(a: Call)
    requires ':' !in a.name
    ensures Signature(a)[0] == ':' <==> a.name == ""
  {
    hide J.Print;
    if a.name != "" { assert Signature(a)[0] == a.name[0]; }
  }

  lemma {:induction false} SignatureInjective(a: Call, b: Call)
    requires ':' !in a.name && ':' !in b.name && J.IsValue(a.arguments) && J.IsValue(b.arguments)
    requires Signature(a) == Signature(b)
    ensures a == b
    decreases |a.name|
  {
    hide J.Print;
    var x, y := Signature(a), Signature(b);
    FirstColon(a);
    FirstColon(b);
    if a.name == "" {
      assert x[1..] == J.Print(a.arguments, "") && y[1..] == J.Print(b.arguments, "");
      J.PrintOne(a.arguments, "", b.arguments, "");
    } else {
      assert x[0] == a.name[0] && y[0] == b.name[0];
      assert x[1..] == a.name[1..] + ":" + J.Print(a.arguments, "") && y[1..] == b.name[1..] + ":" + J.Print(b.arguments, "");
      SignatureInjective(Call(a.name[1..], a.arguments), Call(b.name[1..], b.arguments));
      assert a.name == [a.name[0]] + a.name[1..] && b.name == [b.name[0]] + b.name[1..];
    }
  }

  // A signature is shared exactly by calls that are the same pair in the same form.
  lemma SignatureIff(a: Call, b: Call)
    requires Known(a) && Known(b)
    ensures Signature(a) == Signature(b) <==> SamePair(a, b) && SameForm(a, b)
    ensures Signature(a) == Signature(b) <==> a == b
  {
    hide J.Print;
    J.SameSelf(a.arguments);
    if SamePair(a, b) && SameForm(a, b) {
      J.SameInOrder(a.arguments, b.arguments);
    }
    if Signature(a) == Signature(b) {
      SameSignatureSameCall(a, b);
    }
  }

  // a comes before b: an attempt that was executed or refused is never executed again.
  predicate Before(a: Record, b: Record) {
    a.Observation? && a.outcome != Duplicate && Ran(b) ==> a.call != b.call
  }

  ghost predicate Pairwise(rs: seq<Record>) {
    forall i, j :: 0 <= i < j < |rs| ==> Before(rs[i], rs[j])
  }

  lemma PairwiseAppend(a: seq<Record>, b: seq<Record>)
    requires Pairwise(a) && Pairwise(b) && forall i, j :: 0 <= i < |a| && 0 <= j < |b| ==> Before(a[i], b[j])
    ensures Pairwise(a + b)
  {
    hide Before;
    var r := a + b;
    forall i, j | 0 <= i < j < |r| ensures Before(r[i], r[j]) {
      if j < |a| {
        assert r[i] == a[i] && r[j] == a[j];
      } else if i < |a| {
        assert r[i] == a[i] && r[j] == b[j - |a|];
      } else {
        assert r[i] == b[i - |a|] && r[j] == b[j - |a|];
      }
    }
  }

  // One record of a round: it ran only if its signature was free, and is refused exactly if it
  // is a write not approved.
  predicate Rightly(r: Record, approved: bool, signatures: set<string>) {
    && (Ran(r) ==> Signature(r.call) !in signatures && (IsWrite(r.call) ==> approved))
    && (r.Observation? ==> (r.outcome == Rejected <==> IsWrite(r.call) && !approved))
  }

  lemma {:induction false} ObserveRight(calls: seq<Call>, asked: bool, approved: bool, signatures: set<string>)
    ensures var r := Observe(calls, asked, approved, signatures);
      Pairwise(r) && forall j :: 0 <= j < |r| ==> Rightly(r[j], approved, signatures)
  {
    hide Signature, IsWrite, Pairwise, Before, Rightly;
    if calls == [] {
      NoPairs();
    } else {
      var outcome := OutcomeOf(calls[0], approved, signatures);
      var taken := if outcome == Executed then signatures + {Signature(calls[0])} else signatures;
      ObserveRight(calls[1..], asked, approved, taken);
      var first, more := Observation(calls[0], outcome, asked, approved), Observe(calls[1..], asked, approved, taken);
      FirstRightly(calls[0], asked, approved, signatures);
      forall j | 0 <= j < |more| ensures Rightly(more[j], approved, signatures) && Before(first, more[j]) {
        LaterRightly(calls[0], asked, approved, signatures, more[j]);
      }
      OnePair(first);
      PairwiseAppend([first], more);
    }
  }

  lemma NoPairs()
    ensures Pairwise([])
  {}

  lemma OnePair(r: Record)
    ensures Pairwise([r])
  {}

  lemma FirstRightly(call: Call, asked: bool, approved: bool, signatures: set<string>)
    ensures Rightly(Observation(call, OutcomeOf(call, approved, signatures), asked, approved), approved, signatures)
  {
    hide Signature, IsWrite;
  }

  lemma LaterRightly(call: Call, asked: bool, approved: bool, signatures: set<string>, later: Record)
    requires var outcome := OutcomeOf(call, approved, signatures);
      Rightly(later, approved, if outcome == Executed then signatures + {Signature(call)} else signatures)
    ensures Rightly(later, approved, signatures)
    ensures Before(Observation(call, OutcomeOf(call, approved, signatures), asked, approved), later)
  {
    hide Signature, IsWrite;
  }

  // ---------------------------------------------------------------- tools over whole runs

  ghost predicate Known(call: Call) { call.name in RESEARCH_TOOLS && J.IsValue(call.arguments) }

  ghost predicate Permitted(r: Record) {
    && (r.Observation? ==> Known(r.call))
    && (Ran(r) && IsWrite(r.call) ==> r.asked && r.approved)
    && (r.Observation? ==> (r.outcome == Rejected <==> IsWrite(r.call) && !r.approved))
  }

  function CountObservations(outputs: seq<Record>): nat {
    if outputs == [] then 0
    else CountObservations(outputs[..|outputs| - 1]) + if outputs[|outputs| - 1].Observation? then 1 else 0
  }

  // No call runs twice, none runs after it was refused, and writes run only when they were allowed.
  ghost predicate ToolsInv(s: State) {
    && Pairwise(s.outputs)
    && (forall r :: r in s.outputs ==> Permitted(r))
    && (forall call :: call in s.pending ==> Known(call))
    && s.toolCalls == CountObservations(s.outputs)
  }

  lemma {:induction false} CountMore(outputs: seq<Record>, more: seq<Record>, observations: bool)
    requires forall i :: 0 <= i < |more| ==> more[i].Observation? == observations
    ensures CountObservations(outputs + more) == CountObservations(outputs) + if observations then |more| else 0
    decreases |more|
  {
    if more == [] {
      assert outputs + more == outputs;
    } else {
      var n := |more| - 1;
      CountMore(outputs, more[..n], observations);
      assert (outputs + more)[..|outputs| + n] == outputs + more[..n];
    }
  }

  lemma AcrossRounds(outputs: seq<Record>, i: nat, later: Record, approved: bool)
    requires i < |outputs| && Rightly(later, approved, Signatures(outputs))
    ensures Before(outputs[i], later)
  {
    hide Signature, IsWrite;
    assert outputs[i] in outputs;
  }

  lemma RoundPermitted(pending: seq<Call>, k: nat, r: Record)
    requires k < |pending| && r.Observation? && r.call == pending[k] && Known(r.call)
    requires r.asked == Asks(pending) && (Ran(r) && IsWrite(r.call) ==> r.approved)
    requires r.outcome == Rejected <==> IsWrite(r.call) && !r.approved
    ensures Permitted(r)
  {
    hide IsWrite, Known;
    assert IsWrite(pending[k]) ==> Asks(pending);
  }

  lemma ActKeeps(s: State, answer: bool)
    requires ToolsInv(s)
    ensures ToolsInv(Act(s, answer))
  {
    hide Observe, Signatures, IsWrite, CountObservations, Signature, Pairwise, Before, Rightly, Known, Permitted, Asks;
    var approved := !Asks(s.pending) || answer;
    var more := Observe(s.pending, Asks(s.pending), approved, Signatures(s.outputs));
    ObserveRight(s.pending, Asks(s.pending), approved, Signatures(s.outputs));
    CountMore(s.outputs, more, true);
    forall i, j | 0 <= i < |s.outputs| && 0 <= j < |more| ensures Before(s.outputs[i], more[j]) {
      AcrossRounds(s.outputs, i, more[j], approved);
    }
    PairwiseAppend(s.outputs, more);
    forall r | r in more ensures Permitted(r) {
      var k :| 0 <= k < |more| && more[k] == r;
      assert s.pending[k] in s.pending;
      RightlyApproved(r, approved, Signatures(s.outputs));
      RoundPermitted(s.pending, k, r);
    }
  }

  lemma RightlyApproved(r: Record, approved: bool, signatures: set<string>)
    requires Rightly(r, approved, signatures)
    ensures Ran(r) && IsWrite(r.call) ==> approved
    ensures r.Observation? ==> (r.outcome == Rejected <==> IsWrite(r.call) && !approved)
  {}

  lemma WorkersKeep(s: State)
    requires ToolsInv(s)
    ensures ToolsInv(s.(outputs := s.outputs + seq(s.tasks, _ => Branch), node := ResearchReason))
  {
    hide IsWrite, CountObservations, Known;
    var more := seq(s.tasks, _ => Branch);
    CountMore(s.outputs, more, false);
    PairwiseAppend(s.outputs, more);
  }

  lemma ReasonKeeps(c: Config, s: State, allowed: set<string>, calls: seq<Call>)
    requires ToolsInv(s) && allowed <= RESEARCH_TOOLS && Parsed(calls)
    ensures ToolsInv(Reason(c, s, allowed, calls))
  {
    hide IsWrite, CountObservations, Pairwise, Permitted, J.IsValue;
    assert forall call :: call in Allowed(calls, allowed) ==> Known(call);
  }

  // The other nodes leave the research fields alone.
  predicate SameResearch(s: State, t: State) {
    t.outputs == s.outputs && t.pending == s.pending && t.toolCalls == s.toolCalls
  }

  lemma EvidenceAlone(c: Config, s: State, a: Answer)
    requires Answers(s, a) && Evidential(s.node)
    ensures SameResearch(s, EvidenceNode(c, s, a))
  {
    hide Decide;
  }

  lemma PlainAlone(c: Config, s: State, a: Answer)
    requires Answers(s, a) && !Evidential(s.node) && !Researching(s.node)
    ensures SameResearch(s, OtherNode(c, s, a))
  {}

  lemma OthersKeep(c: Config, s: State, a: Answer)
    requires Answers(s, a) && !s.node.ResearchAct? && !s.node.ResearchWorkers? && !s.node.ResearchReason?
    ensures SameResearch(s, Step(c, s, a))
  {
    hide Continues, EvidenceNode, OtherNode, Answers;
    if Evidential(s.node) {
      EvidenceAlone(c, s, a);
    } else if !Researching(s.node) {
      PlainAlone(c, s, a);
    }
  }

  lemma SameTools(s: State, t: State)
    requires ToolsInv(s) && SameResearch(s, t)
    ensures ToolsInv(t)
  {}

  lemma ToolsKeep(c: Config, s: State, a: Answer)
    requires ToolsInv(s) && Answers(s, a)
    ensures ToolsInv(Step(c, s, a))
  {
    hide ToolsInv, Act, Reason, Continues, Decide, EvidenceNode, OtherNode;
    if s.node.ResearchAct? {
      ActKeeps(s, a.approved);
    } else if s.node.ResearchWorkers? {
      WorkersKeep(s);
    } else if s.node.ResearchReason? {
      ReasonKeeps(c, s, a.allowed, a.calls);
    } else {
      OthersKeep(c, s, a);
      SameTools(s, Step(c, s, a));
    }
  }

  lemma {:induction false} ToolsReach(c: Config, s: State, answers: seq<Answer>, t: State)
    requires ToolsInv(s) && Reaches(c, s, answers, t)
    ensures ToolsInv(t)
    decreases |answers|
  {
    hide ToolsInv, Step, Answers;
    if answers != [] {
      ToolsKeep(c, s, answers[0]);
      ToolsReach(c, Step(c, s, answers[0]), answers[1..], t);
    }
  }

  lemma StartTools()
    ensures ToolsInv(START)
  {}

  // In every run a call is refused exactly if it writes and the user, asked about its round,
  // did not approve.
  lemma RefusedIff(c: Config, answers: seq<Answer>, t: State, i: nat)
    requires Reaches(c, START, answers, t) && i < |t.outputs| && t.outputs[i].Observation?
    ensures t.outputs[i].outcome == Rejected <==> IsWrite(t.outputs[i].call) && !t.outputs[i].approved
  {
    hide IsWrite, CountObservations, Signature, Pairwise, Known;
    StartTools();
    ToolsReach(c, START, answers, t);
    assert t.outputs[i] in t.outputs;
  }

  // In every run: a call that was executed or refused is not executed again in the same form,
  // a tool that writes is executed only in a round the user was asked about
  // and approved, and the calls made are within the budget.
  lemma ToolsOnce(c: Config, answers: seq<Answer>, t: State, i: nat, j: nat)
    requires Reaches(c, START, answers, t) && i < j < |t.outputs|
    requires t.outputs[i].Observation? && Ran(t.outputs[j])
    ensures t.outputs[i].outcome != Duplicate && SamePair(t.outputs[i].call, t.outputs[j].call) ==>
      !SameForm(t.outputs[i].call, t.outputs[j].call)
    ensures IsWrite(t.outputs[j].call) ==> t.outputs[j].asked && t.outputs[j].approved
    ensures CountObservations(t.outputs) <= c.maxToolCalls
  {
    hide IsWrite, CountObservations, SamePair, SameForm, Signature;
    StartTools();
    ToolsReach(c, START, answers, t);
    Budgets(c, answers, t);
    assert Before(t.outputs[i], t.outputs[j]);
    assert t.outputs[i] in t.outputs && t.outputs[j] in t.outputs;
    SignatureIff(t.outputs[i].call, t.outputs[j].call);
  }

  // ---------------------------------------------------------------- repetitions

  ghost predicate Seen(rs: seq<Record>, j: nat, signatures: set<string>)
    requires j < |rs| && rs[j].Observation?
  {
    Signature(rs[j].call) in signatures ||
    exists i :: 0 <= i < j && rs[i].Observation? && Signature(rs[i].call) == Signature(rs[j].call)
  }

  lemma {:induction false} ObserveSeen(calls: seq<Call>, asked: bool, approved: bool, signatures: set<string>, j: nat)
    requires j < |calls| && Observe(calls, asked, approved, signatures)[j].outcome == Duplicate
    ensures Seen(Observe(calls, asked, approved, signatures), j, signatures)
  {
    hide Signature, IsWrite;
    var r := Observe(calls, asked, approved, signatures);
    ObserveOne(calls, asked, approved, signatures);
    if j > 0 {
      var outcome := OutcomeOf(calls[0], approved, signatures);
      var taken := if outcome == Executed then signatures + {Signature(calls[0])} else signatures;
      var more := Observe(calls[1..], asked, approved, taken);
      assert r[j] == more[j - 1];
      ObserveSeen(calls[1..], asked, approved, taken, j - 1);
      if i :| 0 <= i < j - 1 && more[i].Observation? && Signature(more[i].call) == Signature(more[j - 1].call) {
        assert r[i + 1] == more[i];
      } else {
        assert r[0].call == calls[0];
      }
    }
  }

  ghost predicate RepeatAt(outputs: seq<Record>, j: nat)
    requires j < |outputs|
  {
    outputs[j].Observation? && outputs[j].outcome == Duplicate ==>
      exists i :: 0 <= i < j && outputs[i].Observation? && outputs[i].call == outputs[j].call
  }

  lemma TakenFrom(outputs: seq<Record>, g: string) returns (i: nat)
    requires g in Signatures(outputs)
    ensures i < |outputs| && outputs[i].Observation? && Signature(outputs[i].call) == g
  {
    hide Signature;
    var r :| r in outputs && r.Observation? && Signature(r.call) == g;
    i :| 0 <= i < |outputs| && outputs[i] == r;
  }

  lemma SameSignatureSameCall(a: Call, b: Call)
    requires Known(a) && Known(b) && Signature(a) == Signature(b)
    ensures a == b
  {
    ToolName(a.name);
    ToolName(b.name);
    SignatureInjective(a, b);
  }

  lemma ActRepeats(s: State, answer: bool, j: nat)
    requires ToolsInv(s) && j < |s.pending|
    ensures RepeatAt(Act(s, answer).outputs, |s.outputs| + j)
  {
    hide Observe, Signatures, IsWrite, CountObservations, Signature, Pairwise, Known, Asks;
    var asked := Asks(s.pending);
    var signatures := Signatures(s.outputs);
    var more := Observe(s.pending, asked, !asked || answer, signatures);
    var now := s.outputs + more;
    assert now[|s.outputs| + j] == more[j];
    assert s.pending[j] in s.pending;
    if more[j].outcome == Duplicate {
      ObserveSeen(s.pending, asked, !asked || answer, signatures, j);
      if Signature(more[j].call) in signatures {
        var i := TakenFrom(s.outputs, Signature(more[j].call));
        assert s.outputs[i] in s.outputs && Permitted(s.outputs[i]);
        SameSignatureSameCall(s.outputs[i].call, more[j].call);
        assert now[i] == s.outputs[i];
      } else {
        var i :| 0 <= i < j && more[i].Observation? && Signature(more[i].call) == Signature(more[j].call);
        assert s.pending[i] in s.pending;
        SameSignatureSameCall(more[i].call, more[j].call);
        assert now[|s.outputs| + i] == more[i];
      }
    }
  }

  ghost predicate Repeats(outputs: seq<Record>) {
    forall j :: 0 <= j < |outputs| ==> RepeatAt(outputs, j)
  }

  lemma RepeatStays(outputs: seq<Record>, more: seq<Record>, j: nat)
    requires j < |outputs| && RepeatAt(outputs, j)
    ensures RepeatAt(outputs + more, j)
  {
    var now := outputs + more;
    assert now[j] == outputs[j];
    if outputs[j].Observation? && outputs[j].outcome == Duplicate {
      var i :| 0 <= i < j && outputs[i].Observation? && outputs[i].call == outputs[j].call;
      assert now[i] == outputs[i];
    }
  }

  lemma RepeatsKeep(c: Config, s: State, a: Answer)
    requires ToolsInv(s) && Repeats(s.outputs) && Answers(s, a)
    ensures Repeats(Step(c, s, a).outputs)
  {
    hide ToolsInv, RepeatAt, Observe, Signatures, Reason, Continues, Decide, EvidenceNode, OtherNode, Asks;
    var t := Step(c, s, a);
    if s.node.ResearchAct? || s.node.ResearchWorkers? {
      var more := t.outputs[|s.outputs|..];
      assert t.outputs == s.outputs + more;
      forall j | 0 <= j < |t.outputs| ensures RepeatAt(t.outputs, j) {
        if j < |s.outputs| {
          RepeatStays(s.outputs, more, j);
        } else if s.node.ResearchAct? {
          ActRepeats(s, a.approved, j - |s.outputs|);
        } else {
          BranchIsNoRepeat(t.outputs, j);
        }
      }
    } else if s.node.ResearchReason? {
      ReasonOutputs(c, s, a.allowed, a.calls);
    } else {
      OthersKeep(c, s, a);
    }
  }

  lemma BranchIsNoRepeat(outputs: seq<Record>, j: nat)
    requires j < |outputs| && outputs[j] == Branch
    ensures RepeatAt(outputs, j)
  {}

  lemma ReasonOutputs(c: Config, s: State, allowed: set<string>, calls: seq<Call>)
    ensures Reason(c, s, allowed, calls).outputs == s.outputs
  {}

  lemma {:induction false} RepeatsReach(c: Config, s: State, answers: seq<Answer>, t: State)
    requires ToolsInv(s) && Repeats(s.outputs) && Reaches(c, s, answers, t)
    ensures Repeats(t.outputs)
    decreases |answers|
  {
    hide ToolsInv, Step, Answers, Repeats;
    if answers != [] {
      ToolsKeep(c, s, answers[0]);
      RepeatsKeep(c, s, answers[0]);
      RepeatsReach(c, Step(c, s, answers[0]), answers[1..], t);
    }
  }

  // A call is skipped as a repetition only if the very same tool and arguments came before.
  lemma SkippedMeansRepeated(c: Config, answers: seq<Answer>, t: State, j: nat)
    requires Reaches(c, START, answers, t) && j < |t.outputs| && t.outputs[j].Observation? && t.outputs[j].outcome == Duplicate
    ensures exists i :: 0 <= i < j && t.outputs[i].Observation? && t.outputs[i].call == t.outputs[j].call
  {
    hide Reaches, Step;
    StartTools();
    RepeatsReach(c, START, answers, t);
    assert RepeatAt(t.outputs, j);
  }

  // The first attempt at a call.
  lemma {:induction false} Origin(outputs: seq<Record>, i: nat) returns (k: nat)
    requires Repeats(outputs) && i < |outputs| && outputs[i].Observation?
    ensures k <= i && outputs[k].Observation? && outputs[k].outcome != Duplicate && outputs[k].call == outputs[i].call
    decreases i
  {
    if outputs[i].outcome != Duplicate { return i; }
    assert RepeatAt(outputs, i);
    var earlier :| 0 <= earlier < i && outputs[earlier].Observation? && outputs[earlier].call == outputs[i].call;
    k := Origin(outputs, earlier);
  }

  // Which calls are caught, exactly: one the user did not refuse is executed if and only if no
  // earlier call of the run was the same pair in the same form.
  lemma CaughtIff(c: Config, answers: seq<Answer>, t: State, j: nat)
    requires Reaches(c, START, answers, t)
    requires j < |t.outputs| && t.outputs[j].Observation? && t.outputs[j].outcome != Rejected
    ensures Ran(t.outputs[j]) <==> forall i :: 0 <= i < j && t.outputs[i].Observation? ==>
      !(SamePair(t.outputs[i].call, t.outputs[j].call) && SameForm(t.outputs[i].call, t.outputs[j].call))
  {
    hide Reaches, Step, SamePair, SameForm, Signature, IsWrite, CountObservations, RepeatAt;
    StartTools();
    ToolsReach(c, START, answers, t);
    NoRepeats();
    RepeatsReach(c, START, answers, t);
    var rs := t.outputs;
    assert rs[j] in rs && Permitted(rs[j]);
    forall i | 0 <= i < j && rs[i].Observation?
      ensures Ran(rs[j]) ==> rs[i].call != rs[j].call
      ensures rs[i].call == rs[j].call <==> SamePair(rs[i].call, rs[j].call) && SameForm(rs[i].call, rs[j].call)
    {
      var k := Origin(rs, i);
      assert Before(rs[k], rs[j]);
      assert rs[i] in rs && Permitted(rs[i]);
      SignatureIff(rs[i].call, rs[j].call);
    }
    if !Ran(rs[j]) { var i := RepeatOf(rs, j); }
  }

  lemma NoRepeats()
    ensures Repeats(START.outputs)
  {}

  lemma RepeatOf(outputs: seq<Record>, j: nat) returns (i: nat)
    requires Repeats(outputs) && j < |outputs| && outputs[j].Observation? && outputs[j].outcome == Duplicate
    ensures i < j && outputs[i].Observation? && outputs[i].call == outputs[j].call
  {
    assert RepeatAt(outputs, j);
    i :| 0 <= i < j && outputs[i].Observation? && outputs[i].call == outputs[j].call;
  }

  // ---------------------------------------------------------------- one form

  // How arguments are written: the order of keys, and what kind of number each key holds.
  datatype Form = Form(rank: string -> int, kinds: string -> N.Kind)

  predicate Follows(call: Call, form: Form) {
    J.OrderedBy(call.arguments, form.rank) && J.TypedBy(call.arguments, "", form.kinds)
  }

  predicate CallsFollow(calls: seq<Call>, form: Form) {
    forall i :: 0 <= i < |calls| ==> Follows(calls[i], form)
  }

  predicate RecordsFollow(rs: seq<Record>, form: Form) {
    forall i :: 0 <= i < |rs| && rs[i].Observation? ==> Follows(rs[i].call, form)
  }

  // Every model answer of the run writes its calls in that form.
  predicate AnswersFollow(answers: seq<Answer>, form: Form) {
    forall i :: 0 <= i < |answers| && answers[i].Decision? ==> CallsFollow(answers[i].calls, form)
  }

  lemma AllowedFollow(calls: seq<Call>, allowed: set<string>, remaining: int, form: Form)
    requires CallsFollow(calls, form)
    ensures CallsFollow(Budgeted(Allowed(calls, allowed), remaining), form)
  {
    var kept := Allowed(calls, allowed);
    forall i | 0 <= i < |kept| ensures Follows(kept[i], form) {
      assert kept[i] in kept;
      var k :| 0 <= k < |calls| && calls[k] == kept[i];
    }
  }

  lemma FollowStep(c: Config, s: State, a: Answer, form: Form)
    requires Answers(s, a) && RecordsFollow(s.outputs, form) && CallsFollow(s.pending, form)
    requires a.Decision? ==> CallsFollow(a.calls, form)
    ensures RecordsFollow(Step(c, s, a).outputs, form) && CallsFollow(Step(c, s, a).pending, form)
  {
    hide Follows, Continues, Decide, EvidenceNode, OtherNode, Allowed, Budgeted, Asks, Signatures;
    if s.node.ResearchAct? || s.node.ResearchWorkers? {
      var t := Step(c, s, a);
      forall i | 0 <= i < |t.outputs| && t.outputs[i].Observation? ensures Follows(t.outputs[i].call, form) {
        if i < |s.outputs| { assert t.outputs[i] == s.outputs[i]; }
      }
    } else if s.node.ResearchReason? {
      AllowedFollow(a.calls, a.allowed, c.maxToolCalls - s.toolCalls, form);
    } else {
      OthersKeep(c, s, a);
    }
  }

  lemma {:induction false} FollowReach(c: Config, s: State, answers: seq<Answer>, t: State, form: Form)
    requires Reaches(c, s, answers, t) && AnswersFollow(answers, form)
    requires RecordsFollow(s.outputs, form) && CallsFollow(s.pending, form)
    ensures RecordsFollow(t.outputs, form)
    decreases |answers|
  {
    hide Step, Answers, RecordsFollow, CallsFollow;
    if answers != [] {
      FollowStep(c, s, answers[0], form);
      assert forall i :: 0 <= i < |answers[1..]| ==> answers[1..][i] == answers[i + 1];
      FollowReach(c, Step(c, s, answers[0]), answers[1..], t, form);
    }
  }

  // So no (tool, arguments) pair is ever executed twice, or after a refusal, in a run whose
  // calls all list their keys in one fixed order and give each key one kind of number.
  lemma FixedFormOnce(c: Config, answers: seq<Answer>, t: State, form: Form, i: nat, j: nat)
    requires Reaches(c, START, answers, t) && AnswersFollow(answers, form)
    requires i < j < |t.outputs| && t.outputs[i].Observation? && Ran(t.outputs[j])
    ensures !SamePair(t.outputs[i].call, t.outputs[j].call)
  {
    hide Reaches, Follows, AnswersFollow, Step, SamePair, SameForm;
    FollowReach(c, START, answers, t, form);
    CaughtIff(c, answers, t, j);
    if SamePair(t.outputs[i].call, t.outputs[j].call) {
      FollowAlike(t.outputs[i].call, t.outputs[j].call, form);
    }
  }

  lemma FollowAlike(a: Call, b: Call, form: Form)
    requires SamePair(a, b) && Follows(a, form) && Follows(b, form)
    ensures SameForm(a, b)
  {
    J.OneOrder(a.arguments, b.arguments, form.rank);
    J.OneTyping(a.arguments, b.arguments, "", form.kinds);
  }

  // ---------------------------------------------------------------- what other forms do

  lemma OneMore(c: Config, s: State, a: Answer, more: seq<Answer>, t: State)
    requires Answers(s, a) && Reaches(c, Step(c, s, a), more, t)
    ensures Reaches(c, s, [a] + more, t)
  {
    hide Answers, Step;
    assert ([a] + more)[1..] == more;
  }

  lemma NoMore(c: Config, s: State)
    ensures Reaches(c, s, [], s)
  {}

  lemma {:induction false} Onward(c: Config, s: State, first: seq<Answer>, m: State, second: seq<Answer>, t: State)
    requires Reaches(c, s, first, m) && Reaches(c, m, second, t)
    ensures Reaches(c, s, first + second, t)
    decreases |first|
  {
    hide Step, Answers;
    if first == [] {
      assert first + second == second;
    } else {
      Onward(c, Step(c, s, first[0]), first[1..], m, second, t);
      assert (first + second)[1..] == first[1..] + second;
    }
  }

  // A run routed to research.
  const PLANNING := START.(node := PlanResearch)

  lemma ToPlanning(c: Config) returns (answers: seq<Answer>)
    ensures Reaches(c, START, answers, PLANNING)
  {
    hide Reaches;
    var s1 := Step(c, START, Nothing);
    var s2 := Step(c, s1, Nothing);
    var research := Routed(DeepResearch, Auto);
    var s3 := Step(c, s2, research);
    NoMore(c, s3);
    OneMore(c, s2, research, [], s3);
    OneMore(c, s1, Nothing, [research] + [], s3);
    answers := [Nothing] + ([Nothing] + ([research] + []));
    OneMore(c, START, Nothing, [Nothing] + ([research] + []), s3);
  }

  // And with one task, up to its first reasoning.
  const REASONING := PLANNING.(node := ResearchReason, tasks := 1, outputs := [Branch])

  lemma ToReason(c: Config) returns (answers: seq<Answer>)
    ensures Reaches(c, START, answers, REASONING)
  {
    hide Reaches;
    var first := ToPlanning(c);
    var s1 := Step(c, PLANNING, Tasks(1));
    var s2 := Step(c, s1, Nothing);
    assert [] + seq(1, _ => Branch) == [Branch];
    NoMore(c, s2);
    OneMore(c, s1, Nothing, [], s2);
    OneMore(c, PLANNING, Tasks(1), [Nothing] + [], s2);
    answers := first + ([Tasks(1)] + ([Nothing] + []));
    Onward(c, START, first, PLANNING, [Tasks(1)] + ([Nothing] + []), s2);
  }

  lemma {:induction false} AllAllowed(calls: seq<Call>)
    requires forall i :: 0 <= i < |calls| ==> Known(calls[i])
    ensures Allowed(calls, RESEARCH_TOOLS) == calls
  {
    if calls != [] {
      AllAllowed(calls[1..]);
      assert calls == [calls[0]] + calls[1..];
    }
  }

  lemma ReasonMove(c: Config, s: State, calls: seq<Call>)
    requires s.node.ResearchReason? && calls != [] && s.toolCalls + |calls| <= c.maxToolCalls
    requires Parsed(calls) && forall i :: 0 <= i < |calls| ==> Known(calls[i])
    ensures Answers(s, Decision(RESEARCH_TOOLS, calls))
    ensures Step(c, s, Decision(RESEARCH_TOOLS, calls)) ==
      s.(node := ResearchAct, iterations := s.iterations + 1, pending := calls)
  {
    hide Known, Parsed, Allowed, EvidenceNode, OtherNode, Act, Continues;
    AllAllowed(calls);
  }

  lemma ActMove(c: Config, s: State, approved: bool)
    requires s.node.ResearchAct?
    ensures Answers(s, Approval(approved))
    ensures Step(c, s, Approval(approved)) == s.(node := ResearchCritic, pending := [],
      toolCalls := s.toolCalls + |s.pending|,
      outputs := s.outputs + Observe(s.pending, Asks(s.pending), !Asks(s.pending) || approved, Signatures(s.outputs)))
  {
    hide EvidenceNode, OtherNode, Reason, Continues, Asks, Signatures;
  }

  // One round of research in which the model asks for these calls.
  lemma Round(c: Config, s: State, calls: seq<Call>, approved: bool) returns (t: State)
    requires s.node.ResearchReason? && calls != [] && s.toolCalls + |calls| <= c.maxToolCalls
    requires Parsed(calls) && forall i :: 0 <= i < |calls| ==> Known(calls[i])
    ensures Reaches(c, s, [Decision(RESEARCH_TOOLS, calls), Approval(approved)], t)
    ensures t == s.(node := ResearchCritic, iterations := s.iterations + 1, pending := [],
      toolCalls := s.toolCalls + |calls|,
      outputs := s.outputs + Observe(calls, Asks(calls), !Asks(calls) || approved, Signatures(s.outputs)))
  {
    hide Reaches, Observe, Signatures, Known, Parsed, Step, Answers, Asks;
    ReasonMove(c, s, calls);
    var m := Step(c, s, Decision(RESEARCH_TOOLS, calls));
    ActMove(c, m, approved);
    t := Step(c, m, Approval(approved));
    NoMore(c, t);
    OneMore(c, m, Approval(approved), [], t);
    OneMore(c, s, Decision(RESEARCH_TOOLS, calls), [Approval(approved)] + [], t);
    assert [Decision(RESEARCH_TOOLS, calls)] + ([Approval(approved)] + []) == [Decision(RESEARCH_TOOLS, calls), Approval(approved)];
  }

  // Any two calls whose signatures differ are both executed by some run, in one round; so an
  // equal pair in another form is executed twice.
  lemma OtherFormRunsTwice(c: Config, a: Call, b: Call) returns (answers: seq<Answer>, t: State)
    requires c.maxToolCalls >= 2 && Parsed([a, b]) && Known(a) && Known(b)
    requires SamePair(a, b) && !SameForm(a, b)
    ensures Reaches(c, START, answers, t) && |t.outputs| == 3
    ensures t.outputs[1].Observation? && t.outputs[1].call == a && Ran(t.outputs[1])
    ensures t.outputs[2].Observation? && t.outputs[2].call == b && Ran(t.outputs[2])
  {
    hide Reaches, Known, Parsed, Signature, SamePair, SameForm, IsWrite;
    SignatureIff(a, b);
    var prefix := ToReason(c);
    t := Round(c, REASONING, [a, b], true);
    answers := prefix + [Decision(RESEARCH_TOOLS, [a, b]), Approval(true)];
    Onward(c, START, prefix, REASONING, [Decision(RESEARCH_TOOLS, [a, b]), Approval(true)], t);
    FreshRound(a, b, Asks([a, b]));
  }

  lemma FreshRound(a: Call, b: Call, asked: bool)
    requires Signature(a) != Signature(b)
    ensures Observe([a, b], asked, true, Signatures([Branch])) ==
      [Observation(a, Executed, asked, true), Observation(b, Executed, asked, true)]
  {
    hide Signature, IsWrite;
    ObserveOne([a, b], asked, true, Signatures([Branch]));
    assert [a, b][1..] == [b];
    ObserveOne([b], asked, true, {Signature(a)});
    assert Signatures([Branch]) == {};
    assert [b][1..] == [];
  }

  // The same after the user refused the first of them.
  lemma OtherFormRunsAfterRefusal(c: Config, a: Call, b: Call) returns (answers: seq<Answer>, t: State)
    requires c.maxToolCalls >= 2 && c.maxIterations >= 2 && Parsed([a]) && Parsed([b]) && Known(a) && Known(b)
    requires IsWrite(a) && SamePair(a, b) && !SameForm(a, b)
    ensures Reaches(c, START, answers, t) && |t.outputs| == 3
    ensures t.outputs[1].Observation? && t.outputs[1].call == a && t.outputs[1].outcome == Rejected
    ensures t.outputs[2].Observation? && t.outputs[2].call == b && Ran(t.outputs[2])
  {
    hide Reaches, Known, Parsed, Signature, SamePair, SameForm, IsWrite, Asks;
    SignatureIff(a, b);
    var prefix := ToReason(c);
    var first := [Decision(RESEARCH_TOOLS, [a]), Approval(false)];
    var m := Round(c, REASONING, [a], false);
    var go := Review(true, Some(true));
    var again := Step(c, m, go);
    var second := [Decision(RESEARCH_TOOLS, [b]), Approval(true)];
    t := Round(c, again, [b], true);
    OneMore(c, m, go, second, t);
    Onward(c, REASONING, first, m, [go] + second, t);
    Onward(c, START, prefix, REASONING, first + ([go] + second), t);
    answers := prefix + (first + ([go] + second));
    RefusedRound(a);
    RetriedRound(a, b, Asks([b]));
  }

  lemma RefusedRound(a: Call)
    requires IsWrite(a)
    ensures Asks([a]) && Observe([a], true, false, Signatures([Branch])) == [Observation(a, Rejected, true, false)]
  {
    hide Signature;
    assert IsWrite([a][0]);
    ObserveOne([a], true, false, Signatures([Branch]));
    assert [a][1..] == [];
  }

  lemma RetriedRound(a: Call, b: Call, asked: bool)
    requires Signature(a) != Signature(b)
    ensures var before := [Branch] + [Observation(a, Rejected, true, false)];
      Observe([b], asked, true, Signatures(before)) == [Observation(b, Executed, asked, true)]
  {
    hide Signature, IsWrite;
    var before := [Branch] + [Observation(a, Rejected, true, false)];
    assert Signatures(before) == {Signature(a)};
    ObserveOne([b], asked, true, Signatures(before));
    assert [b][1..] == [];
  }

  // There are such calls: a reminder with its two arguments in either order.
  lemma ReminderInBothOrders(message: string, runAt: string)
    ensures var m, r := J.Text(message), J.Text(runAt);
      var a := Call("create_learning_reminder", J.Object(J.Member("message", m, J.Member("run_at", r, J.NoMember))));
      var b := Call("create_learning_reminder", J.Object(J.Member("run_at", r, J.Member("message", m, J.NoMember))));
      && Parsed([a, b]) && Known(a) && Known(b) && IsWrite(a)
      && SamePair(a, b) && !SameForm(a, b)
  {
    hide J.Same, J.SameOrder, J.SameKinds;
    assert "message" != "run_at" by { assert "message"[0] != "run_at"[0]; }
    J.Swapped("message", J.Text(message), "run_at", J.Text(runAt));
  }

  function Update(key: string, value: N.Scalar): Call {
    Call("update_learning_progress", J.Object(J.Member(key, J.Atom(value), J.NoMember)))
  }

  lemma EqualInTwoKinds(key: string, x: N.Scalar, y: N.Scalar)
    requires N.IsScalar(x) && N.IsScalar(y) && N.Equal(x, y) && !N.SameKind(x, y)
    ensures var a, b := Update(key, x), Update(key, y);
      Parsed([a, b]) && Known(a) && Known(b) && IsWrite(a) && SamePair(a, b) && !SameForm(a, b)
  {
    hide J.Same, J.SameKinds, J.IsValue, N.IsScalar, N.Equal, N.SameKind;
    J.TwoKinds(key, x, y);
  }

  // And an update of a day, or of a flag, given as an int and as a float or a boolean:
  // {"day": 1} and {"day": 1.0}, {"done": true} and {"done": 1}.
  lemma UpdateInBothKinds(day: nat, done: bool)
    requires day < 10
    ensures var a, b := Update("day", N.Int(day)), Update("day", N.SmallFloat(day));
      Parsed([a, b]) && Known(a) && Known(b) && IsWrite(a) && SamePair(a, b) && !SameForm(a, b)
    ensures var a, b := Update("done", N.Bool(done)), Update("done", N.Int(if done then 1 else 0));
      Parsed([a, b]) && Known(a) && Known(b) && IsWrite(a) && SamePair(a, b) && !SameForm(a, b)
  {
    hide N.IsRepr;
    N.SmallFloatEqual(day);
    EqualInTwoKinds("day", N.Int(day), N.SmallFloat(day));
    EqualInTwoKinds("done", N.Bool(done), N.Int(if done then 1 else 0));
  }

  // ---------------------------------------------------------------- finishing, and the longest runs

  const PLAN_CALL := Call("get_learning_plan", J.Object(J.NoMember))

  // An answer that keeps a run going as long as it can.
  function SlowAnswer(c: Config, s: State): Answer {
    match s.node
    case RouteIntent =>
      Routed(if 4 * RewritesLeft(c, s) + 8 >= 3 * IterationsLeft(c, s) + 5 then KnowledgeQa else DeepResearch, Auto)
    case GradeRetrieval => Graded(Weak)
    case DecideEvidence => WebEnabled(true)
    case PlanResearch => Tasks(1)
    case ResearchReason => Decision(RESEARCH_TOOLS, [PLAN_CALL])
    case ResearchAct => Approval(true)
    case ApprovePlan => Approval(true)
    case ResearchCritic => Review(true, Some(true))
    case _ => Nothing
  }

  // Every node but the last can go on.
  lemma SlowAnswers(c: Config, s: State)
    requires !s.node.End?
    ensures Answers(s, SlowAnswer(c, s))
  {
    PlanCallParsed();
  }

  lemma PlanCallParsed()
    ensures Parsed([PLAN_CALL]) && Known(PLAN_CALL)
  {}

  // From every state of every run some answers bring it to its end, within the bound.
  lemma {:induction false} CanFinish(c: Config, s: State) returns (answers: seq<Answer>, t: State)
    requires BudgetsKept(c, s)
    ensures Reaches(c, s, answers, t) && t.node.End? && |answers| <= Left(c, s)
    decreases Left(c, s)
  {
    hide BudgetsKept, Left, Answers, Step, SlowAnswer;
    if s.node.End? {
      NoMore(c, s);
      return [], s;
    }
    var a := SlowAnswer(c, s);
    SlowAnswers(c, s);
    StepKeeps(c, s, a);
    var more, last := CanFinish(c, Step(c, s, a));
    OneMore(c, s, a, more, last);
    return [a] + more, last;
  }

  // What holds along a run of slow answers when the tool budget covers the iterations.
  predicate Slow(c: Config, s: State) {
    && c.maxToolCalls >= Max(1, c.maxIterations)
    && s.toolCalls + |s.pending| <= s.iterations && (s.node.ResearchAct? ==> |s.pending| == 1)
    && (!Settled(s.node) ==> s.webSearches == 0) && s.policy.Auto? && !s.quality.Good?
    && (s.node.ResearchReason? ==> s.toolCalls < c.maxToolCalls)
    && (s.node.ResearchCritic? ==> s.iterations >= 1)
    && (s.node.ResearchCritic? ==> s.toolCalls < c.maxToolCalls || s.iterations >= c.maxIterations)
  }

  lemma SlowDecides(c: Config, s: State)
    requires Slow(c, s) && s.node.DecideEvidence?
    ensures Decide(s, c.maxRewrites, true) == if s.rewrites < c.maxRewrites then Rewrite else Web
  {}

  lemma SlowEvidence(c: Config, s: State)
    requires EvidenceBudget(c, s) && Slow(c, s) && Evidential(s.node) && Answers(s, SlowAnswer(c, s))
    ensures Slow(c, EvidenceNode(c, s, SlowAnswer(c, s)))
  {
    hide Answers, Max, Left;
  }

  lemma SlowDecideLeft(c: Config, s: State)
    requires EvidenceBudget(c, s) && Slow(c, s) && s.node.DecideEvidence? && Answers(s, SlowAnswer(c, s))
    ensures Left(c, EvidenceNode(c, s, SlowAnswer(c, s))) == Left(c, s) - 1
  {
    hide Answers, IterationsLeft, Max, Decide, Slow;
    SlowDecides(c, s);
  }

  lemma SlowEvidenceLeft(c: Config, s: State)
    requires EvidenceBudget(c, s) && Slow(c, s) && Evidential(s.node) && Answers(s, SlowAnswer(c, s))
    ensures Left(c, EvidenceNode(c, s, SlowAnswer(c, s))) == Left(c, s) - 1
  {
    hide Answers, EvidenceBudget, EvidenceNode, Left, Slow, SlowAnswer;
    if s.node.DecideEvidence? { SlowDecideLeft(c, s); } else { EvidenceLeft(c, s, SlowAnswer(c, s)); }
  }

  lemma SlowReason(c: Config, s: State)
    requires ResearchBudget(c, s) && Slow(c, s) && s.node.ResearchReason?
    ensures Reason(c, s, RESEARCH_TOOLS, [PLAN_CALL]) == s.(pending := [PLAN_CALL], iterations := s.iterations + 1, node := ResearchAct)
  {
    hide Allowed;
    PlanCallParsed();
    AllAllowed([PLAN_CALL]);
  }

  lemma SlowContinues(c: Config, s: State)
    requires Slow(c, s) && s.node.ResearchCritic?
    ensures Continues(c, s, true, Some(true)) <==> s.iterations < c.maxIterations
  {}

  lemma SlowActs(c: Config, s: State)
    requires Slow(c, s) && s.node.ResearchAct?
    ensures var t := Act(s, true);
      t == s.(outputs := t.outputs, pending := [], toolCalls := s.toolCalls + 1, node := ResearchCritic)
  {
    hide Observe, Asks, Signatures;
  }

  // Each research node moves on as follows.
  lemma SlowMove(c: Config, s: State)
    requires ResearchBudget(c, s) && Slow(c, s) && Researching(s.node) && Answers(s, SlowAnswer(c, s))
    ensures var t := ResearchNode(c, s, SlowAnswer(c, s));
      && t == s.(tasks := t.tasks, outputs := t.outputs, pending := t.pending, iterations := t.iterations,
                 toolCalls := t.toolCalls, node := t.node)
      && (s.node.PlanResearch? ==> t.node.ResearchWorkers? && t.iterations == 0 && t.pending == s.pending && t.toolCalls == 0)
      && (s.node.ResearchWorkers? ==> t.node.ResearchReason? && t.iterations == 0 && t.pending == s.pending && t.toolCalls == 0)
      && (s.node.ResearchReason? ==> t.node.ResearchAct? && t.iterations == s.iterations + 1 && |t.pending| == 1 && t.toolCalls == s.toolCalls)
      && (s.node.ResearchAct? ==> t.node.ResearchCritic? && t.iterations == s.iterations && t.pending == [] && t.toolCalls == s.toolCalls + 1)
      && (s.node.ResearchCritic? || s.node.SynthesizeResearch? ==>
            t.iterations == s.iterations && t.pending == s.pending && t.toolCalls == s.toolCalls)
      && (s.node.ResearchCritic? ==> if s.iterations < c.maxIterations then t.node.ResearchReason? else t.node.SynthesizeResearch?)
      && (s.node.SynthesizeResearch? ==> t.node.Reflect?)
  {
    hide Answers, Reason, Act, Continues, Max;
    if s.node.ResearchReason? {
      SlowReason(c, s);
    } else if s.node.ResearchAct? {
      SlowActs(c, s);
    } else if s.node.ResearchCritic? {
      SlowContinues(c, s);
    }
  }

  lemma SlowResearch(c: Config, s: State)
    requires ResearchBudget(c, s) && Slow(c, s) && Researching(s.node) && Answers(s, SlowAnswer(c, s))
    ensures Slow(c, ResearchNode(c, s, SlowAnswer(c, s)))
  {
    hide Answers, ResearchNode, SlowAnswer, Left;
    SlowMove(c, s);
  }

  lemma SlowResearchLeft(c: Config, s: State)
    requires ResearchBudget(c, s) && Slow(c, s) && Researching(s.node) && Answers(s, SlowAnswer(c, s))
    ensures Left(c, ResearchNode(c, s, SlowAnswer(c, s))) == Left(c, s) - 1
  {
    hide Answers, ResearchNode, SlowAnswer, RewritesLeft;
    SlowMove(c, s);
  }

  lemma SlowRoute(c: Config, s: State)
    requires Slow(c, s) && s.node.RouteIntent?
    ensures var t := OtherNode(c, s, SlowAnswer(c, s)); Slow(c, t) && Left(c, t) == Left(c, s) - 1
  {}

  lemma SlowPlain(c: Config, s: State)
    requires Slow(c, s) && !Evidential(s.node) && !Researching(s.node) && !s.node.End? && Answers(s, SlowAnswer(c, s))
    ensures var t := OtherNode(c, s, SlowAnswer(c, s)); Slow(c, t) && Left(c, t) == Left(c, s) - 1
  {
    hide Answers, Max, RewritesLeft, IterationsLeft, SlowAnswer, Left, Slow;
    if s.node.RouteIntent? {
      SlowRoute(c, s);
    } else {
      FixedLeft(c, s, SlowAnswer(c, s));
      SlowPlainKeeps(c, s, SlowAnswer(c, s));
    }
  }

  lemma SlowPlainKeeps(c: Config, s: State, a: Answer)
    requires Slow(c, s) && !Evidential(s.node) && !Researching(s.node) && !s.node.End? && !s.node.RouteIntent? && Answers(s, a)
    ensures Slow(c, OtherNode(c, s, a))
  {
    hide Answers, Max;
  }

  lemma {:induction false} SlowRun(c: Config, s: State) returns (answers: seq<Answer>, t: State)
    requires BudgetsKept(c, s) && Slow(c, s)
    ensures Reaches(c, s, answers, t) && |answers| == Left(c, s)
    decreases Left(c, s)
  {
    hide EvidenceBudget, ResearchBudget, Left, Answers, Slow, SlowAnswer, EvidenceNode, ResearchNode, OtherNode;
    if s.node.End? {
      NoMore(c, s);
      EndLeft(c, s);
      return [], s;
    }
    var a := SlowAnswer(c, s);
    SlowAnswers(c, s);
    if Evidential(s.node) {
      SlowEvidence(c, s);
      SlowEvidenceLeft(c, s);
    } else if Researching(s.node) {
      SlowResearch(c, s);
      SlowResearchLeft(c, s);
    } else {
      SlowPlain(c, s);
    }
    StepKeeps(c, s, a);
    var more, last := SlowRun(c, Step(c, s, a));
    OneMore(c, s, a, more, last);
    return [a] + more, last;
  }

  lemma EndLeft(c: Config, s: State)
    requires s.node.End?
    ensures Left(c, s) == 0
  {}

  // The bound of Terminates is attained whenever the tool budget covers the iterations, as
  // it does by default.
  lemma BoundAttained(c: Config) returns (answers: seq<Answer>, t: State)
    requires c.maxToolCalls >= Max(1, c.maxIterations)
    ensures Reaches(c, START, answers, t)
    ensures |answers| == Max(4 * c.maxRewrites + 8, 3 * Max(1, c.maxIterations) + 5) + 3
  {
    hide Reaches;
    answers, t := SlowRun(c, START);
  }

  // ---------------------------------------------------------------- how a run ends

  // A step ends the run finalized, or ends it because no research task was planned.
  lemma EndStep(c: Config, s: State, a: Answer)
    requires Answers(s, a) && !s.finalized
    ensures var t := Step(c, s, a);
      && (t.node.End? ==> (t.finalized <==> a != Tasks(0)))
      && (!t.node.End? ==> a != Tasks(0) && t.finalized == s.finalized)
  {
    hide EvidenceNode, ResearchNode;
    if Evidential(s.node) {
      EvidenceGoesOn(c, s, a);
    } else if Researching(s.node) {
      ResearchGoesOn(c, s, a);
    }
  }

  lemma EvidenceGoesOn(c: Config, s: State, a: Answer)
    requires Answers(s, a) && Evidential(s.node)
    ensures !EvidenceNode(c, s, a).node.End? && EvidenceNode(c, s, a).finalized == s.finalized && a != Tasks(0)
  {
    hide Decide;
  }

  lemma ResearchGoesOn(c: Config, s: State, a: Answer)
    requires Answers(s, a) && Researching(s.node)
    ensures var t := ResearchNode(c, s, a); t.finalized == s.finalized && (t.node.End? <==> a == Tasks(0))
  {
    hide Continues, Observe, Allowed, Budgeted, Asks;
  }

  lemma {:induction false} EndReach(c: Config, s: State, answers: seq<Answer>, t: State)
    requires Reaches(c, s, answers, t) && !s.finalized && !s.node.End? && t.node.End?
    ensures t.finalized <==> Tasks(0) !in answers
    decreases |answers|
  {
    hide Step, Answers;
    EndStep(c, s, answers[0]);
    var next := Step(c, s, answers[0]);
    if next.node.End? {
      NothingAfterEnd(c, next, answers[1..], t);
    } else {
      EndReach(c, next, answers[1..], t);
    }
  }

  lemma NothingAfterEnd(c: Config, s: State, answers: seq<Answer>, t: State)
    requires Reaches(c, s, answers, t) && s.node.End?
    ensures answers == [] && t == s
  {
    hide Step;
  }

  // A run that is over has a final answer exactly when it did not plan research without a
  // single task, as a model that lists only blank tasks makes it do.
  lemma EndsFinalizedIff(c: Config, answers: seq<Answer>, t: State)
    requires Reaches(c, START, answers, t) && t.node.End?
    ensures t.finalized <==> Tasks(0) !in answers
  {
    EndReach(c, START, answers, t);
  }

  // Such runs exist.
  lemma EmptyPlanEndsSilently(c: Config) returns (answers: seq<Answer>, t: State)
    ensures Reaches(c, START, answers, t) && t.node.End? && !t.finalized
  {
    hide Reaches;
    var first := ToPlanning(c);
    t := Step(c, PLANNING, Tasks(0));
    NoMore(c, t);
    OneMore(c, PLANNING, Tasks(0), [], t);
    answers := first + ([Tasks(0)] + []);
    Onward(c, START, first, PLANNING, [Tasks(0)] + [], t);
  }

  // ---------------------------------------------------------------- saving a plan

  // A plan may still be drafted and put to the user.
  predicate BeforePlan(n: Node) {
    n.LoadContext? || n.ContextualizeQuestion? || n.RouteIntent? || n.DraftPlan? || n.ApprovePlan?
  }

  // Where ApprovePlan asks, the answer lets the plan pass.
  predicate Passes(c: Config, a: Answer) { !c.requirePlanApproval || a == Approval(true) }

  // In the run from s, ApprovePlan was asked and its own answer let the plan pass.
  ghost predicate PlanPassed(c: Config, s: State, answers: seq<Answer>)
    decreases |answers|
  {
    answers != [] && Answers(s, answers[0]) &&
    ((s.node.ApprovePlan? && Passes(c, answers[0])) || PlanPassed(c, Step(c, s, answers[0]), answers[1..]))
  }

  lemma PlanStep(c: Config, s: State, a: Answer)
    requires Answers(s, a)
    ensures var t := Step(c, s, a);
      && (!BeforePlan(s.node) ==> !BeforePlan(t.node) && !t.node.PersistPlan?)
      && (t.node.PersistPlan? <==> s.node.ApprovePlan?)
      && (s.node.ApprovePlan? ==> (t.planApproved <==> Passes(c, a)))
      && t.planSaved == if s.node.PersistPlan? then s.planApproved else s.planSaved
  {
    hide EvidenceNode, ResearchNode, Answers, Evidential, Researching;
    if Evidential(s.node) {
      EvidencePlan(c, s, a);
    } else if Researching(s.node) {
      ResearchPlan(c, s, a);
    } else {
      OtherPlan(c, s, a);
    }
  }

  lemma EvidencePlan(c: Config, s: State, a: Answer)
    requires Answers(s, a) && Evidential(s.node)
    ensures var t := EvidenceNode(c, s, a);
      !BeforePlan(s.node) && !s.node.PersistPlan? && !BeforePlan(t.node) && !t.node.PersistPlan? && t.planSaved == s.planSaved
  {
    hide Decide, Answers;
  }

  lemma ResearchPlan(c: Config, s: State, a: Answer)
    requires Answers(s, a) && Researching(s.node)
    ensures var t := ResearchNode(c, s, a);
      !BeforePlan(s.node) && !s.node.PersistPlan? && !BeforePlan(t.node) && !t.node.PersistPlan? && t.planSaved == s.planSaved
  {
    hide Continues, Observe, Allowed, Budgeted, Asks, Signatures;
  }

  lemma OtherPlan(c: Config, s: State, a: Answer)
    requires Answers(s, a) && !Evidential(s.node) && !Researching(s.node)
    ensures var t := OtherNode(c, s, a);
      && (!BeforePlan(s.node) ==> !BeforePlan(t.node) && !t.node.PersistPlan?)
      && (t.node.PersistPlan? <==> s.node.ApprovePlan?)
      && (s.node.ApprovePlan? ==> (t.planApproved <==> Passes(c, a)))
      && t.planSaved == if s.node.PersistPlan? then s.planApproved else s.planSaved
  {
    hide Target, Evidential, Researching;
    if s.node.RouteIntent? { TargetPlan(a.intent); }
  }

  lemma TargetPlan(intent: Intent)
    ensures !Target(intent).PersistPlan?
  {}

  lemma {:induction false} PlanReach(c: Config, s: State, answers: seq<Answer>, t: State)
    requires Reaches(c, s, answers, t) && (BeforePlan(s.node) || s.node.PersistPlan? ==> !s.planSaved)
    ensures var past := !BeforePlan(t.node) && !t.node.PersistPlan?;
      t.planSaved <==>
        if BeforePlan(s.node) then past && PlanPassed(c, s, answers)
        else if s.node.PersistPlan? then past && s.planApproved
        else s.planSaved
    ensures !BeforePlan(s.node) ==> !PlanPassed(c, s, answers)
    ensures !BeforePlan(s.node) && !s.node.PersistPlan? ==> !BeforePlan(t.node) && !t.node.PersistPlan?
    decreases |answers|
  {
    hide Step, Answers, BeforePlan, Passes;
    NoPlanAsked(s);
    if answers != [] {
      PlanStep(c, s, answers[0]);
      NoPlanAsked(Step(c, s, answers[0]));
      PlanReach(c, Step(c, s, answers[0]), answers[1..], t);
    }
  }

  lemma NoPlanAsked(s: State)
    ensures s.node.ApprovePlan? ==> BeforePlan(s.node)
    ensures s.node.PersistPlan? ==> !BeforePlan(s.node)
  {}

  // A plan is saved exactly by the runs that are past asking for it and in which the user's
  // answer to that very question was an approval, or no approval is required.
  lemma PlanSavedIff(c: Config, answers: seq<Answer>, t: State)
    requires Reaches(c, START, answers, t)
    ensures t.planSaved <==> !BeforePlan(t.node) && !t.node.PersistPlan? && PlanPassed(c, START, answers)
  {
    hide Step;
    PlanReach(c, START, answers, t);
  }
}
