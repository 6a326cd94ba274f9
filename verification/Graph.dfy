/**
 * The compiled graph of `build_graph` (syndicate/nodes.py:626-668) as a
 * labelled transition system: one node per step, its delta merged, and the
 * next node read off the edges. Whatever the sandbox and the model did during
 * a visit is the step's label.
 */
module Graph {
  import opened PyText
  import opened AgentState
  import opened AgenticLoop
  import opened Sandbox
  import opened Nodes
  import Diagnosis
  import ShellWords

  // ----- steps -----

  /** A visit to a node and what happened in it; HEAD is the repository's true HEAD. */
  datatype Visit =
    | AtAnalyzer
    | AtArchitect(planned: Ticket)
    | AtDispatch
    | AtExecutor(attempts: seq<Attempt>, headLeft: Option<string>)
    | AtValidator(result: ActionResult, headLeft: Option<string>)
    | AtOversight(g: GitReplies, headBefore: Option<string>, headAfter: Option<string>)
    | AtEscalate
    | AtAdvance
  {
    function Node(): Node {
      match this
      case AtAnalyzer => Analyzer
      case AtArchitect(_) => Architect
      case AtDispatch => Dispatch
      case AtExecutor(_, _) => Executor
      case AtValidator(_, _) => Validator
      case AtOversight(_, _, _) => OversightGit
      case AtEscalate => Escalate
      case AtAdvance => Advance
    }
  }

  /** What costs a strike: an attempt, a failed validation, or a commit that was not verified. */
  datatype Event = Tried(attempt: Attempt) | Rejected(output: string) | Uncommitted

  /** One item of the update stream: a node and the delta it returned. */
  datatype Update = Update(node: Node, delta: Delta)

  /**
   * A run in progress: the node to visit next and the state it will see, and
   * beside them what has happened so far: the repository's HEAD, the HEAD
   * before the last staging, the strikes, the log lines, the updates, and the
   * commands that the nodes have issued.
   */
  datatype Config = Config(
    node: Node,
    state: State,
    head: Option<string>,
    staged: Option<string>,
    events: seq<Event>,
    lines: seq<string>,
    updates: seq<Update>,
    commands: seq<string>)

  function DeltaOf(p: Params, s: State, v: Visit): Delta {
    match v
    case AtAnalyzer => AnalyzerDelta(s)
    case AtArchitect(planned) => ArchitectDelta(s, planned)
    case AtDispatch => NO_CHANGE
    case AtExecutor(attempts, _) => if p.mock then MockExecutorDelta(p, s) else ExecutorDelta(p, s, attempts)
    case AtValidator(result, _) => ValidatorDelta(p, s, result)
    case AtOversight(g, _, _) => OversightDelta(p, s, g)
    case AtEscalate => EscalateDelta(p, s)
    case AtAdvance => AdvanceDelta(s)
  }

  /** The edges: fixed, or chosen by a router from the state after the merge. */
  function Successor(p: Params, n: Node, s: State): Node {
    match n
    case Analyzer => Architect
    case Architect => Dispatch
    case Dispatch => DispatchRouter(s)
    case Executor => Validator
    case Validator => ValidatorRouter(p, s)
    case OversightGit => OversightGitRouter(p, s)
    case Escalate => Advance
    case Advance => Dispatch
    case End => End
  }

  /** What can happen in a visit from state s. */
  ghost predicate Possible(p: Params, s: State, v: Visit) {
    match v
    case AtExecutor(attempts, _) => if p.mock then attempts == [] else AttemptsRun(p, s, attempts)
    case AtOversight(g, before, after) =>
      if p.mock then g == MockReplies(s)
      else
        && (!Judge(s, g).NoFiles? ==> ReportedHead(g.headBefore) == before)
        && (Judge(s, g).AskedTwice() ==> ReportedHead(g.headAfter) == after)
    case _ => true
  }

  function MockReplies(s: State): GitReplies {
    GitReplies(
      SetupReplies(MockReply(IS_REPO), MockReply(INIT), MockReply(SET_NAME), MockReply(SET_EMAIL)),
      MockReply(REV_PARSE_HEAD),
      MockReply(ShellWords.AddCommand(s.Files())),
      MockReply(ShellWords.CommitCommand(CommitMessage(s))),
      MockReply(REV_PARSE_HEAD))
  }

  function AllTried(attempts: seq<Attempt>): (events: seq<Event>)
    ensures |events| == |attempts| && forall i | 0 <= i < |events| :: events[i] == Tried(attempts[i])
  {
    seq(|attempts|, i requires 0 <= i < |attempts| => Tried(attempts[i]))
  }

  function EventsOf(p: Params, s: State, v: Visit): seq<Event> {
    match v
    case AtExecutor(attempts, _) => AllTried(attempts)
    case AtValidator(result, _) => if !p.mock && result.exitCode != 0 then [Rejected(result.output)] else []
    case AtOversight(g, _, _) => if Judge(s, g).IsStrike() then [Uncommitted] else []
    case _ => []
  }

  function LinesOf(p: Params, s: State, v: Visit): seq<string> {
    match v
    case AtExecutor(attempts, _) => if p.mock then MockLines(p) else AttemptLines(p, s.strikeCount, attempts)
    case AtOversight(g, _, _) => GitLines(p, s, g)
    case _ => []
  }

  function CommandsOf(p: Params, s: State, v: Visit): seq<string> {
    match v
    case AtExecutor(attempts, _) => if p.mock then DUMMY_ACTIONS else Asked(attempts)
    case AtValidator(_, _) => if p.mock then [] else [VerificationCommand(s)]
    case AtOversight(g, _, _) => Commands(GitSteps(s, g))
    case _ => []
  }

  function Next(p: Params, c: Config, v: Visit): Config {
    var delta := DeltaOf(p, c.state, v);
    var s := Merge(c.state, delta);
    Config(
      Successor(p, c.node, s),
      s,
      match v {
        case AtExecutor(_, h) => h
        case AtValidator(_, h) => h
        case AtOversight(_, _, h) => h
        case _ => c.head
      },
      if v.AtOversight? then v.headBefore else c.staged,
      c.events + EventsOf(p, c.state, v),
      c.lines + LinesOf(p, c.state, v),
      c.updates + [Update(c.node, delta)],
      c.commands + CommandsOf(p, c.state, v))
  }

  ghost predicate CanTake(p: Params, c: Config, v: Visit) {
    c.node != End && v.Node() == c.node && Possible(p, c.state, v)
  }

  /** The visits `run`, one after another, lead from c0 to c. */
  ghost predicate Leads(p: Params, c0: Config, run: seq<Visit>, c: Config)
    decreases |run|
  {
    if run == [] then c == c0
    else if |run| == 1 then CanTake(p, c0, run[0]) && c == Next(p, c0, run[0])
    else exists b :: Leads(p, c0, Init(run), b) && Leads(p, b, [Last(run)], c)
  }

  lemma LastVisit(p: Params, c0: Config, run: seq<Visit>, c: Config) returns (b: Config)
    requires run != [] && Leads(p, c0, run, c)
    ensures Leads(p, c0, Init(run), b) && CanTake(p, b, Last(run)) && c == Next(p, b, Last(run))
  {
    hide CanTake, Next;
    if |run| == 1 {
      b := c0;
    } else {
      b :| Leads(p, c0, Init(run), b) && Leads(p, b, [Last(run)], c);
    }
  }

  lemma OneVisitMore(p: Params, c0: Config, run: seq<Visit>, b: Config, v: Visit)
    requires Leads(p, c0, run, b) && CanTake(p, b, v)
    ensures Leads(p, c0, run + [v], Next(p, b, v))
  {
    hide CanTake, Next;
    assert Init(run + [v]) == run && Last(run + [v]) == v;
    assert Leads(p, b, [v], Next(p, b, v));
  }

  /**
   * A fresh run: no strikes, no status, an empty log. The ledger and the
   * escalation count may come from earlier tickets.
   */
  ghost predicate Fresh(c: Config) {
    && c.node == Analyzer
    && c.events == [] && c.lines == [] && c.updates == [] && c.commands == []
    && c.state.attemptLog == [] && c.state.ticketStatus == None && !c.state.lastValidationPassed
    && c.state.strikeCount == 0 && c.state.diagnosis == None && c.state.runStatus == None
  }

  function Visits(us: seq<Update>, n: Node): nat {
    if us == [] then 0 else Visits(Init(us), n) + if Last(us).node == n then 1 else 0
  }

  // ----- the invariant -----

  /** What the next attempt should be told, from the strikes so far. */
  function FreshFeedback(events: seq<Event>): Option<string> {
    if events == [] then None else ToldAfter(Last(events))
  }

  /** What an attempt should hear about the strike just before it. */
  function ToldAfter(e: Event): Option<string> {
    match e
    case Tried(a) => Some(a.Check().output)
    case Rejected(output) => Some(Diagnosis.Truncate(output))
    case Uncommitted => None
  }

  /** Every attempt was told what had just gone wrong, and only attempts that failed are followed by another. */
  ghost predicate FeedbackIsFresh(events: seq<Event>) {
    forall i | 0 <= i < |events| && events[i].Tried? ::
      && events[i].attempt.feedback == FreshFeedback(events[..i])
      && (i > 0 && events[i - 1].Tried? ==> !events[i - 1].attempt.Passed())
  }

  /** And it was told by the prompt: its conversation with the model is about the task and that feedback. */
  ghost predicate PromptsAreGiven(p: Params, task: string, events: seq<Event>) {
    forall i | 0 <= i < |events| && events[i].Tried? ::
      var a := events[i].attempt;
      Conversed(a.shown, a.replies, p.maxToolCalls, Prompt(task, a.feedback))
  }

  ghost predicate AttemptsWithin(p: Params, events: seq<Event>) {
    forall i | 0 <= i < |events| && events[i].Tried? :: i < p.maxStrikes && !p.mock
  }

  /** The ways a run can come to `advance`. */
  ghost predicate Settled(p: Params, s: State, escalations: int) {
    || (s.ticketStatus == Some(Done) && s.Files() != [] && s.lastValidationPassed && escalations == 0)
    || (s.ticketStatus == Some(Escalated) && escalations == 1 && GaveUp(p, s))
    || (s.Files() == [] && s.lastValidationPassed && escalations == 0
        && (s.ticketStatus == Some(LocalPass) || s.ticketStatus == Some(Escalated)))
  }

  /** What sends a run to `escalate`: the strikes are used up, on a failed validation or a commit that is not there. */
  predicate GaveUp(p: Params, s: State) {
    s.strikeCount >= p.maxStrikes && (s.lastValidationPassed ==> s.Files() != [])
  }

  /** How the executor leaves a ticket: its checks passed, or its strikes are used up. */
  predicate PassedOrExhausted(p: Params, s: State) {
    || s.ticketStatus == Some(LocalPass)
    || (s.ticketStatus == Some(Escalated) && s.strikeCount == p.maxStrikes)
  }

  /** Has the ticket been advanced past? Then `dispatch` goes to the end. */
  predicate Advanced(c: Config) {
    c.node == End || (c.node == Dispatch && DispatchRouter(c.state) == End)
  }

  ghost predicate AtNode(p: Params, c0: Config, c: Config) {
    var s := c.state;
    var escalations := s.escalationCount - c0.state.escalationCount;
    if c.node == Advance || Advanced(c) then Settled(p, s, escalations)
    else
      && escalations == 0
      && s.ticketStatus != Some(Done)
      && match c.node
         case Analyzer | Architect | Dispatch =>
           Fresh(c.(node := Analyzer, updates := []))
         case Executor =>
           && s.strikeCount < p.maxStrikes
           && s.ticketStatus != Some(Escalated)
           && s.diagnosis == FreshFeedback(c.events)
           && (p.mock ==> s.diagnosis == None)
           && (c.events != [] && Last(c.events).Tried? ==> !Last(c.events).attempt.Passed())
         case Validator =>
           && s.strikeCount <= p.maxStrikes
           && PassedOrExhausted(p, s)
           && (if p.mock then s.diagnosis == None else c.events != [] && Last(c.events).Tried?)
         case OversightGit =>
           && s.strikeCount <= p.maxStrikes
           && s.lastValidationPassed && s.diagnosis == None
           && PassedOrExhausted(p, s)
         case _ => GaveUp(p, s)
  }

  /** Every strike is on record, and every attempt on record was made within the budget and told the right thing. */
  ghost predicate StrikesOnRecord(p: Params, c: Config) {
    && c.state.strikeCount == |c.events| <= p.maxStrikes + 1
    && AttemptsWithin(p, c.events)
    && FeedbackIsFresh(c.events)
    && PromptsAreGiven(p, TaskPrompt(c.state), c.events)
  }

  /** The escalation count and the run status follow the visits to `escalate`. */
  ghost predicate EscalationsCounted(p: Params, c0: Config, c: Config) {
    var count, count0 := c.state.escalationCount, c0.state.escalationCount;
    && count - count0 == Visits(c.updates, Escalate)
    && c.state.runStatus ==
         if count > count0 && count > p.maxEscalations then Some(HaltedEscalationBudget) else None
  }

  /** The log holds every line so far, until `advance` distils it into one ledger entry. */
  ghost predicate LogConserved(c0: Config, c: Config) {
    if Advanced(c) then c.state.attemptLog == [] && c.state.ledger == c0.state.ledger + [Distil(c.lines)]
    else c.state.attemptLog == c.lines && c.state.ledger == c0.state.ledger
  }

  ghost predicate DoneIsEarned(c: Config) {
    c.state.ticketStatus == Some(Done) ==> c.head.Some? && c.head != c.staged
  }

  ghost predicate Invariant(p: Params, c0: Config, c: Config) {
    && StrikesOnRecord(p, c)
    && EscalationsCounted(p, c0, c)
    && LogConserved(c0, c)
    && DoneIsEarned(c)
    && AtNode(p, c0, c)
  }

  // ----- what each step does, field by field -----

  lemma NextEarly(p: Params, c: Config, v: Visit)
    requires v.AtAnalyzer? || v.AtArchitect? || v.AtDispatch?
    ensures var c' := Next(p, c, v);
            && c'.state == c.state.(hasAnalysis := c'.state.hasAnalysis, activeTicket := c'.state.activeTicket)
            && (v.AtDispatch? ==> c'.state == c.state)
            && c' == c.(node := Successor(p, c.node, c'.state), state := c'.state, updates := c'.updates)
  {
    assert c.events + [] == c.events && c.lines + [] == c.lines && c.commands + [] == c.commands;
  }

  lemma NextExecutor(p: Params, c: Config, v: Visit)
    requires v.AtExecutor? && c.node == Executor && Possible(p, c.state, v)
    ensures var c' := Next(p, c, v);
            && c'.node == Validator
            && c'.events == c.events + EventsOf(p, c.state, v) && c'.lines == c.lines + LinesOf(p, c.state, v)
            && c'.state == c.state.(
                 attemptLog := c.state.attemptLog + LinesOf(p, c.state, v),
                 strikeCount := c.state.strikeCount + |v.attempts|,
                 ticketStatus := c'.state.ticketStatus,
                 diagnosis := c'.state.diagnosis)
            && c'.state.ticketStatus ==
                 Some(if p.mock || (v.attempts != [] && Last(v.attempts).Passed()) then LocalPass else Escalated)
            && (p.mock ==> c'.state.diagnosis == c.state.diagnosis)
  {
    hide AttemptLines, MockLines, AttemptsRun, Asked;
  }

  lemma NextValidator(p: Params, c: Config, v: Visit)
    requires v.AtValidator? && c.node == Validator
    ensures var c' := Next(p, c, v);
            var passed := p.mock || v.result.exitCode == 0;
            && c'.node == ValidatorRouter(p, c'.state)
            && c'.lines == c.lines
            && c'.events == (if passed then c.events else c.events + [Rejected(v.result.output)])
            && c'.state == c.state.(
                 lastValidationPassed := passed,
                 strikeCount := c.state.strikeCount + (if passed then 0 else 1),
                 diagnosis := if p.mock then c.state.diagnosis
                              else if passed then None else Some(Diagnosis.Truncate(v.result.output)))
  {
    hide Diagnosis.Truncate;
    assert c.events + [] == c.events && c.lines + [] == c.lines;
  }

  lemma NextOversight(p: Params, c: Config, v: Visit)
    requires v.AtOversight? && c.node == OversightGit
    ensures var c' := Next(p, c, v);
            var verdict := Judge(c.state, v.g);
            && c'.node == OversightGitRouter(p, c'.state)
            && c'.lines == c.lines + GitLines(p, c.state, v.g)
            && c'.events == (if verdict.IsStrike() then c.events + [Uncommitted] else c.events)
            && c'.head == v.headAfter && c'.staged == v.headBefore
            && c'.state == c.state.(
                 attemptLog := c.state.attemptLog + GitLines(p, c.state, v.g),
                 strikeCount := c.state.strikeCount + (if verdict.IsStrike() then 1 else 0),
                 ticketStatus := if verdict.Committed? then Some(Done) else c.state.ticketStatus)
  {
    hide Judge, GitLines, GitSteps, Commands;
    assert c.events + [] == c.events;
  }

  lemma NextLate(p: Params, c: Config, v: Visit)
    requires v.AtEscalate? || v.AtAdvance?
    ensures var c' := Next(p, c, v);
            && c' == c.(node := Successor(p, c.node, c'.state), state := c'.state, updates := c'.updates)
            && (v.AtAdvance? ==>
                  c'.state == c.state.(attemptLog := [], ledger := c.state.ledger + [Distil(c.state.attemptLog)]))
            && (v.AtEscalate? ==>
                  var count := c.state.escalationCount + 1;
                  c'.state == c.state.(
                    ticketStatus := Some(Escalated), escalationCount := count,
                    runStatus := if count > p.maxEscalations then Some(HaltedEscalationBudget) else c.state.runStatus))
  {
    hide Distil;
    assert c.events + [] == c.events && c.lines + [] == c.lines && c.commands + [] == c.commands;
  }

  lemma NextUpdates(p: Params, c: Config, v: Visit, n: Node)
    ensures Visits(Next(p, c, v).updates, n) == Visits(c.updates, n) + if c.node == n then 1 else 0
  {
    hide DeltaOf, Merge, Successor, EventsOf, LinesOf, CommandsOf;
    assert Init(Next(p, c, v).updates) == c.updates;
  }

  // ----- one lemma a node: each visit keeps the invariant -----

  lemma EarlyNodesKeep(p: Params, c0: Config, c: Config, v: Visit)
    requires p.maxStrikes >= 1 && Invariant(p, c0, c) && CanTake(p, c, v)
    requires c.node == Analyzer || c.node == Architect || (c.node == Dispatch && !Advanced(c))
    ensures Invariant(p, c0, Next(p, c, v))
  {
    hide Next, Distil, Visits;
    NextEarly(p, c, v);
    NextUpdates(p, c, v, Escalate);
  }

  lemma ExecutorKeeps(p: Params, c0: Config, c: Config, v: Visit)
    requires Invariant(p, c0, c) && CanTake(p, c, v) && c.node == Executor
    ensures Invariant(p, c0, Next(p, c, v))
  {
    hide Next, Distil, Visits, LinesOf, AttemptsRun, FeedbackIsFresh, AttemptsWithin, PromptsAreGiven, FreshFeedback;
    NextExecutor(p, c, v);
    NextUpdates(p, c, v, Escalate);
    if p.mock {
      assert c.events + EventsOf(p, c.state, v) == c.events;
    } else {
      AttemptsAreFresh(p, c.state, c.events, v.attempts);
      AttemptsArePrompted(p, c.state, c.events, v.attempts);
    }
  }

  lemma AttemptsAreFresh(p: Params, s: State, events: seq<Event>, attempts: seq<Attempt>)
    requires !p.mock && AttemptsRun(p, s, attempts) && FeedbackIsFresh(events) && AttemptsWithin(p, events)
    requires s.strikeCount == |events| < p.maxStrikes && s.diagnosis == FreshFeedback(events)
    requires events != [] && Last(events).Tried? ==> !Last(events).attempt.Passed()
    ensures var all := events + AllTried(attempts);
            FeedbackIsFresh(all) && AttemptsWithin(p, all) && all != [] && Last(all).Tried?
    ensures |events| + |attempts| <= p.maxStrikes
    ensures attempts == [] || !Last(attempts).Passed() ==> |events| + |attempts| == p.maxStrikes
  {
    hide FreshFeedback, FeedbackFor, Conversed, ChecksInOrder, Outcome;
    var all := events + AllTried(attempts);
    forall i | 0 <= i < |all| && all[i].Tried?
      ensures all[i].attempt.feedback == FreshFeedback(all[..i])
      ensures i > 0 && all[i - 1].Tried? ==> !all[i - 1].attempt.Passed()
    {
      if i < |events| {
        assert all[..i] == events[..i] && all[i] == events[i];
      } else {
        FeedbackAmong(s, events, attempts, i - |events|);
        assert Sound(p, s, attempts, i - |events|);
      }
    }
  }

  lemma AttemptsArePrompted(p: Params, s: State, events: seq<Event>, attempts: seq<Attempt>)
    requires AttemptsRun(p, s, attempts) && PromptsAreGiven(p, TaskPrompt(s), events)
    ensures PromptsAreGiven(p, TaskPrompt(s), events + AllTried(attempts))
  {
    hide FeedbackFor, Conversed, ChecksInOrder, Prompt, Outcome;
    var all := events + AllTried(attempts);
    forall i | 0 <= i < |all| && all[i].Tried?
      ensures var a := all[i].attempt; Conversed(a.shown, a.replies, p.maxToolCalls, Prompt(TaskPrompt(s), a.feedback))
    {
      if i < |events| {
        assert all[i] == events[i];
      } else {
        assert Sound(p, s, attempts, i - |events|);
      }
    }
  }

  /** The k-th attempt of a visit was told what the record up to it says. */
  lemma FeedbackAmong(s: State, events: seq<Event>, attempts: seq<Attempt>, k: nat)
    requires k < |attempts| && s.diagnosis == FreshFeedback(events)
    ensures FreshFeedback((events + AllTried(attempts))[..|events| + k]) == FeedbackFor(s, attempts[..k])
  {
    var before := (events + AllTried(attempts))[..|events| + k];
    if k == 0 {
      assert before == events && attempts[..0] == [];
    } else {
      assert Last(before) == Tried(attempts[k - 1]) && Last(attempts[..k]) == attempts[k - 1];
    }
  }

  lemma ValidatorKeeps(p: Params, c0: Config, c: Config, v: Visit)
    requires Invariant(p, c0, c) && CanTake(p, c, v) && c.node == Validator
    ensures Invariant(p, c0, Next(p, c, v))
  {
    hide Next, Distil, Visits, Diagnosis.Truncate, PromptsAreGiven;
    NextValidator(p, c, v);
    NextUpdates(p, c, v, Escalate);
    AddedEventKeeps(p, TaskPrompt(c.state), c.events, Rejected(v.result.output));
  }

  /** A strike that is not an attempt leaves the attempts and what they were told as they were. */
  lemma AddedEventKeeps(p: Params, task: string, events: seq<Event>, e: Event)
    requires FeedbackIsFresh(events) && AttemptsWithin(p, events) && PromptsAreGiven(p, task, events) && !e.Tried?
    ensures FeedbackIsFresh(events + [e]) && AttemptsWithin(p, events + [e]) && PromptsAreGiven(p, task, events + [e])
  {
    hide Conversed, Prompt, FreshFeedback, Outcome;
    var all := events + [e];
    forall i | 0 <= i < |all| && all[i].Tried?
      ensures i < |events| && all[i] == events[i] && all[..i] == events[..i]
    {
    }
  }

  lemma OversightKeeps(p: Params, c0: Config, c: Config, v: Visit)
    requires Invariant(p, c0, c) && CanTake(p, c, v) && c.node == OversightGit
    ensures Invariant(p, c0, Next(p, c, v))
  {
    hide Next, Distil, Visits, GitLines, ReportedHead, MockReply, PromptsAreGiven;
    hide ShellWords.AddCommand, ShellWords.CommitCommand, CommitMessage;
    NextOversight(p, c, v);
    NextUpdates(p, c, v, Escalate);
    AddedEventKeeps(p, TaskPrompt(c.state), c.events, Uncommitted);
  }

  lemma LateNodesKeep(p: Params, c0: Config, c: Config, v: Visit)
    requires Invariant(p, c0, c) && CanTake(p, c, v)
    requires c.node == Escalate || c.node == Advance || (c.node == Dispatch && Advanced(c))
    ensures Invariant(p, c0, Next(p, c, v))
  {
    hide Next, Distil, Visits;
    if c.node == Dispatch { NextEarly(p, c, v); } else { NextLate(p, c, v); }
    NextUpdates(p, c, v, Escalate);
  }

  lemma {:induction false} RunKeepsInvariant(p: Params, c0: Config, run: seq<Visit>, c: Config)
    requires p.maxStrikes >= 1 && Fresh(c0) && Leads(p, c0, run, c)
    ensures Invariant(p, c0, c)
    decreases |run|
  {
    if run != [] {
      hide Next, Invariant;
      var b := LastVisit(p, c0, run, c);
      RunKeepsInvariant(p, c0, Init(run), b);
      match b.node
      case Executor => ExecutorKeeps(p, c0, b, Last(run));
      case Validator => ValidatorKeeps(p, c0, b, Last(run));
      case OversightGit => OversightKeeps(p, c0, b, Last(run));
      case Analyzer | Architect => EarlyNodesKeep(p, c0, b, Last(run));
      case Dispatch =>
        if Advanced(b) { LateNodesKeep(p, c0, b, Last(run)); } else { EarlyNodesKeep(p, c0, b, Last(run)); }
      case Escalate | Advance => LateNodesKeep(p, c0, b, Last(run));
    }
  }
}
