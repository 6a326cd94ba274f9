/** What holds of every fresh run of the graph, whatever the sandbox and the model do. */
module RunTheorems {
  import opened PyText
  import opened AgentState
  import opened AgenticLoop
  import opened Sandbox
  import opened Nodes
  import opened Graph
  import Diagnosis

  // ----- strikes -----

  function Attempts(events: seq<Event>): nat {
    if events == [] then 0 else Attempts(Init(events)) + if Last(events).Tried? then 1 else 0
  }

  function Rejections(events: seq<Event>): nat {
    if events == [] then 0 else Rejections(Init(events)) + if Last(events).Rejected? then 1 else 0
  }

  function CommitFailures(events: seq<Event>): nat {
    if events == [] then 0 else CommitFailures(Init(events)) + if Last(events).Uncommitted? then 1 else 0
  }

  /** The model calls of all attempts. */
  function Turns(events: seq<Event>): nat {
    if events == [] then 0
    else Turns(Init(events)) + if Last(events).Tried? then |Last(events).attempt.shown| else 0
  }

  lemma {:induction false} EventsAddUp(p: Params, task: string, events: seq<Event>)
    requires AttemptsWithin(p, events) && PromptsAreGiven(p, task, events)
    ensures |events| == Attempts(events) + Rejections(events) + CommitFailures(events)
    ensures Attempts(events) <= p.maxStrikes
    decreases |events|
  {
    if events != [] {
      hide AttemptsWithin, PromptsAreGiven;
      var before := Init(events);
      OneFewer(p, task, events);
      EventsAddUp(p, task, before);
      AttemptsAtMostLength(before);
    }
  }

  lemma {:induction false} TurnsAddUp(p: Params, task: string, events: seq<Event>)
    requires AttemptsWithin(p, events) && PromptsAreGiven(p, task, events)
    ensures Turns(events) <= Attempts(events) * p.maxToolCalls
    decreases |events|
  {
    if events != [] {
      hide AttemptsWithin, PromptsAreGiven;
      var before := Init(events);
      OneFewer(p, task, events);
      TurnsAddUp(p, task, before);
      MulSucc(Attempts(before), p.maxToolCalls);
    }
  }

  lemma OneFewer(p: Params, task: string, events: seq<Event>)
    requires events != [] && AttemptsWithin(p, events) && PromptsAreGiven(p, task, events)
    ensures AttemptsWithin(p, Init(events)) && PromptsAreGiven(p, task, Init(events))
    ensures Last(events).Tried? ==> |events| <= p.maxStrikes && |Last(events).attempt.shown| <= p.maxToolCalls
  {
    hide WellFormed, SawPrefixes, Prompt;
    assert forall i | 0 <= i < |events| - 1 :: Init(events)[i] == events[i];
    assert events[|events| - 1] == Last(events);
  }

  lemma MulSucc(a: nat, k: nat)
    ensures (a + 1) * k == a * k + k
  {
  }

  lemma MulLe(a: nat, b: nat, k: nat)
    requires a <= b
    ensures a * k <= b * k
  {
  }

  lemma {:induction false} AttemptsAtMostLength(events: seq<Event>)
    ensures Attempts(events) <= |events|
    decreases |events|
  {
    if events != [] { AttemptsAtMostLength(Init(events)); }
  }

  /**
   * The one counter is the sum of three: attempts, failed validations, and
   * commits that were not verified. It can pass the limit by one and no more;
   * the executor is entered only below the limit, so attempts and model turns
   * over the whole run are bounded.
   */
  lemma StrikesAreConserved(p: Params, c0: Config, run: seq<Visit>, c: Config)
    requires p.maxStrikes >= 1 && Fresh(c0) && Leads(p, c0, run, c)
    ensures c.state.strikeCount == Attempts(c.events) + Rejections(c.events) + CommitFailures(c.events)
    ensures c.state.strikeCount <= p.maxStrikes + 1
    ensures c.node == Executor ==> c.state.strikeCount < p.maxStrikes
    ensures Attempts(c.events) <= p.maxStrikes
    ensures Turns(c.events) <= p.maxStrikes * p.maxToolCalls
  {
    hide Next, Leads, Fresh, AttemptsWithin, FeedbackIsFresh, PromptsAreGiven;
    hide EscalationsCounted, LogConserved, DoneIsEarned;
    RunKeepsInvariant(p, c0, run, c);
    EventsAddUp(p, TaskPrompt(c.state), c.events);
    TurnsAddUp(p, TaskPrompt(c.state), c.events);
    MulLe(Attempts(c.events), p.maxStrikes, p.maxToolCalls);
  }

  // ----- feedback -----

  /**
   * At any point of a run, each attempt so far was told exactly what went
   * wrong just before it: the failed check's output, the truncated output of
   * a failed validation, or nothing at the start and after a failed commit.
   * It was told by its prompt: every call that it made to the model opens
   * with the task and that feedback.
   */
  lemma FeedbackIsNeverStale(p: Params, c0: Config, run: seq<Visit>, c: Config)
    requires p.maxStrikes >= 1 && Fresh(c0) && Leads(p, c0, run, c)
    ensures forall i | 0 <= i < |c.events| && c.events[i].Tried? ::
              c.events[i].attempt.feedback == Told(c.events, i)
    ensures forall i, k | 0 <= i < |c.events| && c.events[i].Tried? && 0 <= k < |c.events[i].attempt.shown| ::
              && c.events[i].attempt.shown[k] != []
              && c.events[i].attempt.shown[k][0] == UserText(Prompt(TaskPrompt(c.state), Told(c.events, i)))
    ensures forall i | 0 < i < |c.events| && c.events[i].Tried? && c.events[i - 1].Tried? ::
              c.events[i - 1].attempt.Check().exitCode != 0
    ensures forall i, k | 0 <= i < |c.events| && c.events[i].Tried? && 0 <= k < |c.events[i].attempt.shown| ::
              && c.events[i].attempt.shown[k] != []
              && Briefs(c.events[i].attempt.shown[k][0], "Ticket: " + c.state.Ticket().rendered, c.events, i)
  {
    hide Next, Leads, Fresh, AtNode, EscalationsCounted, LogConserved, DoneIsEarned, AttemptsWithin;
    hide ToldAfter, Conversed, Prompt, Outcome, Briefs;
    RunKeepsInvariant(p, c0, run, c);
    forall i | 0 <= i < |c.events| && c.events[i].Tried?
      ensures c.events[i].attempt.feedback == Told(c.events, i)
    {
      assert i > 0 ==> Last(c.events[..i]) == c.events[i - 1];
    }
    forall i, k | 0 <= i < |c.events| && c.events[i].Tried? && 0 <= k < |c.events[i].attempt.shown|
      ensures c.events[i].attempt.shown[k] != []
      ensures c.events[i].attempt.shown[k][0] == UserText(Prompt(TaskPrompt(c.state), Told(c.events, i)))
    {
      var a := c.events[i].attempt;
      EveryCallShowsThePrompt(a.shown, a.replies, p.maxToolCalls, Prompt(TaskPrompt(c.state), a.feedback));
    }
    forall i, k | 0 <= i < |c.events| && c.events[i].Tried? && 0 <= k < |c.events[i].attempt.shown|
      ensures Briefs(c.events[i].attempt.shown[k][0], "Ticket: " + c.state.Ticket().rendered, c.events, i)
    {
      ToldInFull("Ticket: " + c.state.Ticket().rendered, c.events, i);
    }
  }

  /**
   * The message that opens the attempt at position i: the task alone at the
   * start and after a failed commit; otherwise the task, a fixed line, and the
   * output that failed, that of the last check of the attempt before, or of
   * the validation, truncated.
   */
  ghost predicate Briefs(m: Message, task: string, events: seq<Event>, i: nat)
    requires i < |events|
  {
    m.UserText? &&
    if i == 0 then m.text == task
    else
      match events[i - 1]
      case Tried(a) =>
        && a.checks != [] && Last(a.checks).exitCode != 0
        && m.text == task + "\n\nThe previous attempt failed its checks:\n" + Last(a.checks).output
      case Rejected(output) =>
        m.text == task + "\n\nThe previous attempt failed its checks:\n" + Diagnosis.Truncate(output)
      case Uncommitted => m.text == task
  }

  lemma ToldInFull(task: string, events: seq<Event>, i: nat)
    requires i < |events|
    requires i > 0 && events[i - 1].Tried? ==> events[i - 1].attempt.Check().exitCode != 0
    ensures Briefs(UserText(Prompt(task, Told(events, i))), task, events, i)
  {
    hide Diagnosis.Truncate;
  }

  /** What an attempt at position i of the record should be told. */
  function Told(events: seq<Event>, i: nat): Option<string>
    requires i < |events|
  {
    if i == 0 then None else ToldAfter(events[i - 1])
  }

  // ----- done -----

  /**
   * In every state that says DONE, the repository has a HEAD and it is not the
   * HEAD that stood before the ticket's files were staged.
   */
  lemma DoneIsReal(p: Params, c0: Config, run: seq<Visit>, c: Config)
    requires p.maxStrikes >= 1 && Fresh(c0) && Leads(p, c0, run, c)
    ensures c.state.ticketStatus == Some(Done) ==>
              c.head.Some? && c.head != c.staged && (c.node == Advance || Advanced(c))
  {
    hide Next;
    RunKeepsInvariant(p, c0, run, c);
  }

  /**
   * A visit to oversight ends DONE exactly when files were declared, staging
   * and committing exited 0, and HEAD is there and has moved.
   */
  lemma DoneExactlyOnRealCommit(p: Params, c0: Config, run: seq<Visit>, c: Config, v: Visit)
    requires p.maxStrikes >= 1 && Fresh(c0) && Leads(p, c0, run, c)
    requires c.node == OversightGit && CanTake(p, c, v) && !p.mock
    ensures Next(p, c, v).state.ticketStatus == Some(Done) <==>
            && c.state.Files() != [] && v.g.add.exitCode == 0 && v.g.commit.exitCode == 0
            && v.headAfter.Some? && v.headAfter != v.headBefore
  {
    hide Next, ReportedHead, Leads, Fresh, MockReplies, GitLines, Successor;
    NotYetDone(p, c0, run, c);
    NextOversight(p, c, v);
  }

  lemma NotYetDone(p: Params, c0: Config, run: seq<Visit>, c: Config)
    requires p.maxStrikes >= 1 && Fresh(c0) && Leads(p, c0, run, c) && c.node == OversightGit
    ensures c.state.ticketStatus != Some(Done)
  {
    hide Next, Leads, StrikesOnRecord, EscalationsCounted, LogConserved, DoneIsEarned;
    RunKeepsInvariant(p, c0, run, c);
  }

  /** The mock client reports one HEAD for ever, so a mock run is never DONE. */
  lemma {:induction false} MockIsNeverDone(p: Params, c0: Config, run: seq<Visit>, c: Config)
    requires p.maxStrikes >= 1 && p.mock && Fresh(c0) && Leads(p, c0, run, c)
    ensures c.state.ticketStatus != Some(Done)
    decreases |run|
  {
    hide Next, ReportedHead, Fresh;
    if run == [] {
      FreshIsNotDone(c0);
    } else {
      var b := LastVisit(p, c0, run, c);
      MockIsNeverDone(p, c0, Init(run), b);
      OnlyOversightSaysDone(p, b, Last(run));
    }
  }

  lemma FreshIsNotDone(c: Config)
    requires Fresh(c)
    ensures c.state.ticketStatus != Some(Done)
  {
  }

  lemma OnlyOversightSaysDone(p: Params, c: Config, v: Visit)
    requires CanTake(p, c, v) && c.state.ticketStatus != Some(Done)
    ensures Next(p, c, v).state.ticketStatus == Some(Done) ==>
              v.AtOversight? && Judge(c.state, v.g).Committed? && !p.mock
  {
    hide Next, ReportedHead, AttemptsRun, Fresh;
    match v
    case AtExecutor(_, _) => NextExecutor(p, c, v);
    case AtValidator(_, _) => NextValidator(p, c, v);
    case AtOversight(_, _, _) => NextOversight(p, c, v);
    case AtEscalate => NextLate(p, c, v);
    case AtAdvance => NextLate(p, c, v);
    case _ => NextEarly(p, c, v);
  }

  // ----- the run's end -----

  /** How often a run has been through `escalate`. */
  function EscalateVisits(c: Config): nat {
    Visits(c.updates, Escalate)
  }

  /**
   * A finished run never reports success in silence. With declared files it
   * is DONE, or it is ESCALATED and went through `escalate` exactly once; a
   * final LOCAL_PASS means no files and a passed validation. Only without
   * files can a run end ESCALATED without that visit.
   */
  lemma NoSilentSuccess(p: Params, c0: Config, run: seq<Visit>, c: Config)
    requires p.maxStrikes >= 1 && Fresh(c0) && Leads(p, c0, run, c) && c.node == End
    ensures EscalateVisits(c) <= 1
    ensures c.state.escalationCount == c0.state.escalationCount + EscalateVisits(c)
    ensures c.state.Files() != [] ==>
              || (c.state.ticketStatus == Some(Done) && EscalateVisits(c) == 0)
              || (c.state.ticketStatus == Some(Escalated) && EscalateVisits(c) == 1)
    ensures c.state.ticketStatus == Some(LocalPass) ==> c.state.Files() == [] && c.state.lastValidationPassed
    ensures c.state.ticketStatus in {Some(Done), Some(Escalated), Some(LocalPass)}
    ensures c.state.runStatus == Some(HaltedEscalationBudget) <==>
            EscalateVisits(c) == 1 && c.state.escalationCount > p.maxEscalations
    ensures (c.state.runStatus == Some(HaltedEscalationBudget) <==> c.state.escalationCount > p.maxEscalations) <==>
            EscalateVisits(c) == 1 || c0.state.escalationCount <= p.maxEscalations
  {
    hide Next, Visits;
    RunKeepsInvariant(p, c0, run, c);
  }

  /**
   * Which finished runs have been through `escalate`: exactly those whose last
   * validation failed, and those whose ticket declares files and is not DONE.
   * Only a ticket that has used up its strikes gets there, but using them up
   * is not enough.
   */
  lemma EscalatesExactlyWhen(p: Params, c0: Config, run: seq<Visit>, c: Config)
    requires p.maxStrikes >= 1 && Fresh(c0) && Leads(p, c0, run, c)
    ensures c.node == End ==>
              (EscalateVisits(c) == 1 <==>
                 !c.state.lastValidationPassed || (c.state.Files() != [] && c.state.ticketStatus != Some(Done)))
    ensures c.node == End && EscalateVisits(c) == 1 ==> c.state.strikeCount >= p.maxStrikes
  {
    hide Next, Visits, StrikesOnRecord, LogConserved, DoneIsEarned, Leads, Fresh;
    RunKeepsInvariant(p, c0, run, c);
  }

  /**
   * A finished run has added one ledger entry, made of every line the run
   * appended, in order; earlier entries stay in front of it and the log is empty.
   */
  lemma LogBecomesOneEntry(p: Params, c0: Config, run: seq<Visit>, c: Config)
    requires p.maxStrikes >= 1 && Fresh(c0) && Leads(p, c0, run, c) && c.node == End
    ensures c.state.ledger ==
            c0.state.ledger + [DecisionSummary(if c.lines != [] then Join("; ", c.lines) else "no attempts", |c.lines|)]
    ensures c.state.attemptLog == []
  {
    hide Next, Join;
    RunKeepsInvariant(p, c0, run, c);
  }

  /** Before `advance` the log only grows: what a shorter run has logged is a prefix. */
  lemma LogOnlyGrows(p: Params, c0: Config, run: seq<Visit>, b: Config, v: Visit)
    requires p.maxStrikes >= 1 && Fresh(c0) && Leads(p, c0, run, b) && CanTake(p, b, v) && b.node != Advance
    ensures b.state.attemptLog <= Next(p, b, v).state.attemptLog
  {
    hide Next, AttemptsRun, Fresh, LinesOf, GitLines;
    match v
    case AtExecutor(_, _) => NextExecutor(p, b, v);
    case AtValidator(_, _) => NextValidator(p, b, v);
    case AtOversight(_, _, _) => NextOversight(p, b, v);
    case AtEscalate => NextLate(p, b, v);
    case _ => NextEarly(p, b, v);
  }

  // ----- termination -----

  /** Nodes still to come from the executor on: a failed cycle costs two strikes, or one under the mock. */
  function FromExecutor(p: Params, strikes: nat): nat {
    var left := if strikes < p.maxStrikes then p.maxStrikes - strikes else 0;
    3 + 3 * (if p.mock then left else (left + 1) / 2)
  }

  /** How many more nodes a run can visit. */
  function Rank(p: Params, c: Config): nat {
    var s := c.state;
    match c.node
    case End => 0
    case Dispatch => if DispatchRouter(s) == End then 1 else 1 + FromExecutor(p, s.strikeCount)
    case Architect => 2 + FromExecutor(p, s.strikeCount)
    case Analyzer => 3 + FromExecutor(p, s.strikeCount)
    case Advance => 2
    case Escalate => 3
    case Executor => FromExecutor(p, s.strikeCount)
    case OversightGit => 1 + FromExecutor(p, s.strikeCount + 1)
    case Validator => 2 + FromExecutor(p, s.strikeCount + 1)
  }

  function StepBound(p: Params): nat {
    6 + 3 * (if p.mock then p.maxStrikes else (p.maxStrikes + 1) / 2)
  }

  /** What a cycle costs: from s strikes, one that is spent on the mock, and two on a real client. */
  lemma CycleCost(p: Params, s: nat)
    ensures FromExecutor(p, s) >= 3
    ensures forall t: nat | s <= t :: FromExecutor(p, t) <= FromExecutor(p, s)
    ensures s < p.maxStrikes ==> FromExecutor(p, s) >= 3 + FromExecutor(p, if p.mock then s + 1 else s + 2)
  {
  }

  lemma RankDropsInCycle(p: Params, c0: Config, c: Config, v: Visit)
    requires p.maxStrikes >= 1 && Invariant(p, c0, c) && CanTake(p, c, v)
    requires v.AtExecutor? || v.AtValidator?
    ensures Rank(p, Next(p, c, v)) < Rank(p, c)
  {
    hide Next, StrikesOnRecord, EscalationsCounted, LogConserved, DoneIsEarned, FromExecutor;
    hide LinesOf, Diagnosis.Truncate, FeedbackFor;
    CycleCost(p, c.state.strikeCount);
    CycleCost(p, c.state.strikeCount + 1);
    if v.AtExecutor? {
      NextExecutor(p, c, v);
      assert !p.mock ==> v.attempts != [];
      CycleCost(p, if p.mock then c.state.strikeCount + 1 else c.state.strikeCount + 2);
    } else {
      NextValidator(p, c, v);
    }
  }

  lemma RankDropsAtOversight(p: Params, c: Config, v: Visit)
    requires v.AtOversight? && CanTake(p, c, v)
    ensures Rank(p, Next(p, c, v)) < Rank(p, c)
  {
    hide Next, FromExecutor, GitLines, MockReplies, ReportedHead, Judge;
    CycleCost(p, c.state.strikeCount + 1);
    NextOversight(p, c, v);
    NotAStrike(c.state, v.g);
  }

  lemma RankDrops(p: Params, c0: Config, c: Config, v: Visit)
    requires p.maxStrikes >= 1 && Invariant(p, c0, c) && CanTake(p, c, v)
    ensures Rank(p, Next(p, c, v)) < Rank(p, c)
  {
    hide Next, StrikesOnRecord, EscalationsCounted, LogConserved, DoneIsEarned, FromExecutor, Possible;
    match v
    case AtExecutor(_, _) => RankDropsInCycle(p, c0, c, v);
    case AtValidator(_, _) => RankDropsInCycle(p, c0, c, v);
    case AtOversight(_, _, _) => RankDropsAtOversight(p, c, v);
    case AtEscalate => NextLate(p, c, v);
    case AtAdvance => NextLate(p, c, v);
    case _ => NextEarly(p, c, v);
  }

  lemma NotAStrike(s: State, g: GitReplies)
    ensures Judge(s, g).IsStrike() || Judge(s, g).Committed? || s.Files() == []
  {
    hide ReportedHead;
  }

  lemma {:induction false} RunsAreShort(p: Params, c0: Config, run: seq<Visit>, c: Config)
    requires p.maxStrikes >= 1 && Fresh(c0) && Leads(p, c0, run, c)
    ensures |run| + Rank(p, c) <= StepBound(p) && |c.updates| == |run|
    decreases |run|
  {
    hide Next, Invariant, Rank;
    if run == [] {
      FreshRank(p, c0);
    } else {
      var b := LastVisit(p, c0, run, c);
      RunsAreShort(p, c0, Init(run), b);
      RunKeepsInvariant(p, c0, Init(run), b);
      RankDrops(p, c0, b, Last(run));
      OneMoreUpdate(p, b, Last(run));
    }
  }

  lemma FreshRank(p: Params, c: Config)
    requires Fresh(c)
    ensures Rank(p, c) == StepBound(p) && |c.updates| == 0
  {
  }

  lemma OneMoreUpdate(p: Params, c: Config, v: Visit)
    ensures |Next(p, c, v).updates| == |c.updates| + 1
  {
    hide DeltaOf, EventsOf, LinesOf, CommandsOf, Merge, Successor;
  }

  /** With the default of three strikes a run visits at most 12 nodes, or 15 on the mock client. */
  lemma EveryRunEnds(p: Params, c0: Config, run: seq<Visit>, c: Config)
    requires p.maxStrikes >= 1 && Fresh(c0) && Leads(p, c0, run, c)
    ensures |run| <= 6 + 3 * (if p.mock then p.maxStrikes else (p.maxStrikes + 1) / 2)
    ensures p.maxStrikes == 3 ==> |run| <= if p.mock then 15 else 12
    ensures c.node != End ==> exists v :: CanTake(p, c, v)
  {
    hide Leads, Fresh, Rank, CanTake;
    RunsAreShort(p, c0, run, c);
    if c.node != End {
      var v := SomeVisit(p, c);
    }
  }

  /** An attempt whose model answers at once. */
  function QuickAttempt(p: Params, s: State, feedback: Option<string>, text: string,
                        checks: seq<ActionResult>): Attempt
  {
    if p.maxToolCalls == 0 then Attempt(feedback, [], [], checks)
    else
      Attempt(feedback, [[UserText(Prompt(TaskPrompt(s), feedback))]], [Response([Text(text)], "end_turn")], checks)
  }

  lemma QuickConversation(prompt: string, text: string, cap: nat)
    ensures cap == 0 ==> Conversed([], [], cap, prompt)
    ensures cap > 0 ==> Conversed([[UserText(prompt)]], [Response([Text(text)], "end_turn")], cap, prompt)
  {
    hide Answers, TextOf;
    var first, reply := UserText(prompt), Response([Text(text)], "end_turn");
    if cap == 0 {
      assert WellFormed([first], [], prompt);
    } else {
      var messages := [first, Assistant(reply.content)];
      assert messages[..1] == [first];
      assert WellFormed(messages, [reply], prompt) && SawPrefixes([[first]], messages);
    }
  }

  lemma QuickIsConversed(p: Params, s: State, feedback: Option<string>, text: string, checks: seq<ActionResult>)
    ensures var a := QuickAttempt(p, s, feedback, text, checks);
            Conversed(a.shown, a.replies, p.maxToolCalls, Prompt(TaskPrompt(s), feedback))
  {
    hide Prompt, Conversed;
    QuickConversation(Prompt(TaskPrompt(s), feedback), text, p.maxToolCalls);
  }

  /** Short of the end, a run can always go on. */
  lemma SomeVisit(p: Params, c: Config) returns (v: Visit)
    requires c.node != End
    ensures CanTake(p, c, v)
  {
    hide Next, ReportedHead, AttemptsRun, QuickAttempt;
    var ok := ActionResult(0, "");
    match c.node
    case Analyzer => v := AtAnalyzer;
    case Architect => v := AtArchitect(NO_TICKET);
    case Dispatch => v := AtDispatch;
    case Executor =>
      if p.mock || c.state.strikeCount >= p.maxStrikes {
        NoneRun(p, c.state);
        v := AtExecutor([], None);
      } else {
        v := AtExecutor([QuickAttempt(p, c.state, c.state.diagnosis, "", [ok, ok])], None);
        QuickPasses(p, c.state);
      }
    case Validator => v := AtValidator(ok, None);
    case OversightGit =>
      var g := if p.mock then MockReplies(c.state) else GitReplies(SetupReplies(ok, ok, ok, ok), ok, ok, ok, ok);
      v := AtOversight(g, ReportedHead(g.headBefore), ReportedHead(g.headAfter));
    case Escalate => v := AtEscalate;
    case Advance => v := AtAdvance;
  }

  lemma NoneRun(p: Params, s: State)
    ensures s.strikeCount >= p.maxStrikes ==> AttemptsRun(p, s, [])
  {
  }

  lemma QuickPasses(p: Params, s: State)
    requires s.strikeCount < p.maxStrikes
    ensures var ok := ActionResult(0, "");
            var a := QuickAttempt(p, s, s.diagnosis, "", [ok, ok]);
            a.Passed() && AttemptsRun(p, s, [a])
  {
    hide Conversed, Prompt;
    var ok := ActionResult(0, "");
    var a := QuickAttempt(p, s, s.diagnosis, "", [ok, ok]);
    QuickIsConversed(p, s, s.diagnosis, "", [ok, ok]);
    assert [a][..0] == [];
    assert Sound(p, s, [a], 0);
  }

  /** After `advance`, `dispatch` always goes to the end: there is no second ticket. */
  lemma AdvanceThenEnd(p: Params, c0: Config, run: seq<Visit>, c: Config, v: Visit, w: Visit)
    requires p.maxStrikes >= 1 && Fresh(c0) && Leads(p, c0, run, c) && c.node == Advance
    requires CanTake(p, c, v) && CanTake(p, Next(p, c, v), w)
    ensures Next(p, c, v).node == Dispatch && Next(p, Next(p, c, v), w).node == End
  {
    hide Next, StrikesOnRecord, EscalationsCounted, LogConserved, DoneIsEarned;
    RunKeepsInvariant(p, c0, run, c);
    NextLate(p, c, v);
    NextEarly(p, Next(p, c, v), w);
  }
}
