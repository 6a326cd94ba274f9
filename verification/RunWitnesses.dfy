/** Runs that exist: the bounds of RunTheorems are reached, and every kind of ending occurs. */
module RunWitnesses {
  import opened PyText
  import opened AgentState
  import opened AgenticLoop
  import opened Sandbox
  import opened Nodes
  import opened Graph
  import opened RunTheorems
  import opened Runner
  import opened RunnerTheorems
  import opened StrikeEvents

  /** A fresh run of a ticket, after `count` escalations of earlier ones. */
  function Start(files: seq<string>, count: nat): Config {
    var ticket := Ticket("T", "", "title", "", files, [], "", "{}");
    var state := State(false, false, Some(ticket), [], [], None, false, 0, None, count, None);
    Config(Analyzer, state, None, None, [], [], [], [])
  }

  const OK := ActionResult(0, "")
  const FAILED := ActionResult(1, "")

  /** What oversight gets back when everything exits 0 but HEAD, and what HEAD is then. */
  function Replies(p: Params, s: State, headAfter: ActionResult): GitReplies {
    if p.mock then MockReplies(s) else GitReplies(SetupReplies(OK, OK, OK, OK), FAILED, OK, OK, headAfter)
  }

  /** One more visit. */
  lemma Take(p: Params, c0: Config, run: seq<Visit>, b: Config, v: Visit) returns (run': seq<Visit>, c: Config)
    requires Leads(p, c0, run, b) && CanTake(p, b, v)
    ensures c == Next(p, b, v) && Leads(p, c0, run', c) && |run'| == |run| + 1
  {
    hide CanTake, Next;
    OneVisitMore(p, c0, run, b, v);
    run', c := run + [v], Next(p, b, v);
  }

  lemma StayPut(p: Params, c0: Config)
    ensures Leads(p, c0, [], c0)
  {
  }

  lemma Opening(p: Params, files: seq<string>, count: nat) returns (run: seq<Visit>, c: Config)
    ensures Fresh(Start(files, count)) && Leads(p, Start(files, count), run, c) && |run| == 3
    ensures c.node == Executor && c.state == Start(files, count).state && c.events == []
  {
    hide Leads;
    var c0 := Start(files, count);
    StayPut(p, c0);
    run, c := Take(p, c0, [], c0, AtAnalyzer);
    run, c := Take(p, c0, run, c, AtArchitect(NO_TICKET));
    run, c := Take(p, c0, run, c, AtDispatch);
  }

  // ----- one way through each node -----

  /** An attempt that passes its checks; on the mock client there is none. */
  lemma PassExecutor(p: Params, c0: Config, run: seq<Visit>, b: Config) returns (run': seq<Visit>, c: Config)
    requires Leads(p, c0, run, b) && b.node == Executor && b.state.strikeCount < p.maxStrikes
    ensures Leads(p, c0, run', c) && |run'| == |run| + 1 && c.node == Validator
    ensures c.state.strikeCount == b.state.strikeCount + if p.mock then 0 else 1
    ensures c.state.ticketStatus == Some(LocalPass) && c.state.activeTicket == b.state.activeTicket
    ensures c.state.runStatus == b.state.runStatus
  {
    hide Leads, Next, AttemptsRun, QuickAttempt;
    var v := AtExecutor(if p.mock then [] else [QuickAttempt(p, b.state, b.state.diagnosis, "", [OK, OK])], None);
    QuickPasses(p, b.state);
    run', c := Take(p, c0, run, b, v);
    NextExecutor(p, b, v);
  }

  lemma PassValidator(p: Params, c0: Config, run: seq<Visit>, b: Config) returns (run': seq<Visit>, c: Config)
    requires Leads(p, c0, run, b) && b.node == Validator
    ensures Leads(p, c0, run', c) && |run'| == |run| + 1 && c.node == OversightGit
    ensures c.state.strikeCount == b.state.strikeCount && c.state.lastValidationPassed
    ensures c.state.ticketStatus == b.state.ticketStatus && c.state.activeTicket == b.state.activeTicket
    ensures c.state.escalationCount == b.state.escalationCount && c.state.runStatus == b.state.runStatus
    ensures c.events == b.events
  {
    hide Leads, Next;
    var v := AtValidator(OK, None);
    run', c := Take(p, c0, run, b, v);
    NextValidator(p, b, v);
  }

  /** The git commands exit 0 but HEAD does not move: one strike. */
  lemma HeadStays(p: Params, c0: Config, run: seq<Visit>, b: Config) returns (run': seq<Visit>, c: Config)
    requires Leads(p, c0, run, b) && b.node == OversightGit && b.state.Files() != []
    requires b.state.ticketStatus == Some(LocalPass)
    ensures Leads(p, c0, run', c) && |run'| == |run| + 1
    ensures c.state.strikeCount == b.state.strikeCount + 1
    ensures c.node == if c.state.strikeCount >= p.maxStrikes then Escalate else Executor
    ensures c.state.ticketStatus == Some(LocalPass) && c.state.activeTicket == b.state.activeTicket
  {
    hide Leads, Next, GitLines, Strip, CommitMessage;
    var g := Replies(p, b.state, FAILED);
    var v := AtOversight(g, ReportedHead(g.headBefore), ReportedHead(g.headAfter));
    assert Judge(b.state, g) == HeadUnmoved;
    run', c := Take(p, c0, run, b, v);
    NextOversight(p, b, v);
  }

  lemma Closing(p: Params, c0: Config, run: seq<Visit>, b: Config) returns (run': seq<Visit>, c: Config)
    requires Leads(p, c0, run, b) && b.node == Advance && DispatchRouter(b.state) == End
    ensures Leads(p, c0, run', c) && |run'| == |run| + 2 && c.node == End
    ensures c.state == b.state.(attemptLog := [], ledger := c.state.ledger) && c.events == b.events
  {
    hide Leads, Next;
    var m;
    run', m := Take(p, c0, run, b, AtAdvance);
    NextLate(p, b, AtAdvance);
    run', c := Take(p, c0, run', m, AtDispatch);
    NextEarly(p, m, AtDispatch);
  }

  lemma GiveUp(p: Params, c0: Config, run: seq<Visit>, b: Config) returns (run': seq<Visit>, c: Config)
    requires Leads(p, c0, run, b) && b.node == Escalate
    ensures Leads(p, c0, run', c) && |run'| == |run| + 3 && c.node == End
    ensures c.state.strikeCount == b.state.strikeCount && c.state.ticketStatus == Some(Escalated)
  {
    hide Leads, Next;
    var m;
    run', m := Take(p, c0, run, b, AtEscalate);
    NextLate(p, b, AtEscalate);
    run', c := Closing(p, c0, run', m);
  }

  // ----- the longest run -----

  /** From the executor on: cycles that each end in a commit that never happened, until the strikes are used up. */
  lemma {:induction false} Spin(p: Params, c0: Config, run: seq<Visit>, b: Config) returns (run': seq<Visit>, c: Config)
    requires Leads(p, c0, run, b) && b.node == Executor && b.state.Files() != [] && b.state.strikeCount < p.maxStrikes
    ensures Leads(p, c0, run', c) && c.node == End
    ensures |run'| == |run| + FromExecutor(p, b.state.strikeCount)
    ensures c.state.strikeCount == LastStrike(p, b.state.strikeCount)
    decreases p.maxStrikes - b.state.strikeCount
  {
    hide Leads;
    run', c := PassExecutor(p, c0, run, b);
    run', c := PassValidator(p, c0, run', c);
    run', c := HeadStays(p, c0, run', c);
    if c.node == Executor {
      run', c := Spin(p, c0, run', c);
    } else {
      run', c := GiveUp(p, c0, run', c);
    }
  }

  /** Where the counter stops when cycles of two strikes, or one on the mock, start from n. */
  function LastStrike(p: Params, n: nat): nat {
    p.maxStrikes + if !p.mock && n < p.maxStrikes && (p.maxStrikes - n) % 2 == 1 then 1 else 0
  }

  /**
   * The bounds are exact: for every limit some run visits as many nodes as
   * EveryRunEnds allows, and with an odd limit its counter passes the limit.
   */
  lemma BoundsAreReached(p: Params) returns (c0: Config, run: seq<Visit>, c: Config)
    requires p.maxStrikes >= 1
    ensures Fresh(c0) && Leads(p, c0, run, c) && c.node == End && |run| == StepBound(p)
    ensures c.state.strikeCount == p.maxStrikes + if !p.mock && p.maxStrikes % 2 == 1 then 1 else 0
  {
    hide Leads;
    c0 := Start(["f"], 0);
    run, c := Opening(p, ["f"], 0);
    run, c := Spin(p, c0, run, c);
  }

  // ----- every ending -----

  /**
   * DONE can be reached: one attempt, a passed validation and a commit that
   * moves HEAD. Such a run is not halted, even if earlier tickets have left
   * the escalation count above its cap.
   */
  lemma DoneIsReached(p: Params, count: nat) returns (c0: Config, run: seq<Visit>, c: Config)
    requires p.maxStrikes >= 1 && !p.mock
    ensures Fresh(c0) && Leads(p, c0, run, c) && c.node == End && c.state.ticketStatus == Some(Done)
    ensures c.state.escalationCount == count && c.state.runStatus == None
  {
    hide Leads, Next, EscalateVisits;
    c0 := Start(["f"], count);
    run, c := Opening(p, ["f"], count);
    run, c := PassExecutor(p, c0, run, c);
    run, c := PassValidator(p, c0, run, c);
    run, c := HeadMoves(p, c0, run, c);
    run, c := Closing(p, c0, run, c);
    NoSilentSuccess(p, c0, run, c);
  }

  lemma HeadMoves(p: Params, c0: Config, run: seq<Visit>, b: Config) returns (run': seq<Visit>, c: Config)
    requires Leads(p, c0, run, b) && b.node == OversightGit && b.state.Files() != [] && !p.mock
    requires b.state.lastValidationPassed
    ensures Leads(p, c0, run', c) && c.node == Advance && c.state.lastValidationPassed
    ensures c.state.ticketStatus == Some(Done) && c.state.activeTicket == b.state.activeTicket
    ensures c.state.runStatus == b.state.runStatus && c.events == b.events
  {
    hide Leads, Next, GitLines;
    var g := Replies(p, b.state, OK);
    var v := AtOversight(g, None, ReportedHead(OK));
    assert Judge(b.state, g) == Committed;
    run', c := Take(p, c0, run, b, v);
    NextOversight(p, b, v);
  }

  /** n failing attempts, each told what the one before it got. */
  function Failures(p: Params, s: State, n: nat): (attempts: seq<Attempt>)
    ensures |attempts| == n
    ensures forall i | 0 <= i < n :: attempts[i] == Failure(p, s, if i == 0 then s.diagnosis else Some(""))
  {
    seq(n, i => Failure(p, s, if i == 0 then s.diagnosis else Some("")))
  }

  function Failure(p: Params, s: State, feedback: Option<string>): (a: Attempt)
    ensures a.Check() == FAILED && !a.Passed() && a.feedback == feedback
  {
    QuickAttempt(p, s, feedback, "", [FAILED])
  }

  lemma FailuresRun(p: Params, s: State)
    requires s.strikeCount < p.maxStrikes
    ensures AttemptsRun(p, s, Failures(p, s, p.maxStrikes - s.strikeCount))
  {
    hide Conversed, Prompt, Failure;
    var attempts := Failures(p, s, p.maxStrikes - s.strikeCount);
    forall i | 0 <= i < |attempts| ensures Sound(p, s, attempts, i) && !attempts[i].Passed() {
      assert i > 0 ==> Last(attempts[..i]) == attempts[i - 1];
      FailureIsSound(p, s, if i == 0 then s.diagnosis else Some(""));
    }
  }

  lemma FailureIsSound(p: Params, s: State, feedback: Option<string>)
    ensures var a := Failure(p, s, feedback);
            ChecksInOrder(a.checks) && Conversed(a.shown, a.replies, p.maxToolCalls, Prompt(TaskPrompt(s), feedback))
  {
    hide Conversed, Prompt;
    QuickIsConversed(p, s, feedback, "", [FAILED]);
  }

  /** Every strike of the budget is an attempt that failed its checks. */
  ghost predicate AllAttemptsFailed(p: Params, events: seq<Event>) {
    |events| == p.maxStrikes && forall i | 0 <= i < |events| :: events[i].Tried? && !events[i].attempt.Passed()
  }

  lemma AllAreFailures(p: Params, s: State)
    ensures AllAttemptsFailed(p, [] + AllTried(Failures(p, s, p.maxStrikes)))
    ensures forall n: nat :: |Failures(p, s, n)| == n
    ensures forall n: nat | n > 0 :: !Last(Failures(p, s, n)).Passed()
  {
    hide Failure;
  }

  /** All attempts fail, and the run goes on to the validator all the same. */
  lemma ExhaustExecutor(p: Params, c0: Config, run: seq<Visit>, b: Config) returns (run': seq<Visit>, c: Config)
    requires Leads(p, c0, run, b) && b.node == Executor && b.state.strikeCount < p.maxStrikes && !p.mock
    ensures Leads(p, c0, run', c) && c.node == Validator
    ensures c.state.ticketStatus == Some(Escalated) && c.state.activeTicket == b.state.activeTicket
    ensures c.state.escalationCount == b.state.escalationCount && c.state.runStatus == b.state.runStatus
    ensures b.events == [] && b.state.strikeCount == 0 ==> AllAttemptsFailed(p, c.events)
  {
    hide Leads, Next, AttemptsRun, Failures, AllAttemptsFailed;
    AllAreFailures(p, b.state);
    var v := AtExecutor(Failures(p, b.state, p.maxStrikes - b.state.strikeCount), None);
    FailuresRun(p, b.state);
    run', c := Take(p, c0, run, b, v);
    NextExecutor(p, b, v);
  }

  lemma NothingToCommit(p: Params, c0: Config, run: seq<Visit>, b: Config) returns (run': seq<Visit>, c: Config)
    requires Leads(p, c0, run, b) && b.node == OversightGit && b.state.Files() == [] && !p.mock
    requires b.state.lastValidationPassed
    ensures Leads(p, c0, run', c) && c.node == Advance && c.state.lastValidationPassed
    ensures c.state.ticketStatus == b.state.ticketStatus && c.state.escalationCount == b.state.escalationCount
    ensures c.events == b.events
  {
    hide Leads, Next, GitLines;
    var g := Replies(p, b.state, OK);
    var v := AtOversight(g, None, ReportedHead(OK));
    assert Judge(b.state, g) == NoFiles;
    run', c := Take(p, c0, run, b, v);
    NextOversight(p, b, v);
  }

  /**
   * A ticket that declares no files can fail in every attempt, pass its
   * validation all the same, and end ESCALATED without a visit to `escalate`.
   */
  lemma EscalatedWithoutEscalate(p: Params) returns (c0: Config, run: seq<Visit>, c: Config)
    requires p.maxStrikes >= 1 && !p.mock
    ensures Fresh(c0) && Leads(p, c0, run, c) && c.node == End && c.state.ticketStatus == Some(Escalated)
    ensures AllAttemptsFailed(p, c.events) && EscalateVisits(c) == 0 && c.state.escalationCount == 0
  {
    hide Leads, Next, EscalateVisits, AllAttemptsFailed;
    c0 := Start([], 0);
    run, c := Opening(p, [], 0);
    run, c := ExhaustExecutor(p, c0, run, c);
    run, c := PassValidator(p, c0, run, c);
    run, c := NothingToCommit(p, c0, run, c);
    run, c := Closing(p, c0, run, c);
    EscalatesExactlyWhen(p, c0, run, c);
    NoSilentSuccess(p, c0, run, c);
  }

  /** And a ticket that declares files can fail in every attempt, pass its validation, commit, and end DONE. */
  lemma ExhaustedYetDone(p: Params) returns (c0: Config, run: seq<Visit>, c: Config)
    requires p.maxStrikes >= 1 && !p.mock
    ensures Fresh(c0) && Leads(p, c0, run, c) && c.node == End && c.state.ticketStatus == Some(Done)
    ensures AllAttemptsFailed(p, c.events) && EscalateVisits(c) == 0 && c.state.escalationCount == 0
  {
    hide Leads, Next, EscalateVisits, AllAttemptsFailed;
    c0 := Start(["f"], 0);
    run, c := Opening(p, ["f"], 0);
    run, c := ExhaustExecutor(p, c0, run, c);
    run, c := PassValidator(p, c0, run, c);
    run, c := HeadMoves(p, c0, run, c);
    run, c := Closing(p, c0, run, c);
    EscalatesExactlyWhen(p, c0, run, c);
    NoSilentSuccess(p, c0, run, c);
  }

  // ----- a strike that is reported twice -----

  /** A summary whose logged form mentions a fast check, although it does not itself. */
  const SHIFTED := "\U{0F}ast_check"

  /** So there is a run whose attempt events report its only strike twice. */
  lemma AStrikeIsReportedTwice(p: Params) returns (c0: Config, run: seq<Visit>, c: Config, a: Attempt)
    requires p.maxStrikes >= 1 && p.maxToolCalls >= 1 && !p.mock
    ensures Fresh(c0) && Leads(p, c0, run, c)
    ensures c.events == [Tried(a)] && !Contains(a.Summary(), FAST_CHECK)
    ensures StrikesIn(AttemptsAmong(Derived(c.updates))) == [1, 1]
  {
    hide Leads, Next, Derived, AttemptsAmong, StrikesIn, Contains, Repr;
    c0 := Start([], 0);
    run, c := Opening(p, [], 0);
    a := QuickAttempt(p, c.state, c.state.diagnosis, SHIFTED, [OK, OK]);
    var v := AtExecutor([a], None);
    ShiftedPasses(p, c.state);
    NextExecutor(p, c, v);
    run, c := Take(p, c0, run, c, v);
    EscapeSpellsFastCheck(p.printable);
    ShiftedIsNamedTwice(p, a);
    assert c.events == [Tried(a)];
    AttemptEventsNameTheStrikes(p, c0, run, c);
  }

  lemma ShiftedPasses(p: Params, s: State)
    requires s.strikeCount < p.maxStrikes && p.maxToolCalls >= 1
    ensures var a := QuickAttempt(p, s, s.diagnosis, SHIFTED, [OK, OK]);
            a.Passed() && a.Summary() == SHIFTED && AttemptsRun(p, s, [a])
  {
    hide Conversed, Prompt;
    var a := QuickAttempt(p, s, s.diagnosis, SHIFTED, [OK, OK]);
    QuickIsConversed(p, s, s.diagnosis, SHIFTED, [OK, OK]);
    assert [a][..0] == [] && TextOf([Text(SHIFTED)]) == SHIFTED + TextOf([]);
    assert Sound(p, s, [a], 0);
  }

  lemma ShiftedIsNamedTwice(p: Params, a: Attempt)
    requires IsNoisy(p, a.Summary())
    ensures Named(p, [Tried(a)]) == [1, 1]
  {
    hide IsNoisy;
    assert Init([Tried(a)]) == [] && Named(p, []) == [];
  }
}
