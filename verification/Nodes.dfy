/**
 * The nodes of syndicate/nodes.py. A node that talks to the sandbox is a
 * method; what it returns is tied to a function of the state and of what came
 * back. A node or router that only computes is a function.
 */
module Nodes {
  import opened PyText
  import opened AgentState
  import opened AgenticLoop
  import opened Sandbox
  import Diagnosis
  import ShellWords

  // ----- analyzer and architect -----

  const STUB_TICKET :=
    Ticket("TICKET-1", "", "stub ticket", "", [], [], "", "{'id': 'TICKET-1', 'title': 'stub ticket'}")

  function AnalyzerDelta(s: State): Delta {
    if !s.hasIssue then
      NO_CHANGE.(activeTicket := Some(if s.activeTicket.Some? then s.activeTicket.value else STUB_TICKET))
    else NO_CHANGE.(hasAnalysis := Some(true))
  }

  /** The planned ticket is the model's; it is used only when there is an issue and its analysis. */
  function ArchitectDelta(s: State, planned: Ticket): Delta {
    if !s.hasIssue || !s.hasAnalysis then NO_CHANGE else NO_CHANGE.(activeTicket := Some(planned))
  }

  // ----- executor -----

  const DUMMY_ACTIONS: seq<string> := ["git status", "python -m pytest"]
  const FAST_CHECK_ACTIONS: seq<string> := ["git status", "python -m pytest"]
  const FAST_CHECKS_PASSED := ActionResult(0, "fast checks passed")

  /**
   * One strike: what it was told of the strike before it, what the model was
   * shown and what it replied, call by call, and what the fast checks that
   * ran came back with.
   */
  datatype Attempt = Attempt(
    feedback: Option<string>,
    shown: seq<seq<Message>>,
    replies: seq<Response>,
    checks: seq<ActionResult>)
  {
    function Summary(): string { Report(replies) }
    function Check(): ActionResult { Outcome(checks) }
    predicate Passed() { Check().exitCode == 0 }
  }

  /** The first failing check, or the note that all passed. */
  function Outcome(checks: seq<ActionResult>): ActionResult {
    if checks != [] && Last(checks).exitCode != 0 then Last(checks) else FAST_CHECKS_PASSED
  }

  /** Checks run in order, and only the last one that runs can fail, unless all have run. */
  predicate ChecksInOrder(checks: seq<ActionResult>) {
    && 1 <= |checks| <= |FAST_CHECK_ACTIONS|
    && (forall i | 0 <= i < |checks| - 1 :: checks[i].exitCode == 0)
    && (|checks| < |FAST_CHECK_ACTIONS| ==> Last(checks).exitCode != 0)
  }

  function TaskPrompt(s: State): string {
    "Ticket: " + s.Ticket().rendered
  }

  function SummaryLine(p: Params, strike: nat, summary: string): string {
    "strike=" + Decimal(strike) + " summary=" + Repr(summary, p.printable)
  }

  function CheckLine(p: Params, strike: nat, check: ActionResult): string {
    "strike=" + Decimal(strike) + " fast_check exit_code=" + DecimalInt(check.exitCode)
    + " output=" + Repr(check.output, p.printable)
  }

  function ActionLine(p: Params, action: string, r: ActionResult): string {
    "action=" + Repr(action, p.printable) + " exit_code=" + DecimalInt(r.exitCode)
    + " output=" + Repr(r.output, p.printable)
  }

  /** The log lines of attempts that follow `strikes` earlier strikes. */
  function AttemptLines(p: Params, strikes: nat, attempts: seq<Attempt>): seq<string> {
    if attempts == [] then []
    else
      var a := Last(attempts);
      var n := strikes + |attempts|;
      AttemptLines(p, strikes, Init(attempts)) + [SummaryLine(p, n, a.Summary()), CheckLine(p, n, a.Check())]
  }

  function MockLines(p: Params): seq<string> {
    seq(|DUMMY_ACTIONS|, i requires 0 <= i < |DUMMY_ACTIONS| =>
      ActionLine(p, DUMMY_ACTIONS[i], MockReply(DUMMY_ACTIONS[i])))
  }

  /** What the attempt after `earlier` is told: the last failing check, or what the validator left. */
  function FeedbackFor(s: State, earlier: seq<Attempt>): Option<string> {
    if earlier == [] then s.diagnosis else Some(Last(earlier).Check().output)
  }

  /** The i-th attempt of a visit: a whole conversation about the ticket and its feedback, and then the checks. */
  ghost predicate Sound(p: Params, s: State, attempts: seq<Attempt>, i: nat)
    requires i < |attempts|
  {
    var a := attempts[i];
    && a.feedback == FeedbackFor(s, attempts[..i])
    && Conversed(a.shown, a.replies, p.maxToolCalls, Prompt(TaskPrompt(s), a.feedback))
    && ChecksInOrder(a.checks)
  }

  /** The attempts that one visit to the executor can make from state s. */
  ghost predicate AttemptsRun(p: Params, s: State, attempts: seq<Attempt>) {
    var n := |attempts|;
    && (forall i | 0 <= i < n :: Sound(p, s, attempts, i))
    && (forall i | 0 <= i < n - 1 :: !attempts[i].Passed())
    && (n > 0 ==> s.strikeCount + n <= p.maxStrikes)
    && (n == 0 || !Last(attempts).Passed() ==> s.strikeCount + n >= p.maxStrikes)
  }

  function ExecutorDelta(p: Params, s: State, attempts: seq<Attempt>): Delta {
    var log := s.attemptLog + AttemptLines(p, s.strikeCount, attempts);
    var strikes := s.strikeCount + |attempts|;
    if attempts != [] && Last(attempts).Passed() then
      NO_CHANGE.(attemptLog := Some(log), ticketStatus := Some(LocalPass), strikeCount := Some(strikes),
                 diagnosis := Some(None))
    else NO_CHANGE.(attemptLog := Some(log), ticketStatus := Some(Escalated), strikeCount := Some(strikes))
  }

  function MockExecutorDelta(p: Params, s: State): Delta {
    NO_CHANGE.(attemptLog := Some(s.attemptLog + MockLines(p)), ticketStatus := Some(LocalPass))
  }

  /** What a client answers to the first n checks when k commands have been issued. */
  function CheckReplies(client: RuntimeClient, k: nat, n: nat): (checks: seq<ActionResult>)
    requires n <= |FAST_CHECK_ACTIONS|
    ensures |checks| == n && forall j | 0 <= j < n :: checks[j] == client.Reply(k + j, FAST_CHECK_ACTIONS[j])
  {
    seq(n, j requires 0 <= j < n => client.Reply(k + j, FAST_CHECK_ACTIONS[j]))
  }

  /**
   * What checks in order are: git's status and, if that exits 0, the test
   * suite; the first to fail is the outcome, and otherwise a note.
   */
  lemma ChecksAreStatusAndTests(client: RuntimeClient, k: nat, checks: seq<ActionResult>)
    requires ChecksInOrder(checks) && checks == CheckReplies(client, k, |checks|)
    ensures 1 <= |checks| <= 2 && FAST_CHECK_ACTIONS[..|checks|] == ["git status", "python -m pytest"][..|checks|]
    ensures checks[0] == client.Reply(k, "git status")
    ensures |checks| == 2 <==> checks[0].exitCode == 0
    ensures |checks| == 2 ==> checks[1] == client.Reply(k + 1, "python -m pytest")
    ensures Outcome(checks) ==
            if checks[0].exitCode != 0 then checks[0]
            else if checks[1].exitCode != 0 then checks[1]
            else ActionResult(0, "fast checks passed")
  {
  }

  /** The first failing check, or the note that all passed; later checks are not run. */
  method RunFastChecks(client: RuntimeClient) returns (r: ActionResult, ghost checks: seq<ActionResult>)
    modifies client
    ensures ChecksInOrder(checks) && r == Outcome(checks)
    ensures checks == CheckReplies(client, |old(client.issued)|, |checks|)
    ensures client.issued == old(client.issued) + FAST_CHECK_ACTIONS[..|checks|]
  {
    checks := [];
    for i := 0 to |FAST_CHECK_ACTIONS|
      invariant |checks| == i && checks == CheckReplies(client, |old(client.issued)|, i)
      invariant client.issued == old(client.issued) + FAST_CHECK_ACTIONS[..i]
      invariant forall j | 0 <= j < i :: checks[j].exitCode == 0
    {
      r := client.RunAction(FAST_CHECK_ACTIONS[i]);
      checks := checks + [r];
      assert FAST_CHECK_ACTIONS[..i + 1] == FAST_CHECK_ACTIONS[..i] + [FAST_CHECK_ACTIONS[i]];
      if r.exitCode != 0 {
        return;
      }
    }
    r := FAST_CHECKS_PASSED;
  }

  method MockExecutorNode(p: Params, s: State, client: RuntimeClient) returns (delta: Delta)
    requires client.isMock
    modifies client
    ensures delta == MockExecutorDelta(p, s)
    ensures client.issued == old(client.issued) + DUMMY_ACTIONS
    ensures client.issued == old(client.issued) + ["git status", "python -m pytest"]
  {
    hide ActionLine;
    var log := s.attemptLog;
    for i := 0 to |DUMMY_ACTIONS|
      invariant log == s.attemptLog + MockLines(p)[..i]
      invariant client.issued == old(client.issued) + DUMMY_ACTIONS[..i]
    {
      var r := client.RunAction(DUMMY_ACTIONS[i]);
      log := log + [ActionLine(p, DUMMY_ACTIONS[i], r)];
    }
    assert MockLines(p)[..|DUMMY_ACTIONS|] == MockLines(p);
    assert DUMMY_ACTIONS[..|DUMMY_ACTIONS|] == DUMMY_ACTIONS;
    return NO_CHANGE.(attemptLog := Some(log), ticketStatus := Some(LocalPass));
  }

  /** The commands that the fast checks of some attempts issue. */
  function Asked(attempts: seq<Attempt>): seq<string> {
    if attempts == [] then []
    else
      var n := |Last(attempts).checks|;
      Asked(Init(attempts)) + if n <= |FAST_CHECK_ACTIONS| then FAST_CHECK_ACTIONS[..n] else FAST_CHECK_ACTIONS
  }

  /**
   * The i-th attempt is what really happened: the model behind its strike
   * gave those replies to what it was shown, and its checks are the client's
   * answers from the command on that the attempts before it left.
   */
  ghost predicate Genuine(p: Params, s: State, client: RuntimeClient, brain: nat -> (seq<Message> -> Response), k: nat,
                          attempts: seq<Attempt>, i: nat)
    requires i < |attempts|
  {
    var a := attempts[i];
    && RepliesTo(brain(s.strikeCount + i + 1), a.shown, a.replies)
    && |a.checks| <= |FAST_CHECK_ACTIONS|
    && a.checks == CheckReplies(client, k + |Asked(attempts[..i])|, |a.checks|)
  }

  /** The attempts made so far, while all of them have failed. */
  ghost predicate AllFailed(p: Params, s: State, client: RuntimeClient, brain: nat -> (seq<Message> -> Response),
                            k: nat, attempts: seq<Attempt>)
  {
    forall i | 0 <= i < |attempts| ::
      !attempts[i].Passed() && Sound(p, s, attempts, i) && Genuine(p, s, client, brain, k, attempts, i)
  }

  lemma EarlierIsSound(p: Params, s: State, before: seq<Attempt>, a: Attempt, i: nat)
    requires i < |before| && Sound(p, s, before, i)
    ensures Sound(p, s, before + [a], i)
  {
    hide FeedbackFor, Conversed, ChecksInOrder;
    assert (before + [a])[..i] == before[..i] && (before + [a])[i] == before[i];
  }

  lemma EarlierIsGenuine(p: Params, s: State, client: RuntimeClient, brain: nat -> (seq<Message> -> Response), k: nat,
                         before: seq<Attempt>, a: Attempt, i: nat)
    requires i < |before| && Genuine(p, s, client, brain, k, before, i)
    ensures Genuine(p, s, client, brain, k, before + [a], i)
  {
    hide RepliesTo, CheckReplies, Asked;
    assert (before + [a])[..i] == before[..i] && (before + [a])[i] == before[i];
  }

  lemma AddAttempt(p: Params, s: State, client: RuntimeClient, brain: nat -> (seq<Message> -> Response), k: nat,
                   before: seq<Attempt>, a: Attempt)
    requires AllFailed(p, s, client, brain, k, before)
    requires Sound(p, s, before + [a], |before|)
    requires Genuine(p, s, client, brain, k, before + [a], |before|)
    ensures !a.Passed() ==> AllFailed(p, s, client, brain, k, before + [a])
    ensures a.Passed() && s.strikeCount + |before| < p.maxStrikes ==> AttemptsRun(p, s, before + [a])
    ensures forall i | 0 <= i < |before| + 1 :: Genuine(p, s, client, brain, k, before + [a], i)
  {
    hide Sound, Genuine, Outcome;
    var all := before + [a];
    assert Last(all) == a && forall i | 0 <= i < |before| :: all[i] == before[i];
    forall i | 0 <= i < |all| ensures Sound(p, s, all, i) && Genuine(p, s, client, brain, k, all, i) {
      if i < |before| {
        EarlierIsSound(p, s, before, a, i);
        EarlierIsGenuine(p, s, client, brain, k, before, a, i);
      }
    }
  }

  lemma AttemptLinesSnoc(p: Params, s: State, before: seq<Attempt>, a: Attempt)
    ensures var n := s.strikeCount + |before| + 1;
            s.attemptLog + AttemptLines(p, s.strikeCount, before + [a]) ==
            s.attemptLog + AttemptLines(p, s.strikeCount, before)
            + [SummaryLine(p, n, a.Summary())] + [CheckLine(p, n, a.Check())]
  {
    hide SummaryLine, CheckLine;
    assert Init(before + [a]) == before;
  }

  lemma AskedSnoc(before: seq<Attempt>, a: Attempt)
    requires ChecksInOrder(a.checks)
    ensures |a.checks| <= |FAST_CHECK_ACTIONS|
    ensures Asked(before + [a]) == Asked(before) + FAST_CHECK_ACTIONS[..|a.checks|]
  {
    assert Init(before + [a]) == before;
  }

  lemma NoAttempts(p: Params, s: State, client: RuntimeClient, brain: nat -> (seq<Message> -> Response), k: nat)
    ensures s.attemptLog + AttemptLines(p, s.strikeCount, []) == s.attemptLog && Asked([]) == []
    ensures AllFailed(p, s, client, brain, k, [])
  {
  }

  /** The attempt that has just been made joins those before it. */
  lemma NewAttempt(p: Params, s: State, client: RuntimeClient, brain: nat -> (seq<Message> -> Response), k: nat,
                   before: seq<Attempt>, a: Attempt)
    requires a.feedback == FeedbackFor(s, before)
    requires Conversed(a.shown, a.replies, p.maxToolCalls, Prompt(TaskPrompt(s), a.feedback))
    requires ChecksInOrder(a.checks)
    requires RepliesTo(brain(s.strikeCount + |before| + 1), a.shown, a.replies)
    requires a.checks == CheckReplies(client, k + |Asked(before)|, |a.checks|)
    ensures Sound(p, s, before + [a], |before|) && Genuine(p, s, client, brain, k, before + [a], |before|)
  {
    hide FeedbackFor, Conversed, RepliesTo, CheckReplies, Asked;
    assert (before + [a])[..|before|] == before;
  }

  /** All that one more attempt changes. */
  lemma OneMoreAttempt(p: Params, s: State, client: RuntimeClient, brain: nat -> (seq<Message> -> Response), k: nat,
                       before: seq<Attempt>, a: Attempt)
    requires AllFailed(p, s, client, brain, k, before)
    requires a.feedback == FeedbackFor(s, before)
    requires Conversed(a.shown, a.replies, p.maxToolCalls, Prompt(TaskPrompt(s), a.feedback))
    requires ChecksInOrder(a.checks) && RepliesTo(brain(s.strikeCount + |before| + 1), a.shown, a.replies)
    requires a.checks == CheckReplies(client, k + |Asked(before)|, |a.checks|)
    ensures var all, n := before + [a], s.strikeCount + |before| + 1;
            && |a.checks| <= |FAST_CHECK_ACTIONS|
            && Asked(all) == Asked(before) + FAST_CHECK_ACTIONS[..|a.checks|]
            && s.attemptLog + AttemptLines(p, s.strikeCount, all) ==
                 s.attemptLog + AttemptLines(p, s.strikeCount, before)
                 + [SummaryLine(p, n, a.Summary())] + [CheckLine(p, n, a.Check())]
            && FeedbackFor(s, all) == Some(a.Check().output)
            && (!a.Passed() ==> AllFailed(p, s, client, brain, k, all))
            && (a.Passed() && n <= p.maxStrikes ==> AttemptsRun(p, s, all))
            && (forall i | 0 <= i < |all| :: Genuine(p, s, client, brain, k, all, i))
  {
    hide Conversed, ChecksInOrder, CheckReplies, RepliesTo, Asked, AttemptLines, SummaryLine, CheckLine, Prompt;
    hide AllFailed, Genuine, Sound, FeedbackFor, AttemptsRun, Outcome, Report;
    NewAttempt(p, s, client, brain, k, before, a);
    AddAttempt(p, s, client, brain, k, before, a);
    AttemptLinesSnoc(p, s, before, a);
    AskedSnoc(before, a);
    NextFeedback(s, before, a);
  }

  method ExecutorNode(p: Params, s: State, client: RuntimeClient, tools: Tools,
                      brain: nat -> (seq<Message> -> Response))
    returns (delta: Delta, ghost attempts: seq<Attempt>)
    requires client.isMock == p.mock
    modifies client, tools
    ensures p.mock ==> delta == MockExecutorDelta(p, s) && client.issued == old(client.issued) + DUMMY_ACTIONS
    ensures !p.mock ==> AttemptsRun(p, s, attempts) && delta == ExecutorDelta(p, s, attempts)
    ensures !p.mock ==> client.issued == old(client.issued) + Asked(attempts)
    ensures !p.mock ==>
              forall i | 0 <= i < |attempts| :: Genuine(p, s, client, brain, |old(client.issued)|, attempts, i)
  {
    hide SummaryLine, CheckLine, AttemptLines, MockLines, MockExecutorDelta, MockReply, Prompt, Report, Outcome;
    hide Conversed, ChecksInOrder, CheckReplies, RepliesTo, StopsInTime, WellFormed, SawPrefixes, Asked;
    hide AllFailed, Genuine, Sound, FeedbackFor, AttemptsRun, AllAnswered, TextOf;
    attempts := [];
    if client.isMock {
      delta := MockExecutorNode(p, s, client);
      return;
    }
    ghost var k := |client.issued|;
    var log := s.attemptLog;
    var feedback := s.diagnosis;
    var strike := s.strikeCount;
    var task := TaskPrompt(s);

    NoAttempts(p, s, client, brain, k);
    FirstFeedback(s);

    while strike < p.maxStrikes
      invariant strike == s.strikeCount + |attempts|
      invariant attempts != [] ==> strike <= p.maxStrikes
      invariant log == s.attemptLog + AttemptLines(p, s.strikeCount, attempts)
      invariant feedback == FeedbackFor(s, attempts)
      invariant client.issued == old(client.issued) + Asked(attempts)
      invariant AllFailed(p, s, client, brain, k, attempts)
    {
      strike := strike + 1;
      var model := new Model(brain(strike));
      var summary, _, replies := RunAgenticLoop(model, tools, task, feedback, p.maxToolCalls);
      log := log + [SummaryLine(p, strike, summary)];

      ghost var before := attempts;
      var check, checks := RunFastChecks(client);
      log := log + [CheckLine(p, strike, check)];

      ghost var attempt := Attempt(feedback, model.callsSeen, replies, checks);
      attempts := before + [attempt];
      OneMoreAttempt(p, s, client, brain, k, before, attempt);
      assert Last(attempts) == attempt;

      if check.exitCode == 0 {
        return NO_CHANGE.(attemptLog := Some(log), ticketStatus := Some(LocalPass), strikeCount := Some(strike),
                          diagnosis := Some(None)), attempts;
      }
      feedback := Some(check.output);
    }

    AllFailedRun(p, s, client, brain, k, attempts);
    return NO_CHANGE.(attemptLog := Some(log), ticketStatus := Some(Escalated), strikeCount := Some(strike)), attempts;
  }

  lemma FirstFeedback(s: State)
    ensures FeedbackFor(s, []) == s.diagnosis
  {
  }

  lemma NextFeedback(s: State, before: seq<Attempt>, a: Attempt)
    ensures FeedbackFor(s, before + [a]) == Some(a.Check().output)
  {
  }

  lemma AllFailedRun(p: Params, s: State, client: RuntimeClient, brain: nat -> (seq<Message> -> Response), k: nat,
                     attempts: seq<Attempt>)
    requires AllFailed(p, s, client, brain, k, attempts)
    requires attempts != [] ==> s.strikeCount + |attempts| <= p.maxStrikes
    requires s.strikeCount + |attempts| >= p.maxStrikes
    ensures AttemptsRun(p, s, attempts) && (attempts != [] ==> !Last(attempts).Passed())
    ensures forall i | 0 <= i < |attempts| :: Genuine(p, s, client, brain, k, attempts, i)
  {
    hide Genuine, Sound;
  }

  // ----- validator -----

  function VerificationCommand(s: State): string {
    Or(s.Ticket().verificationCommand, "python3 -m pytest -q")
  }

  lemma CommandOfTicket(s: State)
    ensures VerificationCommand(s) ==
            if s.activeTicket.Some? && s.activeTicket.value.verificationCommand != ""
            then s.activeTicket.value.verificationCommand else "python3 -m pytest -q"
  {
  }

  function ValidatorDelta(p: Params, s: State, result: ActionResult): Delta {
    if p.mock then NO_CHANGE.(lastValidationPassed := Some(true))
    else if result.exitCode == 0 then NO_CHANGE.(lastValidationPassed := Some(true), diagnosis := Some(None))
    else
      NO_CHANGE.(lastValidationPassed := Some(false), diagnosis := Some(Some(Diagnosis.Truncate(result.output))),
                 strikeCount := Some(s.strikeCount + 1))
  }

  method ValidatorNode(p: Params, s: State, client: RuntimeClient) returns (delta: Delta)
    requires client.isMock == p.mock
    modifies client
    ensures delta == ValidatorDelta(p, s, client.Reply(|old(client.issued)|, VerificationCommand(s)))
    ensures client.issued == old(client.issued) + if p.mock then [] else [VerificationCommand(s)]
    ensures var command := if s.activeTicket.Some? && s.activeTicket.value.verificationCommand != ""
                           then s.activeTicket.value.verificationCommand else "python3 -m pytest -q";
            var result := client.Reply(|old(client.issued)|, command);
            var passed := p.mock || result.exitCode == 0;
            && client.issued == old(client.issued) + (if p.mock then [] else [command])
            && delta == Delta(None, None, None, None, None, Some(passed),
                           if passed then None else Some(s.strikeCount + 1),
                           if p.mock then None
                           else if passed then Some(None) else Some(Some(Diagnosis.Truncate(result.output))),
                           None, None)
  {
    CommandOfTicket(s);
    if client.isMock {
      return NO_CHANGE.(lastValidationPassed := Some(true));
    }
    var result := client.RunAction(VerificationCommand(s));
    if result.exitCode == 0 {
      return NO_CHANGE.(lastValidationPassed := Some(true), diagnosis := Some(None));
    }
    return NO_CHANGE.(
        lastValidationPassed := Some(false),
        diagnosis := Some(Some(Diagnosis.Truncate(result.output))),
        strikeCount := Some(s.strikeCount + 1));
  }

  // ----- escalate and advance -----

  function EscalateDelta(p: Params, s: State): Delta {
    var count := s.escalationCount + 1;
    var d := NO_CHANGE.(ticketStatus := Some(Escalated), escalationCount := Some(count));
    if count > p.maxEscalations then d.(runStatus := Some(HaltedEscalationBudget)) else d
  }

  function Distil(log: seq<string>): DecisionSummary {
    DecisionSummary(if log != [] then Join("; ", log) else "no attempts", |log|)
  }

  function AdvanceDelta(s: State): Delta {
    NO_CHANGE.(ledger := Some(s.ledger + [Distil(s.attemptLog)]), attemptLog := Some([]))
  }

  // ----- oversight -----

  const IS_REPO := "git rev-parse --is-inside-work-tree"
  const INIT := "git init"
  const SET_NAME := "git config user.name syndicate-bot"
  const SET_EMAIL := "git config user.email syndicate-bot@example.invalid"

  /** What the visit's commands got back; a command that is not issued leaves its field unused. */
  datatype GitReplies = GitReplies(
    setup: SetupReplies, headBefore: ActionResult, add: ActionResult, commit: ActionResult, headAfter: ActionResult)

  datatype SetupReplies = SetupReplies(
    isRepo: ActionResult, init: ActionResult, name: ActionResult, email: ActionResult)

  /** A command and what it got back. */
  datatype Exchange = Exchange(command: string, reply: ActionResult)

  datatype Verdict = NoFiles | AddFailed | CommitFailed | HeadUnmoved | Committed
  {
    predicate IsStrike() { AddFailed? || CommitFailed? || HeadUnmoved? }
    predicate AskedTwice() { HeadUnmoved? || Committed? }  // for HEAD, before staging and after committing
  }

  function Judge(s: State, g: GitReplies): Verdict {
    if s.Files() == [] then NoFiles
    else if g.add.exitCode != 0 then AddFailed
    else if g.commit.exitCode != 0 then CommitFailed
    else if ReportedHead(g.headAfter).None? || ReportedHead(g.headAfter) == ReportedHead(g.headBefore) then HeadUnmoved
    else Committed
  }

  function CommitMessage(s: State): string {
    var t := s.Ticket();
    var body := if s.attemptLog != [] then Join("; ", s.attemptLog) else "no attempts";
    "[" + Or(t.id, Or(t.ticketId, "TICKET")) + "] " + Or(t.intent, Or(t.title, "update")) + "\n\n" + body
  }

  function SetupSteps(r: SetupReplies): seq<Exchange> {
    var asked := [Exchange(IS_REPO, r.isRepo)];
    var ready := if r.isRepo.exitCode != 0 then asked + [Exchange(INIT, r.init)] else asked;
    ready + [Exchange(SET_NAME, r.name)] + [Exchange(SET_EMAIL, r.email)]
  }

  /** The commands that a visit issues, in order, with what each got back. */
  function GitSteps(s: State, g: GitReplies): seq<Exchange> {
    var setup := SetupSteps(g.setup);
    var staged := setup + [Exchange(REV_PARSE_HEAD, g.headBefore)]
      + [Exchange(ShellWords.AddCommand(s.Files()), g.add)];
    var committed := staged + [Exchange(ShellWords.CommitCommand(CommitMessage(s)), g.commit)];
    match Judge(s, g)
    case NoFiles => setup
    case AddFailed => staged
    case CommitFailed => committed
    case _ => committed + [Exchange(REV_PARSE_HEAD, g.headAfter)]
  }

  function Commands(steps: seq<Exchange>): seq<string> {
    seq(|steps|, i requires 0 <= i < |steps| => steps[i].command)
  }

  function GitLine(command: string, r: ActionResult): string {
    "$ " + command + "\nexit=" + DecimalInt(r.exitCode) + "\n" + r.output
  }

  function StepLines(steps: seq<Exchange>): seq<string> {
    seq(|steps|, i requires 0 <= i < |steps| => GitLine(steps[i].command, steps[i].reply))
  }

  const ADD_FAILED := "git add failed; nothing staged, no commit attempted"

  function CommitFailedReason(p: Params, files: seq<string>, exitCode: int): string {
    "git commit failed (exit=" + DecimalInt(exitCode) + "); declared files_changed="
    + ReprList(files, p.printable) + " produced no commit"
  }

  function HeadUnmovedReason(p: Params, files: seq<string>, before: Option<string>, after: Option<string>): string {
    "git commit exited 0 but HEAD did not move (before=" + ReprOption(before, p.printable)
    + ", after=" + ReprOption(after, p.printable) + "); declared files_changed="
    + ReprList(files, p.printable) + " showed no changes"
  }

  function Reason(p: Params, s: State, g: GitReplies): string {
    match Judge(s, g)
    case AddFailed => ADD_FAILED
    case CommitFailed => CommitFailedReason(p, s.Files(), g.commit.exitCode)
    case HeadUnmoved => HeadUnmovedReason(p, s.Files(), ReportedHead(g.headBefore), ReportedHead(g.headAfter))
    case _ => ""
  }

  function GitLines(p: Params, s: State, g: GitReplies): seq<string> {
    var log := StepLines(GitSteps(s, g));
    if Judge(s, g).IsStrike() then log + ["oversight_git: " + Reason(p, s, g)] else log
  }

  function OversightDelta(p: Params, s: State, g: GitReplies): Delta {
    var d := NO_CHANGE.(attemptLog := Some(s.attemptLog + GitLines(p, s, g)));
    match Judge(s, g)
    case NoFiles => d
    case Committed => d.(ticketStatus := Some(Done))
    case _ => d.(strikeCount := Some(s.strikeCount + 1))
  }

  /** Where in the client's command count the visit asks for HEAD the first time. */
  function HeadQuery(client: RuntimeClient, k: nat): nat {
    if client.Reply(k, IS_REPO).exitCode != 0 then k + 4 else k + 3
  }

  function SetupFrom(client: RuntimeClient, k: nat): SetupReplies {
    var h := HeadQuery(client, k);
    SetupReplies(
      client.Reply(k, IS_REPO), client.Reply(k + 1, INIT),
      client.Reply(h - 2, SET_NAME), client.Reply(h - 1, SET_EMAIL))
  }

  /** The replies of a visit that starts when k commands have been issued. */
  function RepliesFrom(client: RuntimeClient, s: State, k: nat): GitReplies {
    var h := HeadQuery(client, k);
    GitReplies(
      SetupFrom(client, k),
      client.Reply(h, REV_PARSE_HEAD),
      client.Reply(h + 1, ShellWords.AddCommand(s.Files())),
      client.Reply(h + 2, ShellWords.CommitCommand(CommitMessage(s))),
      client.Reply(h + 3, REV_PARSE_HEAD))
  }

  /** One command; `done` follows what has been issued since the client stood at `start`, and what it got back. */
  method Git(client: RuntimeClient, gitLog: seq<string>, command: string,
             ghost start: seq<string>, ghost done: seq<Exchange>)
    returns (r: ActionResult, gitLog': seq<string>, ghost done': seq<Exchange>)
    requires client.issued == start + Commands(done) && gitLog == StepLines(done)
    modifies client
    ensures client.issued == start + Commands(done') && gitLog' == StepLines(done')
    ensures r == client.Reply(|start| + |done|, command)
    ensures done' == done + [Exchange(command, r)]
  {
    r := client.RunAction(command);
    gitLog' := gitLog + [GitLine(command, r)];
    done' := done + [Exchange(command, r)];
    assert Commands(done') == Commands(done) + [command];
    assert start + Commands(done) + [command] == start + Commands(done');
  }

  /** The part of a visit that every ticket gets: a repository and a local identity. */
  method PrepareRepository(client: RuntimeClient)
    returns (gitLog: seq<string>, ghost done: seq<Exchange>)
    modifies client
    ensures client.issued == old(client.issued) + Commands(done) && gitLog == StepLines(done)
    ensures |old(client.issued)| + |done| == HeadQuery(client, |old(client.issued)|)
    ensures done == SetupSteps(SetupFrom(client, |old(client.issued)|))
  {
    ghost var start := client.issued;
    var r;
    assert client.issued == start + Commands([]);
    r, gitLog, done := Git(client, [], IS_REPO, start, []);
    if r.exitCode != 0 {
      r, gitLog, done := Git(client, gitLog, INIT, start, done);
    }
    r, gitLog, done := Git(client, gitLog, SET_NAME, start, done);
    r, gitLog, done := Git(client, gitLog, SET_EMAIL, start, done);
  }

  method OversightGitNode(p: Params, s: State, client: RuntimeClient) returns (delta: Delta)
    modifies client
    ensures var g := RepliesFrom(client, s, |old(client.issued)|);
            && delta == OversightDelta(p, s, g)
            && client.issued == old(client.issued) + Commands(GitSteps(s, g))
  {
    hide GitLine, StepLines, Commands, SetupSteps, SetupFrom;
    hide CommitMessage, ShellWords.AddCommand, ShellWords.CommitCommand;
    hide ReportedHead, CommitFailedReason, HeadUnmovedReason;
    ghost var start := client.issued;
    ghost var g := RepliesFrom(client, s, |start|);
    ghost var done;
    var log, r;
    log, done := PrepareRepository(client);

    var files := s.Files();
    if files == [] {
      return NO_CHANGE.(attemptLog := Some(s.attemptLog + log));
    }

    r, log, done := Git(client, log, REV_PARSE_HEAD, start, done);
    var headBefore := ReportedHead(r);
    r, log, done := Git(client, log, ShellWords.AddCommand(files), start, done);
    if r.exitCode != 0 {
      delta := OversightStrike(s, log, ADD_FAILED);
      return;
    }

    r, log, done := Git(client, log, ShellWords.CommitCommand(CommitMessage(s)), start, done);
    if r.exitCode != 0 {
      delta := OversightStrike(s, log, CommitFailedReason(p, files, r.exitCode));
      return;
    }

    r, log, done := Git(client, log, REV_PARSE_HEAD, start, done);
    var headAfter := ReportedHead(r);
    if headAfter.None? || headAfter == headBefore {
      delta := OversightStrike(s, log, HeadUnmovedReason(p, files, headBefore, headAfter));
      return;
    }

    return NO_CHANGE.(attemptLog := Some(s.attemptLog + log), ticketStatus := Some(Done));
  }

  method OversightStrike(s: State, log: seq<string>, reason: string) returns (delta: Delta)
    ensures delta == NO_CHANGE.(
              attemptLog := Some(s.attemptLog + (log + ["oversight_git: " + reason])),
              strikeCount := Some(s.strikeCount + 1))
  {
    var gitLog := log + ["oversight_git: " + reason];
    return NO_CHANGE.(attemptLog := Some(s.attemptLog + gitLog), strikeCount := Some(s.strikeCount + 1));
  }

  // ----- routers -----

  datatype Node =
    | Analyzer | Architect | Dispatch | Executor | Validator | OversightGit | Escalate | Advance
    | End

  function DispatchRouter(s: State): Node {
    if s.runStatus == Some(HaltedEscalationBudget) then End
    else if s.ticketStatus == Some(Escalated) then End
    else if s.lastValidationPassed then End
    else Executor
  }

  function ValidatorRouter(p: Params, s: State): Node {
    if s.lastValidationPassed then OversightGit
    else if s.strikeCount >= p.maxStrikes then Escalate
    else Executor
  }

  function OversightGitRouter(p: Params, s: State): Node {
    if s.ticketStatus == Some(Done) then Advance
    else if s.Files() == [] then Advance
    else if s.strikeCount >= p.maxStrikes then Escalate
    else Executor
  }
}
