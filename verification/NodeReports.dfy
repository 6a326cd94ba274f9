/** What each node of syndicate/nodes.py returns and writes, word for word. */
module NodeReports {
  import opened PyText
  import opened AgentState
  import opened AgenticLoop
  import opened Sandbox
  import opened Nodes
  import ShellWords

  // ----- executor -----

  /** LOCAL_PASS and no diagnosis after checks that passed, ESCALATED otherwise; the counter counts the attempts. */
  lemma ExecutorReports(p: Params, s: State, attempts: seq<Attempt>)
    ensures var d := ExecutorDelta(p, s, attempts);
            var passed := attempts != [] && Outcome(Last(attempts).checks).exitCode == 0;
            && d.attemptLog.Some? && s.attemptLog <= d.attemptLog.value
            && d == Delta(None, None, d.attemptLog, None, Some(if passed then LocalPass else Escalated), None,
                          Some(s.strikeCount + |attempts|), if passed then Some(None) else None, None, None)
  {
    hide AttemptLines, Outcome, Report;
  }

  /** Two lines an attempt, under its strike's number: what the model said, and how the checks ended. */
  lemma {:induction false} AttemptsAreLogged(p: Params, s: State, attempts: seq<Attempt>, i: nat)
    requires i < |attempts|
    ensures ExecutorDelta(p, s, attempts).attemptLog.Some?
    ensures var log, n := ExecutorDelta(p, s, attempts).attemptLog.value, |s.attemptLog|;
            var strike, check := Decimal(s.strikeCount + i + 1), Outcome(attempts[i].checks);
            && |log| == n + 2 * |attempts|
            && log[n + 2 * i] == "strike=" + strike + " summary=" + Repr(Report(attempts[i].replies), p.printable)
            && log[n + 2 * i + 1] ==
                 "strike=" + strike + " fast_check exit_code=" + DecimalInt(check.exitCode)
                 + " output=" + Repr(check.output, p.printable)
  {
    hide AttemptLines, Outcome, Report, SummaryLine, CheckLine;
    AttemptLinesAt(p, s.strikeCount, attempts, i);
    LinesSpelled(p, s.strikeCount + i + 1, Report(attempts[i].replies), Outcome(attempts[i].checks));
  }

  lemma {:induction false} AttemptLinesAt(p: Params, strikes: nat, attempts: seq<Attempt>, i: nat)
    requires i < |attempts|
    ensures var lines := AttemptLines(p, strikes, attempts);
            && |lines| == 2 * |attempts|
            && lines[2 * i] == SummaryLine(p, strikes + i + 1, Report(attempts[i].replies))
            && lines[2 * i + 1] == CheckLine(p, strikes + i + 1, Outcome(attempts[i].checks))
    decreases |attempts|
  {
    hide Outcome, Report, SummaryLine, CheckLine;
    if |attempts| > 1 {
      AttemptLinesAt(p, strikes, Init(attempts), if i < |attempts| - 1 then i else 0);
    }
  }

  lemma LinesSpelled(p: Params, n: nat, summary: string, check: ActionResult)
    ensures SummaryLine(p, n, summary) == "strike=" + Decimal(n) + " summary=" + Repr(summary, p.printable)
    ensures CheckLine(p, n, check) ==
            "strike=" + Decimal(n) + " fast_check exit_code=" + DecimalInt(check.exitCode)
            + " output=" + Repr(check.output, p.printable)
  {
    hide Decimal, DecimalInt, Repr;
  }

  lemma MockActionLine(p: Params, action: string)
    requires IsPlainText(action)
    ensures ActionLine(p, action, ActionResult(0, "[mock] " + action)) ==
            "action='" + action + "' exit_code=0 output='[mock] " + action + "'"
  {
    hide Repr;
    PlainRepr(action, p.printable);
    PlainRepr("[mock] " + action, p.printable);
    assert DecimalInt(0) == "0";
    QuotedParts(action);
  }

  lemma QuotedParts(action: string)
    ensures "action=" + ("'" + action + "'") + " exit_code=" + "0" + " output=" + ("'" + ("[mock] " + action) + "'") ==
            "action='" + action + "' exit_code=0 output='[mock] " + action + "'"
  {
  }

  /** The mock executor runs its two actions, logs what the mock echoes, and passes without a strike. */
  lemma MockReports(p: Params, s: State)
    ensures var first, second := "git status", "python -m pytest";
            MockExecutorDelta(p, s) == Delta(
              None, None,
              Some(s.attemptLog + [
                "action='" + first + "' exit_code=0 output='[mock] " + first + "'",
                "action='" + second + "' exit_code=0 output='[mock] " + second + "'"
              ]),
              None, Some(LocalPass), None, None, None, None, None)
  {
    hide ActionLine;
    var first, second := "git status", "python -m pytest";
    MockActionLine(p, first);
    MockActionLine(p, second);
    assert MockLines(p) == [
      ActionLine(p, first, ActionResult(0, "[mock] " + first)),
      ActionLine(p, second, ActionResult(0, "[mock] " + second))
    ];
  }

  // ----- oversight -----

  /** The message names the ticket and its intent, and then the whole log of the run so far. */
  lemma MessageOfTicket(s: State, t: Ticket)
    requires t == if s.activeTicket.Some? then s.activeTicket.value else NO_TICKET
    ensures CommitMessage(s) ==
            "[" + (if t.id != "" then t.id else if t.ticketId != "" then t.ticketId else "TICKET") + "] "
            + (if t.intent != "" then t.intent else if t.title != "" then t.title else "update") + "\n\n"
            + (if s.attemptLog == [] then "no attempts" else Join("; ", s.attemptLog))
  {
    hide Join;
  }

  /** Every visit asks for a repository, makes one if there is none, and sets the bot's identity. */
  lemma SetupIsSpelled(r: SetupReplies)
    ensures SetupSteps(r) ==
            [Exchange("git rev-parse --is-inside-work-tree", r.isRepo)]
            + (if r.isRepo.exitCode != 0 then [Exchange("git init", r.init)] else [])
            + [Exchange("git config user.name syndicate-bot", r.name),
               Exchange("git config user.email syndicate-bot@example.invalid", r.email)]
  {
  }

  lemma OutcomeOfGit(s: State, g: GitReplies)
    ensures Judge(s, g).NoFiles? <==> s.Files() == []
    ensures Judge(s, g).AddFailed? <==> s.Files() != [] && g.add.exitCode != 0
    ensures Judge(s, g).CommitFailed? <==> s.Files() != [] && g.add.exitCode == 0 && g.commit.exitCode != 0
    ensures Judge(s, g).HeadUnmoved? || Judge(s, g).Committed? <==>
            s.Files() != [] && g.add.exitCode == 0 && g.commit.exitCode == 0
    ensures Judge(s, g).Committed? ==>
              g.headAfter.exitCode == 0 && (g.headBefore.exitCode == 0 ==>
                Strip(g.headAfter.output) != Strip(g.headBefore.output))
  {
    hide Strip;
  }

  /** What a visit adds to the commands of its setup: none, three, or four. */
  lemma StepsAreSpelled(s: State, g: GitReplies)
    ensures var ask, add := Exchange("git rev-parse HEAD", g.headBefore), ShellWords.AddCommand(s.Files());
            var commit := ShellWords.CommitCommand(CommitMessage(s));
            var again := Exchange("git rev-parse HEAD", g.headAfter);
            GitSteps(s, g) == SetupSteps(g.setup) +
              if s.Files() == [] then []
              else if g.add.exitCode != 0 then [ask, Exchange(add, g.add)]
              else if g.commit.exitCode != 0 then [ask, Exchange(add, g.add), Exchange(commit, g.commit)]
              else [ask, Exchange(add, g.add), Exchange(commit, g.commit), again]
  {
    hide SetupSteps, ShellWords.AddCommand, ShellWords.CommitCommand, CommitMessage, ReportedHead;
  }

  /** One log line a command, and one more for a strike; a strike and DONE exclude each other. */
  lemma OversightReports(p: Params, s: State, g: GitReplies)
    ensures var d, steps, verdict := OversightDelta(p, s, g), GitSteps(s, g), Judge(s, g);
            var strike := verdict.AddFailed? || verdict.CommitFailed? || verdict.HeadUnmoved?;
            && d.attemptLog.Some?
            && d == Delta(None, None, d.attemptLog, None, if verdict.Committed? then Some(Done) else None, None,
                          if strike then Some(s.strikeCount + 1) else None, None, None, None)
            && |d.attemptLog.value| == |s.attemptLog| + |steps| + (if strike then 1 else 0)
            && s.attemptLog <= d.attemptLog.value
            && (forall i | 0 <= i < |steps| ::
                  d.attemptLog.value[|s.attemptLog| + i] ==
                  "$ " + steps[i].command + "\nexit=" + DecimalInt(steps[i].reply.exitCode) + "\n"
                  + steps[i].reply.output)
            && (strike ==> Last(d.attemptLog.value) == "oversight_git: " + Reason(p, s, g))
  {
    hide GitSteps, Reason, Judge, DecimalInt;
  }

  lemma ReasonsAreSpelled(p: Params, s: State, g: GitReplies)
    ensures Judge(s, g).AddFailed? ==> Reason(p, s, g) == "git add failed; nothing staged, no commit attempted"
    ensures Judge(s, g).CommitFailed? ==>
              Reason(p, s, g) ==
              "git commit failed (exit=" + DecimalInt(g.commit.exitCode) + "); declared files_changed="
              + ReprList(s.Files(), p.printable) + " produced no commit"
    ensures Judge(s, g).HeadUnmoved? ==>
              Reason(p, s, g) ==
              "git commit exited 0 but HEAD did not move (before="
              + ReprOption(if g.headBefore.exitCode == 0 then Some(Strip(g.headBefore.output)) else None, p.printable)
              + ", after="
              + ReprOption(if g.headAfter.exitCode == 0 then Some(Strip(g.headAfter.output)) else None, p.printable)
              + "); declared files_changed=" + ReprList(s.Files(), p.printable) + " showed no changes"
  {
    hide Judge, DecimalInt, ReprList, ReprOption, Strip;
  }

  // ----- the nodes and routers that only compute -----

  /** A ticket without an issue is the one that was given, or the stub; with an issue it is the planned one. */
  lemma TicketIsGivenOrPlanned(s: State, planned: Ticket)
    ensures !s.hasIssue ==>
              AnalyzerDelta(s) == NO_CHANGE.(activeTicket := Some(
                if s.activeTicket.Some? then s.activeTicket.value
                else Ticket("TICKET-1", "", "stub ticket", "", [], [], "",
                            "{'id': 'TICKET-1', 'title': 'stub ticket'}")))
    ensures s.hasIssue ==> AnalyzerDelta(s) == NO_CHANGE.(hasAnalysis := Some(true))
    ensures ArchitectDelta(s, planned) ==
            if s.hasIssue && s.hasAnalysis then NO_CHANGE.(activeTicket := Some(planned)) else NO_CHANGE
  {
  }

  lemma EscalateReports(p: Params, s: State)
    ensures var count := s.escalationCount + 1;
            EscalateDelta(p, s) == Delta(
              None, None, None, None, Some(Escalated), None, None, None, Some(count),
              if count > p.maxEscalations then Some(HaltedEscalationBudget) else None)
  {
  }

  /** Each router by what sends a run each way. */
  lemma RoutersDecide(p: Params, s: State)
    ensures DispatchRouter(s) in {End, Executor}
    ensures DispatchRouter(s) == Executor <==>
            !s.lastValidationPassed && s.ticketStatus != Some(Escalated) && s.runStatus != Some(HaltedEscalationBudget)
    ensures ValidatorRouter(p, s) in {OversightGit, Escalate, Executor}
    ensures ValidatorRouter(p, s) == OversightGit <==> s.lastValidationPassed
    ensures ValidatorRouter(p, s) == Executor <==> !s.lastValidationPassed && s.strikeCount < p.maxStrikes
    ensures OversightGitRouter(p, s) in {Advance, Escalate, Executor}
    ensures OversightGitRouter(p, s) == Advance <==> s.ticketStatus == Some(Done) || s.Files() == []
    ensures OversightGitRouter(p, s) == Executor <==>
            s.ticketStatus != Some(Done) && s.Files() != [] && s.strikeCount < p.maxStrikes
  {
  }
}
