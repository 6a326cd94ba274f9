/**
 * What a run of the transition system stands for: its labels are what the
 * sandbox and the model really did, and so the client's own record shows which
 * validations were made and which commit a DONE ticket got.
 */
module Recording {
  import opened PyText
  import opened AgentState
  import opened AgenticLoop
  import opened Sandbox
  import opened Nodes
  import opened NodeReports
  import opened Graph
  import opened RunTheorems
  import ShellWords

  // ----- labels and what they stand for -----

  /**
   * A visit's label is what the client answered from its k-th command on, what
   * the models behind the strikes replied, and the HEAD of each moment.
   */
  ghost predicate Observed(p: Params, s: State, client: RuntimeClient, brain: nat -> (seq<Message> -> Response),
                           k: nat, v: Visit)
  {
    match v
    case AtExecutor(attempts, left) =>
      && left == client.head(k + |CommandsOf(p, s, v)|)
      && (!p.mock ==> forall i | 0 <= i < |attempts| :: Genuine(p, s, client, brain, k, attempts, i))
    case AtValidator(result, left) =>
      && left == client.head(k + |CommandsOf(p, s, v)|)
      && result == client.Reply(k, VerificationCommand(s))
    case AtOversight(g, before, after) =>
      && g == RepliesFrom(client, s, k)
      && before == client.head(HeadQuery(client, k))
      && after == client.head(if Judge(s, g).AskedTwice() then HeadQuery(client, k) + 3 else k + |CommandsOf(p, s, v)|)
    case _ => true
  }

  /** So it is for every visit of a run that starts at the client's k-th command. */
  ghost predicate Recorded(p: Params, client: RuntimeClient, brain: nat -> (seq<Message> -> Response), k: nat,
                           c0: Config, run: seq<Visit>)
    decreases |run|
  {
    run == [] ||
    exists b ::
      && Leads(p, c0, Init(run), b) && Recorded(p, client, brain, k, c0, Init(run))
      && Observed(p, b.state, client, brain, k + |b.commands|, Last(run))
  }

  lemma StepRecorded(p: Params, client: RuntimeClient, brain: nat -> (seq<Message> -> Response), k: nat,
                     c0: Config, run: seq<Visit>, b: Config, v: Visit)
    requires Leads(p, c0, run, b) && Recorded(p, client, brain, k, c0, run)
    requires Observed(p, b.state, client, brain, k + |b.commands|, v)
    ensures Recorded(p, client, brain, k, c0, run + [v])
  {
    hide Observed, Leads;
    assert Init(run + [v]) == run && Last(run + [v]) == v;
  }

  /** The two ways to look at a run's last visit agree, because a run determines where it leads. */
  lemma LastStep(p: Params, client: RuntimeClient, brain: nat -> (seq<Message> -> Response), k: nat,
                 c0: Config, run: seq<Visit>, c: Config) returns (b: Config)
    requires run != [] && Leads(p, c0, run, c) && Recorded(p, client, brain, k, c0, run)
    ensures Leads(p, c0, Init(run), b) && CanTake(p, b, Last(run)) && c == Next(p, b, Last(run))
    ensures Recorded(p, client, brain, k, c0, Init(run))
    ensures Observed(p, b.state, client, brain, k + |b.commands|, Last(run))
  {
    hide Next, CanTake, Observed;
    b := LastVisit(p, c0, run, c);
    var d :|
      && Leads(p, c0, Init(run), d) && Recorded(p, client, brain, k, c0, Init(run))
      && Observed(p, d.state, client, brain, k + |d.commands|, Last(run));
    LeadsToOne(p, c0, Init(run), b, d);
  }

  lemma {:induction false} LeadsToOne(p: Params, c0: Config, run: seq<Visit>, b: Config, d: Config)
    requires Leads(p, c0, run, b) && Leads(p, c0, run, d)
    ensures b == d
    decreases |run|
  {
    if run != [] {
      hide Next, CanTake;
      var b' := LastVisit(p, c0, run, b);
      var d' := LastVisit(p, c0, run, d);
      LeadsToOne(p, c0, Init(run), b', d');
    }
  }

  lemma EmptyRun(p: Params, c0: Config, c: Config)
    requires Leads(p, c0, [], c)
    ensures c == c0
  {
  }

  lemma NextCommands(p: Params, c: Config, v: Visit)
    ensures Next(p, c, v).commands == c.commands + CommandsOf(p, c.state, v)
  {
    hide DeltaOf, Merge, Successor, EventsOf, LinesOf, CommandsOf;
  }

  // ----- the ticket of a run -----

  /** The first two visits of a run, and that they do not come again. */
  lemma {:induction false} EarlyVisits(p: Params, c0: Config, run: seq<Visit>, c: Config)
    requires c0.node == Analyzer && Leads(p, c0, run, c)
    ensures c.node == Analyzer <==> run == []
    ensures c.node == Architect <==> |run| == 1
    ensures |run| >= 1 ==> run[0].AtAnalyzer?
    ensures |run| >= 2 ==> run[1].AtArchitect?
    decreases |run|
  {
    if run != [] {
      hide Possible, Next, DispatchRouter, ValidatorRouter, OversightGitRouter;
      var b := LastVisit(p, c0, run, c);
      EarlyVisits(p, c0, Init(run), b);
      NodeAfter(p, b, Last(run));
    }
  }

  lemma NodeAfter(p: Params, c: Config, v: Visit)
    requires c.node != End
    ensures Next(p, c, v).node != Analyzer
    ensures Next(p, c, v).node == Architect <==> c.node == Analyzer
  {
    hide DeltaOf, Merge, EventsOf, LinesOf, CommandsOf;
  }

  lemma TicketStays(p: Params, c: Config, v: Visit)
    requires CanTake(p, c, v) && c.node != Analyzer && c.node != Architect
    ensures Next(p, c, v).state.activeTicket == c.state.activeTicket
  {
    hide Next, Possible;
    match v
    case AtExecutor(_, _) => ExecutorKeepsTicket(p, c, v);
    case AtValidator(_, _) => NextValidator(p, c, v);
    case AtOversight(_, _, _) => NextOversight(p, c, v);
    case AtEscalate => NextLate(p, c, v);
    case AtAdvance => NextLate(p, c, v);
    case _ => NextEarly(p, c, v);
  }

  lemma ExecutorKeepsTicket(p: Params, c: Config, v: Visit)
    requires v.AtExecutor? && CanTake(p, c, v)
    ensures Next(p, c, v).state.activeTicket == c.state.activeTicket
  {
    hide Next;
    NextExecutor(p, c, v);
  }

  /**
   * From the third visit on, the ticket of a run is settled: without an issue
   * it is the ticket that was given, or else the stub, and with an issue it
   * is the one that the architect planned.
   */
  lemma {:induction false} TicketIsSettled(p: Params, c0: Config, run: seq<Visit>, c: Config)
    requires c0.node == Analyzer && Leads(p, c0, run, c) && |run| >= 2
    ensures run[1].AtArchitect?
    ensures c.state.activeTicket == Some(
              if c0.state.hasIssue then run[1].planned
              else if c0.state.activeTicket.Some? then c0.state.activeTicket.value
              else Ticket("TICKET-1", "", "stub ticket", "", [], [], "", "{'id': 'TICKET-1', 'title': 'stub ticket'}"))
    decreases |run|
  {
    hide Next, CanTake;
    EarlyVisits(p, c0, run, c);
    var b := LastVisit(p, c0, run, c);
    EarlyVisits(p, c0, Init(run), b);
    if |run| == 2 {
      var a := LastVisit(p, c0, Init(run), b);
      EmptyRun(p, c0, a);
      AfterAnalyzer(p, c0, Init(run)[0]);
      AfterArchitect(p, b, run[1]);
    } else {
      TicketIsSettled(p, c0, Init(run), b);
      TicketStays(p, b, Last(run));
    }
  }

  lemma AfterAnalyzer(p: Params, c: Config, v: Visit)
    requires c.node == Analyzer && CanTake(p, c, v)
    ensures var s := Next(p, c, v).state;
            && s.hasIssue == c.state.hasIssue
            && (s.hasIssue ==> s.hasAnalysis)
            && (!s.hasIssue ==> s.activeTicket == Some(
                  if c.state.activeTicket.Some? then c.state.activeTicket.value
                  else Ticket("TICKET-1", "", "stub ticket", "", [], [], "",
                              "{'id': 'TICKET-1', 'title': 'stub ticket'}")))
  {
    TicketIsGivenOrPlanned(c.state, NO_TICKET);
  }

  lemma AfterArchitect(p: Params, c: Config, v: Visit)
    requires c.node == Architect && CanTake(p, c, v) && (c.state.hasIssue ==> c.state.hasAnalysis)
    ensures v.AtArchitect?
    ensures Next(p, c, v).state.activeTicket == if c.state.hasIssue then Some(v.planned) else c.state.activeTicket
  {
    TicketIsGivenOrPlanned(c.state, v.planned);
  }

  // ----- validations, on the client's own record -----

  /** The command at j of the record is this one, and it got that reply. */
  ghost predicate Exchanged(client: RuntimeClient, issued: seq<string>, j: nat, command: string, reply: ActionResult) {
    j < |issued| && issued[j] == command && client.Reply(j, command) == reply
  }

  /**
   * Each validation of a run stands on the client's record: the command is the
   * one that the run's ticket asks for, or the default when it asks for none,
   * its place is where the record stood at that visit, and the reply is what
   * the validator judged.
   */
  lemma {:induction false} ValidationsAreOnRecord(
      p: Params, client: RuntimeClient, brain: nat -> (seq<Message> -> Response), before: seq<string>,
      c0: Config, run: seq<Visit>, c: Config, n: nat) returns (b: Config)
    requires Fresh(c0) && !p.mock && Leads(p, c0, run, c) && Recorded(p, client, brain, |before|, c0, run)
    requires n < |run| && run[n].AtValidator?
    ensures Leads(p, c0, run[..n], b)
    ensures Exchanged(client, before + c.commands, |before| + |b.commands|,
                      if c.state.activeTicket.Some? && c.state.activeTicket.value.verificationCommand != ""
                      then c.state.activeTicket.value.verificationCommand else "python3 -m pytest -q",
                      run[n].result)
    decreases |run|
  {
    hide Next, Leads, CanTake, Observed, Recorded, CommandsOf;
    var d := LastStep(p, client, brain, |before|, c0, run, c);
    FreshStart(c0);
    EarlyVisits(p, c0, run, c);
    EarlyVisits(p, c0, Init(run), d);
    VisitsItsNode(p, d, Last(run));
    NextCommands(p, d, Last(run));
    TicketStays(p, d, Last(run));
    if n == |run| - 1 {
      b := d;
      assert run[..n] == Init(run);
      ValidationIsOnRecord(p, client, brain, before, d, run[n]);
    } else {
      b := ValidationsAreOnRecord(p, client, brain, before, c0, Init(run), d, n);
      assert Init(run)[..n] == run[..n];
    }
  }

  lemma FreshStart(c: Config)
    requires Fresh(c)
    ensures c.node == Analyzer && c.commands == [] && c.lines == [] && c.state.ticketStatus != Some(Done)
  {
  }

  lemma VisitsItsNode(p: Params, c: Config, v: Visit)
    requires CanTake(p, c, v)
    ensures v.Node() == c.node
  {
  }

  lemma ValidationIsOnRecord(p: Params, client: RuntimeClient, brain: nat -> (seq<Message> -> Response),
                             before: seq<string>, b: Config, v: Visit)
    requires v.AtValidator? && !p.mock && Observed(p, b.state, client, brain, |before| + |b.commands|, v)
    ensures Exchanged(client, before + (b.commands + CommandsOf(p, b.state, v)), |before| + |b.commands|,
                      if b.state.activeTicket.Some? && b.state.activeTicket.value.verificationCommand != ""
                      then b.state.activeTicket.value.verificationCommand else "python3 -m pytest -q",
                      v.result)
  {
    hide VerificationCommand;
    CommandOfTicket(b.state);
  }

  // ----- the commit of a DONE ticket -----

  /**
   * The record ends in a visit to git that starts at k: after its setup the
   * client was asked for HEAD, to stage the ticket's files, to commit them
   * under the ticket's name with the log so far, and for HEAD again; staging
   * and committing exited 0, and the repository's HEAD stands and is not what
   * it was. The log has one line for each of the visit's commands.
   */
  ghost predicate CommittedFrom(client: RuntimeClient, issued: seq<string>, t: Ticket, lines: seq<string>, k: nat) {
    && k + 7 <= |issued| && |issued| - k <= |lines|
    && issued[k] == "git rev-parse --is-inside-work-tree"
    && |issued| == k + (if client.Reply(k, issued[k]).exitCode == 0 then 7 else 8)
    && var j, earlier := |issued| - 4, lines[..|lines| - (|issued| - k)];
       && issued[j] == issued[j + 3] == "git rev-parse HEAD"
       && issued[j + 1] == ShellWords.AddCommand(if t.filesChanged != [] then t.filesChanged else t.targetFiles)
       && issued[j + 2] == ShellWords.CommitCommand(
            "[" + (if t.id != "" then t.id else if t.ticketId != "" then t.ticketId else "TICKET") + "] "
            + (if t.intent != "" then t.intent else if t.title != "" then t.title else "update") + "\n\n"
            + (if earlier == [] then "no attempts" else Join("; ", earlier)))
       && client.Reply(j + 1, issued[j + 1]).exitCode == 0 && client.Reply(j + 2, issued[j + 2]).exitCode == 0
       && client.head(j + 3).Some? && client.head(j + 3) != client.head(j)
  }

  lemma CommittedCommands(s: State, g: GitReplies)
    requires Judge(s, g).Committed?
    ensures GitSteps(s, g) == SetupSteps(g.setup) + [
              Exchange("git rev-parse HEAD", g.headBefore),
              Exchange(ShellWords.AddCommand(s.Files()), g.add),
              Exchange(ShellWords.CommitCommand(CommitMessage(s)), g.commit),
              Exchange("git rev-parse HEAD", g.headAfter)]
    ensures s.Files() != [] && g.add.exitCode == 0 && g.commit.exitCode == 0
    ensures ReportedHead(g.headAfter).Some? && ReportedHead(g.headAfter) != ReportedHead(g.headBefore)
  {
    hide SetupSteps, ReportedHead, CommitMessage, ShellWords.AddCommand, ShellWords.CommitCommand, GitSteps;
    StepsAreSpelled(s, g);
  }

  lemma SetupFromStart(client: RuntimeClient, k: nat)
    ensures var steps := SetupSteps(SetupFrom(client, k));
            && |steps| >= 1
            && steps[0] == Exchange("git rev-parse --is-inside-work-tree", client.Reply(k, steps[0].command))
            && |steps| == (if client.Reply(k, "git rev-parse --is-inside-work-tree").exitCode == 0 then 3 else 4)
            && k + |steps| == HeadQuery(client, k)
  {
    SetupIsSpelled(SetupFrom(client, k));
  }

  lemma CommittedLines(p: Params, s: State, g: GitReplies)
    requires Judge(s, g).Committed?
    ensures |GitLines(p, s, g)| == |GitSteps(s, g)| == |Commands(GitSteps(s, g))|
  {
    hide GitLine, GitSteps;
  }

  /** A visit that commits leaves its commands on the record, and HEAD has moved between them. */
  lemma CommitIsOnRecord(p: Params, client: RuntimeClient, brain: nat -> (seq<Message> -> Response),
                         issued: seq<string>, lines: seq<string>, s: State, v: Visit)
    requires v.AtOversight? && Observed(p, s, client, brain, |issued|, v) && Possible(p, s, v) && !p.mock
    requires Judge(s, v.g).Committed? && s.attemptLog == lines
    ensures CommittedFrom(client, issued + CommandsOf(p, s, v), s.Ticket(), lines + GitLines(p, s, v.g), |issued|)
  {
    hide SetupSteps, SetupFrom, ReportedHead, CommitMessage, ShellWords.AddCommand, ShellWords.CommitCommand;
    hide HeadQuery, GitSteps, Judge, GitLines, Join;
    CommittedCommands(s, v.g);
    SetupFromStart(client, |issued|);
    CommittedLines(p, s, v.g);
    MessageOfTicket(s, s.Ticket());
    var all, log := issued + CommandsOf(p, s, v), lines + GitLines(p, s, v.g);
    assert log[..|log| - (|all| - |issued|)] == lines;
    assert Commands(GitSteps(s, v.g))[0] == "git rev-parse --is-inside-work-tree";
  }

  /** The record of a DONE ticket, if the ticket is DONE. */
  ghost predicate DoneOnRecord(client: RuntimeClient, before: seq<string>, c: Config) {
    c.state.ticketStatus == Some(Done) ==>
      exists k :: |before| <= k && CommittedFrom(client, before + c.commands, c.state.Ticket(), c.lines, k)
  }

  /**
   * In every state that says DONE, the client's record ends in the visit that
   * committed the ticket's files, and the repository's own HEAD moved from
   * just before the commit to just after it.
   */
  lemma {:induction false} DoneIsOnRecord(p: Params, client: RuntimeClient, brain: nat -> (seq<Message> -> Response),
                                          before: seq<string>, c0: Config, run: seq<Visit>, c: Config)
    requires p.maxStrikes >= 1 && Fresh(c0) && Leads(p, c0, run, c)
    requires Recorded(p, client, brain, |before|, c0, run)
    ensures DoneOnRecord(client, before, c)
    decreases |run|
  {
    hide Next, Fresh, Leads, Observed, CanTake, CommittedFrom, Recorded;
    if run == [] {
      EmptyRun(p, c0, c);
      FreshStart(c0);
    } else {
      var b := LastStep(p, client, brain, |before|, c0, run, c);
      if b.state.ticketStatus == Some(Done) {
        DoneIsOnRecord(p, client, brain, before, c0, Init(run), b);
        DoneStays(p, c0, Init(run), b, Last(run));
        var k :| |before| <= k && CommittedFrom(client, before + b.commands, b.state.Ticket(), b.lines, k);
        assert CommittedFrom(client, before + c.commands, c.state.Ticket(), c.lines, k);
      } else if c.state.ticketStatus == Some(Done) {
        StepIsOnRecord(p, client, brain, before, c0, Init(run), b, Last(run));
      }
    }
  }

  /** After DONE nothing is issued or logged any more, and the ticket stays as it is. */
  lemma DoneStays(p: Params, c0: Config, run: seq<Visit>, b: Config, v: Visit)
    requires p.maxStrikes >= 1 && Fresh(c0) && Leads(p, c0, run, b) && CanTake(p, b, v)
    requires b.state.ticketStatus == Some(Done)
    ensures var c := Next(p, b, v);
            c.commands == b.commands && c.lines == b.lines && c.state.activeTicket == b.state.activeTicket
  {
    hide Next, Leads, Fresh, Possible;
    DoneIsReal(p, c0, run, b);
    if b.node == Advance { NextLate(p, b, v); } else { NextEarly(p, b, v); }
  }

  lemma LogSoFar(p: Params, c0: Config, run: seq<Visit>, c: Config)
    requires p.maxStrikes >= 1 && Fresh(c0) && Leads(p, c0, run, c) && c.node == OversightGit
    ensures c.state.attemptLog == c.lines
  {
    hide Next, Leads, Fresh, StrikesOnRecord, EscalationsCounted, DoneIsEarned, AtNode;
    RunKeepsInvariant(p, c0, run, c);
  }

  lemma StepIsOnRecord(p: Params, client: RuntimeClient, brain: nat -> (seq<Message> -> Response), before: seq<string>,
                       c0: Config, run: seq<Visit>, b: Config, v: Visit)
    requires p.maxStrikes >= 1 && Fresh(c0) && Leads(p, c0, run, b) && CanTake(p, b, v)
    requires Observed(p, b.state, client, brain, |before| + |b.commands|, v)
    requires b.state.ticketStatus != Some(Done) && Next(p, b, v).state.ticketStatus == Some(Done)
    ensures DoneOnRecord(client, before, Next(p, b, v))
  {
    hide Next, Fresh, Leads, Observed, Possible, CommittedFrom, CommandsOf, Judge, GitLines;
    var issued, c := before + b.commands, Next(p, b, v);
    NextCommands(p, b, v);
    ConcatAssociates(before, b.commands, CommandsOf(p, b.state, v));
    OnlyOversightSaysDone(p, b, v);
    LogSoFar(p, c0, run, b);
    CommitIsOnRecord(p, client, brain, issued, b.lines, b.state, v);
    NextOversight(p, b, v);
    assert CommittedFrom(client, before + c.commands, c.state.Ticket(), c.lines, |issued|);
  }
}
