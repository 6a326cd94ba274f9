/** What the envelopes of a graph run say about it. */
module RunnerTheorems {
  import opened PyText
  import opened AgentState
  import opened Registry
  import opened Nodes
  import opened Graph
  import opened RunTheorems
  import opened Runner
  import Diagnosis
  import ShellWords

  // ----- lifecycle -----

  /**
   * Wherever the graph stream stops, the envelopes are numbered 1..N, the
   * first says that the run started, and exactly one, the last, is terminal.
   */
  lemma LifecycleIsClosed(request: string, us: seq<Update>, ending: Ending)
    ensures var log := Number(WholeRun(request, us, ending));
            && Numbered(log) && |log| >= 2
            && log[0].kind == RunStarted
            && forall i | 0 <= i < |log| :: log[i].kind.IsTerminal() <==> i == |log| - 1
  {
    hide HappeningsOf;
    var hs := WholeRun(request, us, ending);
    DerivedIsNotTerminal(us);
    assert hs[0] == Started(request) && Last(hs) == EndHappening(ending);
    forall i | 0 < i < |hs| - 1 ensures !hs[i].kind.IsTerminal() {
      assert hs[i] == Derived(us)[i - 1];
    }
  }

  lemma {:induction false} DerivedIsNotTerminal(us: seq<Update>)
    ensures forall i | 0 <= i < |Derived(us)| :: !Derived(us)[i].kind.IsTerminal() && Derived(us)[i].kind != RunStarted
    decreases |us|
  {
    if us != [] {
      hide AttemptsIn, NewLines;
      DerivedIsNotTerminal(Init(us));
    }
  }

  // ----- attempts partition the log -----

  /** The last log that an executor delta carried. */
  function LastLog(us: seq<Update>): seq<string> {
    if us == [] then []
    else if Last(us).node == Executor && Last(us).delta.attemptLog.Some? then Last(us).delta.attemptLog.value
    else LastLog(Init(us))
  }

  /** Each executor log extends the one before. */
  ghost predicate Chained(us: seq<Update>) {
    us == [] || (Chained(Init(us)) && LastLog(Init(us)) <= LastLog(us))
  }

  /** All slices that the runner looked at, one after another. */
  function Slices(us: seq<Update>): seq<string> {
    if us == [] then [] else Slices(Init(us)) + NewLines(Last(us), SeenThrough(Init(us)))
  }

  function AttemptsAmong(hs: seq<Happening>): seq<Payload> {
    if hs == [] then []
    else AttemptsAmong(Init(hs)) + if Last(hs).kind.AttemptEvent? then [Last(hs).payload] else []
  }

  lemma {:induction false} AttemptsAmongConcat(a: seq<Happening>, b: seq<Happening>)
    ensures AttemptsAmong(a + b) == AttemptsAmong(a) + AttemptsAmong(b)
    decreases |b|
  {
    if b == [] {
      assert a + b == a;
    } else {
      hide Init, Last;
      LastOfConcat(a, b);
      AttemptsAmongConcat(a, Init(b));
      ConcatAssociates(AttemptsAmong(a), AttemptsAmong(Init(b)),
                       if Last(b).kind.AttemptEvent? then [Last(b).payload] else []);
    }
  }

  lemma {:induction false} AllAreAttempts(node: Node, attempts: seq<Payload>)
    ensures AttemptsAmong(AttemptHappenings(node, attempts)) == attempts
    decreases |attempts|
  {
    if attempts != [] {
      assert Init(AttemptHappenings(node, attempts)) == AttemptHappenings(node, Init(attempts));
      AllAreAttempts(node, Init(attempts));
    }
  }

  lemma {:induction false} AttemptsInConcat(a: seq<string>, b: seq<string>)
    ensures AttemptsIn(a + b) == AttemptsIn(a) + AttemptsIn(b)
    decreases |b|
  {
    if b == [] {
      assert a + b == a;
    } else {
      hide ParseStrike, Contains, Init, Last;
      LastOfConcat(a, b);
      AttemptsInConcat(a, Init(b));
      ConcatAssociates(AttemptsIn(a), AttemptsIn(Init(b)),
                       if Contains(Last(b), FAST_CHECK) then [AttemptInfo(ParseStrike(Last(b)), Last(b))] else []);
    }
  }

  predicate MentionsCheck(line: string) {
    Contains(line, "fast_check")
  }

  /** The lines that mention a fast check stand at these places, in order. */
  ghost predicate ChecksAt(lines: seq<string>, at: seq<nat>) {
    && (forall k | 0 <= k < |at| :: at[k] < |lines| && MentionsCheck(lines[at[k]]))
    && (forall k, m | 0 <= k < m < |at| :: at[k] < at[m])
    && (forall i: nat | i < |lines| && MentionsCheck(lines[i]) :: i in at)
  }

  lemma OneLineMore(lines: seq<string>, at: seq<nat>, line: string)
    requires ChecksAt(lines, at)
    ensures ChecksAt(lines + [line], if MentionsCheck(line) then at + [|lines|] else at)
  {
    hide MentionsCheck;
    var all, there := lines + [line], if MentionsCheck(line) then at + [|lines|] else at;
    forall i: nat | i < |all| && MentionsCheck(all[i]) ensures i in there {
      if i < |lines| {
        assert all[i] == lines[i] && i in at;
      } else {
        assert there[|there| - 1] == i;
      }
    }
  }

  /** One attempt for each line that mentions a fast check, in order, with the line and the number it opens with. */
  lemma {:induction false} AttemptsAreLinesOfChecks(lines: seq<string>) returns (at: seq<nat>)
    ensures ChecksAt(lines, at) && |AttemptsIn(lines)| == |at|
    ensures forall k | 0 <= k < |at| ::
              at[k] < |lines| && AttemptsIn(lines)[k] == AttemptInfo(ParseStrike(lines[at[k]]), lines[at[k]])
    decreases |lines|
  {
    hide ParseStrike, Contains, ChecksAt;
    if lines == [] {
      at := [];
      NoLines();
    } else {
      var before := AttemptsAreLinesOfChecks(Init(lines));
      OneLineMore(Init(lines), before, Last(lines));
      assert Init(lines) + [Last(lines)] == lines;
      at := if MentionsCheck(Last(lines)) then before + [|lines| - 1] else before;
      assert forall k | 0 <= k < |before| :: lines[before[k]] == Init(lines)[before[k]];
    }
  }

  lemma NoLines()
    ensures ChecksAt([], [])
  {
  }

  lemma AttemptsOfUpdate(u: Update, seen: Cursors)
    ensures AttemptsAmong(HappeningsOf(u, seen)) == AttemptsIn(NewLines(u, seen))
  {
    hide AttemptsIn, NewLines, EscalationOf;
    var first := [Happening(NodeUpdate, Some(u.node), Change(u.delta))];
    var attempts := AttemptHappenings(u.node, AttemptsIn(NewLines(u, seen)));
    var rest := if EscalationOf(u.delta, seen) != NO_ESCALATION
                then [Happening(Escalation, Some(u.node), EscalationOf(u.delta, seen))] else [];
    AttemptsAmongConcat(first + attempts, rest);
    AttemptsAmongConcat(first, attempts);
    AllAreAttempts(u.node, AttemptsIn(NewLines(u, seen)));
    assert AttemptsAmong(first) == [] && AttemptsAmong(rest) == [];
  }

  /**
   * Over a chain of executor logs the runner looks at every line of the last
   * one exactly once, in order, and its attempt events are those of that log.
   */
  lemma {:induction false} SlicesPartitionTheLog(us: seq<Update>)
    requires Chained(us)
    ensures Slices(us) == LastLog(us)
    ensures SeenThrough(us).attemptLen == |LastLog(us)|
    ensures AttemptsAmong(Derived(us)) == AttemptsIn(LastLog(us))
    decreases |us|
  {
    if us != [] {
      hide HappeningsOf, AttemptsIn, AttemptsAmong, NewLines, LastLog, SeenAfter;
      var before, u, seen := Init(us), Last(us), SeenThrough(Init(us));
      SlicesPartitionTheLog(before);
      AttemptsAmongConcat(Derived(before), HappeningsOf(u, seen));
      AttemptsOfUpdate(u, seen);
      AttemptsInConcat(LastLog(before), NewLines(u, seen));
      OneMoreSlice(before, us, seen);
    }
  }

  lemma OneMoreSlice(before: seq<Update>, us: seq<Update>, seen: Cursors)
    requires us != [] && before == Init(us) && LastLog(before) <= LastLog(us)
    requires seen.attemptLen == |LastLog(before)|
    ensures LastLog(us) == LastLog(before) + NewLines(Last(us), seen)
    ensures SeenAfter(Last(us), seen).attemptLen == |LastLog(us)|
  {
  }

  /** The updates of a graph run carry such a chain, and the last log is a prefix of what the run has logged. */
  lemma {:induction false} GraphLogsChain(p: Params, c0: Config, run: seq<Visit>, c: Config)
    requires p.maxStrikes >= 1 && Fresh(c0) && Leads(p, c0, run, c)
    ensures Chained(c.updates) && LastLog(c.updates) <= c.lines
    decreases |run|
  {
    if run != [] {
      hide Next, Invariant, Possible;
      var b := LastVisit(p, c0, run, c);
      GraphLogsChain(p, c0, Init(run), b);
      RunKeepsInvariant(p, c0, Init(run), b);
      StepChains(p, c0, b, Last(run));
    }
  }

  lemma StepChains(p: Params, c0: Config, b: Config, v: Visit)
    requires Invariant(p, c0, b) && CanTake(p, b, v) && Chained(b.updates) && LastLog(b.updates) <= b.lines
    ensures var c := Next(p, b, v);
            Chained(c.updates) && LastLog(c.updates) <= c.lines && b.lines <= c.lines
    ensures var c := Next(p, b, v);
            LastLog(c.updates) == if b.node == Executor then c.lines else LastLog(b.updates)
  {
    hide StrikesOnRecord, EscalationsCounted, DoneIsEarned, AtNode, Possible;
    hide DeltaOf, LinesOf, EventsOf, Merge, Successor;
    var c := Next(p, b, v);
    assert Init(c.updates) == b.updates && Last(c.updates) == Update(b.node, DeltaOf(p, b.state, v));
    if b.node == Executor { ExecutorLog(p, b.state, v); }
  }

  lemma ExecutorLog(p: Params, s: State, v: Visit)
    requires v.AtExecutor?
    ensures DeltaOf(p, s, v).attemptLog == Some(s.attemptLog + LinesOf(p, s, v))
  {
    hide AttemptLines, MockLines;
  }

  // ----- a run is short -----

  lemma {:induction false} AttemptsAreFewer(lines: seq<string>)
    ensures |AttemptsIn(lines)| <= |lines|
    decreases |lines|
  {
    if lines != [] {
      hide Contains, ParseStrike;
      AttemptsAreFewer(Init(lines));
    }
  }

  lemma {:induction false} DerivedIsShort(us: seq<Update>)
    ensures |Derived(us)| <= 2 * |us| + |Slices(us)|
    decreases |us|
  {
    if us != [] {
      hide AttemptsIn, NewLines, EscalationOf;
      DerivedIsShort(Init(us));
      AttemptsAreFewer(NewLines(Last(us), SeenThrough(Init(us))));
    }
  }

  lemma {:induction false} AttemptLinesLength(p: Params, strikes: nat, attempts: seq<Attempt>)
    ensures |AttemptLines(p, strikes, attempts)| == 2 * |attempts|
    decreases |attempts|
  {
    if attempts != [] {
      hide SummaryLine, CheckLine;
      AttemptLinesLength(p, strikes, Init(attempts));
    }
  }

  lemma GitLinesLength(p: Params, s: State, g: GitReplies)
    ensures |GitLines(p, s, g)| <= 9
  {
    hide Reason, GitLine, CommitMessage, ShellWords.AddCommand, ShellWords.CommitCommand, Judge;
  }

  lemma LinesOfStep(p: Params, c: Config, v: Visit)
    requires CanTake(p, c, v)
    ensures |Next(p, c, v).lines| <= |c.lines| + 2 * (|Next(p, c, v).events| - |c.events|) + 9
  {
    hide AttemptLines, MockLines, GitLines, Judge, MockReplies, AttemptsRun, DeltaOf, Merge, Successor;
    match v
    case AtExecutor(attempts, _) =>
      AttemptLinesLength(p, c.state.strikeCount, attempts);
      MockLinesLength(p);
    case AtOversight(g, _, _) => GitLinesLength(p, c.state, g);
    case _ =>
  }

  lemma MockLinesLength(p: Params)
    ensures |MockLines(p)| == 2
  {
    hide ActionLine;
  }

  lemma {:induction false} LogIsShort(p: Params, c0: Config, run: seq<Visit>, c: Config)
    requires Fresh(c0) && Leads(p, c0, run, c)
    ensures |c.lines| <= 2 * |c.events| + 9 * |run|
    decreases |run|
  {
    if run != [] {
      hide Next, Possible;
      var b := LastVisit(p, c0, run, c);
      LogIsShort(p, c0, Init(run), b);
      LinesOfStep(p, b, Last(run));
    }
  }

  function EnvelopeBound(p: Params): nat {
    2 + 11 * StepBound(p) + 2 * (p.maxStrikes + 1)
  }

  /**
   * A run emits a number of envelopes that the strike limit bounds, whatever
   * the graph does and wherever the stream stops: at the default limit, fewer
   * than two hundred.
   */
  lemma RunsEmitFew(p: Params, c0: Config, run: seq<Visit>, c: Config, request: string, ending: Ending)
    requires p.maxStrikes >= 1 && Fresh(c0) && Leads(p, c0, run, c)
    ensures |WholeRun(request, c.updates, ending)| <= EnvelopeBound(p)
    ensures p.maxStrikes == 3 ==> EnvelopeBound(p) < 200
  {
    hide Derived, Leads, Fresh, Chained, LastLog, Slices, Rank, SeenThrough, AttemptsIn, AttemptsAmong;
    hide StrikesOnRecord;
    GraphLogsChain(p, c0, run, c);
    SlicesPartitionTheLog(c.updates);
    DerivedIsShort(c.updates);
    LogIsShort(p, c0, run, c);
    RunsAreShort(p, c0, run, c);
    StrikesAreConserved(p, c0, run, c);
    EventCountIsStrikes(p, c0, run, c);
  }

  lemma EventCountIsStrikes(p: Params, c0: Config, run: seq<Visit>, c: Config)
    requires p.maxStrikes >= 1 && Fresh(c0) && Leads(p, c0, run, c)
    ensures c.state.strikeCount == |c.events|
  {
    hide Next, Leads, Fresh, AtNode, EscalationsCounted, LogConserved, DoneIsEarned, FeedbackIsFresh;
    RunKeepsInvariant(p, c0, run, c);
  }

  // ----- the runs that the server starts -----

  /** `build_initial_state`: a ticket that declares no files, and no issue. */
  function ServerState(runId: string, rawRequest: string, rendered: string): State {
    var title := if |rawRequest| <= 80 then rawRequest else rawRequest[..80];
    State(false, false, Some(Ticket(runId, "", title, "", [], [], "python3 -m pytest -q", rendered)),
          [], [], None, false, 0, None, 0, None)
  }

  /** Such a run starts afresh, on a ticket that is named and titled after the request and declares no files. */
  lemma ServerTicket(runId: string, rawRequest: string, rendered: string)
    ensures var s := ServerState(runId, rawRequest, rendered);
            && Fresh(Config(Analyzer, s, None, None, [], [], [], []))
            && !s.hasIssue && s.escalationCount == 0 && s.ledger == []
            && s.activeTicket.Some?
            && var t := s.activeTicket.value;
               && t.id == runId && t.verificationCommand == "python3 -m pytest -q" && t.rendered == rendered
               && t.title <= rawRequest && (t.title == rawRequest || |t.title| == 80) && |t.title| <= 80
               && t.filesChanged == [] && t.targetFiles == [] && t.intent == "" && t.ticketId == ""
  {
  }

  lemma {:induction false} TicketIsKept(p: Params, c0: Config, run: seq<Visit>, c: Config)
    requires Leads(p, c0, run, c) && !c0.state.hasIssue && c0.state.activeTicket.Some?
    ensures !c.state.hasIssue && c.state.activeTicket == c0.state.activeTicket
    decreases |run|
  {
    if run != [] {
      hide AttemptsRun, ExecutorDelta, MockExecutorDelta, AttemptLines, MockLines, GitLines, Judge, Possible;
      var b := LastVisit(p, c0, run, c);
      TicketIsKept(p, c0, Init(run), b);
      StepKeepsTicket(p, b, Last(run));
    }
  }

  lemma StepKeepsTicket(p: Params, b: Config, v: Visit)
    requires !b.state.hasIssue && b.state.activeTicket.Some?
    ensures !Next(p, b, v).state.hasIssue && Next(p, b, v).state.activeTicket == b.state.activeTicket
  {
    hide AttemptLines, MockLines, GitLines, Judge, EventsOf, LinesOf, Diagnosis.Truncate;
  }

  /** A run that the server starts never commits: it ends LOCAL_PASS or ESCALATED, and never DONE. */
  lemma ServerRunsNeverCommit(p: Params, runId: string, rawRequest: string, rendered: string, c0: Config,
                              run: seq<Visit>, c: Config)
    requires p.maxStrikes >= 1 && Fresh(c0) && c0.state == ServerState(runId, rawRequest, rendered)
    requires Leads(p, c0, run, c)
    ensures c.state.ticketStatus != Some(Done)
    ensures c.node == End ==> c.state.ticketStatus == Some(LocalPass) || c.state.ticketStatus == Some(Escalated)
  {
    hide Next;
    TicketIsKept(p, c0, run, c);
    RunKeepsInvariant(p, c0, run, c);
  }
}
