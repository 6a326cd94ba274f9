/**
 * Running the graph with real nodes: the loop that LangGraph's `astream` makes,
 * one node a step, with the node methods in place. It shows that what the
 * methods do is what the transition system says, that the labels of its steps
 * are what the sandbox and the model really did, and that the loop ends.
 */
module GraphRun {
  import opened PyText
  import opened AgentState
  import opened AgenticLoop
  import opened Sandbox
  import opened Nodes
  import opened Graph
  import opened RunTheorems
  import opened Recording
  import ShellWords

  function Start(s: State): Config {
    Config(Analyzer, s, None, None, [], [], [], [])
  }

  // ----- one visit -----

  /** Call one node; `v` is the visit as the transition system names it. */
  method VisitNode(p: Params, node: Node, s: State, client: RuntimeClient, tools: Tools,
                   brain: nat -> (seq<Message> -> Response), planned: Ticket)
    returns (delta: Delta, ghost v: Visit)
    requires node != End && client.isMock == p.mock && (p.mock || HonestAboutHead(client))
    modifies client, tools
    ensures v.Node() == node && Possible(p, s, v) && delta == DeltaOf(p, s, v)
    ensures Observed(p, s, client, brain, |old(client.issued)|, v)
    ensures client.issued == old(client.issued) + CommandsOf(p, s, v)
  {
    hide AttemptsRun, ReportedHead, MockReply, CommitMessage, ShellWords.AddCommand, ShellWords.CommitCommand;
    hide ExecutorDelta, MockExecutorDelta, ValidatorDelta, OversightDelta, Genuine, GitSteps, MockLines;
    hide Asked, Commands, RepliesFrom, HeadQuery, Judge;
    ghost var k := |client.issued|;
    match node
    case Analyzer => delta, v := AnalyzerDelta(s), AtAnalyzer;
    case Architect => delta, v := ArchitectDelta(s, planned), AtArchitect(planned);
    case Dispatch => delta, v := NO_CHANGE, AtDispatch;
    case Executor =>
      ghost var attempts;
      delta, attempts := ExecutorNode(p, s, client, tools, brain);
      v := AtExecutor(if p.mock then [] else attempts, client.head(|client.issued|));
    case Validator =>
      delta := ValidatorNode(p, s, client);
      v := AtValidator(client.Reply(k, VerificationCommand(s)), client.head(|client.issued|));
    case OversightGit =>
      delta := OversightGitNode(p, s, client);
      v := OversightVisit(p, s, client, k);
    case Escalate => delta, v := EscalateDelta(p, s), AtEscalate;
    case Advance => delta, v := AdvanceDelta(s), AtAdvance;
  }

  /**
   * A visit to oversight against a sandbox that is honest about HEAD, whatever
   * else it claims: what the node reads as HEAD, when it asks, is HEAD.
   */
  lemma OversightVisit(p: Params, s: State, client: RuntimeClient, k: nat) returns (v: Visit)
    requires client.isMock == p.mock && (p.mock || HonestAboutHead(client))
    ensures v.AtOversight? && Possible(p, s, v) && v.g == RepliesFrom(client, s, k)
    ensures v.headBefore == client.head(HeadQuery(client, k))
    ensures v.headAfter == client.head(
              if Judge(s, v.g).AskedTwice() then HeadQuery(client, k) + 3 else k + |Commands(GitSteps(s, v.g))|)
  {
    hide ReportedHead, CommitMessage, ShellWords.AddCommand, ShellWords.CommitCommand, Judge, GitSteps, Commands;
    var h := HeadQuery(client, k);
    var g := RepliesFrom(client, s, k);
    var left := if Judge(s, g).AskedTwice() then h + 3 else k + |Commands(GitSteps(s, g))|;
    v := AtOversight(g, client.head(h), client.head(left));
    if !p.mock {
      assert ReportedHead(client.Reply(h, REV_PARSE_HEAD)) == client.head(h);
      assert ReportedHead(client.Reply(h + 3, REV_PARSE_HEAD)) == client.head(h + 3);
    }
  }

  // ----- a whole run -----

  /**
   * From a fresh state to the end. The updates are those of a run of the
   * transition system whose labels are what really happened. On the client's
   * own record stand the ticket's own command for each validation, with the
   * reply that was judged, and for a ticket that ends DONE the commit of its
   * files, over which HEAD has moved.
   */
  method RunGraph(p: Params, start: State, client: RuntimeClient, tools: Tools,
                  brain: nat -> (seq<Message> -> Response), planned: Ticket)
    returns (updates: seq<Update>, s: State, ghost run: seq<Visit>, ghost c: Config)
    requires p.maxStrikes >= 1 && Fresh(Start(start))
    requires client.isMock == p.mock && (p.mock || HonestAboutHead(client))
    modifies client, tools
    ensures Leads(p, Start(start), run, c) && c.node == End
    ensures c.updates == updates && c.state == s && client.issued == old(client.issued) + c.commands
    ensures Recorded(p, client, brain, |old(client.issued)|, Start(start), run)
    ensures var command := if s.activeTicket.Some? && s.activeTicket.value.verificationCommand != ""
                           then s.activeTicket.value.verificationCommand else "python3 -m pytest -q";
            !p.mock ==>
              forall n | 0 <= n < |run| && run[n].AtValidator? ::
                exists j :: |old(client.issued)| <= j && Exchanged(client, client.issued, j, command, run[n].result)
    ensures s.ticketStatus == Some(Done) ==>
              exists k :: |old(client.issued)| <= k && CommittedFrom(client, client.issued, s.Ticket(), c.lines, k)
  {
    hide Next, Possible, DeltaOf, Merge, Successor, Fresh, Rank, Observed, CommandsOf, CommittedFrom, Exchanged;
    ghost var c0, issued := Start(start), client.issued;
    var node := Analyzer;
    updates, s, run, c := [], start, [], c0;
    while node != End
      invariant Leads(p, c0, run, c)
      invariant c.node == node && c.updates == updates && c.state == s
      invariant client.issued == issued + c.commands
      invariant Recorded(p, client, brain, |issued|, c0, run)
      decreases Rank(p, c)
    {
      ghost var v, b := AtDispatch, c;
      var delta;
      delta, v := VisitNode(p, node, s, client, tools, brain, planned);
      StepTaken(p, c0, run, b, v);
      StepRecorded(p, client, brain, |issued|, c0, run, b, v);
      NextCommands(p, b, v);
      ConcatAssociates(issued, b.commands, CommandsOf(p, b.state, v));
      run, c := run + [v], Next(p, b, v);
      s := Merge(s, delta);
      updates := updates + [Update(node, delta)];
      node := Successor(p, node, s);
    }
    DoneIsOnRecord(p, client, brain, issued, c0, run, c);
    AllValidationsAreOnRecord(p, client, brain, issued, c0, run, c);
  }

  lemma AllValidationsAreOnRecord(
      p: Params, client: RuntimeClient, brain: nat -> (seq<Message> -> Response), before: seq<string>,
      c0: Config, run: seq<Visit>, c: Config)
    requires Fresh(c0) && Leads(p, c0, run, c) && Recorded(p, client, brain, |before|, c0, run)
    ensures var command := if c.state.activeTicket.Some? && c.state.activeTicket.value.verificationCommand != ""
                           then c.state.activeTicket.value.verificationCommand else "python3 -m pytest -q";
            !p.mock ==>
              forall n | 0 <= n < |run| && run[n].AtValidator? ::
                exists j :: |before| <= j && Exchanged(client, before + c.commands, j, command, run[n].result)
  {
    hide Fresh, Leads, Recorded, Exchanged;
    var command := if c.state.activeTicket.Some? && c.state.activeTicket.value.verificationCommand != ""
                   then c.state.activeTicket.value.verificationCommand else "python3 -m pytest -q";
    forall n | 0 <= n < |run| && run[n].AtValidator? && !p.mock
      ensures exists j :: |before| <= j && Exchanged(client, before + c.commands, j, command, run[n].result)
    {
      var b := ValidationsAreOnRecord(p, client, brain, before, c0, run, c, n);
    }
  }

  lemma StepTaken(p: Params, c0: Config, run: seq<Visit>, b: Config, v: Visit)
    requires p.maxStrikes >= 1 && Fresh(c0) && Leads(p, c0, run, b) && CanTake(p, b, v)
    ensures Leads(p, c0, run + [v], Next(p, b, v)) && Rank(p, Next(p, b, v)) < Rank(p, b)
    ensures var delta := DeltaOf(p, b.state, v);
            var c := Next(p, b, v);
            && c.state == Merge(b.state, delta) && c.node == Successor(p, b.node, c.state)
            && c.updates == b.updates + [Update(b.node, delta)]
  {
    hide Fresh, Rank, Invariant, DeltaOf, Merge, Successor, EventsOf, LinesOf, CommandsOf, Possible;
    OneVisitMore(p, c0, run, b, v);
    RunKeepsInvariant(p, c0, run, b);
    RankDrops(p, c0, b, v);
  }
}
