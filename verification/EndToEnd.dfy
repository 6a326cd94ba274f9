/** From the graph to the browser: what the viewers of a run can see of it. */
module EndToEnd {
  import opened PyText
  import opened AgentState
  import opened Registry
  import opened Nodes
  import opened Graph
  import opened RunTheorems
  import opened Runner
  import opened RunnerTheorems
  import opened Stream
  import opened StreamTheorems
  import opened StreamProgress

  const MAX_STRIKES: nat := 3
  const BACKLOG_MAXLEN: nat := 2000

  /** The envelopes of a run that got as far as c and then ended as it did. */
  function Script(request: string, c: Config, ending: Ending): seq<Envelope> {
    Number(WholeRun(request, c.updates, ending))
  }

  /**
   * Take any fresh run of the graph, stopped anywhere, by its end or by an
   * exception; any number of viewers, which join, lag, lose their connections
   * with frames in flight and come back, in any interleaving with the run. A
   * client that started from 0 has rendered the first `lastSeq` envelopes of
   * the run, in order, once each. It needs no assumption on how far a viewer
   * lags: the strike limit keeps every run within the backlog.
   */
  lemma ClientsSeeTheRunInOrder(
      p: Params, c0: Config, run: seq<Visit>, c: Config, request: string, ending: Ending,
      maxlen: nat, steps: seq<Step>, s: System, id: nat)
    requires p.maxStrikes >= 1 && Fresh(c0) && Leads(p, c0, run, c)
    requires EnvelopeBound(p) <= maxlen
    requires After(Script(request, c, ending), maxlen, steps) == Some(s)
    requires id in s.peers && s.peers[id].start == 0
    ensures var script, client := Script(request, c, ending), s.peers[id].client;
            && client.lastSeq == |client.rendered| <= s.emitted <= |script|
            && client.rendered == script[..client.lastSeq]
            && (forall i | 0 <= i < |client.rendered| :: client.rendered[i].seqNo == i + 1)
            && (client.lastSeq > 0 ==> client.rendered[0].kind == RunStarted)
            && (forall i | 0 <= i < |client.rendered| ::
                  client.rendered[i].kind.IsTerminal() <==> i == |script| - 1)
  {
    hide WholeRun, Number, After, Leads, Fresh, EnvelopeBound;
    RunsEmitFew(p, c0, run, c, request, ending);
    LifecycleIsClosed(request, c.updates, ending);
    ClientsRenderAPrefix(Script(request, c, ending), maxlen, steps, s, id);
  }

  /**
   * With the server's own limits, three strikes and a backlog of 2000, that
   * holds for every run it starts; and a stream that has returned to such a
   * client has put the whole run on the wire.
   */
  lemma ServerViewersSeeTheRun(
      p: Params, runId: string, request: string, rendered: string, c0: Config, run: seq<Visit>, c: Config,
      ending: Ending, steps: seq<Step>, s: System, id: nat)
    requires p.maxStrikes == MAX_STRIKES
    requires Fresh(c0) && c0.state == ServerState(runId, request, rendered) && Leads(p, c0, run, c)
    requires After(Script(request, c, ending), BACKLOG_MAXLEN, steps) == Some(s)
    requires id in s.peers && s.peers[id].start == 0
    ensures var script, peer := Script(request, c, ending), s.peers[id];
            && |script| < 200
            && peer.client.rendered <= script
            && (peer.conn.Some? && peer.conn.value.source.phase.Returned? ==>
                  peer.client.rendered + peer.conn.value.wire == script)
  {
    hide WholeRun, Number, After, Leads, Fresh, EnvelopeBound;
    RunsEmitFew(p, c0, run, c, request, ending);
    LifecycleIsClosed(request, c.updates, ending);
    ClientsSeeTheRunInOrder(p, c0, run, c, request, ending, BACKLOG_MAXLEN, steps, s, id);
    if s.peers[id].conn.Some? && s.peers[id].conn.value.source.phase.Returned? {
      ReturnedMeansWholeRun(Script(request, c, ending), BACKLOG_MAXLEN, steps, s, id);
    }
  }

  /**
   * And every viewer gets there. Once the run is over, a client that keeps its
   * connection has rendered all of it after at most 3N + 4 steps of its own,
   * whatever became of its wakeups, and until then it has a step to take.
   */
  lemma ViewersFinishTheRun(
      p: Params, c0: Config, run: seq<Visit>, c: Config, request: string, ending: Ending,
      maxlen: nat, steps: seq<Step>, more: seq<Step>, s: System, s': System, id: nat)
    requires p.maxStrikes >= 1 && Fresh(c0) && Leads(p, c0, run, c)
    requires EnvelopeBound(p) <= maxlen
    requires After(Script(request, c, ending), maxlen, steps) == Some(s)
    requires After(Script(request, c, ending), maxlen, steps + more) == Some(s')
    requires s.emitted == |Script(request, c, ending)|
    requires id in s.peers && s.peers[id].start == 0 && s.peers[id].conn.Some?
    requires Act(id, DropConnection) !in more
    ensures id in s'.peers
    ensures var script := Script(request, c, ending);
            || s'.peers[id].client.rendered == script
            || (OwnSteps(more, id) < 3 * |script| + 4 && exists a :: Own(a) && Enabled(s'.peers[id], a))
  {
    hide WholeRun, Number, After, Leads, Fresh, EnvelopeBound, Enabled;
    RunsEmitFew(p, c0, run, c, request, ending);
    LifecycleIsClosed(request, c.updates, ending);
    ViewersFinish(Script(request, c, ending), maxlen, steps, more, s, s', id);
  }

  /**
   * A client that has rendered the last envelope of a run that came to its
   * end knows how the ticket ended; and when the ticket declared files, what
   * it was told is DONE with a HEAD that moved, or ESCALATED.
   */
  lemma FinalEnvelopeIsHonest(
      p: Params, c0: Config, run: seq<Visit>, c: Config, request: string,
      maxlen: nat, steps: seq<Step>, s: System, id: nat)
    requires p.maxStrikes >= 1 && Fresh(c0) && Leads(p, c0, run, c) && c.node == End
    requires EnvelopeBound(p) <= maxlen
    requires After(Script(request, c, Final(c.state.ticketStatus)), maxlen, steps) == Some(s)
    requires id in s.peers && s.peers[id].start == 0
    requires s.peers[id].client.lastSeq == |Script(request, c, Final(c.state.ticketStatus))|
    ensures s.peers[id].client.rendered != []
    ensures var told := Last(s.peers[id].client.rendered).payload;
            && told == FinalStatus(c.state.ticketStatus)
            && (c.state.Files() != [] ==>
                  || (told == FinalStatus(Some(Done)) && c.head.Some? && c.head != c.staged)
                  || told == FinalStatus(Some(Escalated)))
  {
    hide After, Leads, Fresh, EnvelopeBound, Derived;
    var ending := Final(c.state.ticketStatus);
    ClientsSeeTheRunInOrder(p, c0, run, c, request, ending, maxlen, steps, s, id);
    NoSilentSuccess(p, c0, run, c);
    if c.state.ticketStatus == Some(Done) { DoneIsReal(p, c0, run, c); }
    var script := Script(request, c, ending);
    assert Last(WholeRun(request, c.updates, ending)) == EndHappening(ending);
    assert Last(s.peers[id].client.rendered) == Last(script);
  }
}
