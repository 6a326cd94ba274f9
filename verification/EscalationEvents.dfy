/** Which updates the runner follows with an escalation envelope, and what it says (server/runner.py:71-99). */
module EscalationEvents {
  import opened PyText
  import opened AgentState
  import opened Registry
  import opened Nodes
  import opened Graph
  import opened RunTheorems
  import opened Runner

  // ----- what has been seen -----

  /** The last escalation count that an update carried. */
  function CountSeen(us: seq<Update>): nat {
    if us == [] then 0
    else if Last(us).delta.escalationCount.Some? then Last(us).delta.escalationCount.value
    else CountSeen(Init(us))
  }

  /** The last run status that an update carried. */
  function StatusSeen(us: seq<Update>): Option<RunStatus> {
    if us == [] then None
    else if Last(us).delta.runStatus.Some? then Last(us).delta.runStatus
    else StatusSeen(Init(us))
  }

  lemma {:induction false} CursorsAreLastSeen(us: seq<Update>)
    ensures SeenThrough(us).escalations == CountSeen(us) && SeenThrough(us).runStatus == StatusSeen(us)
    decreases |us|
  {
    if us != [] { CursorsAreLastSeen(Init(us)); }
  }

  // ----- one update -----

  predicate NewCount(us: seq<Update>, d: Delta) {
    d.escalationCount.Some? && d.escalationCount.value != CountSeen(us)
  }

  predicate NewStatus(us: seq<Update>, d: Delta) {
    d.runStatus.Some? && d.runStatus != StatusSeen(us)
  }

  /**
   * What an update u after the updates `us` is turned into: its node update
   * with the whole delta; attempts, which only the executor has; and, last, an
   * escalation exactly when the delta says ESCALATED or carries a count or a
   * run status other than the last one seen. The escalation holds just these.
   */
  ghost predicate Reports(us: seq<Update>, u: Update, hs: seq<Happening>) {
    var told := u.delta.ticketStatus == Some(Escalated);
    var escalates := told || NewCount(us, u.delta) || NewStatus(us, u.delta);
    && hs != [] && hs[0] == Happening(NodeUpdate, Some(u.node), Change(u.delta))
    && (forall j | 0 < j < |hs| ::
          hs[j].node == Some(u.node) && (hs[j].kind == if escalates && j == |hs| - 1 then Escalation else AttemptEvent))
    && (forall j | 0 < j < |hs| && hs[j].kind.AttemptEvent? :: u.node == Executor)
    && (escalates ==> |hs| > 1 && Last(hs).payload == EscalationInfo(
          if NewCount(us, u.delta) then u.delta.escalationCount else None,
          if NewStatus(us, u.delta) then u.delta.runStatus else None,
          told))
  }

  lemma UpdateReports(us: seq<Update>, u: Update)
    ensures Reports(us, u, HappeningsOf(u, SeenThrough(us)))
  {
    hide AttemptsIn, CountSeen, StatusSeen, SeenThrough;
    CursorsAreLastSeen(us);
    NoNewLines(u, SeenThrough(us));
  }

  lemma NoNewLines(u: Update, seen: Cursors)
    ensures u.node != Executor ==> AttemptsIn(NewLines(u, seen)) == []
  {
  }

  // ----- its place among all -----

  lemma {:induction false} DerivedGrows(us: seq<Update>, i: nat)
    requires i <= |us|
    ensures Derived(us[..i]) <= Derived(us)
    decreases |us|
  {
    hide HappeningsOf;
    if i < |us| {
      DerivedGrows(Init(us), i);
      assert Init(us)[..i] == us[..i];
    } else {
      assert us[..i] == us;
    }
  }

  /** Every update has its stretch of the envelopes, and the stretches follow one another. */
  lemma UpdateIsReported(us: seq<Update>, i: nat)
    requires i < |us|
    ensures |Derived(us[..i])| <= |Derived(us[..i + 1])| <= |Derived(us)|
    ensures Reports(us[..i], us[i], Derived(us)[|Derived(us[..i])|..|Derived(us[..i + 1])|])
  {
    hide HappeningsOf, Reports, SeenThrough;
    DerivedGrows(us, i);
    DerivedGrows(us, i + 1);
    assert Init(us[..i + 1]) == us[..i] && Last(us[..i + 1]) == us[i];
    UpdateReports(us[..i], us[i]);
    var before, block := Derived(us[..i]), HappeningsOf(us[i], SeenThrough(us[..i]));
    assert Derived(us[..i + 1]) == before + block;
    assert Derived(us)[|before|..|before + block|] == block;
  }

  /** Which update an envelope belongs to. */
  lemma {:induction false} ComesFromUpdate(us: seq<Update>, j: nat) returns (i: nat)
    requires j < |Derived(us)|
    ensures i < |us| && |Derived(us[..i])| <= j < |Derived(us[..i + 1])|
    decreases |us|
  {
    hide HappeningsOf, SeenThrough;
    var front := Derived(Init(us));
    if j < |front| {
      i := ComesFromUpdate(Init(us), j);
      assert Init(us)[..i] == us[..i] && Init(us)[..i + 1] == us[..i + 1];
    } else {
      i := |us| - 1;
      assert us[..i] == Init(us) && us[..i + 1] == us;
    }
  }

  // ----- the updates of a graph run -----

  /** Only `escalate` counts and halts, and only it and the executor say ESCALATED. */
  ghost predicate FromTheirNodes(us: seq<Update>) {
    forall i | 0 <= i < |us| ::
      && (us[i].delta.escalationCount.Some? || us[i].delta.runStatus.Some? ==> us[i].node == Escalate)
      && (us[i].delta.ticketStatus == Some(Escalated) ==> us[i].node == Escalate || us[i].node == Executor)
  }

  lemma DeltaOfNode(p: Params, s: State, v: Visit)
    ensures var d := DeltaOf(p, s, v);
            && (d.escalationCount.Some? || d.runStatus.Some? ==> v.AtEscalate?)
            && (d.ticketStatus == Some(Escalated) ==> v.AtEscalate? || v.AtExecutor?)
            && (v.AtEscalate? ==> d.escalationCount == Some(s.escalationCount + 1))
  {
    hide AttemptLines, MockLines, GitLines, Judge;
  }

  /** What the state says is what the updates have said. */
  lemma {:induction false} UpdatesSay(p: Params, c0: Config, run: seq<Visit>, c: Config)
    requires Fresh(c0) && Leads(p, c0, run, c)
    ensures FromTheirNodes(c.updates)
    ensures c.state.runStatus == StatusSeen(c.updates)
    ensures EscalateVisits(c) > 0 ==> c.state.escalationCount == CountSeen(c.updates)
    ensures c.state.ticketStatus.Some? ==>
              exists i :: 0 <= i < |c.updates| && c.updates[i].delta.ticketStatus == c.state.ticketStatus
    decreases |run|
  {
    if run != [] {
      hide Next, Possible;
      var b := LastVisit(p, c0, run, c);
      UpdatesSay(p, c0, Init(run), b);
      StepSays(p, b, Last(run));
    }
  }

  lemma StepSays(p: Params, b: Config, v: Visit)
    requires CanTake(p, b, v) && FromTheirNodes(b.updates) && b.state.runStatus == StatusSeen(b.updates)
    requires EscalateVisits(b) > 0 ==> b.state.escalationCount == CountSeen(b.updates)
    requires b.state.ticketStatus.Some? ==>
               exists i :: 0 <= i < |b.updates| && b.updates[i].delta.ticketStatus == b.state.ticketStatus
    ensures var c := Next(p, b, v);
            && FromTheirNodes(c.updates) && c.state.runStatus == StatusSeen(c.updates)
            && (EscalateVisits(c) > 0 ==> c.state.escalationCount == CountSeen(c.updates))
            && (c.state.ticketStatus.Some? ==>
                  exists i :: 0 <= i < |c.updates| && c.updates[i].delta.ticketStatus == c.state.ticketStatus)
  {
    hide DeltaOf, Successor, EventsOf, LinesOf, CommandsOf, Possible;
    DeltaOfNode(p, b.state, v);
    NextUpdates(p, b, v, Escalate);
    var c := Next(p, b, v);
    assert Init(c.updates) == b.updates;
    assert forall i | 0 <= i < |b.updates| :: c.updates[i] == b.updates[i];
    assert c.updates[|b.updates|] == Update(b.node, DeltaOf(p, b.state, v));
  }

  /** The first update to carry a status is one that is reported, and so is that of a count. */
  lemma {:induction false} NewStatusIsReported(us: seq<Update>, x: RunStatus) returns (i: nat)
    requires StatusSeen(us) == Some(x)
    ensures i < |us| && us[i].delta.runStatus == Some(x) && NewStatus(us[..i], us[i].delta)
    decreases |us|
  {
    if Last(us).delta.runStatus.Some? && StatusSeen(Init(us)) != Some(x) {
      i := |us| - 1;
      assert us[..i] == Init(us);
    } else {
      i := NewStatusIsReported(Init(us), x);
      assert Init(us)[..i] == us[..i];
    }
  }

  lemma {:induction false} NewCountIsReported(us: seq<Update>, n: nat) returns (i: nat)
    requires CountSeen(us) == n > 0
    ensures i < |us| && us[i].delta.escalationCount == Some(n) && NewCount(us[..i], us[i].delta)
    decreases |us|
  {
    if Last(us).delta.escalationCount.Some? && CountSeen(Init(us)) != n {
      i := |us| - 1;
      assert us[..i] == Init(us);
    } else {
      i := NewCountIsReported(Init(us), n);
      assert Init(us)[..i] == us[..i];
    }
  }

  lemma {:induction false} NoVisits(us: seq<Update>, n: Node)
    requires Visits(us, n) == 0
    ensures forall i | 0 <= i < |us| :: us[i].node != n
    decreases |us|
  {
    if us != [] { NoVisits(Init(us), n); }
  }

  // ----- a finished run -----

  /** An envelope between the first and the last. */
  predicate Within(log: seq<Envelope>, n: int) {
    0 < n < |log| - 1
  }

  /** The escalation envelope of update i, in the log of a whole run. */
  lemma EscalationStands(request: string, us: seq<Update>, ending: Ending, i: nat) returns (n: nat)
    requires i < |us|
    requires us[i].delta.ticketStatus == Some(Escalated) || NewCount(us[..i], us[i].delta)
             || NewStatus(us[..i], us[i].delta)
    ensures var log := Number(WholeRun(request, us, ending));
            && Within(log, n) && log[n].kind == Escalation && log[n].node == Some(us[i].node)
            && log[n].payload == EscalationInfo(
                 if NewCount(us[..i], us[i].delta) then us[i].delta.escalationCount else None,
                 if NewStatus(us[..i], us[i].delta) then us[i].delta.runStatus else None,
                 us[i].delta.ticketStatus == Some(Escalated))
  {
    hide Derived, NewCount, NewStatus;
    UpdateIsReported(us, i);
    var hi := |Derived(us[..i + 1])|;
    n := hi;
    assert WholeRun(request, us, ending)[n] == Derived(us)[hi - 1];
  }

  /** And no other envelope is one: it belongs to such an update. */
  lemma EscalationFrom(request: string, us: seq<Update>, ending: Ending, n: nat) returns (i: nat)
    requires n < |Number(WholeRun(request, us, ending))|
    requires Number(WholeRun(request, us, ending))[n].kind == Escalation
    ensures i < |us| && Number(WholeRun(request, us, ending))[n].node == Some(us[i].node)
    ensures us[i].delta.ticketStatus == Some(Escalated) || NewCount(us[..i], us[i].delta)
            || NewStatus(us[..i], us[i].delta)
    ensures Number(WholeRun(request, us, ending))[n].payload == EscalationInfo(
              if NewCount(us[..i], us[i].delta) then us[i].delta.escalationCount else None,
              if NewStatus(us[..i], us[i].delta) then us[i].delta.runStatus else None,
              us[i].delta.ticketStatus == Some(Escalated))
  {
    hide Derived, NewCount, NewStatus;
    var hs := WholeRun(request, us, ending);
    assert 0 < n < |hs| - 1 && hs[n] == Derived(us)[n - 1];
    i := ComesFromUpdate(us, n - 1);
    UpdateIsReported(us, i);
    var lo, hi := |Derived(us[..i])|, |Derived(us[..i + 1])|;
    assert Derived(us)[lo..hi][n - 1 - lo] == hs[n];
  }

  /**
   * The envelopes of a finished run tell how it escalated. If it ends
   * ESCALATED, one of them says so before the last one. If it went through
   * `escalate`, one carries its count, and if it is halted, one says that. A
   * run that ends DONE has an escalation envelope exactly when an executor
   * update said ESCALATED, and then the envelope says that and no more.
   */
  lemma EscalationsAreTold(p: Params, c0: Config, run: seq<Visit>, c: Config, request: string, ending: Ending)
    requires p.maxStrikes >= 1 && Fresh(c0) && Leads(p, c0, run, c) && c.node == End
    ensures var log := Number(WholeRun(request, c.updates, ending));
            && (c.state.ticketStatus == Some(Escalated) ==>
                  exists n | Within(log, n) :: log[n].kind == Escalation && log[n].payload.EscalationInfo?
                                               && log[n].payload.escalated)
            && (EscalateVisits(c) == 1 ==>
                  exists n | Within(log, n) :: log[n].kind == Escalation && log[n].payload.EscalationInfo?
                                               && log[n].payload.count == Some(c.state.escalationCount))
            && (c.state.runStatus == Some(HaltedEscalationBudget) ==>
                  exists n | Within(log, n) :: log[n].kind == Escalation && log[n].payload.EscalationInfo?
                                               && log[n].payload.runStatus == Some(HaltedEscalationBudget))
    ensures var log := Number(WholeRun(request, c.updates, ending));
            c.state.ticketStatus == Some(Done) ==>
              && (forall n | 0 <= n < |log| && log[n].kind == Escalation ::
                    log[n].node == Some(Executor) && log[n].payload == EscalationInfo(None, None, true))
              && ((exists n | 0 <= n < |log| :: log[n].kind == Escalation) <==>
                  exists i | 0 <= i < |c.updates| ::
                    c.updates[i].node == Executor && c.updates[i].delta.ticketStatus == Some(Escalated))
  {
    hide Number, WholeRun, CountSeen, StatusSeen, Leads, Fresh, Visits, NewCount, NewStatus;
    UpdatesSay(p, c0, run, c);
    NoSilentSuccess(p, c0, run, c);
    if c.state.ticketStatus == Some(Escalated) {
      var i :| 0 <= i < |c.updates| && c.updates[i].delta.ticketStatus == Some(Escalated);
      var n := EscalationStands(request, c.updates, ending, i);
    }
    if EscalateVisits(c) == 1 {
      var i := NewCountIsReported(c.updates, c.state.escalationCount);
      var n := EscalationStands(request, c.updates, ending, i);
    }
    if c.state.runStatus == Some(HaltedEscalationBudget) {
      var i := NewStatusIsReported(c.updates, HaltedEscalationBudget);
      var n := EscalationStands(request, c.updates, ending, i);
    }
    if c.state.ticketStatus == Some(Done) { DoneTellsOfTheExecutor(p, c0, run, c, request, ending); }
  }

  lemma DoneNeverEscalates(p: Params, c0: Config, run: seq<Visit>, c: Config)
    requires p.maxStrikes >= 1 && Fresh(c0) && Leads(p, c0, run, c) && c.state.ticketStatus == Some(Done)
    ensures Visits(c.updates, Escalate) == 0
  {
    hide Next, Leads, Fresh, Visits, StrikesOnRecord, LogConserved;
    DoneIsReal(p, c0, run, c);
    RunKeepsInvariant(p, c0, run, c);
  }

  lemma DoneTellsOfTheExecutor(p: Params, c0: Config, run: seq<Visit>, c: Config, request: string, ending: Ending)
    requires p.maxStrikes >= 1 && Fresh(c0) && Leads(p, c0, run, c) && c.state.ticketStatus == Some(Done)
    ensures var log := Number(WholeRun(request, c.updates, ending));
            && (forall n | 0 <= n < |log| && log[n].kind == Escalation ::
                  log[n].node == Some(Executor) && log[n].payload == EscalationInfo(None, None, true))
            && ((exists n | 0 <= n < |log| :: log[n].kind == Escalation) <==>
                exists i | 0 <= i < |c.updates| ::
                  c.updates[i].node == Executor && c.updates[i].delta.ticketStatus == Some(Escalated))
  {
    hide Number, WholeRun, CountSeen, StatusSeen, Leads, Fresh, Visits;
    UpdatesSay(p, c0, run, c);
    DoneNeverEscalates(p, c0, run, c);
    NoVisits(c.updates, Escalate);
    var us, log := c.updates, Number(WholeRun(request, c.updates, ending));
    forall n | 0 <= n < |log| && log[n].kind == Escalation
      ensures log[n].node == Some(Executor) && log[n].payload == EscalationInfo(None, None, true)
      ensures exists i | 0 <= i < |us| :: us[i].node == Executor && us[i].delta.ticketStatus == Some(Escalated)
    {
      var i := EscalationFrom(request, us, ending, n);
    }
    forall i | 0 <= i < |us| && us[i].node == Executor && us[i].delta.ticketStatus == Some(Escalated)
      ensures exists n | 0 <= n < |log| :: log[n].kind == Escalation
    {
      var n := EscalationStands(request, us, ending, i);
    }
  }
}
