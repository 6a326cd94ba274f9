/** syndicate/state.py: what the graph carries from node to node, and what a node may change of it. */
module AgentState {
  import opened PyText

  datatype TicketStatus = Pending | InProgress | LocalPass | Done | Escalated

  datatype RunStatus = Running | HaltedEscalationBudget

  datatype DecisionSummary = DecisionSummary(summary: string, attemptCount: nat)

  /**
   * The keys of a ticket that the graph reads. Every read has the form
   * `ticket.get(k) or default`, so a missing key is the empty value here.
   */
  datatype Ticket = Ticket(
    id: string,
    ticketId: string,
    title: string,
    intent: string,
    filesChanged: seq<string>,
    targetFiles: seq<string>,
    verificationCommand: string,
    rendered: string)  // repr(ticket), as it goes into the task prompt
  {
    /** `ticket.get('files_changed') or ticket.get('target_files') or []` */
    function Files(): seq<string> {
      if filesChanged != [] then filesChanged else targetFiles
    }
  }

  const NO_TICKET := Ticket("", "", "", "", [], [], "", "{}")

  /** The graph's state; absent counters read as 0, absent flags as false. */
  datatype State = State(
    hasIssue: bool,
    hasAnalysis: bool,
    activeTicket: Option<Ticket>,  // an empty dict is falsy and counts as None
    attemptLog: seq<string>,
    ledger: seq<DecisionSummary>,
    ticketStatus: Option<TicketStatus>,
    lastValidationPassed: bool,
    strikeCount: nat,
    diagnosis: Option<string>,
    escalationCount: nat,
    runStatus: Option<RunStatus>)
  {
    function Ticket(): Ticket {
      if activeTicket.Some? then activeTicket.value else NO_TICKET
    }

    function Files(): seq<string> {
      Ticket().Files()
    }
  }

  /** A node's return value: the keys it sets. */
  datatype Delta = Delta(
    hasAnalysis: Option<bool>,
    activeTicket: Option<Ticket>,
    attemptLog: Option<seq<string>>,
    ledger: Option<seq<DecisionSummary>>,
    ticketStatus: Option<TicketStatus>,
    lastValidationPassed: Option<bool>,
    strikeCount: Option<nat>,
    diagnosis: Option<Option<string>>,
    escalationCount: Option<nat>,
    runStatus: Option<RunStatus>)

  const NO_CHANGE := Delta(None, None, None, None, None, None, None, None, None, None)

  function Pick<T>(change: Option<T>, current: T): T {
    match change case None => current case Some(v) => v
  }

  /** LangGraph's merge of a delta without reducers: a key that is set replaces the old value. */
  function Merge(s: State, d: Delta): State {
    State(
      s.hasIssue,
      Pick(d.hasAnalysis, s.hasAnalysis),
      if d.activeTicket.Some? then d.activeTicket else s.activeTicket,
      Pick(d.attemptLog, s.attemptLog),
      Pick(d.ledger, s.ledger),
      if d.ticketStatus.Some? then d.ticketStatus else s.ticketStatus,
      Pick(d.lastValidationPassed, s.lastValidationPassed),
      Pick(d.strikeCount, s.strikeCount),
      Pick(d.diagnosis, s.diagnosis),
      Pick(d.escalationCount, s.escalationCount),
      if d.runStatus.Some? then d.runStatus else s.runStatus)
  }

  /** The knobs of syndicate/nodes.py, and which characters Python's repr prints as they are. */
  datatype Params = Params(
    maxStrikes: nat,
    maxToolCalls: nat,
    maxEscalations: int,
    mock: bool,
    printable: char -> bool)
}
