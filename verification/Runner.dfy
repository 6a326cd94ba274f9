/** server/runner.py: one graph run turned into envelopes. */
module Runner {
  import opened PyText
  import opened AgentState
  import opened Registry
  import opened Nodes
  import opened Graph

  // ----- attempts from log lines -----

  /** `line.split()[0]` on a line that does not start with a blank. */
  function FirstToken(line: string): string {
    if line == "" || IsSpace(line[0]) then "" else [line[0]] + FirstToken(line[1..])
  }

  /** `s.split('=', 1)[1]`, or None without an equals sign. */
  function AfterEquals(s: string): Option<string> {
    if s == "" then None else if s[0] == '=' then Some(s[1..]) else AfterEquals(s[1..])
  }

  /** The strike number of a log line, when it says one. */
  function ParseStrike(line: string): Option<nat> {
    if !StartsWith(line, "strike=") then None
    else
      match AfterEquals(FirstToken(line))
      case None => None
      case Some(digits) => ParseDecimal(digits)
  }

  const FAST_CHECK := "fast_check"

  /** One attempt for each line that mentions a fast check. */
  function AttemptsIn(lines: seq<string>): seq<Payload> {
    if lines == [] then []
    else
      var line := Last(lines);
      AttemptsIn(Init(lines)) + if Contains(line, FAST_CHECK) then [AttemptInfo(ParseStrike(line), line)] else []
  }

  /** Python's `log[n:]` */
  function Drop(log: seq<string>, n: nat): seq<string> {
    if n <= |log| then log[n..] else []
  }

  /** The lines of an update that the runner has not looked at yet. */
  function NewLines(u: Update, seen: Cursors): seq<string> {
    if u.node == Executor && u.delta.attemptLog.Some? then Drop(u.delta.attemptLog.value, seen.attemptLen) else []
  }

  function EscalationOf(d: Delta, seen: Cursors): Payload {
    EscalationInfo(
      if d.escalationCount.Some? && d.escalationCount.value != seen.escalations then d.escalationCount else None,
      if d.runStatus.Some? && d.runStatus != seen.runStatus then d.runStatus else None,
      d.ticketStatus == Some(Escalated))
  }

  const NO_ESCALATION := EscalationInfo(None, None, false)

  function SeenAfter(u: Update, seen: Cursors): Cursors {
    Cursors(
      if u.node == Executor && u.delta.attemptLog.Some? then |u.delta.attemptLog.value| else seen.attemptLen,
      Pick(u.delta.escalationCount, seen.escalations),
      if u.delta.runStatus.Some? then u.delta.runStatus else seen.runStatus)
  }

  // ----- envelopes, before numbering -----

  datatype Happening = Happening(kind: Kind, node: Option<Node>, payload: Payload)

  function AttemptHappenings(node: Node, attempts: seq<Payload>): seq<Happening> {
    seq(|attempts|, i requires 0 <= i < |attempts| => Happening(AttemptEvent, Some(node), attempts[i]))
  }

  function HappeningsOf(u: Update, seen: Cursors): seq<Happening> {
    [Happening(NodeUpdate, Some(u.node), Change(u.delta))]
    + AttemptHappenings(u.node, AttemptsIn(NewLines(u, seen)))
    + if EscalationOf(u.delta, seen) != NO_ESCALATION
      then [Happening(Escalation, Some(u.node), EscalationOf(u.delta, seen))] else []
  }

  function SeenThrough(us: seq<Update>): Cursors {
    if us == [] then NO_CURSORS else SeenAfter(Last(us), SeenThrough(Init(us)))
  }

  function Derived(us: seq<Update>): seq<Happening> {
    if us == [] then [] else Derived(Init(us)) + HappeningsOf(Last(us), SeenThrough(Init(us)))
  }

  /** How a graph run ends: an exception in the stream or in the last read, or a final state. */
  datatype Ending = StreamRaised(error: string) | ReadRaised(error: string) | Final(status: Option<TicketStatus>)

  function EndHappening(ending: Ending): Happening {
    match ending
    case StreamRaised(error) => Happening(RunFailed, None, Failure(error))
    case ReadRaised(error) => Happening(RunFailed, None, Failure(error))
    case Final(status) => Happening(RunCompleted, None, FinalStatus(status))
  }

  function EndStatus(ending: Ending): Status {
    match ending
    case Final(status) => if status == Some(Escalated) then EscalatedRun else Completed
    case _ => Failed
  }

  function Started(request: string): Happening {
    Happening(RunStarted, None, Request(request))
  }

  function WholeRun(request: string, us: seq<Update>, ending: Ending): seq<Happening> {
    [Started(request)] + Derived(us) + [EndHappening(ending)]
  }

  function Number(hs: seq<Happening>): (es: seq<Envelope>)
    ensures |es| == |hs| && Numbered(es)
    ensures forall i | 0 <= i < |hs| :: es[i] == Envelope(i + 1, hs[i].kind, hs[i].node, hs[i].payload)
  {
    seq(|hs|, i requires 0 <= i < |hs| => Envelope(i + 1, hs[i].kind, hs[i].node, hs[i].payload))
  }

  // ----- the runner -----

  method ExtractAttempts(node: Node, delta: Delta, record: RunRecord) returns (attempts: seq<Payload>)
    requires record.Valid()
    modifies record`lastAttemptLogLen
    ensures attempts == AttemptsIn(NewLines(Update(node, delta), old(record.Seen())))
    ensures var seen := old(record.Seen());
            record.Seen() == seen.(attemptLen := SeenAfter(Update(node, delta), seen).attemptLen)
    ensures record.Valid()
  {
    if node != Executor || delta.attemptLog.None? {
      return [];
    }
    var log := delta.attemptLog.value;
    var newLines := Drop(log, record.lastAttemptLogLen);
    record.lastAttemptLogLen := |log|;
    attempts := [];
    for i := 0 to |newLines|
      invariant attempts == AttemptsIn(newLines[..i])
    {
      var line := newLines[i];
      assert Init(newLines[..i + 1]) == newLines[..i];
      if Contains(line, FAST_CHECK) {
        attempts := attempts + [AttemptInfo(ParseStrike(line), line)];
      }
    }
    assert newLines[..|newLines|] == newLines;
  }

  method ExtractEscalation(delta: Delta, record: RunRecord) returns (payload: Option<Payload>)
    requires record.Valid()
    modifies record`lastEscalationCount, record`lastRunStatus
    ensures var info := EscalationOf(delta, old(record.Seen()));
            payload == if info != NO_ESCALATION then Some(info) else None
    ensures record.Seen() == old(record.Seen()).(
              escalations := Pick(delta.escalationCount, old(record.lastEscalationCount)),
              runStatus := if delta.runStatus.Some? then delta.runStatus else old(record.lastRunStatus))
    ensures record.Valid()
  {
    var info := NO_ESCALATION;
    if delta.escalationCount.Some? && delta.escalationCount.value != record.lastEscalationCount {
      record.lastEscalationCount := delta.escalationCount.value;
      info := info.(count := delta.escalationCount);
    }
    if delta.runStatus.Some? && delta.runStatus != record.lastRunStatus {
      record.lastRunStatus := delta.runStatus;
      info := info.(runStatus := delta.runStatus);
    }
    if delta.ticketStatus == Some(Escalated) {
      info := info.(escalated := true);
    }
    payload := if info != NO_ESCALATION then Some(info) else None;
  }

  lemma NumberSnoc(hs: seq<Happening>, h: Happening)
    ensures Number(hs + [h]) == Number(hs) + [Envelope(|hs| + 1, h.kind, h.node, h.payload)]
  {
  }

  method EmitHappening(record: RunRecord, h: Happening, ghost hs: seq<Happening>)
    requires record.Valid() && record.emitted == Number(hs)
    modifies record`seqCounter, record`backlog, record`newEvent, record`emitted
    ensures record.Valid() && record.emitted == Number(hs + [h])
  {
    record.EmitNext(h.kind, h.node, h.payload);
    NumberSnoc(hs, h);
  }

  method EmitAttempts(record: RunRecord, node: Node, attempts: seq<Payload>, ghost hs: seq<Happening>)
    requires record.Valid() && record.emitted == Number(hs)
    modifies record`seqCounter, record`backlog, record`newEvent, record`emitted
    ensures record.Valid() && record.emitted == Number(hs + AttemptHappenings(node, attempts))
  {
    hide Number;
    assert hs + AttemptHappenings(node, attempts[..0]) == hs;
    for i := 0 to |attempts|
      invariant record.Valid()
      invariant record.emitted == Number(hs + AttemptHappenings(node, attempts[..i]))
    {
      var h := Happening(AttemptEvent, Some(node), attempts[i]);
      EmitHappening(record, h, hs + AttemptHappenings(node, attempts[..i]));
      assert hs + AttemptHappenings(node, attempts[..i + 1]) == hs + AttemptHappenings(node, attempts[..i]) + [h];
    }
    assert attempts[..|attempts|] == attempts;
  }

  method EmitUpdate(record: RunRecord, u: Update, ghost request: string, ghost us: seq<Update>)
    requires record.Valid() && record.Seen() == SeenThrough(us)
    requires record.emitted == Number([Started(request)] + Derived(us))
    modifies record
    ensures record.Valid() && record.Seen() == SeenThrough(us + [u])
    ensures record.emitted == Number([Started(request)] + Derived(us + [u]))
  {
    hide AttemptsIn, NewLines, Number, Derived, AttemptHappenings, SeenThrough;
    ghost var hs := [Started(request)] + Derived(us);
    ghost var seen := record.Seen();
    var first := Happening(NodeUpdate, Some(u.node), Change(u.delta));
    EmitHappening(record, first, hs);
    var attempts := ExtractAttempts(u.node, u.delta, record);
    EmitAttempts(record, u.node, attempts, hs + [first]);
    ghost var hs2 := hs + [first] + AttemptHappenings(u.node, attempts);
    var escalation := ExtractEscalation(u.delta, record);
    if escalation.Some? {
      EmitHappening(record, Happening(Escalation, Some(u.node), escalation.value), hs2);
      assert hs2 + [Happening(Escalation, Some(u.node), escalation.value)] == hs + HappeningsOf(u, seen);
    } else {
      assert hs2 == hs + HappeningsOf(u, seen);
    }
    DerivedSnoc(request, us, u);
  }

  lemma DerivedSnoc(request: string, us: seq<Update>, u: Update)
    ensures [Started(request)] + Derived(us + [u]) ==
            [Started(request)] + Derived(us) + HappeningsOf(u, SeenThrough(us))
    ensures SeenThrough(us + [u]) == SeenAfter(u, SeenThrough(us))
  {
    hide HappeningsOf;
    assert Init(us + [u]) == us;
  }

  lemma NothingNumbered()
    ensures Number([]) == []
  {
  }

  /** A run's envelopes open with the request and close with how the run ended. */
  lemma RunIsFramed(request: string, us: seq<Update>, ending: Ending)
    ensures [Started(request)] + Derived(us) + [EndHappening(ending)] == WholeRun(request, us, ending)
    ensures var log := Number(WholeRun(request, us, ending));
            && log != [] && log[0] == Envelope(1, RunStarted, None, Request(request))
            && Last(log) == match ending {
                 case Final(status) => Envelope(|log|, RunCompleted, None, FinalStatus(status))
                 case StreamRaised(error) => Envelope(|log|, RunFailed, None, Failure(error))
                 case ReadRaised(error) => Envelope(|log|, RunFailed, None, Failure(error))
               }
  {
    hide Derived;
  }

  /**
   * Drive a run: `updates` is what the graph's stream yields before it ends,
   * and `ending` is how. Whatever happens, one terminal envelope closes it.
   */
  method DriveRun(record: RunRecord, updates: seq<Update>, ending: Ending)
    requires record.Valid() && record.emitted == [] && record.Seen() == NO_CURSORS
    modifies record
    ensures record.Valid()
    ensures record.emitted == Number(WholeRun(record.rawRequest, updates, ending))
    ensures record.status == EndStatus(ending)
    ensures match ending
            case Final(status) =>
              && (record.status == EscalatedRun <==> status == Some(Escalated))
              && (record.status == Completed <==> status != Some(Escalated))
            case _ => record.status == Failed
    ensures record.emitted != []
            && record.emitted[0] == Envelope(1, RunStarted, None, Request(record.rawRequest))
            && Last(record.emitted) == match ending {
                 case Final(status) => Envelope(|record.emitted|, RunCompleted, None, FinalStatus(status))
                 case StreamRaised(error) => Envelope(|record.emitted|, RunFailed, None, Failure(error))
                 case ReadRaised(error) => Envelope(|record.emitted|, RunFailed, None, Failure(error))
               }
  {
    hide HappeningsOf, SeenAfter, AttemptsIn, NewLines, WholeRun, Number, EndHappening;
    NothingNumbered();
    ghost var request := record.rawRequest;
    record.status := Active;
    EmitHappening(record, Started(record.rawRequest), []);
    assert [] + [Started(request)] == [Started(request)] + Derived([]);
    for i := 0 to |updates|
      invariant record.Valid() && record.Seen() == SeenThrough(updates[..i])
      invariant record.emitted == Number([Started(request)] + Derived(updates[..i]))
    {
      EmitUpdate(record, updates[i], request, updates[..i]);
      assert updates[..i + 1] == updates[..i] + [updates[i]];
    }
    assert updates[..|updates|] == updates;
    record.status := match ending
      case StreamRaised(_) => Failed
      case ReadRaised(_) => Failed
      case Final(status) => if status == Some(Escalated) then EscalatedRun else Completed;
    EmitHappening(record, EndHappening(ending), [Started(request)] + Derived(updates));
    RunIsFramed(request, updates, ending);
  }
}
