/** server/registry.py: one run's record, and the registry that admits one run at a time. */
module Registry {
  import opened PyText
  import opened AgentState
  import Nodes

  // ----- envelopes -----

  datatype Kind = RunStarted | NodeUpdate | AttemptEvent | Escalation | RunCompleted | RunFailed
  {
    predicate IsTerminal() { RunCompleted? || RunFailed? }
  }

  /** The payloads of server/runner.py, before redaction and capping. */
  datatype Payload =
    | Request(text: string)
    | Change(delta: Delta)
    | AttemptInfo(strike: Option<nat>, line: string)
    | EscalationInfo(count: Option<nat>, runStatus: Option<RunStatus>, escalated: bool)
    | FinalStatus(status: Option<TicketStatus>)
    | Failure(error: string)

  datatype Envelope = Envelope(seqNo: nat, kind: Kind, node: Option<Nodes.Node>, payload: Payload)

  /** Sequence numbers count from 1 without a gap. */
  ghost predicate Numbered(log: seq<Envelope>) {
    forall i | 0 <= i < |log| :: log[i].seqNo == i + 1
  }

  /** What a whole run emits: closed by one terminal envelope, the last. */
  ghost predicate Closed(script: seq<Envelope>) {
    && script != [] && Numbered(script)
    && forall i | 0 <= i < |script| :: script[i].kind.IsTerminal() <==> i == |script| - 1
  }

  // ----- the bounded backlog -----

  /** `deque(maxlen=...).append` */
  function Push(backlog: seq<Envelope>, maxlen: nat, e: Envelope): seq<Envelope> {
    LastN(backlog + [e], maxlen)
  }

  /** Pushing onto the last entries of a log gives the last entries of the longer log. */
  lemma PushKeepsTheLast(log: seq<Envelope>, maxlen: nat, e: Envelope)
    ensures Push(LastN(log, maxlen), maxlen, e) == LastN(log + [e], maxlen)
  {
    var all := log + [e];
    if |log| > maxlen {
      assert LastN(log, maxlen) + [e] == all[|log| - maxlen..];
      assert all[|log| - maxlen..][1..] == all[|all| - maxlen..];
    }
  }

  /** The backlog is the last min(n, maxlen) envelopes, and their numbers are consecutive. */
  lemma BacklogIsConsecutive(log: seq<Envelope>, maxlen: nat)
    requires Numbered(log)
    ensures var b := LastN(log, maxlen);
            && |b| == (if |log| < maxlen then |log| else maxlen)
            && forall i | 0 <= i < |b| :: b[i].seqNo == |log| - |b| + 1 + i
  {
  }

  // ----- a run's record -----

  datatype Status = Queued | Active | Completed | Failed | EscalatedRun

  /** What the runner remembers of the updates it has seen. */
  datatype Cursors = Cursors(attemptLen: nat, escalations: nat, runStatus: Option<RunStatus>)

  const NO_CURSORS := Cursors(0, 0, None)

  class RunRecord {
    const runId: string
    const rawRequest: string
    const maxlen: nat
    var status: Status
    var backlog: seq<Envelope>
    var newEvent: bool
    var seqCounter: nat
    var lastAttemptLogLen: nat
    var lastEscalationCount: nat
    var lastRunStatus: Option<RunStatus>
    ghost var emitted: seq<Envelope>

    ghost predicate Valid()
      reads this
    {
      && Numbered(emitted)
      && seqCounter == |emitted|
      && backlog == LastN(emitted, maxlen)
    }

    function Seen(): Cursors
      reads this
    {
      Cursors(lastAttemptLogLen, lastEscalationCount, lastRunStatus)
    }

    constructor (runId: string, rawRequest: string, maxlen: nat)
      ensures Valid() && emitted == [] && status == Queued && !newEvent && Seen() == NO_CURSORS
      ensures this.runId == runId && this.rawRequest == rawRequest && this.maxlen == maxlen
    {
      this.runId, this.rawRequest, this.maxlen := runId, rawRequest, maxlen;
      status, backlog, newEvent, seqCounter := Queued, [], false, 0;
      lastAttemptLogLen, lastEscalationCount, lastRunStatus := 0, 0, None;
      emitted := [];
    }

    method NextSeq() returns (n: nat)
      modifies `seqCounter
      ensures n == seqCounter == old(seqCounter) + 1
    {
      seqCounter := seqCounter + 1;
      return seqCounter;
    }

    /** Append to the backlog and wake every viewer. */
    method Emit(envelope: Envelope)
      modifies `backlog, `newEvent, `emitted
      ensures backlog == Push(old(backlog), maxlen, envelope) && newEvent
      ensures emitted == old(emitted) + [envelope]
    {
      backlog := Push(backlog, maxlen, envelope);
      newEvent := true;
      emitted := emitted + [envelope];
    }

    /** `record.emit(make_envelope(seq=record.next_seq(), ...))` */
    method EmitNext(kind: Kind, node: Option<Nodes.Node>, payload: Payload)
      requires Valid()
      modifies `seqCounter, `backlog, `newEvent, `emitted
      ensures Valid() && newEvent
      ensures emitted == old(emitted) + [Envelope(|old(emitted)| + 1, kind, node, payload)]
    {
      var n := NextSeq();
      PushKeepsTheLast(emitted, maxlen, Envelope(n, kind, node, payload));
      Emit(Envelope(n, kind, node, payload));
    }
  }

  // ----- the registry -----

  class RunRegistry {
    const maxlen: nat
    var runs: map<string, RunRecord>
    var activeRunId: Option<string>

    constructor (maxlen: nat)
      ensures this.maxlen == maxlen && runs == map[] && activeRunId == None
    {
      this.maxlen := maxlen;
      runs, activeRunId := map[], None;
    }

    /** Admit a run; null while another one is active. */
    method TryStart(runId: string, rawRequest: string) returns (record: RunRecord?)
      modifies this
      ensures old(activeRunId).Some? ==> record == null && runs == old(runs) && activeRunId == old(activeRunId)
      ensures old(activeRunId).None? ==>
                && record != null && fresh(record) && record.Valid() && record.emitted == [] && record.status == Queued
                && record.Seen() == NO_CURSORS
                && record.runId == runId && record.rawRequest == rawRequest && record.maxlen == maxlen
                && runs == old(runs)[runId := record] && activeRunId == Some(runId)
    {
      if activeRunId.Some? {
        return null;
      }
      record := new RunRecord(runId, rawRequest, maxlen);
      runs := runs[runId := record];
      activeRunId := Some(runId);
    }

    /** Only the active run's own end frees the place. */
    method Finish(runId: string)
      modifies `activeRunId
      ensures activeRunId == if old(activeRunId) == Some(runId) then None else old(activeRunId)
    {
      if activeRunId == Some(runId) {
        activeRunId := None;
      }
    }
  }
}
