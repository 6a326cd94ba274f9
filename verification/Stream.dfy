/**
 * The event stream: `stream_run.event_source` (server/app.py:150-184) on the
 * server and `attachStream` (server/static/app.js:208-259) in the browser, as
 * the steps between their suspension points.
 */
module Stream {
  import opened PyText
  import opened Registry

  // ----- the server's end of one connection -----

  /** Where a connection's coroutine stands. */
  datatype Phase =
    | Ready                                               // about to scan the backlog
    | Sending(pending: seq<Envelope>, yielded: bool)      // yielded: suspended in the yield of pending[0]
    | Drained                                             // about to clear the event
    | Entering                                            // cleared, about to wait
    | Waiting(notified: bool)
    | Returned

  datatype Source = Source(lastSent: int, phase: Phase)

  /** `[e for e in backlog if e['seq'] > last_sent]` */
  function Pending(backlog: seq<Envelope>, cursor: int): seq<Envelope> {
    if backlog == [] then []
    else
      Pending(Init(backlog), cursor) + if Last(backlog).seqNo > cursor then [Last(backlog)] else []
  }

  function Scan(s: Source, backlog: seq<Envelope>): Source {
    var pending := Pending(backlog, s.lastSent);
    s.(phase := if pending == [] then Drained else Sending(pending, false))
  }

  /** Put the first pending envelope on the wire and suspend in the yield. */
  function Yield(s: Source): Source
    requires s.phase.Sending?
  {
    s.(phase := s.phase.(yielded := true))
  }

  /** Come back from the yield. */
  function Resume(s: Source): Source
    requires s.phase.Sending? && s.phase.pending != []
  {
    var e, rest := s.phase.pending[0], s.phase.pending[1..];
    Source(e.seqNo,
           if e.kind.IsTerminal() then Returned else if rest == [] then Drained else Sending(rest, false))
  }

  function EnterWait(s: Source, flag: bool): Source {
    s.(phase := if flag then Ready else Waiting(false))
  }

  /** `Event.set` marks everyone who waits; a later `clear` does not take that back. */
  function Notify(s: Source): Source {
    if s.phase.Waiting? then s.(phase := Waiting(true)) else s
  }

  /** One connection's coroutine, segment by segment. */
  class EventSource {
    var lastSent: int
    var phase: Phase

    function View(): Source
      reads this
    {
      Source(lastSent, phase)
    }

    constructor (after: int)
      ensures View() == Source(after, Ready)
    {
      lastSent, phase := after, Ready;
    }

    method ScanBacklog(record: RunRecord)
      requires phase.Ready?
      modifies this
      ensures View() == Scan(old(View()), record.backlog)
    {
      var pending: seq<Envelope> := [];
      for i := 0 to |record.backlog|
        invariant pending == Pending(record.backlog[..i], lastSent)
        invariant View() == old(View())
      {
        assert Init(record.backlog[..i + 1]) == record.backlog[..i];
        if record.backlog[i].seqNo > lastSent {
          pending := pending + [record.backlog[i]];
        }
      }
      assert record.backlog[..|record.backlog|] == record.backlog;
      phase := if pending == [] then Drained else Sending(pending, false);
    }

    method YieldFrame() returns (frame: Envelope)
      requires phase.Sending? && !phase.yielded && phase.pending != []
      modifies `phase
      ensures frame == old(phase).pending[0] && View() == Yield(old(View()))
    {
      frame := phase.pending[0];
      phase := phase.(yielded := true);
    }

    method ResumeAfterYield()
      requires phase.Sending? && phase.yielded && phase.pending != []
      modifies this
      ensures View() == Resume(old(View()))
    {
      var envelope, rest := phase.pending[0], phase.pending[1..];
      lastSent := envelope.seqNo;
      if envelope.kind.IsTerminal() {
        phase := Returned;
      } else {
        phase := if rest == [] then Drained else Sending(rest, false);
      }
    }

    method ClearEvent(record: RunRecord)
      requires phase.Drained?
      modifies `phase, record`newEvent
      ensures View() == old(View()).(phase := Entering) && !record.newEvent
    {
      record.newEvent := false;
      phase := Entering;
    }

    method AwaitEvent(record: RunRecord)
      requires phase.Entering?
      modifies `phase
      ensures View() == EnterWait(old(View()), record.newEvent)
      ensures lastSent == old(lastSent)
      ensures if record.newEvent then phase.Ready? else phase.Waiting? && !phase.notified
    {
      phase := if record.newEvent then Ready else Waiting(false);
    }
  }

  // ----- the browser's end -----

  datatype Client = Client(lastSeq: int, rendered: seq<Envelope>)

  function Render(c: Client, e: Envelope): Client {
    Client(e.seqNo, c.rendered + [e])
  }

  /** `attachStream` and its callbacks; a connection is the cursor it was opened with. */
  class StreamClient {
    var currentRunId: string
    var lastSeq: int
    var eventSource: Option<int>
    var rendered: seq<Envelope>

    function View(): Client
      reads this
    {
      Client(lastSeq, rendered)
    }

    constructor (runId: string, afterSeq: int)
      ensures currentRunId == runId && View() == Client(afterSeq, []) && eventSource == Some(afterSeq)
    {
      currentRunId, lastSeq, eventSource, rendered := runId, afterSeq, Some(afterSeq), [];
    }

    method OnMessage(envelope: Envelope)
      modifies `lastSeq, `rendered
      ensures View() == Render(old(View()), envelope)
    {
      lastSeq := envelope.seqNo;
      rendered := rendered + [envelope];
    }

    method OnError()
      modifies `eventSource
      ensures eventSource == None
    {
      eventSource := None;
    }

    /** The timer that `onerror` sets: reconnect if the user still looks at this run. */
    method Reattach(runId: string)
      modifies `eventSource
      ensures eventSource == if currentRunId == runId then Some(lastSeq) else old(eventSource)
    {
      if currentRunId == runId {
        eventSource := Some(lastSeq);
      }
    }
  }

  // ----- one producer and any number of viewers -----

  /** A scan: the cursor it started from and how many envelopes had been emitted. */
  datatype ScanPoint = ScanPoint(cursor: int, total: nat)

  /**
   * A connection: the server's end, what is in flight, and the history of both
   * (what the client had rendered when it connected, what was sent, the scans).
   */
  datatype Conn = Conn(
    source: Source,
    wire: seq<Envelope>,
    after: int,
    base: seq<Envelope>,
    sent: seq<Envelope>,
    scans: seq<ScanPoint>)

  /** A viewer: where it started, its client, its connection if it has one, and the scans of earlier ones. */
  datatype Peer = Peer(start: int, client: Client, conn: Option<Conn>, past: seq<ScanPoint>)

  /** `emitted` envelopes of the run's script are out. */
  datatype System = System(emitted: nat, backlog: seq<Envelope>, flag: bool, peers: map<nat, Peer>)

  datatype Step =
    | Emit
    | Join(id: nat, after: int)
    | Act(id: nat, action: Action)
    | StrayClear                 // a connection that lost its client clears the event before it notices

  datatype Action =
    | ScanNow | YieldNow | ResumeNow | ClearNow | WaitNow | Wake | Timeout
    | Deliver | DropConnection | Reconnect

  function Connect(client: Client): Conn {
    Conn(Source(client.lastSeq, Ready), [], client.lastSeq, client.rendered, [], [])
  }

  predicate Enabled(p: Peer, a: Action) {
    if a.Reconnect? then p.conn.None?
    else if a.DropConnection? then p.conn.Some?
    else if a.Deliver? then p.conn.Some? && p.conn.value.wire != []
    else
      p.conn.Some? &&
      var phase := p.conn.value.source.phase;
      match a
      case ScanNow => phase.Ready?
      case YieldNow => phase.Sending? && !phase.yielded && phase.pending != []
      case ResumeNow => phase.Sending? && phase.yielded && phase.pending != []
      case ClearNow => phase.Drained?
      case WaitNow => phase.Entering?
      case Wake => phase == Waiting(true)
      case _ => phase.Waiting?
  }

  /** What an action does to its peer; the heartbeat of a timeout carries no number and is not rendered. */
  function Effect(p: Peer, a: Action, emitted: nat, backlog: seq<Envelope>, flag: bool): Peer
    requires Enabled(p, a)
  {
    if a.Reconnect? then p.(conn := Some(Connect(p.client)))
    else if a.DropConnection? then p.(conn := None, past := p.past + p.conn.value.scans)
    else if a.Deliver? then
      var c := p.conn.value;
      p.(client := Render(p.client, c.wire[0]), conn := Some(c.(wire := c.wire[1..])))
    else
      var c := p.conn.value;
      var s := c.source;
      p.(conn := Some(
        match a {
          case ScanNow => c.(source := Scan(s, backlog), scans := c.scans + [ScanPoint(s.lastSent, emitted)])
          case YieldNow =>
            c.(source := Yield(s), wire := c.wire + [s.phase.pending[0]], sent := c.sent + [s.phase.pending[0]])
          case ResumeNow => c.(source := Resume(s))
          case ClearNow => c.(source := s.(phase := Entering))
          case WaitNow => c.(source := EnterWait(s, flag))
          case _ => c.(source := s.(phase := Ready))
        }))
  }

  function NotifyPeer(p: Peer): Peer {
    if p.conn.Some? then p.(conn := Some(p.conn.value.(source := Notify(p.conn.value.source)))) else p
  }

  predicate CanStep(script: seq<Envelope>, s: System, step: Step) {
    match step
    case Emit => s.emitted < |script|
    case Join(id, _) => id !in s.peers
    case Act(id, a) => id in s.peers && Enabled(s.peers[id], a)
    case StrayClear => true
  }

  function Apply(script: seq<Envelope>, maxlen: nat, s: System, step: Step): System
    requires CanStep(script, s, step)
  {
    match step
    case Emit =>
      System(s.emitted + 1, Push(s.backlog, maxlen, script[s.emitted]), true,
             map id | id in s.peers :: NotifyPeer(s.peers[id]))
    case Join(id, after) =>
      var client := Client(after, []);
      s.(peers := s.peers[id := Peer(after, client, Some(Connect(client)), [])])
    case Act(id, a) =>
      s.(peers := s.peers[id := Effect(s.peers[id], a, s.emitted, s.backlog, s.flag)],
         flag := s.flag && !a.ClearNow?)
    case StrayClear => s.(flag := false)
  }

  const IDLE := System(0, [], false, map[])

  /** The system after some steps from idle, if each of them could be taken. */
  function After(script: seq<Envelope>, maxlen: nat, steps: seq<Step>): Option<System> {
    if steps == [] then Some(IDLE)
    else
      match After(script, maxlen, Init(steps))
      case None => None
      case Some(s) => if CanStep(script, s, Last(steps)) then Some(Apply(script, maxlen, s, Last(steps))) else None
  }
}
