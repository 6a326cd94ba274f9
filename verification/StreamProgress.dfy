/** Once a run has emitted everything: viewers finish, and which streams return. */
module StreamProgress {
  import opened PyText
  import opened Registry
  import opened Stream
  import opened StreamTheorems

  /** What a connection and its client do while the connection lasts. */
  predicate Own(a: Action) {
    !a.DropConnection? && !a.Reconnect?
  }

  /**
   * What is left to do before the next envelope goes out. Envelopes that an
   * old scan found may run out before the last one; then there is one more
   * round of clearing, waiting, waking and scanning.
   */
  function Rank(script: seq<Envelope>, phase: Phase): nat {
    match phase
    case Returned => 0
    case Ready => 1
    case Waiting(_) => 2
    case Entering => 3
    case Drained => 4
    case Sending(pending, yielded) =>
      (if pending != [] && Last(pending).seqNo == |script| then 0 else 4) + (if yielded then 1 else 0)
  }

  /**
   * How far a connection is from having returned and delivered everything it
   * was opened for: each envelope takes a yield, a resumption and a delivery.
   */
  function Distance(script: seq<Envelope>, c: Conn): int {
    3 * (|script| - Max(Cursor(c), 0)) + Rank(script, c.source.phase) + |c.wire|
  }

  /** The stream has returned and all it sent has arrived. */
  predicate Complete(c: Conn) {
    c.source.phase.Returned? && c.wire == []
  }

  // ----- what a connection has sent, when nothing is evicted -----

  lemma NextIsNext(scans: seq<ScanPoint>, maxlen: nat, n: nat, prev: int, next: int)
    requires n <= maxlen && (forall k | 0 <= k < |scans| :: scans[k].total <= n)
    requires Accounted(scans, maxlen, prev, next) && next >= 1
    ensures next == Max(prev, 0) + 1
  {
  }

  /** It has sent a stretch of the script that starts right after its cursor. */
  lemma {:induction false} SentIsContiguous(script: seq<Envelope>, maxlen: nat, n: nat, c: Conn, i: nat)
    requires n <= maxlen && ConnOk(script, maxlen, n, c) && i < |c.sent|
    ensures c.sent[i].seqNo == Max(c.after, 0) + 1 + i
  {
    hide Rising, PhaseOk, TerminalIsLast, Accounted;
    NextIsNext(c.scans, maxlen, n, NumberBefore(c.after, c.sent, i), c.sent[i].seqNo);
    if i > 0 { SentIsContiguous(script, maxlen, n, c, i - 1); }
  }

  // ----- each step counts, and there is always one -----

  /** A connection that is about to scan, and was opened before the end, finds all that is left. */
  lemma ScanFindsTheRest(script: seq<Envelope>, maxlen: nat, c: Conn)
    requires Closed(script) && maxlen >= 1 && ConnOk(script, maxlen, |script|, c) && c.after < |script|
    requires c.source.phase.Ready?
    ensures var pending := Pending(LastN(script[..|script|], maxlen), c.source.lastSent);
            pending != [] && Last(pending).seqNo == |script|
  {
    hide Rising, GapsAccounted, Pending;
    assert c.sent != [] ==> Last(c.sent) == c.sent[|c.sent| - 1] && Last(c.sent) == script[Cursor(c) - 1];
    PendingOfBacklog(script, |script|, maxlen, c.source.lastSent);
  }

  lemma ResumeAdvances(script: seq<Envelope>, maxlen: nat, c: Conn)
    requires Closed(script) && ConnOk(script, maxlen, |script|, c)
    requires c.source.phase.Sending? && c.source.phase.yielded
    ensures c.source.phase.pending != []
    ensures Rank(script, Resume(c.source).phase) == Rank(script, c.source.phase) - 1
  {
    hide Rising, GapsAccounted, TerminalIsLast;
    var p := c.source.phase.pending;
    assert p[0] == script[p[0].seqNo - 1] && Last(p) == p[|p| - 1];
    if |p| > 1 { assert Last(p[1..]) == Last(p); }
  }

  lemma YieldAdvances(script: seq<Envelope>, maxlen: nat, c: Conn)
    requires ConnOk(script, maxlen, |script|, c) && c.source.phase.Sending? && !c.source.phase.yielded
    ensures var e := c.source.phase.pending[0];
            var c' := c.(source := Yield(c.source), wire := c.wire + [e], sent := c.sent + [e]);
            Max(Cursor(c'), 0) >= Max(Cursor(c), 0) + 1
    ensures Rank(script, Yield(c.source).phase) == Rank(script, c.source.phase) + 1
  {
    hide Rising, GapsAccounted, TerminalIsLast, Accounted;
  }

  /** Each step of a connection that was opened before the end, or of its client, brings the end nearer. */
  lemma OwnStepsAdvance(script: seq<Envelope>, maxlen: nat, p: Peer, a: Action, flag: bool)
    requires Closed(script) && maxlen >= 1 && p.conn.Some? && ConnOk(script, maxlen, |script|, p.conn.value)
    requires p.conn.value.after < |script| && Enabled(p, a) && Own(a)
    ensures var p' := Effect(p, a, |script|, LastN(script[..|script|], maxlen), flag);
            p'.conn.Some? && Distance(script, p'.conn.value) < Distance(script, p.conn.value)
  {
    hide Closed, ConnOk, Pending, Resume, LastN;
    var c := p.conn.value;
    match a
    case ScanNow => ScanFindsTheRest(script, maxlen, c);
    case YieldNow => YieldAdvances(script, maxlen, c);
    case ResumeNow => ResumeAdvances(script, maxlen, c);
    case _ =>
  }

  /** Unless it is complete there always is such a step: nobody sleeps for good. */
  lemma NeverStuck(script: seq<Envelope>, maxlen: nat, n: nat, p: Peer) returns (a: Action)
    requires p.conn.Some? && ConnOk(script, maxlen, n, p.conn.value) && !Complete(p.conn.value)
    ensures Own(a) && Enabled(p, a)
  {
    hide Rising, FromScript, GapsAccounted, TerminalIsLast;
    match p.conn.value.source.phase
    case Ready => a := ScanNow;
    case Sending(_, yielded) => a := if yielded then ResumeNow else YieldNow;
    case Drained => a := ClearNow;
    case Entering => a := WaitNow;
    case Waiting(_) => a := Timeout;
    case Returned => a := Deliver;
  }

  function OwnSteps(steps: seq<Step>, id: nat): nat {
    if steps == [] then 0
    else OwnSteps(Init(steps), id) + if Last(steps).Act? && Last(steps).id == id then 1 else 0
  }

  /** A viewer that is connected, in a system that has emitted everything. */
  ghost predicate Watching(script: seq<Envelope>, maxlen: nat, s: System, id: nat) {
    && s.emitted == |script| && s.backlog == LastN(script[..|script|], maxlen)
    && id in s.peers && s.peers[id].conn.Some? && PeerOk(script, maxlen, |script|, s.peers[id])
  }

  lemma ReachableIsWatching(script: seq<Envelope>, maxlen: nat, steps: seq<Step>, s: System, id: nat)
    requires Closed(script) && maxlen >= 1 && After(script, maxlen, steps) == Some(s) && s.emitted == |script|
    requires id in s.peers && s.peers[id].conn.Some?
    ensures Watching(script, maxlen, s, id)
  {
    hide After, PeerOk, Explained;
    ReachableIsOk(script, maxlen, steps);
  }

  /** What one step of the system does to a viewer that keeps its connection. */
  lemma StepAdvances(script: seq<Envelope>, maxlen: nat, s: System, step: Step, id: nat)
    requires Closed(script) && maxlen >= 1 && Watching(script, maxlen, s, id) && CanStep(script, s, step)
    requires step != Act(id, DropConnection)
    ensures var s' := Apply(script, maxlen, s, step);
            && s'.emitted == |script| && id in s'.peers && s'.peers[id].conn.Some?
            && s'.peers[id].start == s.peers[id].start
            && s'.peers[id].conn.value.after == s.peers[id].conn.value.after
            && (s.peers[id].conn.value.after < |script| ==>
                  Distance(script, s'.peers[id].conn.value) + (if step.Act? && step.id == id then 1 else 0)
                  <= Distance(script, s.peers[id].conn.value))
  {
    hide Closed, Effect, Distance, ConnOk, Continues;
    match step
    case Act(i, a) =>
      if i == id {
        KeepsConnection(s.peers[id], a, s.emitted, s.backlog, s.flag);
        if s.peers[id].conn.value.after < |script| {
          OwnStepsAdvance(script, maxlen, s.peers[id], a, s.flag);
        }
      }
    case _ =>
  }

  lemma KeepsConnection(p: Peer, a: Action, emitted: nat, backlog: seq<Envelope>, flag: bool)
    requires p.conn.Some? && Enabled(p, a) && !a.DropConnection?
    ensures var p' := Effect(p, a, emitted, backlog, flag);
            p'.conn.Some? && p'.start == p.start && p'.conn.value.after == p.conn.value.after && Own(a)
  {
    hide Scan, Resume;
  }

  lemma {:induction false} NumbersGrow(script: seq<Envelope>, n: nat, after: int, es: seq<Envelope>, i: nat)
    requires FromScript(script, n, es) && Rising(after, es) && i < |es|
    ensures i + 1 <= es[i].seqNo <= n
  {
    if i > 0 {
      NumbersGrow(script, n, after, es, i - 1);
      assert NumberBefore(after, es, i) < es[i].seqNo;
    }
  }

  /** The distance is what is left to do: never negative, and 3N + 4 at most. */
  lemma DistanceIsBounded(script: seq<Envelope>, maxlen: nat, p: Peer)
    requires PeerOk(script, maxlen, |script|, p) && p.conn.Some? && p.conn.value.after < |script|
    ensures 0 <= Distance(script, p.conn.value) <= 3 * |script| + 4
    ensures Distance(script, p.conn.value) == 0 ==> Complete(p.conn.value)
  {
    hide Rising, GapsAccounted, TerminalIsLast, Accounted;
    var c := p.conn.value;
    if c.sent != [] { NumbersGrow(script, |script|, c.after, c.sent, |c.sent| - 1); }
    assert |p.client.rendered + c.wire| == |c.base + c.sent|;
  }

  lemma {:induction false} KeepsAdvancing(script: seq<Envelope>, maxlen: nat, steps: seq<Step>, more: seq<Step>,
                                          s: System, s': System, id: nat)
    requires Closed(script) && maxlen >= 1
    requires After(script, maxlen, steps) == Some(s) && After(script, maxlen, steps + more) == Some(s')
    requires Watching(script, maxlen, s, id) && Act(id, DropConnection) !in more
    ensures Watching(script, maxlen, s', id)
    ensures s'.peers[id].start == s.peers[id].start
    ensures s'.peers[id].conn.value.after == s.peers[id].conn.value.after
    ensures s.peers[id].conn.value.after < |script| ==>
              OwnSteps(more, id) + Distance(script, s'.peers[id].conn.value) <= Distance(script, s.peers[id].conn.value)
    decreases |more|
  {
    hide After, Apply, CanStep, PeerOk, Distance;
    if more == [] {
      assert steps + more == steps;
    } else {
      AfterSnoc(script, maxlen, steps, more);
      var m := After(script, maxlen, steps + Init(more)).value;
      KeepsAdvancing(script, maxlen, steps, Init(more), s, m, id);
      assert Last(more) in more;
      StepAdvances(script, maxlen, m, Last(more), id);
      ReachableIsWatching(script, maxlen, steps + more, s', id);
    }
  }

  // ----- theorems: streams return -----

  /**
   * Streams return, lost wakeups or not. From the moment everything is out, a
   * connection that was opened before the end and is kept takes at most
   * 3N + 4 more steps with its client, whatever the other viewers do and
   * whatever has left the backlog; and as long as it has not returned, with
   * everything delivered, it has one to take.
   */
  lemma StreamsReturn(script: seq<Envelope>, maxlen: nat, steps: seq<Step>, more: seq<Step>,
                      s: System, s': System, id: nat)
    requires Closed(script) && maxlen >= 1
    requires After(script, maxlen, steps) == Some(s) && After(script, maxlen, steps + more) == Some(s')
    requires s.emitted == |script| && id in s.peers && s.peers[id].conn.Some?
    requires s.peers[id].conn.value.after < |script| && Act(id, DropConnection) !in more
    ensures id in s'.peers && s'.peers[id].conn.Some?
    ensures OwnSteps(more, id) <= 3 * |script| + 4
    ensures Complete(s'.peers[id].conn.value) ||
            (OwnSteps(more, id) < 3 * |script| + 4 && exists a :: Own(a) && Enabled(s'.peers[id], a))
  {
    hide After, Distance, Closed, Enabled, ConnOk, Complete;
    ReachableIsWatching(script, maxlen, steps, s, id);
    KeepsAdvancing(script, maxlen, steps, more, s, s', id);
    DistanceIsBounded(script, maxlen, s.peers[id]);
    DistanceIsBounded(script, maxlen, s'.peers[id]);
    if !Complete(s'.peers[id].conn.value) {
      var a := NeverStuck(script, maxlen, |script|, s'.peers[id]);
    }
  }

  /**
   * So a stream of a finished run returns if and only if it was opened before
   * the end. That is settled once a kept connection has no step left to take,
   * or has taken more than the 3N + 4 that can ever be needed.
   */
  lemma StreamsReturnExactlyInTime(script: seq<Envelope>, maxlen: nat, steps: seq<Step>, more: seq<Step>,
                                   s: System, s': System, id: nat)
    requires Closed(script) && maxlen >= 1
    requires After(script, maxlen, steps) == Some(s) && After(script, maxlen, steps + more) == Some(s')
    requires s.emitted == |script| && id in s.peers && s.peers[id].conn.Some?
    requires Act(id, DropConnection) !in more
    requires OwnSteps(more, id) > 3 * |script| + 4
             || (id in s'.peers && forall a | Own(a) :: !Enabled(s'.peers[id], a))
    ensures id in s'.peers && s'.peers[id].conn.Some?
    ensures s'.peers[id].conn.value.source.phase.Returned? <==> s.peers[id].conn.value.after < |script|
  {
    hide After, ConnOk, Enabled;
    ReachableIsWatching(script, maxlen, steps, s, id);
    KeepsAdvancing(script, maxlen, steps, more, s, s', id);
    if s.peers[id].conn.value.after < |script| {
      StreamsReturn(script, maxlen, steps, more, s, s', id);
    } else {
      LateStreamsNeverEnd(script, maxlen, steps + more, s', id);
    }
  }

  /**
   * A connection opened with the terminal envelope's number, as the browser
   * does when the server closes a finished stream, never sends an envelope
   * and never returns: it has only heartbeats to send.
   */
  lemma LateStreamsNeverEnd(script: seq<Envelope>, maxlen: nat, steps: seq<Step>, s: System, id: nat)
    requires Numbered(script) && After(script, maxlen, steps) == Some(s)
    requires id in s.peers && s.peers[id].conn.Some? && s.peers[id].conn.value.after >= |script|
    ensures s.peers[id].conn.value.sent == [] && !s.peers[id].conn.value.source.phase.Returned?
  {
    hide After, GapsAccounted, TerminalIsLast, Explained;
    ReachableIsOk(script, maxlen, steps);
    var c := s.peers[id].conn.value;
    assert c.sent != [] ==> NumberBefore(c.after, c.sent, 0) == c.after;
  }

  // ----- theorems: clients have the whole run -----

  lemma AtLeastOne(script: seq<Envelope>, maxlen: nat)
    requires Closed(script) && |script| <= maxlen
    ensures |script| >= 1
  {
  }

  /** A client that started from 0 and has a complete connection has rendered everything. */
  lemma CompleteMeansRendered(script: seq<Envelope>, maxlen: nat, steps: seq<Step>, s: System, id: nat)
    requires Closed(script) && |script| <= maxlen && After(script, maxlen, steps) == Some(s)
    requires id in s.peers && s.peers[id].start == 0 && s.peers[id].conn.Some?
    requires Complete(s.peers[id].conn.value) || s.peers[id].conn.value.after >= |script|
    ensures s.peers[id].client.rendered == script
  {
    hide After, ConnOk, Explained;
    ReachableIsOk(script, maxlen, steps);
    RunIsGapless(script, maxlen, steps, id);
    var p, c := s.peers[id], s.peers[id].conn.value;
    if Complete(c) {
      ReturnedMeansWholeRun(script, maxlen, steps, s, id);
      assert p.client.rendered + [] == p.client.rendered;
    } else {
      BaseIsWhole(script, p, c);
    }
  }

  lemma BaseIsWhole(script: seq<Envelope>, p: Peer, c: Conn)
    requires Numbered(script) && p.start == 0 && Continues(p, c) && Gapless(script, c.base + c.sent)
    requires c.after >= |script| >= 1
    ensures p.client.rendered == script
  {
    hide Rising;
    var all := p.client.rendered + c.wire;
    assert all == c.base + c.sent && all <= script;
    assert c.base != [] ==> c.base[|c.base| - 1] == all[|c.base| - 1] == script[|c.base| - 1];
  }

  /**
   * Viewers finish. From the moment everything is out, a client that keeps
   * its connection has rendered the whole run after at most 3N + 4 steps of
   * its own, in any order and whatever the other viewers do, and until then
   * it always has a step to take.
   */
  lemma ViewersFinish(script: seq<Envelope>, maxlen: nat, steps: seq<Step>, more: seq<Step>,
                      s: System, s': System, id: nat)
    requires Closed(script) && |script| <= maxlen
    requires After(script, maxlen, steps) == Some(s) && After(script, maxlen, steps + more) == Some(s')
    requires s.emitted == |script| && id in s.peers && s.peers[id].start == 0 && s.peers[id].conn.Some?
    requires Act(id, DropConnection) !in more
    ensures id in s'.peers
    ensures s'.peers[id].client.rendered == script ||
            (OwnSteps(more, id) < 3 * |script| + 4 && exists a :: Own(a) && Enabled(s'.peers[id], a))
  {
    hide After, ConnOk, Closed, Enabled, Complete;
    AtLeastOne(script, maxlen);
    ReachableIsWatching(script, maxlen, steps, s, id);
    KeepsAdvancing(script, maxlen, steps, more, s, s', id);
    if s.peers[id].conn.value.after < |script| {
      StreamsReturn(script, maxlen, steps, more, s, s', id);
      if Complete(s'.peers[id].conn.value) { CompleteMeansRendered(script, maxlen, steps + more, s', id); }
    } else {
      CompleteMeansRendered(script, maxlen, steps + more, s', id);
    }
  }

  // ----- from anywhere to the end -----

  lemma OneStepMore(script: seq<Envelope>, maxlen: nat, steps: seq<Step>, s: System, step: Step)
    requires After(script, maxlen, steps) == Some(s) && CanStep(script, s, step)
    ensures After(script, maxlen, steps + [step]) == Some(Apply(script, maxlen, s, step))
  {
    hide Apply, CanStep;
    assert Init(steps + [step]) == steps;
  }

  lemma {:induction false} EmitTheRest(script: seq<Envelope>, maxlen: nat, steps: seq<Step>, s: System, id: nat)
    returns (more: seq<Step>, s': System)
    requires After(script, maxlen, steps) == Some(s) && s.emitted <= |script| && id in s.peers
    ensures After(script, maxlen, steps + more) == Some(s') && s'.emitted == |script|
    ensures id in s'.peers && s'.peers[id].start == s.peers[id].start
    ensures s'.peers[id].conn.Some? <==> s.peers[id].conn.Some?
    ensures s.peers[id].conn.Some? ==> s'.peers[id].conn.value.after == s.peers[id].conn.value.after
    ensures s.peers[id].conn.Some? && s.peers[id].conn.value.source.phase.Drained? ==> s'.peers[id] == s.peers[id]
    decreases |script| - s.emitted
  {
    hide After, Push;
    if s.emitted == |script| {
      assert steps + [] == steps;
      more, s' := [], s;
    } else {
      OneStepMore(script, maxlen, steps, s, Emit);
      more, s' := EmitTheRest(script, maxlen, steps + [Emit], Apply(script, maxlen, s, Emit), id);
      ConcatAssociates(steps, [Emit], more);
      more := [Emit] + more;
    }
  }

  lemma {:induction false} Finish(script: seq<Envelope>, maxlen: nat, steps: seq<Step>, s: System, id: nat)
    returns (more: seq<Step>, s': System)
    requires Closed(script) && maxlen >= 1 && After(script, maxlen, steps) == Some(s)
    requires Watching(script, maxlen, s, id) && s.peers[id].conn.value.after < |script|
    ensures After(script, maxlen, steps + more) == Some(s') && Watching(script, maxlen, s', id)
    ensures s'.peers[id].start == s.peers[id].start && Complete(s'.peers[id].conn.value)
    decreases Distance(script, s.peers[id].conn.value)
  {
    hide After, Apply, ConnOk, Continues, Distance, Closed, Enabled, Complete, PeerOk;
    if Complete(s.peers[id].conn.value) {
      assert steps + [] == steps;
      more, s' := [], s;
    } else {
      var a := AStepToTake(script, maxlen, s.peers[id]);
      var m := Apply(script, maxlen, s, Act(id, a));
      OneStepMore(script, maxlen, steps, s, Act(id, a));
      StepAdvances(script, maxlen, s, Act(id, a), id);
      ReachableIsWatching(script, maxlen, steps + [Act(id, a)], m, id);
      DistanceIsBounded(script, maxlen, m.peers[id]);
      more, s' := Finish(script, maxlen, steps + [Act(id, a)], m, id);
      ConcatAssociates(steps, [Act(id, a)], more);
      more := [Act(id, a)] + more;
    }
  }

  lemma AStepToTake(script: seq<Envelope>, maxlen: nat, p: Peer) returns (a: Action)
    requires PeerOk(script, maxlen, |script|, p) && p.conn.Some? && !Complete(p.conn.value)
    ensures Own(a) && Enabled(p, a)
  {
    hide ConnOk, Continues, Enabled;
    a := NeverStuck(script, maxlen, |script|, p);
  }

  /**
   * Nothing that can happen cuts a viewer off: from every reachable state,
   * connected or not, a client that started from 0 can still come to render
   * the whole run.
   */
  lemma CanAlwaysFinish(script: seq<Envelope>, maxlen: nat, steps: seq<Step>, s: System, id: nat)
    returns (more: seq<Step>, s': System)
    requires Closed(script) && |script| <= maxlen && After(script, maxlen, steps) == Some(s)
    requires id in s.peers && s.peers[id].start == 0
    ensures After(script, maxlen, steps + more) == Some(s') && id in s'.peers
    ensures s'.peers[id].client.rendered == script
  {
    hide After, Watching, PeerOk, Explained;
    ReachableIsOk(script, maxlen, steps);
    var first, back, last: seq<Step>;
    var m;
    first, m := EmitTheRest(script, maxlen, steps, s, id);
    back, m := ConnectAgain(script, maxlen, steps + first, m, id);
    if m.peers[id].conn.value.after < |script| {
      ReachableIsWatching(script, maxlen, steps + first + back, m, id);
      last, s' := Finish(script, maxlen, steps + first + back, m, id);
      WatchingIsConnected(script, maxlen, s', id);
    } else {
      last, s' := [], m;
      assert steps + first + back + [] == steps + first + back;
    }
    CompleteMeansRendered(script, maxlen, steps + first + back + last, s', id);
    more := first + back + last;
    assert steps + more == steps + first + back + last;
  }

  lemma WatchingIsConnected(script: seq<Envelope>, maxlen: nat, s: System, id: nat)
    requires Watching(script, maxlen, s, id)
    ensures s.emitted == |script| && id in s.peers && s.peers[id].conn.Some?
  {
  }

  lemma ConnectAgain(script: seq<Envelope>, maxlen: nat, steps: seq<Step>, s: System, id: nat)
    returns (more: seq<Step>, s': System)
    requires After(script, maxlen, steps) == Some(s) && id in s.peers
    ensures After(script, maxlen, steps + more) == Some(s') && s'.emitted == s.emitted
    ensures id in s'.peers && s'.peers[id].conn.Some? && s'.peers[id].start == s.peers[id].start
  {
    hide After;
    if s.peers[id].conn.Some? {
      assert steps + [] == steps;
      more, s' := [], s;
    } else {
      OneStepMore(script, maxlen, steps, s, Act(id, Reconnect));
      more, s' := [Act(id, Reconnect)], Apply(script, maxlen, s, Act(id, Reconnect));
    }
  }

  // ----- the bound is exact -----

  /** While nothing is evicted each step counts just once, unless a wait ends before it began. */
  lemma OwnStepCountsOne(script: seq<Envelope>, maxlen: nat, p: Peer, a: Action, flag: bool)
    requires Closed(script) && |script| <= maxlen && p.conn.Some? && ConnOk(script, maxlen, |script|, p.conn.value)
    requires 0 <= p.conn.value.after < |script| && Enabled(p, a) && Own(a) && !(a.WaitNow? && flag)
    ensures var p' := Effect(p, a, |script|, LastN(script[..|script|], maxlen), flag);
            p'.conn.Some? && Distance(script, p'.conn.value) == Distance(script, p.conn.value) - 1
  {
    hide ConnOk, Pending, Resume, LastN;
    var c := p.conn.value;
    match a
    case ScanNow => ScanFindsTheRest(script, maxlen, c);
    case YieldNow => YieldCountsOne(script, maxlen, c);
    case ResumeNow => ResumeAdvances(script, maxlen, c);
    case _ =>
  }

  lemma YieldCountsOne(script: seq<Envelope>, maxlen: nat, c: Conn)
    requires ConnOk(script, maxlen, |script|, c) && c.source.phase.Sending? && !c.source.phase.yielded
    requires |script| <= maxlen
    ensures var e := c.source.phase.pending[0];
            var c' := c.(source := Yield(c.source), wire := c.wire + [e], sent := c.sent + [e]);
            Max(Cursor(c'), 0) == Max(Cursor(c), 0) + 1
    ensures Rank(script, Yield(c.source).phase) == Rank(script, c.source.phase) + 1
  {
    hide Rising, GapsAccounted, TerminalIsLast, Accounted;
    NextIsNext(c.scans, maxlen, |script|, Cursor(c), c.source.phase.pending[0].seqNo);
  }

  lemma {:induction false} OwnStepsCons(first: Step, more: seq<Step>, id: nat)
    ensures OwnSteps([first] + more, id) == OwnSteps(more, id) + if first.Act? && first.id == id then 1 else 0
    decreases |more|
  {
    if more == [] {
      assert [first] + more == [first] && Init([first]) == [];
    } else {
      LastOfConcat([first], more);
      OwnStepsCons(first, Init(more), id);
    }
  }

  /** A viewer that is alone, and sleeps through its heartbeat each time, takes every step of its distance. */
  lemma {:induction false} SlowFinish(script: seq<Envelope>, maxlen: nat, steps: seq<Step>, s: System)
    returns (more: seq<Step>, s': System)
    requires Closed(script) && |script| <= maxlen && After(script, maxlen, steps) == Some(s)
    requires Watching(script, maxlen, s, 0) && 0 <= s.peers[0].conn.value.after < |script|
    requires s.peers[0].conn.value.source.phase.Entering? ==> !s.flag
    ensures After(script, maxlen, steps + more) == Some(s') && Watching(script, maxlen, s', 0)
    ensures Complete(s'.peers[0].conn.value) && Act(0, DropConnection) !in more
    ensures OwnSteps(more, 0) == Distance(script, s.peers[0].conn.value)
    decreases Distance(script, s.peers[0].conn.value)
  {
    hide After, Apply, ConnOk, Continues, Distance, Closed, Enabled, Complete, PeerOk;
    DistanceIsBounded(script, maxlen, s.peers[0]);
    if Complete(s.peers[0].conn.value) {
      CompleteIsThere(script, maxlen, s.peers[0]);
      assert steps + [] == steps;
      more, s' := [], s;
    } else {
      var a := AStepToTake(script, maxlen, s.peers[0]);
      var m := SlowStep(script, maxlen, steps, s, a);
      more, s' := SlowFinish(script, maxlen, steps + [Act(0, a)], m);
      ConcatAssociates(steps, [Act(0, a)], more);
      OwnStepsCons(Act(0, a), more, 0);
      more := [Act(0, a)] + more;
    }
  }

  lemma SlowStep(script: seq<Envelope>, maxlen: nat, steps: seq<Step>, s: System, a: Action) returns (m: System)
    requires Closed(script) && |script| <= maxlen && After(script, maxlen, steps) == Some(s)
    requires Watching(script, maxlen, s, 0) && 0 <= s.peers[0].conn.value.after < |script|
    requires s.peers[0].conn.value.source.phase.Entering? ==> !s.flag
    requires Own(a) && Enabled(s.peers[0], a)
    ensures After(script, maxlen, steps + [Act(0, a)]) == Some(m) && Watching(script, maxlen, m, 0)
    ensures m.peers[0].conn.value.after == s.peers[0].conn.value.after
    ensures m.peers[0].conn.value.source.phase.Entering? ==> !m.flag
    ensures 0 <= Distance(script, m.peers[0].conn.value) == Distance(script, s.peers[0].conn.value) - 1
  {
    hide After, ConnOk, Continues, Distance, Scan, Resume;
    m := Apply(script, maxlen, s, Act(0, a));
    OneStepMore(script, maxlen, steps, s, Act(0, a));
    OwnStepCountsOne(script, maxlen, s.peers[0], a, s.flag);
    KeepsConnection(s.peers[0], a, s.emitted, s.backlog, s.flag);
    ReachableIsWatching(script, maxlen, steps + [Act(0, a)], m, 0);
    DistanceIsBounded(script, maxlen, m.peers[0]);
    EntersCleared(s.peers[0], a, s.emitted, s.backlog, s.flag);
  }

  lemma EntersCleared(p: Peer, a: Action, emitted: nat, backlog: seq<Envelope>, flag: bool)
    requires p.conn.Some? && Enabled(p, a) && Own(a) && (p.conn.value.source.phase.Entering? ==> !flag)
    ensures var p' := Effect(p, a, emitted, backlog, flag);
            p'.conn.Some? && (p'.conn.value.source.phase.Entering? ==> !(flag && !a.ClearNow?))
  {
    hide Pending;
  }

  /** A complete connection is at distance 0. */
  lemma CompleteIsThere(script: seq<Envelope>, maxlen: nat, p: Peer)
    requires Closed(script) && PeerOk(script, maxlen, |script|, p) && p.conn.Some? && p.conn.value.after < |script|
    requires Complete(p.conn.value)
    ensures Distance(script, p.conn.value) == 0
  {
    hide Rising, GapsAccounted, TerminalIsLast;
    var c := p.conn.value;
    assert Last(c.sent) == c.sent[|c.sent| - 1] && Last(c.sent) == script[Cursor(c) - 1];
  }

  /**
   * The bound is reached: a viewer that joins before the run and scans its
   * empty backlog still has to take all 3N + 4 steps when everything is out.
   */
  lemma StreamBoundIsReached(script: seq<Envelope>, maxlen: nat)
    returns (steps: seq<Step>, s: System, more: seq<Step>, s': System)
    requires Closed(script) && |script| <= maxlen
    ensures After(script, maxlen, steps) == Some(s) && After(script, maxlen, steps + more) == Some(s')
    ensures s.emitted == |script| && 0 in s.peers && s.peers[0].conn.Some? && Act(0, DropConnection) !in more
    ensures s.peers[0].conn.value.after < |script| && OwnSteps(more, 0) == 3 * |script| + 4
    ensures 0 in s'.peers && s'.peers[0].conn.Some? && Complete(s'.peers[0].conn.value)
  {
    hide After, Watching, PeerOk, Complete, Closed;
    var first: seq<Step>;
    AtLeastOne(script, maxlen);
    steps, s := TakeJoin(script, maxlen);
    assert Pending(s.backlog, 0) == [];
    steps, s := TakeAct(script, maxlen, steps, s, ScanNow);
    first, s := EmitTheRest(script, maxlen, steps, s, 0);
    steps := steps + first;
    ReachableIsWatching(script, maxlen, steps, s, 0);
    more, s' := SlowFinish(script, maxlen, steps, s);
    WatchingIsConnected(script, maxlen, s', 0);
  }

  /**
   * The browser's own way there: it is sent the whole run, the stream returns
   * and so the connection closes, and its timer opens another one with the
   * last number it saw. That one never returns.
   */
  lemma BrowsersComeBackTooLate(script: seq<Envelope>, maxlen: nat)
    returns (steps: seq<Step>, before: System, s: System)
    requires Closed(script) && |script| <= maxlen
    ensures After(script, maxlen, steps) == Some(before) && 0 in before.peers && before.peers[0].conn.Some?
    ensures Complete(before.peers[0].conn.value) && before.peers[0].client.rendered == script
    ensures After(script, maxlen, steps + [Act(0, DropConnection)] + [Act(0, Reconnect)]) == Some(s)
    ensures 0 in s.peers && s.peers[0].conn.Some? && s.peers[0].client.rendered == script
    ensures s.peers[0].conn.value.after == s.peers[0].client.lastSeq == |script|
  {
    hide After, Watching, PeerOk, Complete, Closed;
    var first, last: seq<Step>;
    var m;
    first, m := TakeJoin(script, maxlen);
    last, m := EmitTheRest(script, maxlen, first, m, 0);
    AtLeastOne(script, maxlen);
    ReachableIsWatching(script, maxlen, first + last, m, 0);
    steps := first + last;
    last, before := Finish(script, maxlen, steps, m, 0);
    steps := steps + last;
    WatchingIsConnected(script, maxlen, before, 0);
    CompleteMeansRendered(script, maxlen, steps, before, 0);
    SawTheLast(script, maxlen, steps, before, 0);
    OneStepMore(script, maxlen, steps, before, Act(0, DropConnection));
    m := Apply(script, maxlen, before, Act(0, DropConnection));
    OneStepMore(script, maxlen, steps + [Act(0, DropConnection)], m, Act(0, Reconnect));
    s := Apply(script, maxlen, m, Act(0, Reconnect));
  }

  lemma SawTheLast(script: seq<Envelope>, maxlen: nat, steps: seq<Step>, s: System, id: nat)
    requires Closed(script) && |script| <= maxlen && After(script, maxlen, steps) == Some(s)
    requires id in s.peers && s.peers[id].start == 0 && s.peers[id].client.rendered == script
    ensures s.peers[id].client.lastSeq == |script|
  {
    hide After;
    ClientsRenderAPrefix(script, maxlen, steps, s, id);
  }
}
