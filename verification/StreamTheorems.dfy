/** What viewers of a run see, under every interleaving of one producer and any number of them. */
module StreamTheorems {
  import opened PyText
  import opened Registry
  import opened Stream

  // ----- what a scan finds -----

  function Max(a: int, b: int): int {
    if a < b then b else a
  }

  /** On consecutive envelopes, the pending ones are those past the cursor. */
  function PastCursor(script: seq<Envelope>, i: nat, j: nat, cursor: int): seq<Envelope>
    requires i <= j <= |script|
  {
    if cursor >= j then [] else script[Max(i, cursor)..j]
  }

  lemma {:induction false} PendingOfSlice(script: seq<Envelope>, i: nat, j: nat, cursor: int)
    requires Numbered(script) && i <= j <= |script|
    ensures Pending(script[i..j], cursor) == PastCursor(script, i, j, cursor)
    decreases j - i
  {
    if i < j {
      hide Pending, PastCursor, Numbered;
      NumberedAt(script, j - 1);
      PendingOfSlice(script, i, j - 1, cursor);
      PendingSnoc(script[i..j - 1], script[j - 1], cursor);
      SliceSnoc(script, i, j);
      PastCursorSnoc(script, i, j, cursor);
    } else {
      assert script[i..j] == [];
    }
  }

  lemma NumberedAt(script: seq<Envelope>, k: nat)
    requires Numbered(script) && k < |script|
    ensures script[k].seqNo == k + 1
  {
  }

  lemma PastCursorSnoc(script: seq<Envelope>, i: nat, j: nat, cursor: int)
    requires i < j <= |script|
    ensures PastCursor(script, i, j, cursor) ==
            PastCursor(script, i, j - 1, cursor) + if j > cursor then [script[j - 1]] else []
  {
    if cursor < j { SliceSnoc(script, Max(i, cursor), j); }
  }

  lemma PendingSnoc(b: seq<Envelope>, e: Envelope, cursor: int)
    ensures Pending(b + [e], cursor) == Pending(b, cursor) + if e.seqNo > cursor then [e] else []
  {
    assert Init(b + [e]) == b;
  }

  lemma SliceSnoc(script: seq<Envelope>, i: nat, j: nat)
    requires i < j <= |script|
    ensures script[i..j] == script[i..j - 1] + [script[j - 1]]
  {
  }

  /** The number of the oldest envelope that is retained when `total` are out. */
  function Oldest(total: nat, maxlen: nat): nat {
    if total <= maxlen then 1 else total - maxlen + 1
  }

  lemma PendingOfBacklog(script: seq<Envelope>, n: nat, maxlen: nat, cursor: int)
    requires Numbered(script) && n <= |script|
    ensures Pending(LastN(script[..n], maxlen), cursor) ==
            PastCursor(script, Oldest(n, maxlen) - 1, n, cursor)
  {
    var i := Oldest(n, maxlen) - 1;
    assert LastN(script[..n], maxlen) == script[i..n];
    PendingOfSlice(script, i, n, cursor);
  }

  // ----- invariant of one peer -----

  /** Envelopes of the script that are already out. */
  ghost predicate FromScript(script: seq<Envelope>, n: nat, es: seq<Envelope>) {
    forall i | 0 <= i < |es| :: 1 <= es[i].seqNo <= n && n <= |script| && es[i] == script[es[i].seqNo - 1]
  }

  function NumberBefore(start: int, es: seq<Envelope>, i: nat): int
    requires i <= |es|
  {
    if i == 0 then start else es[i - 1].seqNo
  }

  /** Numbers rise strictly, from start on. */
  ghost predicate Rising(start: int, es: seq<Envelope>) {
    forall i | 0 <= i < |es| :: NumberBefore(start, es, i) < es[i].seqNo
  }

  /**
   * `next` follows `prev` without a gap, or some scan had its cursor at `prev`
   * when everything between the two had already left the backlog.
   */
  ghost predicate Accounted(scans: seq<ScanPoint>, maxlen: nat, prev: int, next: int) {
    next == prev + 1 ||
    exists k :: 0 <= k < |scans| && scans[k].cursor == prev && prev + 1 < next == Oldest(scans[k].total, maxlen)
  }

  ghost predicate GapsAccounted(scans: seq<ScanPoint>, maxlen: nat, after: int, sent: seq<Envelope>) {
    forall i | 0 <= i < |sent| :: Accounted(scans, maxlen, NumberBefore(after, sent, i), sent[i].seqNo)
  }

  function Cursor(c: Conn): int {
    NumberBefore(c.after, c.sent, |c.sent|)
  }

  ghost predicate PhaseOk(script: seq<Envelope>, maxlen: nat, n: nat, c: Conn) {
    match c.source.phase
    case Sending(p, yielded) =>
      && p != [] && FromScript(script, n, p)
      && (forall i | 0 <= i < |p| :: p[i].seqNo == p[0].seqNo + i)
      && c.scans != [] && Last(p).seqNo == Last(c.scans).total
      && if yielded then c.sent != [] && Last(c.sent) == p[0]
         else
           && c.source.lastSent == Cursor(c) < p[0].seqNo
           && Accounted(c.scans, maxlen, Cursor(c), p[0].seqNo)
    case Ready => c.source.lastSent == Cursor(c)
    case Returned => c.source.lastSent == Cursor(c) && c.sent != [] && Last(c.sent).kind.IsTerminal()
    case _ =>
      && c.source.lastSent == Cursor(c) && c.scans != []
      && (maxlen > 0 && Last(c.scans).total > 0 ==> Last(c.scans).total <= Cursor(c))
  }

  /** A terminal envelope is the last one sent, and then the coroutine returns. */
  ghost predicate TerminalIsLast(c: Conn) {
    forall i | 0 <= i < |c.sent| && c.sent[i].kind.IsTerminal() ::
      && i == |c.sent| - 1
      && (c.source.phase.Returned? || (c.source.phase.Sending? && c.source.phase.yielded))
  }

  ghost predicate ConnOk(script: seq<Envelope>, maxlen: nat, n: nat, c: Conn) {
    && FromScript(script, n, c.sent)
    && Rising(c.after, c.sent)
    && GapsAccounted(c.scans, maxlen, c.after, c.sent)
    && PhaseOk(script, maxlen, n, c)
    && TerminalIsLast(c)
    && (forall k | 0 <= k < |c.scans| :: c.scans[k].total <= n)
  }

  /** What was sent over this connection goes on from what the client had, and what arrived is a prefix of it. */
  ghost predicate Continues(p: Peer, c: Conn) {
    && c.base + c.sent == p.client.rendered + c.wire
    && |c.base| <= |p.client.rendered|
    && c.after == NumberBefore(p.start, c.base, |c.base|)
    && Rising(p.start, c.base + c.sent)
  }

  ghost predicate PeerOk(script: seq<Envelope>, maxlen: nat, n: nat, p: Peer) {
    && p.client.lastSeq == NumberBefore(p.start, p.client.rendered, |p.client.rendered|)
    && FromScript(script, n, p.client.rendered)
    && Rising(p.start, p.client.rendered)
    && (p.conn.Some? ==> ConnOk(script, maxlen, n, p.conn.value) && Continues(p, p.conn.value))
  }

  /** Every envelope that has been put on the wire for the client, over all its connections. */
  function SentToClient(p: Peer): seq<Envelope> {
    if p.conn.Some? then p.conn.value.base + p.conn.value.sent else p.client.rendered
  }

  /** The scans made for it, over all its connections. */
  function AllScans(p: Peer): seq<ScanPoint> {
    if p.conn.Some? then p.past + p.conn.value.scans else p.past
  }

  /** Across all its connections, a viewer's output has only gaps that one of its scans accounts for. */
  ghost predicate Explained(maxlen: nat, p: Peer) {
    GapsAccounted(AllScans(p), maxlen, p.start, SentToClient(p))
  }

  ghost predicate SystemOk(script: seq<Envelope>, maxlen: nat, s: System) {
    && s.emitted <= |script|
    && s.backlog == LastN(script[..s.emitted], maxlen)
    && (forall id | id in s.peers :: PeerOk(script, maxlen, s.emitted, s.peers[id]))
    && (forall id | id in s.peers :: Explained(maxlen, s.peers[id]))
  }

  // ----- every step keeps it -----

  lemma RisingPrefix(start: int, a: seq<Envelope>, b: seq<Envelope>)
    requires Rising(start, a + b)
    ensures Rising(start, a)
  {
    forall i | 0 <= i < |a| ensures NumberBefore(start, a, i) < a[i].seqNo {
      assert (a + b)[i] == a[i];
      if i > 0 { assert (a + b)[i - 1] == a[i - 1]; }
    }
  }

  lemma RisingSnoc(start: int, es: seq<Envelope>, e: Envelope)
    requires Rising(start, es) && NumberBefore(start, es, |es|) < e.seqNo
    ensures Rising(start, es + [e])
  {
    forall i | 0 <= i < |es + [e]| ensures NumberBefore(start, es + [e], i) < (es + [e])[i].seqNo {
      if i < |es| { assert NumberBefore(start, es + [e], i) == NumberBefore(start, es, i); }
    }
  }

  lemma AccountedMore(scans: seq<ScanPoint>, more: seq<ScanPoint>, maxlen: nat, prev: int, next: int)
    requires Accounted(scans, maxlen, prev, next)
    ensures Accounted(scans + more, maxlen, prev, next)
  {
    if next != prev + 1 {
      var k :| 0 <= k < |scans| && scans[k].cursor == prev && prev + 1 < next == Oldest(scans[k].total, maxlen);
      assert (scans + more)[k] == scans[k];
    }
  }

  lemma ScanKeeps(script: seq<Envelope>, maxlen: nat, n: nat, backlog: seq<Envelope>, c: Conn)
    requires Numbered(script) && n <= |script| && backlog == LastN(script[..n], maxlen)
    requires ConnOk(script, maxlen, n, c) && c.source.phase.Ready?
    ensures ConnOk(script, maxlen, n,
                   c.(source := Scan(c.source, backlog), scans := c.scans + [ScanPoint(c.source.lastSent, n)]))
  {
    hide Pending, Rising, FromScript, Accounted, TerminalIsLast;
    var cursor := c.source.lastSent;
    var point := ScanPoint(cursor, n);
    var scans := c.scans + [point];
    var c' := c.(source := Scan(c.source, backlog), scans := scans);
    PendingOfBacklog(script, n, maxlen, cursor);
    forall i | 0 <= i < |c.sent|
      ensures Accounted(scans, maxlen, NumberBefore(c.after, c.sent, i), c.sent[i].seqNo)
    {
      AccountedMore(c.scans, [point], maxlen, NumberBefore(c.after, c.sent, i), c.sent[i].seqNo);
    }
    if cursor < n && n > 0 && maxlen > 0 {
      FoundByScan(script, maxlen, n, cursor, c.scans);
    }
    ReadyIsNotTerminal(c, c');
  }

  lemma ReadyIsNotTerminal(c: Conn, c': Conn)
    requires TerminalIsLast(c) && c.source.phase.Ready? && c'.sent == c.sent
    ensures TerminalIsLast(c')
  {
  }

  /**
   * What a scan finds is consecutive, ends with the newest envelope, and
   * begins right after the cursor or at the oldest.
   */
  lemma FoundByScan(script: seq<Envelope>, maxlen: nat, n: nat, cursor: int, scans: seq<ScanPoint>)
    requires Numbered(script) && maxlen >= 1 && 0 < n <= |script| && cursor < n
    ensures var p := PastCursor(script, Oldest(n, maxlen) - 1, n, cursor);
            && p != [] && FromScript(script, n, p) && Last(p).seqNo == n && cursor < p[0].seqNo
            && (forall i | 0 <= i < |p| :: p[i].seqNo == p[0].seqNo + i)
            && Accounted(scans + [ScanPoint(cursor, n)], maxlen, cursor, p[0].seqNo)
  {
    var lo := Max(Oldest(n, maxlen) - 1, cursor);
    var p := script[lo..n];
    assert p[0].seqNo == lo + 1;
    assert (scans + [ScanPoint(cursor, n)])[|scans|] == ScanPoint(cursor, n);
  }

  lemma YieldKeeps(script: seq<Envelope>, maxlen: nat, n: nat, c: Conn)
    requires ConnOk(script, maxlen, n, c) && c.source.phase.Sending? && !c.source.phase.yielded
    ensures var e := c.source.phase.pending[0];
            && ConnOk(script, maxlen, n, c.(source := Yield(c.source), wire := c.wire + [e], sent := c.sent + [e]))
            && Cursor(c) < e.seqNo
  {
    hide Accounted, Rising, GapsAccounted;
    var e := c.source.phase.pending[0];
    RisingSnoc(c.after, c.sent, e);
    GapsSnoc(c.scans, maxlen, c.after, c.sent, e);
  }

  lemma GapsSnoc(scans: seq<ScanPoint>, maxlen: nat, after: int, es: seq<Envelope>, e: Envelope)
    requires GapsAccounted(scans, maxlen, after, es)
    requires Accounted(scans, maxlen, NumberBefore(after, es, |es|), e.seqNo)
    ensures GapsAccounted(scans, maxlen, after, es + [e])
  {
    hide Accounted;
    var all := es + [e];
    forall i | 0 <= i < |all| ensures Accounted(scans, maxlen, NumberBefore(after, all, i), all[i].seqNo) {
      assert NumberBefore(after, all, i) == NumberBefore(after, es, i);
      if i < |es| { assert all[i] == es[i]; }
    }
  }

  lemma NextIsAccounted(scans: seq<ScanPoint>, maxlen: nat, prev: int)
    ensures Accounted(scans, maxlen, prev, prev + 1)
  {
  }

  lemma ResumeKeeps(script: seq<Envelope>, maxlen: nat, n: nat, c: Conn)
    requires ConnOk(script, maxlen, n, c) && c.source.phase.Sending? && c.source.phase.yielded
    ensures ConnOk(script, maxlen, n, c.(source := Resume(c.source)))
  {
    hide Rising, GapsAccounted, Accounted;
    var p := c.source.phase.pending;
    assert Cursor(c) == p[0].seqNo;
    if |p| > 1 {
      var rest := p[1..];
      NextIsAccounted(c.scans, maxlen, Cursor(c));
      assert rest[0] == p[1] && Last(rest) == Last(p) && rest[0].seqNo == Cursor(c) + 1;
      assert forall i | 0 <= i < |rest| :: rest[i] == p[i + 1];
    } else {
      assert p[1..] == [] && Last(p) == p[0];
    }
  }

  lemma WaitingKeeps(script: seq<Envelope>, maxlen: nat, n: nat, c: Conn, source: Source)
    requires ConnOk(script, maxlen, n, c)
    requires c.source.phase.Drained? || c.source.phase.Entering? || c.source.phase.Waiting?
    requires source.lastSent == c.source.lastSent
    requires source.phase.Ready? || source.phase.Entering? || source.phase.Waiting?
    ensures ConnOk(script, maxlen, n, c.(source := source))
  {
  }

  lemma MoreEmittedKeeps(script: seq<Envelope>, maxlen: nat, n: nat, p: Peer)
    requires PeerOk(script, maxlen, n, p) && n < |script|
    ensures PeerOk(script, maxlen, n + 1, NotifyPeer(p))
  {
    hide Rising, Accounted;
  }

  lemma EffectKeeps(script: seq<Envelope>, maxlen: nat, s: System, p: Peer, a: Action)
    requires Numbered(script) && s.emitted <= |script|
    requires s.backlog == LastN(script[..s.emitted], maxlen)
    requires PeerOk(script, maxlen, s.emitted, p) && Enabled(p, a)
    ensures PeerOk(script, maxlen, s.emitted, Effect(p, a, s.emitted, s.backlog, s.flag))
  {
    var n := s.emitted;
    match a
    case Reconnect => ReconnectKeeps(script, maxlen, n, p);
    case DropConnection =>
    case Deliver => DeliverKeeps(script, maxlen, n, p);
    case ScanNow => ScanKeeps(script, maxlen, n, s.backlog, p.conn.value);
    case YieldNow =>
      YieldKeeps(script, maxlen, n, p.conn.value);
      YieldContinues(p, p.conn.value);
    case ResumeNow => ResumeKeeps(script, maxlen, n, p.conn.value);
    case ClearNow => WaitingKeeps(script, maxlen, n, p.conn.value, p.conn.value.source.(phase := Entering));
    case WaitNow => WaitingKeeps(script, maxlen, n, p.conn.value, EnterWait(p.conn.value.source, s.flag));
    case _ => WaitingKeeps(script, maxlen, n, p.conn.value, p.conn.value.source.(phase := Ready));
  }

  lemma YieldContinues(p: Peer, c: Conn)
    requires Continues(p, c) && c.source.phase.Sending? && c.source.phase.pending != []
    requires Cursor(c) < c.source.phase.pending[0].seqNo
    ensures var e := c.source.phase.pending[0];
            Continues(p, c.(source := Yield(c.source), wire := c.wire + [e], sent := c.sent + [e]))
  {
    var e := c.source.phase.pending[0];
    assert c.base + (c.sent + [e]) == (c.base + c.sent) + [e];
    assert p.client.rendered + (c.wire + [e]) == (p.client.rendered + c.wire) + [e];
    assert NumberBefore(p.start, c.base + c.sent, |c.base + c.sent|) == Cursor(c);
    RisingSnoc(p.start, c.base + c.sent, e);
  }

  lemma ReconnectKeeps(script: seq<Envelope>, maxlen: nat, n: nat, p: Peer)
    requires PeerOk(script, maxlen, n, p) && p.conn.None?
    ensures PeerOk(script, maxlen, n, p.(conn := Some(Connect(p.client))))
  {
    var c := Connect(p.client);
    assert c.base + c.sent == p.client.rendered;
  }

  lemma WireIsFree(script: seq<Envelope>, maxlen: nat, n: nat, c: Conn, wire: seq<Envelope>)
    requires ConnOk(script, maxlen, n, c)
    ensures ConnOk(script, maxlen, n, c.(wire := wire))
  {
    hide Rising, FromScript, GapsAccounted, Accounted;
  }

  lemma DeliverKeeps(script: seq<Envelope>, maxlen: nat, n: nat, p: Peer)
    requires PeerOk(script, maxlen, n, p) && p.conn.Some? && p.conn.value.wire != []
    ensures var c := p.conn.value;
            PeerOk(script, maxlen, n, p.(client := Render(p.client, c.wire[0]), conn := Some(c.(wire := c.wire[1..]))))
  {
    hide Rising, FromScript, ConnOk, Continues;
    var c := p.conn.value;
    DeliverContinues(p, c);
    DeliverFromScript(script, maxlen, n, p, c);
    WireIsFree(script, maxlen, n, c, c.wire[1..]);
  }

  lemma DeliverContinues(p: Peer, c: Conn)
    requires Continues(p, c) && c.wire != []
    ensures Rising(p.start, p.client.rendered + [c.wire[0]])
    ensures Continues(p.(client := Render(p.client, c.wire[0]), conn := Some(c.(wire := c.wire[1..]))),
                      c.(wire := c.wire[1..]))
  {
    hide Rising;
    var rendered := p.client.rendered + [c.wire[0]];
    assert c.wire == [c.wire[0]] + c.wire[1..];
    ConcatAssociates(p.client.rendered, [c.wire[0]], c.wire[1..]);
    RisingPrefix(p.start, rendered, c.wire[1..]);
  }

  lemma DeliverFromScript(script: seq<Envelope>, maxlen: nat, n: nat, p: Peer, c: Conn)
    requires FromScript(script, n, p.client.rendered) && ConnOk(script, maxlen, n, c) && Continues(p, c) && c.wire != []
    ensures FromScript(script, n, p.client.rendered + [c.wire[0]])
  {
    hide Rising, FromScript, GapsAccounted, PhaseOk, TerminalIsLast;
    RenderedFromScript(script, n, p, c);
  }

  lemma RenderedFromScript(script: seq<Envelope>, n: nat, p: Peer, c: Conn)
    requires FromScript(script, n, p.client.rendered) && FromScript(script, n, c.sent)
    requires c.base + c.sent == p.client.rendered + c.wire && |c.base| <= |p.client.rendered| && c.wire != []
    ensures FromScript(script, n, p.client.rendered + [c.wire[0]])
  {
    var k := |p.client.rendered|;
    assert (c.base + c.sent)[k] == c.sent[k - |c.base|] == c.wire[0];
  }

  lemma AccountedBefore(past: seq<ScanPoint>, scans: seq<ScanPoint>, maxlen: nat, prev: int, next: int)
    requires Accounted(scans, maxlen, prev, next)
    ensures Accounted(past + scans, maxlen, prev, next)
  {
    if next != prev + 1 {
      var k :| 0 <= k < |scans| && scans[k].cursor == prev && prev + 1 < next == Oldest(scans[k].total, maxlen);
      assert (past + scans)[|past| + k] == scans[k];
    }
  }

  lemma GapsMore(scans: seq<ScanPoint>, more: seq<ScanPoint>, maxlen: nat, after: int, es: seq<Envelope>)
    requires GapsAccounted(scans, maxlen, after, es)
    ensures GapsAccounted(scans + more, maxlen, after, es)
  {
    hide Accounted;
    forall i | 0 <= i < |es| ensures Accounted(scans + more, maxlen, NumberBefore(after, es, i), es[i].seqNo) {
      AccountedMore(scans, more, maxlen, NumberBefore(after, es, i), es[i].seqNo);
    }
  }

  lemma GapsPrefix(scans: seq<ScanPoint>, maxlen: nat, after: int, es: seq<Envelope>, more: seq<Envelope>)
    requires GapsAccounted(scans, maxlen, after, es + more)
    ensures GapsAccounted(scans, maxlen, after, es)
  {
    hide Accounted;
    var all := es + more;
    forall i | 0 <= i < |es| ensures Accounted(scans, maxlen, NumberBefore(after, es, i), es[i].seqNo) {
      assert NumberBefore(after, es, i) == NumberBefore(after, all, i) && es[i] == all[i];
    }
  }

  /** A yield goes on from the last number of all that was sent, as one of the connection's scans allows. */
  lemma YieldIsExplained(script: seq<Envelope>, maxlen: nat, n: nat, p: Peer, c: Conn)
    requires p.conn == Some(c) && ConnOk(script, maxlen, n, c) && Continues(p, c) && Explained(maxlen, p)
    requires c.source.phase.Sending? && !c.source.phase.yielded && c.source.phase.pending != []
    ensures GapsAccounted(p.past + c.scans, maxlen, p.start, c.base + (c.sent + [c.source.phase.pending[0]]))
  {
    hide Rising, FromScript, GapsAccounted, Accounted, TerminalIsLast;
    var e, all := c.source.phase.pending[0], c.base + c.sent;
    assert NumberBefore(p.start, all, |all|) == Cursor(c) by { CursorOfAll(p, c); }
    AccountedBefore(p.past, c.scans, maxlen, Cursor(c), e.seqNo);
    GapsSnoc(p.past + c.scans, maxlen, p.start, all, e);
    ConcatAssociates(c.base, c.sent, [e]);
  }

  lemma CursorOfAll(p: Peer, c: Conn)
    requires Continues(p, c)
    ensures NumberBefore(p.start, c.base + c.sent, |c.base + c.sent|) == Cursor(c)
  {
    hide Rising;
  }

  lemma EffectIsExplained(script: seq<Envelope>, maxlen: nat, n: nat, p: Peer, a: Action,
                          backlog: seq<Envelope>, flag: bool)
    requires PeerOk(script, maxlen, n, p) && Explained(maxlen, p) && Enabled(p, a)
    ensures Explained(maxlen, Effect(p, a, n, backlog, flag))
  {
    hide Rising, FromScript, GapsAccounted, ConnOk, Pending, Scan, Resume;
    match a
    case YieldNow => YieldIsExplained(script, maxlen, n, p, p.conn.value);
    case ScanNow =>
      var c := p.conn.value;
      var point := ScanPoint(c.source.lastSent, n);
      GapsMore(p.past + c.scans, [point], maxlen, p.start, c.base + c.sent);
      ConcatAssociates(p.past, c.scans, [point]);
    case DropConnection =>
      var c := p.conn.value;
      GapsPrefix(p.past + c.scans, maxlen, p.start, p.client.rendered, c.wire);
    case Reconnect =>
      assert p.client.rendered + [] == p.client.rendered && p.past + [] == p.past;
    case _ =>
  }

  lemma StepKeeps(script: seq<Envelope>, maxlen: nat, s: System, step: Step)
    requires Numbered(script) && SystemOk(script, maxlen, s) && CanStep(script, s, step)
    ensures SystemOk(script, maxlen, Apply(script, maxlen, s, step))
  {
    hide PeerOk, Explained, Effect, Numbered, Push, LastN;
    match step
    case Emit =>
      PushKeepsTheLast(script[..s.emitted], maxlen, script[s.emitted]);
      assert script[..s.emitted] + [script[s.emitted]] == script[..s.emitted + 1];
      forall id | id in s.peers ensures PeerOk(script, maxlen, s.emitted + 1, NotifyPeer(s.peers[id])) {
        MoreEmittedKeeps(script, maxlen, s.emitted, s.peers[id]);
      }
      forall id | id in s.peers ensures Explained(maxlen, NotifyPeer(s.peers[id])) {
        NotifiedIsExplained(maxlen, s.peers[id]);
      }
    case Join(id, after) =>
      JoinIsOk(script, maxlen, s.emitted, after);
      JoinIsExplained(maxlen, after);
    case Act(id, a) =>
      EffectKeeps(script, maxlen, s, s.peers[id], a);
      EffectIsExplained(script, maxlen, s.emitted, s.peers[id], a, s.backlog, s.flag);
    case StrayClear =>
  }

  lemma NotifiedIsExplained(maxlen: nat, p: Peer)
    requires Explained(maxlen, p)
    ensures Explained(maxlen, NotifyPeer(p))
  {
    hide GapsAccounted;
  }

  lemma JoinIsExplained(maxlen: nat, after: int)
    ensures Explained(maxlen, Peer(after, Client(after, []), Some(Connect(Client(after, []))), []))
  {
  }

  lemma JoinIsOk(script: seq<Envelope>, maxlen: nat, n: nat, after: int)
    ensures PeerOk(script, maxlen, n, Peer(after, Client(after, []), Some(Connect(Client(after, []))), []))
  {
    var p := Peer(after, Client(after, []), None, []);
    ReconnectKeeps(script, maxlen, n, p);
  }

  lemma {:induction false} ReachableIsOk(script: seq<Envelope>, maxlen: nat, steps: seq<Step>)
    requires Numbered(script) && After(script, maxlen, steps).Some?
    ensures SystemOk(script, maxlen, After(script, maxlen, steps).value)
    decreases |steps|
  {
    hide SystemOk, Apply, CanStep, Numbered;
    if steps == [] {
      IdleIsOk(script, maxlen);
    } else {
      ReachableIsOk(script, maxlen, Init(steps));
      StepKeeps(script, maxlen, After(script, maxlen, Init(steps)).value, Last(steps));
    }
  }

  lemma IdleIsOk(script: seq<Envelope>, maxlen: nat)
    ensures SystemOk(script, maxlen, IDLE)
  {
    assert script[..0] == [];
  }

  // ----- theorems: any backlog, any cursor -----

  /**
   * Whatever the backlog's bound, the cursor a viewer starts from and the
   * interleaving: what a viewer has rendered, and what is on its way to it,
   * are envelopes of the run in strictly rising order. Over all its
   * connections a number is missing only where a scan made for it found its
   * cursor behind everything that was still retained.
   */
  lemma ViewersSeeRisingNumbers(script: seq<Envelope>, maxlen: nat, steps: seq<Step>, s: System, id: nat)
    requires Numbered(script) && After(script, maxlen, steps) == Some(s) && id in s.peers
    ensures var p := s.peers[id];
            var output := p.client.rendered + if p.conn.Some? then p.conn.value.wire else [];
            && Rising(p.start, output) && FromScript(script, s.emitted, output)
            && GapsAccounted(AllScans(p), maxlen, p.start, output)
  {
    hide Rising, FromScript, GapsAccounted, PhaseOk, TerminalIsLast, After, Numbered;
    ReachableIsOk(script, maxlen, steps);
    var p := s.peers[id];
    if p.conn.Some? {
      SentFromScript(script, s.emitted, p, p.conn.value);
    } else {
      assert p.client.rendered + [] == p.client.rendered;
    }
  }

  lemma SentFromScript(script: seq<Envelope>, n: nat, p: Peer, c: Conn)
    requires FromScript(script, n, p.client.rendered) && FromScript(script, n, c.sent) && Continues(p, c)
    ensures FromScript(script, n, p.client.rendered + c.wire)
  {
    hide Rising, FromScript;
    assert c.base == p.client.rendered[..|c.base|] by {
      assert (c.base + c.sent)[..|c.base|] == (p.client.rendered + c.wire)[..|c.base|];
    }
    FromScriptPrefix(script, n, p.client.rendered, |c.base|);
    FromScriptConcat(script, n, c.base, c.sent);
  }

  lemma FromScriptPrefix(script: seq<Envelope>, n: nat, es: seq<Envelope>, k: nat)
    requires FromScript(script, n, es) && k <= |es|
    ensures FromScript(script, n, es[..k])
  {
  }

  lemma FromScriptConcat(script: seq<Envelope>, n: nat, a: seq<Envelope>, b: seq<Envelope>)
    requires FromScript(script, n, a) && FromScript(script, n, b)
    ensures FromScript(script, n, a + b)
  {
    assert forall i | 0 <= i < |a + b| :: (a + b)[i] == if i < |a| then a[i] else b[i - |a|];
  }

  /**
   * An envelope that is emitted sets the event, and every viewer that sleeps
   * can wake because of it; nothing else about any viewer changes.
   */
  lemma EmitWakesSleepers(script: seq<Envelope>, maxlen: nat, s: System, id: nat)
    requires s.emitted < |script| && id in s.peers
    ensures var s' := Apply(script, maxlen, s, Emit);
            && s'.emitted == s.emitted + 1 && s'.flag && s'.peers.Keys == s.peers.Keys
            && (maxlen > 0 ==> s'.backlog != [] && Last(s'.backlog) == script[s.emitted])
            && var p, p' := s.peers[id], s'.peers[id];
               if p.conn.Some? && p.conn.value.source.phase.Waiting? then
                 && Enabled(p', Wake)
                 && p' == p.(conn := Some(p.conn.value.(source := p'.conn.value.source)))
                 && p'.conn.value.source.lastSent == p.conn.value.source.lastSent
               else p' == p
  {
    if maxlen > 0 {
      LastIsKept(s.backlog + [script[s.emitted]], maxlen);
    }
  }

  /** A wait that begins when the event is set is over at once; otherwise the viewer sleeps, unnotified. */
  lemma SetEventEndsTheWait(script: seq<Envelope>, maxlen: nat, s: System, id: nat)
    requires id in s.peers && Enabled(s.peers[id], WaitNow)
    ensures var p, s' := s.peers[id], Apply(script, maxlen, s, Act(id, WaitNow));
            && s' == s.(peers := s.peers[id := s'.peers[id]])
            && var p' := s'.peers[id];
               && p'.conn.Some?
               && p' == p.(conn := Some(p.conn.value.(source := p'.conn.value.source)))
               && p'.conn.value.source.lastSent == p.conn.value.source.lastSent
               && (Enabled(p', ScanNow) <==> s.flag)
               && (Enabled(p', Timeout) <==> !s.flag) && !Enabled(p', Wake)
  {
  }

  /** The backlog is exactly the last min(n, maxlen) envelopes, whose numbers are consecutive. */
  lemma BacklogIsTheLast(script: seq<Envelope>, maxlen: nat, steps: seq<Step>, s: System)
    requires Numbered(script) && After(script, maxlen, steps) == Some(s)
    ensures s.emitted <= |script| && |s.backlog| == (if s.emitted < maxlen then s.emitted else maxlen)
    ensures forall i | 0 <= i < |s.backlog| :: s.backlog[i].seqNo == s.emitted - |s.backlog| + 1 + i
    ensures forall i | 0 <= i < |s.backlog| :: s.backlog[i] == script[s.emitted - |s.backlog| + i]
  {
    hide After, PeerOk, Explained;
    ReachableIsOk(script, maxlen, steps);
    BacklogIsConsecutive(script[..s.emitted], maxlen);
  }

  /**
   * A stream returns only after it has sent a terminal envelope, which is the
   * last thing it sent; while it has not returned, a terminal envelope can
   * only be the one in the yield it is suspended in.
   */
  lemma StreamEndsWithTerminal(script: seq<Envelope>, maxlen: nat, steps: seq<Step>, s: System, id: nat)
    requires Numbered(script) && After(script, maxlen, steps) == Some(s)
    requires id in s.peers && s.peers[id].conn.Some?
    ensures var c := s.peers[id].conn.value;
            && (c.source.phase.Returned? ==> c.sent != [] && Last(c.sent).kind.IsTerminal())
            && forall i | 0 <= i < |c.sent| && c.sent[i].kind.IsTerminal() ::
                 i == |c.sent| - 1
                 && (c.source.phase.Returned? || (c.source.phase.Sending? && c.source.phase.yielded))
  {
    hide Rising, FromScript, GapsAccounted, After, Numbered;
    ReachableIsOk(script, maxlen, steps);
  }

  // ----- theorems: lost wakeups -----

  /** The connection has yet to scan, or has scanned when at least m envelopes were out. */
  ghost predicate KeepsUp(m: nat, p: Peer) {
    p.conn.Some? ==>
      var c := p.conn.value;
      c.source.phase.Ready? || (c.scans != [] && Last(c.scans).total >= m)
  }

  lemma StepKeepsUp(script: seq<Envelope>, maxlen: nat, s: System, step: Step, id: nat, m: nat)
    requires CanStep(script, s, step) && id in s.peers && m <= s.emitted && KeepsUp(m, s.peers[id])
    ensures var s' := Apply(script, maxlen, s, step);
            id in s'.peers && m <= s'.emitted && KeepsUp(m, s'.peers[id])
  {
    hide Pending, Push;
  }

  lemma AfterSnoc(script: seq<Envelope>, maxlen: nat, steps: seq<Step>, more: seq<Step>)
    requires more != [] && After(script, maxlen, steps + more).Some?
    ensures After(script, maxlen, steps + Init(more)).Some?
    ensures var s := After(script, maxlen, steps + Init(more)).value;
            && CanStep(script, s, Last(more))
            && After(script, maxlen, steps + more) == Some(Apply(script, maxlen, s, Last(more)))
  {
    hide Apply, CanStep;
    assert Init(steps + more) == steps + Init(more);
  }

  lemma {:induction false} RunKeepsUp(script: seq<Envelope>, maxlen: nat, steps: seq<Step>, more: seq<Step>, id: nat)
    requires After(script, maxlen, steps).Some? && After(script, maxlen, steps + more).Some?
    requires var s := After(script, maxlen, steps).value; id in s.peers && KeepsUp(s.emitted, s.peers[id])
    ensures var s, s' := After(script, maxlen, steps).value, After(script, maxlen, steps + more).value;
            id in s'.peers && s.emitted <= s'.emitted && KeepsUp(s.emitted, s'.peers[id])
    decreases |more|
  {
    hide After, Apply, CanStep, KeepsUp;
    if more == [] {
      assert steps + more == steps;
    } else {
      AfterSnoc(script, maxlen, steps, more);
      RunKeepsUp(script, maxlen, steps, Init(more), id);
      StepKeepsUp(script, maxlen, After(script, maxlen, steps + Init(more)).value, Last(more), id,
                  After(script, maxlen, steps).value.emitted);
    }
  }

  /**
   * Lost wakeups do no harm. Take any moment when a viewer is awake and about
   * to scan (it woke, its heartbeat came, or it has just connected), and any
   * later moment when it is going back to sleep or asleep: by then it has sent
   * everything that was out at the first moment, whoever cleared the event.
   */
  lemma WakeCoversWhatWasEmitted(script: seq<Envelope>, maxlen: nat, steps: seq<Step>, more: seq<Step>,
                                 s: System, s': System, id: nat)
    requires Numbered(script) && maxlen >= 1
    requires After(script, maxlen, steps) == Some(s) && After(script, maxlen, steps + more) == Some(s')
    requires id in s.peers && s.peers[id].conn.Some? && s.peers[id].conn.value.source.phase.Ready?
    ensures id in s'.peers
    ensures s'.peers[id].conn.Some? ==>
              var source := s'.peers[id].conn.value.source;
              (source.phase.Drained? || source.phase.Entering? || source.phase.Waiting?) && s.emitted > 0 ==>
                source.lastSent >= s.emitted
  {
    hide After, Rising, FromScript, GapsAccounted, TerminalIsLast, Numbered;
    RunKeepsUp(script, maxlen, steps, more, id);
    ReachableIsOk(script, maxlen, steps + more);
  }

  lemma TakeEmit(script: seq<Envelope>, maxlen: nat, steps: seq<Step>, s: System)
    returns (steps': seq<Step>, s': System)
    requires After(script, maxlen, steps) == Some(s) && s.emitted < |script| && 0 in s.peers
    ensures After(script, maxlen, steps') == Some(s')
    ensures s'.emitted == s.emitted + 1 && s'.backlog == Push(s.backlog, maxlen, script[s.emitted]) && s'.flag
    ensures 0 in s'.peers && s'.peers[0] == NotifyPeer(s.peers[0])
  {
    hide Push, NotifyPeer;
    steps', s' := steps + [Emit], Apply(script, maxlen, s, Emit);
    assert Init(steps') == steps;
  }

  lemma TakeAct(script: seq<Envelope>, maxlen: nat, steps: seq<Step>, s: System, a: Action)
    returns (steps': seq<Step>, s': System)
    requires After(script, maxlen, steps) == Some(s) && 0 in s.peers && Enabled(s.peers[0], a)
    ensures After(script, maxlen, steps') == Some(s')
    ensures s'.emitted == s.emitted && s'.backlog == s.backlog && s'.flag == (s.flag && !a.ClearNow?)
    ensures 0 in s'.peers && s'.peers[0] == Effect(s.peers[0], a, s.emitted, s.backlog, s.flag)
  {
    hide Effect, Enabled;
    steps', s' := steps + [Act(0, a)], Apply(script, maxlen, s, Act(0, a));
    assert Init(steps') == steps;
  }

  lemma TakeJoin(script: seq<Envelope>, maxlen: nat) returns (steps: seq<Step>, s: System)
    ensures After(script, maxlen, steps) == Some(s)
    ensures s.emitted == 0 && s.backlog == [] && 0 in s.peers
    ensures s.peers[0] == Peer(0, Client(0, []), Some(Connect(Client(0, []))), [])
  {
    steps, s := [Join(0, 0)], Apply(script, maxlen, IDLE, Join(0, 0));
    assert Init(steps) == [];
  }

  lemma PushOne(maxlen: nat, e: Envelope)
    requires maxlen >= 1 && e.seqNo > 0
    ensures Push([], maxlen, e) == [e] && Pending([e], 0) == [e]
  {
    assert [] + [e] == [e];
    assert Init([e]) == [] && Pending([], 0) == [];
  }

  /**
   * Wakeups are really lost: an emit that lands while a viewer is suspended in
   * a yield sets the event, and the viewer then clears it without looking. It
   * sleeps unnotified behind the newest envelope; only its heartbeat or the
   * next emit will wake it.
   */
  lemma WakeupsAreLost(script: seq<Envelope>, maxlen: nat) returns (steps: seq<Step>, s: System)
    requires Numbered(script) && |script| >= 2 && maxlen >= 1 && !script[0].kind.IsTerminal()
    ensures After(script, maxlen, steps) == Some(s)
    ensures 0 in s.peers && s.peers[0].conn.Some? && !s.flag
    ensures s.peers[0].conn.value.source == Source(1, Waiting(false)) && s.emitted == 2
  {
    hide Pending, Push, After;
    PushOne(maxlen, script[0]);
    steps, s := TakeJoin(script, maxlen);
    steps, s := TakeEmit(script, maxlen, steps, s);
    steps, s := TakeAct(script, maxlen, steps, s, ScanNow);
    steps, s := TakeAct(script, maxlen, steps, s, YieldNow);
    assert s.peers[0].conn.value.source == Source(0, Sending([script[0]], true));
    steps, s := TakeEmit(script, maxlen, steps, s);
    steps, s := TakeAct(script, maxlen, steps, s, ResumeNow);
    assert s.peers[0].conn.value.source == Source(1, Drained);
    steps, s := TakeAct(script, maxlen, steps, s, ClearNow);
    steps, s := TakeAct(script, maxlen, steps, s, WaitNow);
  }

  // ----- theorems: nothing is evicted -----

  /** From the first envelope on, without a gap. */
  ghost predicate Gapless(script: seq<Envelope>, es: seq<Envelope>) {
    es <= script
  }

  lemma EffectIsGapless(script: seq<Envelope>, maxlen: nat, s: System, p: Peer, a: Action)
    requires Numbered(script) && 1 <= |script| <= maxlen && s.emitted <= |script| && p.start == 0
    requires PeerOk(script, maxlen, s.emitted, p) && Enabled(p, a) && Gapless(script, SentToClient(p))
    ensures Gapless(script, SentToClient(Effect(p, a, s.emitted, s.backlog, s.flag)))
  {
    hide Rising, FromScript, ConnOk, Pending, Numbered;
    match a
    case YieldNow => YieldIsGapless(script, maxlen, s.emitted, p, p.conn.value);
    case DropConnection => assert p.client.rendered <= p.client.rendered + p.conn.value.wire;
    case _ => SentStays(p, a, s.emitted, s.backlog, s.flag);
  }

  /** Only a yield adds to what was sent, and only losing the connection takes from it. */
  lemma SentStays(p: Peer, a: Action, emitted: nat, backlog: seq<Envelope>, flag: bool)
    requires Enabled(p, a) && !a.YieldNow? && !a.DropConnection?
    ensures SentToClient(Effect(p, a, emitted, backlog, flag)) == SentToClient(p)
  {
    hide Scan, Resume, EnterWait;
    if a.Reconnect? { assert p.client.rendered + [] == p.client.rendered; }
  }

  lemma YieldIsGapless(script: seq<Envelope>, maxlen: nat, n: nat, p: Peer, c: Conn)
    requires Numbered(script) && n <= |script| <= maxlen && p.start == 0 && p.conn == Some(c)
    requires ConnOk(script, maxlen, n, c) && Continues(p, c) && Gapless(script, c.base + c.sent)
    requires c.source.phase.Sending? && !c.source.phase.yielded && c.source.phase.pending != []
    ensures Gapless(script, c.base + (c.sent + [c.source.phase.pending[0]]))
  {
    hide Rising, GapsAccounted, TerminalIsLast;
    var e, all := c.source.phase.pending[0], c.base + c.sent;
    assert c.base + (c.sent + [e]) == all + [e];
    CursorIsLength(script, p, c);
    NothingSkipped(c.scans, maxlen, n, |all|, e.seqNo);
    assert e == script[e.seqNo - 1];
  }

  lemma CursorIsLength(script: seq<Envelope>, p: Peer, c: Conn)
    requires Numbered(script) && p.start == 0 && Continues(p, c) && Gapless(script, c.base + c.sent)
    ensures Cursor(c) == |c.base + c.sent|
  {
    hide Rising;
    var all := c.base + c.sent;
    if c.sent != [] {
      assert all[|all| - 1] == Last(c.sent) && all[|all| - 1] == script[|all| - 1];
    } else if c.base != [] {
      assert all[|all| - 1] == Last(c.base) && all[|all| - 1] == script[|all| - 1];
    }
  }

  lemma NothingSkipped(scans: seq<ScanPoint>, maxlen: nat, n: nat, prev: nat, next: int)
    requires n <= maxlen && (forall k | 0 <= k < |scans| :: scans[k].total <= n)
    requires Accounted(scans, maxlen, prev, next)
    ensures next == prev + 1
  {
  }

  lemma {:induction false} RunIsGapless(script: seq<Envelope>, maxlen: nat, steps: seq<Step>, id: nat)
    requires Numbered(script) && 1 <= |script| <= maxlen && After(script, maxlen, steps).Some?
    requires var s := After(script, maxlen, steps).value; id in s.peers && s.peers[id].start == 0
    ensures Gapless(script, SentToClient(After(script, maxlen, steps).value.peers[id]))
    decreases |steps|
  {
    hide Apply, CanStep, Numbered, Gapless, SystemOk;
    if steps != [] {
      var s := After(script, maxlen, Init(steps)).value;
      ReachableIsOk(script, maxlen, Init(steps));
      PeerBefore(script, maxlen, s, Last(steps), id);
      if id in s.peers { RunIsGapless(script, maxlen, Init(steps), id); }
      StepIsGapless(script, maxlen, s, Last(steps), id);
    }
  }

  lemma PeerBefore(script: seq<Envelope>, maxlen: nat, s: System, step: Step, id: nat)
    requires CanStep(script, s, step) && id in Apply(script, maxlen, s, step).peers
    ensures id in s.peers || step.Join?
    ensures id in s.peers ==> s.peers[id].start == Apply(script, maxlen, s, step).peers[id].start
  {
    hide Push, Pending;
  }

  lemma StepIsGapless(script: seq<Envelope>, maxlen: nat, s: System, step: Step, id: nat)
    requires Numbered(script) && 1 <= |script| <= maxlen && SystemOk(script, maxlen, s) && CanStep(script, s, step)
    requires id in s.peers ==> Gapless(script, SentToClient(s.peers[id]))
    requires id in Apply(script, maxlen, s, step).peers && Apply(script, maxlen, s, step).peers[id].start == 0
    ensures Gapless(script, SentToClient(Apply(script, maxlen, s, step).peers[id]))
  {
    hide PeerOk, Effect, Enabled, Push, Numbered;
    match step
    case Act(i, a) =>
      if i == id {
        EffectKeepsStart(s.peers[id], a, s.emitted, s.backlog, s.flag);
        EffectIsGapless(script, maxlen, s, s.peers[id], a);
      }
    case _ =>
  }

  lemma EffectKeepsStart(p: Peer, a: Action, emitted: nat, backlog: seq<Envelope>, flag: bool)
    requires Enabled(p, a)
    ensures Effect(p, a, emitted, backlog, flag).start == p.start
  {
    hide Scan, Resume;
  }

  /**
   * While the run's envelopes fit in the backlog, a client that starts from 0
   * and reconnects with the last number it saw renders the run's envelopes
   * 1, 2, 3, ... in order: none is missing and none comes twice, however often
   * its connection drops, and whatever was in flight when it did.
   */
  lemma ClientsRenderAPrefix(script: seq<Envelope>, maxlen: nat, steps: seq<Step>, s: System, id: nat)
    requires Numbered(script) && 1 <= |script| <= maxlen && After(script, maxlen, steps) == Some(s)
    requires id in s.peers && s.peers[id].start == 0
    ensures var client := s.peers[id].client;
            && client.lastSeq == |client.rendered| <= s.emitted <= |script|
            && client.rendered == script[..client.lastSeq]
            && forall i | 0 <= i < |client.rendered| :: client.rendered[i].seqNo == i + 1
  {
    hide After, Rising, ConnOk, GapsAccounted, Explained;
    ReachableIsOk(script, maxlen, steps);
    RunIsGapless(script, maxlen, steps, id);
    var p := s.peers[id];
    var es := p.client.rendered;
    if p.conn.Some? { assert es <= p.client.rendered + p.conn.value.wire; }
    assert es <= script;
    if es != [] { assert es[|es| - 1].seqNo == |es| && 1 <= es[|es| - 1].seqNo <= s.emitted; }
  }

  /**
   * If moreover the script's only terminal envelope is its last, a stream that
   * has returned has put the whole run on the wire.
   */
  lemma ReturnedMeansWholeRun(script: seq<Envelope>, maxlen: nat, steps: seq<Step>, s: System, id: nat)
    requires Numbered(script) && 1 <= |script| <= maxlen && After(script, maxlen, steps) == Some(s)
    requires forall i | 0 <= i < |script| :: script[i].kind.IsTerminal() <==> i == |script| - 1
    requires id in s.peers && s.peers[id].start == 0
    requires s.peers[id].conn.Some? && s.peers[id].conn.value.source.phase.Returned?
    ensures s.emitted == |script| && s.peers[id].client.rendered + s.peers[id].conn.value.wire == script
  {
    hide After, ConnOk, Gapless, Numbered, Explained, Rising;
    ReachableIsOk(script, maxlen, steps);
    RunIsGapless(script, maxlen, steps, id);
    WholeScriptSent(script, maxlen, s.emitted, s.peers[id].conn.value);
  }

  lemma WholeScriptSent(script: seq<Envelope>, maxlen: nat, n: nat, c: Conn)
    requires Numbered(script) && n <= |script| && ConnOk(script, maxlen, n, c) && c.source.phase.Returned?
    requires forall i | 0 <= i < |script| :: script[i].kind.IsTerminal() <==> i == |script| - 1
    requires Gapless(script, c.base + c.sent)
    ensures n == |script| && c.base + c.sent == script
  {
    hide Rising, GapsAccounted, TerminalIsLast;
    var all, last := c.base + c.sent, Last(c.sent);
    assert last == script[last.seqNo - 1];
    assert all[|all| - 1] == last;
  }
}
