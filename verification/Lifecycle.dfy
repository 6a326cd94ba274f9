/** server/app.py:63-84: a run is admitted, driven and released; and never two at once. */
module Lifecycle {
  import opened PyText
  import opened Registry
  import opened Nodes
  import opened Graph
  import opened Runner
  import opened RunnerTheorems

  /** `create_run`: 200 with a record to drive, or 409 with the id of the run that is in the way. */
  method CreateRun(registry: RunRegistry, runId: string, rawRequest: string)
    returns (code: int, reported: Option<string>, record: RunRecord?)
    modifies registry
    ensures old(registry.activeRunId).Some? ==>
              && code == 409 && reported == old(registry.activeRunId) && record == null
              && registry.runs == old(registry.runs) && registry.activeRunId == old(registry.activeRunId)
    ensures old(registry.activeRunId).None? ==>
              && code == 200 && reported == Some(runId) && record != null && fresh(record)
              && record.Valid() && record.emitted == [] && record.Seen() == NO_CURSORS
              && record.runId == runId && record.rawRequest == rawRequest && record.maxlen == registry.maxlen
              && registry.runs == old(registry.runs)[runId := record] && registry.activeRunId == Some(runId)
  {
    record := registry.TryStart(runId, rawRequest);
    if record == null {
      return 409, registry.activeRunId, null;
    }
    return 200, Some(runId), record;
  }

  /** `_run_and_release`: when the place is free again, the terminal envelope is the newest in the backlog. */
  method RunAndRelease(registry: RunRegistry, record: RunRecord, updates: seq<Update>, ending: Ending)
    requires record.Valid() && record.emitted == [] && record.Seen() == NO_CURSORS
    modifies registry, record
    ensures record.Valid() && record.emitted == Number(WholeRun(record.rawRequest, updates, ending))
    ensures record.maxlen > 0 ==> record.backlog != [] && Last(record.backlog).kind.IsTerminal()
    ensures registry.activeRunId ==
            if old(registry.activeRunId) == Some(record.runId) then None else old(registry.activeRunId)
    ensures registry.runs == old(registry.runs)
  {
    hide WholeRun, Number;
    DriveRun(record, updates, ending);
    LifecycleIsClosed(record.rawRequest, updates, ending);
    assert record.maxlen > 0 ==> Last(record.backlog) == Last(record.emitted);
    registry.Finish(record.runId);
  }

  // ----- requests and tasks, interleaved -----

  /** A run's task: the envelopes it is going to emit, how many are out, and whether it has released its place. */
  datatype Task = Task(script: seq<Envelope>, emitted: nat, released: bool)
  {
    predicate Unfinished() { emitted < |script| }
  }

  datatype Server = Server(tasks: map<string, Task>, active: Option<string>)

  datatype Move =
    | Post(runId: string, script: seq<Envelope>)
    | Progress(runId: string)
    | Release(runId: string)

  /** Run ids are random and never repeat; a task releases its place in its `finally`, after its last envelope. */
  ghost predicate CanMove(s: Server, m: Move) {
    match m
    case Post(id, script) => id !in s.tasks && Closed(script)
    case Progress(id) => id in s.tasks && s.tasks[id].Unfinished()
    case Release(id) => id in s.tasks && !s.tasks[id].Unfinished() && !s.tasks[id].released
  }

  predicate Accepts(s: Server) {
    s.active.None?
  }

  function MoveOnce(s: Server, m: Move): Server {
    match m
    case Post(id, script) => if Accepts(s) then Server(s.tasks[id := Task(script, 0, false)], Some(id)) else s
    case Progress(id) =>
      if id in s.tasks then s.(tasks := s.tasks[id := s.tasks[id].(emitted := s.tasks[id].emitted + 1)]) else s
    case Release(id) =>
      if id in s.tasks
      then Server(s.tasks[id := s.tasks[id].(released := true)], if s.active == Some(id) then None else s.active)
      else s
  }

  ghost predicate Reaches(moves: seq<Move>, s: Server)
    decreases |moves|
  {
    if moves == [] then s == Server(map[], None)
    else exists b :: Reaches(Init(moves), b) && CanMove(b, Last(moves)) && s == MoveOnce(b, Last(moves))
  }

  ghost predicate Orderly(s: Server) {
    && (s.active.Some? ==> s.active.value in s.tasks)
    && forall id | id in s.tasks ::
         && Closed(s.tasks[id].script) && s.tasks[id].emitted <= |s.tasks[id].script|
         && (s.tasks[id].released ==> !s.tasks[id].Unfinished())
         && (!s.tasks[id].released ==> s.active == Some(id))
  }

  lemma {:induction false} ReachedIsOrderly(moves: seq<Move>, s: Server)
    requires Reaches(moves, s)
    ensures Orderly(s)
    decreases |moves|
  {
    if moves != [] {
      hide Closed;
      var b :| Reaches(Init(moves), b) && CanMove(b, Last(moves)) && s == MoveOnce(b, Last(moves));
      ReachedIsOrderly(Init(moves), b);
    }
  }

  /** However requests and runs interleave, at most one run is unfinished. */
  lemma AtMostOneRunIsUnfinished(moves: seq<Move>, s: Server, a: string, b: string)
    requires Reaches(moves, s) && a in s.tasks && b in s.tasks
    requires s.tasks[a].Unfinished() && s.tasks[b].Unfinished()
    ensures a == b
  {
    ReachedIsOrderly(moves, s);
  }

  /**
   * A new run is accepted only when every earlier one has its terminal
   * envelope in its backlog, as the newest entry.
   */
  lemma AcceptedOnlyAfterTerminal(moves: seq<Move>, s: Server, id: string, maxlen: nat)
    requires Reaches(moves, s) && Accepts(s) && id in s.tasks && maxlen > 0
    ensures s.tasks[id].emitted == |s.tasks[id].script|
    ensures var backlog := LastN(s.tasks[id].script[..s.tasks[id].emitted], maxlen);
            backlog != [] && Last(backlog).kind.IsTerminal()
  {
    hide Reaches, Numbered, LastN;
    ReachedIsOrderly(moves, s);
    var t := s.tasks[id];
    assert Closed(t.script) && t.script[..t.emitted] == t.script;
    LastIsKept(t.script, maxlen);
  }

  /** The scripts that the runner gives its runs are of that kind. */
  lemma RunsAreClosed(request: string, us: seq<Update>, ending: Ending)
    ensures Closed(Number(WholeRun(request, us, ending)))
  {
    hide WholeRun, Number;
    LifecycleIsClosed(request, us, ending);
  }

  // ----- the registry makes these moves -----

  /** The registry is in the state s: the same active run, and records that hold what their tasks have emitted. */
  ghost predicate Shows(registry: RunRegistry, s: Server)
    reads registry, registry.runs.Values
  {
    && registry.activeRunId == s.active
    && registry.runs.Keys == s.tasks.Keys
    && forall id | id in s.tasks ::
         && registry.runs[id].runId == id && registry.runs[id].Valid()
         && s.tasks[id].emitted <= |s.tasks[id].script|
         && registry.runs[id].emitted == s.tasks[id].script[..s.tasks[id].emitted]
  }

  method StepPost(registry: RunRegistry, ghost s: Server, runId: string, rawRequest: string,
                  ghost script: seq<Envelope>)
    returns (code: int)
    requires Shows(registry, s) && CanMove(s, Post(runId, script))
    modifies registry
    ensures Shows(registry, MoveOnce(s, Post(runId, script)))
    ensures code == if Accepts(s) then 200 else 409
  {
    hide Closed;
    var reported, record;
    code, reported, record := CreateRun(registry, runId, rawRequest);
  }

  method StepProgress(registry: RunRegistry, ghost s: Server, runId: string,
                      kind: Kind, node: Option<Node>, payload: Payload)
    requires Shows(registry, s) && CanMove(s, Progress(runId))
    requires s.tasks[runId].script[s.tasks[runId].emitted] == Envelope(s.tasks[runId].emitted + 1, kind, node, payload)
    modifies registry.runs[runId]
    ensures Shows(registry, MoveOnce(s, Progress(runId)))
  {
    hide Closed, Numbered, LastN;
    ghost var t := s.tasks[runId];
    assert t.script[..t.emitted + 1] == t.script[..t.emitted] + [t.script[t.emitted]];
    assert forall id | id in s.tasks && id != runId :: registry.runs[id] != registry.runs[runId];
    registry.runs[runId].EmitNext(kind, node, payload);
  }

  method StepRelease(registry: RunRegistry, ghost s: Server, runId: string)
    requires Shows(registry, s) && CanMove(s, Release(runId))
    modifies registry
    ensures Shows(registry, MoveOnce(s, Release(runId)))
  {
    registry.Finish(runId);
  }
}
