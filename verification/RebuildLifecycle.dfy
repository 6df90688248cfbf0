/**
  The rebuild operation's lifecycle (rebuild.go): one worker that may crash and restart at any point, any
  number of callers cancelling with stale reads, and a store that saves by compare-and-swap on the revision.
 */
module RebuildLifecycle {
  import opened Common

  datatype Status = Accepted | Running | CancelRequested | Cancelled | Succeeded | Failed

  datatype Actor = Worker | Caller

  datatype Operation = Operation(
    status: Status, revision: int, startedAt: Option<int>, finishedAt: Option<int>,
    stagingGenerationId: string, activeGenerationId: string, mappingCount: int, safeError: string,
    updatedBy: Actor, updatedAt: int)

  predicate Terminal(status: Status) {
    status in {Cancelled, Succeeded, Failed}
  }

  /** ProjectionRebuildOperation.Validate, as far as it depends on what changes. */
  predicate Validates(op: Operation) {
    && op.revision >= 1 && op.mappingCount >= 0
    && match op.status
       case Accepted => op.startedAt == None && op.finishedAt == None
       case Running => op.startedAt.Some? && op.finishedAt == None
       case CancelRequested => op.startedAt.Some? && op.finishedAt == None
       case Cancelled => op.finishedAt.Some?
       case Succeeded => op.finishedAt.Some?
       case Failed => op.finishedAt.Some?
  }

  datatype Generation = Generation(id: string, entries: nat)

  /** Where the worker is inside process, with the operation copies it holds. */
  datatype Phase =
    | Idle
    | Picked(op: Operation)
    | Building(op: Operation)
    | Built(generation: Generation)
    | Staging(latest: Operation, generation: Generation)
    | Staged(staged: Operation, generation: Generation)
    | Replaying(staged: Operation, generation: Generation, remaining: nat)
    | ReplayDone(staged: Operation, generation: Generation)
    | Activating(latest: Operation, staged: Operation, generation: Generation)
    | Activated(latest: Operation, staged: Operation, generation: Generation)
    | Failing(reason: string)
    | FailFound(latest: Operation, reason: string)
    | CancelFind
    | Cancelling(op: Operation)

  /** What happened, in order; a history variable. */
  datatype Event = ReplayCompleted | PointersSwitched | Saved(status: Status)

  /** versions holds every saved state of the operation, oldest first; the last is the stored one. */
  datatype World = World(
    wired: bool, versions: seq<Operation>, phase: Phase, callers: map<nat, Operation>, trace: seq<Event>)

  function Initial(wired: bool, now: int): World {
    World(wired, [Operation(Accepted, 1, None, None, "", "", 0, "", Caller, now)], Idle, map[], [])
  }

  datatype Step =
    | Poll(version: nat)
    | Work(ok: bool, now: int, generation: Generation, listed: nat)
    | Crash
    | CancelRead(caller: nat)
    | CancelSave(caller: nat, now: int)

  const MAX_REPLAY_EVENTS := 100_000

  // ------------------------------------------------------------ the machine

  /** What every step leaves: the saved versions so far. */
  predicate Extends(w: World, r: World) {
    r.wired == w.wired && w.versions <= r.versions && r.versions != []
  }

  /** SaveCAS succeeds when the operation validates and the stored revision is the expected one. */
  predicate CasSucceeds(w: World, op: Operation, expected: int)
    requires w.versions != []
  {
    Validates(op) && expected >= 1 && Last(w.versions).revision == expected
  }

  function Save(w: World, op: Operation): (r: World)
    requires w.versions != []
    ensures Extends(w, r)
  {
    w.(versions := w.versions + [op.(revision := Last(w.versions).revision + 1)], trace := w.trace + [Saved(op.status)])
  }

  /** Save and go on to next, or take the other way. */
  function Cas(w: World, op: Operation, expected: int, next: Phase, conflict: Phase): (r: World)
    requires w.versions != []
    ensures Extends(w, r)
  {
    if CasSucceeds(w, op, expected) then Save(w, op).(phase := next) else w.(phase := conflict)
  }

  /** The check after a Find: cancel, give up, or go on. */
  function Checked(w: World, next: Phase): (r: World)
    requires w.versions != []
    ensures r == w.(phase := r.phase)
  {
    var latest := Last(w.versions);
    w.(phase := if latest.status == CancelRequested then Cancelling(latest)
                else if latest.status != Running then Idle
                else next)
  }

  function WorkOn(w: World, ok: bool, now: int, generation: Generation, listed: nat): (r: World)
    requires w.versions != []
    ensures Extends(w, r)
  {
    var current := Last(w.versions);
    match w.phase
    case Idle => w
    case Picked(op) =>
      if op.status == CancelRequested then w.(phase := Cancelling(op))
      else if op.status == Accepted then
        var running := op.(status := Running, startedAt := Some(now), updatedAt := now, updatedBy := Worker);
        Cas(w, running, op.revision, Building(running.(revision := op.revision + 1)), Idle)
      else w.(phase := Building(op))
    case Building(_) => w.(phase := if ok then Built(generation) else Failing("generation validation failed"))
    case Built(g) => Checked(w, Staging(current, g))
    case Staging(latest, g) =>
      var staged := latest.(stagingGenerationId := g.id, mappingCount := g.entries, updatedAt := now,
                            updatedBy := Worker);
      Cas(w, staged, latest.revision, Staged(staged.(revision := latest.revision + 1), g), Idle)
    case Staged(staged, g) =>
      if !w.wired then Checked(w, Activated(current, staged, g))
      else if ok && listed <= MAX_REPLAY_EVENTS then Checked(w, Replaying(staged, g, listed))
      else Checked(w, Failing("historical projection replay failed"))
    case Replaying(staged, g, remaining) =>
      if remaining == 0 then w.(phase := ReplayDone(staged, g), trace := w.trace + [ReplayCompleted])
      else if current.status != Running then w.(phase := CancelFind)
      else if ok then w.(phase := Replaying(staged, g, remaining - 1))
      else w.(phase := Failing("historical projection replay failed"))
    case ReplayDone(staged, g) => Checked(w, Activating(current, staged, g))
    case Activating(latest, staged, g) =>
      if ok then w.(phase := Activated(latest, staged, g), trace := w.trace + [PointersSwitched])
      else w.(phase := Failing("projection read pointer activation failed"))
    case Activated(latest, staged, g) =>
      Cas(w, latest.(status := Succeeded, activeGenerationId := g.id, finishedAt := Some(now), updatedAt := now,
                     updatedBy := Worker), staged.revision, Idle, Idle)
    case Failing(reason) => Checked(w, FailFound(current, reason))
    case FailFound(latest, reason) =>
      Cas(w, latest.(status := Failed, safeError := reason, finishedAt := Some(now), updatedAt := now,
                     updatedBy := Worker), latest.revision, Idle, Idle)
    case CancelFind => w.(phase := Cancelling(current))
    case Cancelling(op) =>
      if op.status == Cancelled then w.(phase := Idle)
      else Cas(w, op.(status := Cancelled, finishedAt := Some(now), updatedAt := now, updatedBy := Worker), op.revision,
               Idle, Idle)
  }

  /** The save at the end of Cancel, from the caller's own read. */
  function CancelWith(w: World, op: Operation, now: int): (r: World)
    requires w.versions != []
    ensures Extends(w, r) && r.phase == w.phase && r.callers == w.callers
  {
    if op.status == Accepted then
      Cas(w, op.(status := Cancelled, finishedAt := Some(now), updatedBy := Caller, updatedAt := now), op.revision,
          w.phase, w.phase)
    else if op.status == Running then
      Cas(w, op.(status := CancelRequested, updatedBy := Caller, updatedAt := now), op.revision, w.phase, w.phase)
    else w
  }

  /** The listing may be old by the time an entry is processed, so the worker may pick any listed version. */
  function Next(w: World, step: Step): (r: World)
    requires w.versions != []
    ensures Extends(w, r)
  {
    match step
    case Poll(version) =>
      if w.phase == Idle && version < |w.versions| && !Terminal(w.versions[version].status)
      then w.(phase := Picked(w.versions[version])) else w
    case Work(ok, now, generation, listed) => WorkOn(w, ok, now, generation, listed)
    case Crash => w.(phase := Idle)
    case CancelRead(caller) => w.(callers := w.callers[caller := Last(w.versions)])
    case CancelSave(caller, now) => if caller in w.callers then CancelWith(w, w.callers[caller], now) else w
  }

  function Run(w: World, steps: seq<Step>): (r: World)
    requires w.versions != []
    ensures Extends(w, r)
    decreases |steps|
  {
    if steps == [] then w else Next(Run(w, steps[..|steps| - 1]), Last(steps))
  }

  // ----------------------------------------------------------- the lifecycle

  /** The edges of the lifecycle; the only loop is the save of the staged generation. */
  predicate Edge(from: Status, to: Status) {
    match from
    case Accepted => to in {Running, Cancelled}
    case Running => to in {Running, Succeeded, Failed, CancelRequested}
    case CancelRequested => to == Cancelled
    case _ => false
  }

  predicate TimesMatch(op: Operation) {
    && (op.finishedAt.Some? <==> Terminal(op.status))
    && (op.status == Accepted ==> op.startedAt == None)
    && (op.status in {Running, CancelRequested, Succeeded, Failed} ==> op.startedAt.Some?)
  }

  ghost predicate IsLifecycle(versions: seq<Operation>) {
    && versions != [] && versions[0].status == Accepted
    && (forall i :: 0 <= i < |versions| ==>
          versions[i].revision == i + 1 && Validates(versions[i]) && TimesMatch(versions[i]))
    && (forall i :: 0 < i < |versions| ==> Edge(versions[i - 1].status, versions[i].status))
  }

  /** A switch after a completed replay. */
  ghost predicate ReplayedAndSwitched(trace: seq<Event>) {
    exists i, j :: 0 <= i < j < |trace| && trace[i] == ReplayCompleted && trace[j] == PointersSwitched
  }

  ghost predicate Replayed(trace: seq<Event>) {
    exists i :: 0 <= i < |trace| && trace[i] == ReplayCompleted
  }

  /** A held copy is one of the saved versions. */
  predicate Held(w: World, op: Operation) {
    1 <= op.revision <= |w.versions| && w.versions[op.revision - 1] == op
  }

  /** Once the worker has seen the operation running, only a cancel request can have come in between. */
  predicate InHand(w: World)
    requires w.versions != []
  {
    Last(w.versions).status in {Running, CancelRequested}
  }

  ghost predicate PhaseSound(w: World)
    requires w.versions != []
  {
    match w.phase
    case Idle => true
    case Picked(op) => Held(w, op)
    case Building(op) => true
    case Built(_) => true
    case Staging(latest, _) => Held(w, latest) && latest.status == Running && InHand(w)
    case Staged(staged, _) => Held(w, staged) && staged.status == Running && InHand(w)
    case Replaying(staged, _, _) => Held(w, staged) && staged.status == Running && InHand(w) && w.wired
    case ReplayDone(staged, _) =>
      Held(w, staged) && staged.status == Running && InHand(w) && w.wired && Replayed(w.trace)
    case Activating(latest, staged, _) =>
      Held(w, staged) && staged.status == Running && InHand(w) && Held(w, latest) && latest.status == Running && w.wired
      && Replayed(w.trace)
    case Activated(latest, staged, _) =>
      Held(w, staged) && staged.status == Running && InHand(w) && Held(w, latest) && latest.status == Running
      && (w.wired ==> ReplayedAndSwitched(w.trace))
    case Failing(_) => true
    case FailFound(latest, _) => Held(w, latest) && latest.status == Running
    case CancelFind => Last(w.versions).status == CancelRequested
    case Cancelling(op) => Held(w, op) && op.status == CancelRequested
  }

  ghost predicate Inv(w: World) {
    && IsLifecycle(w.versions)
    && PhaseSound(w)
    && (forall c :: c in w.callers ==> Held(w, w.callers[c]))
    && (w.wired && Last(w.versions).status == Succeeded ==> ReplayedAndSwitched(w.trace))
  }

  // ------------------------------------------------------ what a save keeps

  /** A successful save from a held copy acts on the stored version. */
  lemma HeldIsCurrent(w: World, op: Operation)
    requires IsLifecycle(w.versions) && Held(w, op) && Last(w.versions).revision == op.revision
    ensures op == Last(w.versions)
  {
  }

  lemma SaveExtends(w: World, op: Operation)
    requires IsLifecycle(w.versions) && Validates(op) && TimesMatch(op) && Edge(Last(w.versions).status, op.status)
    ensures IsLifecycle(Save(w, op).versions)
    ensures forall held :: Held(w, held) ==> Held(Save(w, op), held)
  {
  }

  /** A trace only grows, and what it shows stays shown. */
  lemma TraceGrows(trace: seq<Event>, event: Event)
    ensures Replayed(trace) ==> Replayed(trace + [event])
    ensures ReplayedAndSwitched(trace) ==> ReplayedAndSwitched(trace + [event])
    ensures event == ReplayCompleted ==> Replayed(trace + [event])
    ensures event == PointersSwitched && Replayed(trace) ==> ReplayedAndSwitched(trace + [event])
  {
    var longer := trace + [event];
    if Replayed(trace) {
      var i :| 0 <= i < |trace| && trace[i] == ReplayCompleted;
      assert longer[i] == ReplayCompleted && longer[|trace|] == event;
    }
    if ReplayedAndSwitched(trace) {
      var i, j :| 0 <= i < j < |trace| && trace[i] == ReplayCompleted && trace[j] == PointersSwitched;
      assert longer[i] == ReplayCompleted && longer[j] == PointersSwitched;
    }
    assert longer[|trace|] == event;
  }

  /** A worker's compare-and-swap that leaves it idle. */
  lemma WorkerSaves(w: World, op: Operation, expected: int, next: Phase)
    requires Inv(w) && CasSucceeds(w, op, expected) && TimesMatch(op) && Edge(Last(w.versions).status, op.status)
    requires w.wired && op.status == Succeeded ==> ReplayedAndSwitched(w.trace)
    requires PhaseSound(Save(w, op).(phase := next))
    ensures Inv(Save(w, op).(phase := next))
  {
    SaveExtends(w, op);
    TraceGrows(w.trace, Saved(op.status));
  }

  lemma StartKeepsInv(w: World, ok: bool, now: int, generation: Generation, listed: nat)
    requires Inv(w) && w.phase.Picked?
    ensures Inv(WorkOn(w, ok, now, generation, listed))
  {
    var op := w.phase.op;
    var running := op.(status := Running, startedAt := Some(now), updatedAt := now, updatedBy := Worker);
    if op.status == Accepted && CasSucceeds(w, running, op.revision) {
      HeldIsCurrent(w, op);
      WorkerSaves(w, running, op.revision, Building(running.(revision := op.revision + 1)));
    }
  }

  lemma StageKeepsInv(w: World, ok: bool, now: int, generation: Generation, listed: nat)
    requires Inv(w) && w.phase.Staging?
    ensures Inv(WorkOn(w, ok, now, generation, listed))
  {
    var Staging(latest, g) := w.phase;
    var staged := latest.(stagingGenerationId := g.id, mappingCount := g.entries, updatedAt := now,
                          updatedBy := Worker);
    if CasSucceeds(w, staged, latest.revision) {
      HeldIsCurrent(w, latest);
      SaveExtends(w, staged);
      WorkerSaves(w, staged, latest.revision, Staged(staged.(revision := latest.revision + 1), g));
    }
  }

  lemma FinishKeepsInv(w: World, ok: bool, now: int, generation: Generation, listed: nat)
    requires Inv(w) && (w.phase.Activated? || w.phase.FailFound? || w.phase.Cancelling?)
    ensures Inv(WorkOn(w, ok, now, generation, listed))
  {
    match w.phase
    case Activated(latest, staged, g) =>
      var done := latest.(status := Succeeded, activeGenerationId := g.id, finishedAt := Some(now), updatedAt := now,
                          updatedBy := Worker);
      if CasSucceeds(w, done, staged.revision) {
        HeldIsCurrent(w, staged);
        WorkerSaves(w, done, staged.revision, Idle);
      }
    case FailFound(latest, reason) =>
      var failed := latest.(status := Failed, safeError := reason, finishedAt := Some(now), updatedAt := now,
                            updatedBy := Worker);
      if CasSucceeds(w, failed, latest.revision) {
        HeldIsCurrent(w, latest);
        WorkerSaves(w, failed, latest.revision, Idle);
      }
    case Cancelling(op) =>
      var cancelled := op.(status := Cancelled, finishedAt := Some(now), updatedAt := now, updatedBy := Worker);
      if CasSucceeds(w, cancelled, op.revision) {
        HeldIsCurrent(w, op);
        WorkerSaves(w, cancelled, op.revision, Idle);
      }
  }

  /** A step that saves nothing. */
  lemma PhaseMoves(w: World, w': World)
    requires Inv(w) && w' == w.(phase := w'.phase) && PhaseSound(w')
    ensures Inv(w')
  {
  }

  /** A step that saves nothing but adds to the trace. */
  lemma TraceMoves(w: World, w': World, event: Event)
    requires Inv(w) && w' == w.(phase := w'.phase, trace := w.trace + [event]) && PhaseSound(w')
    ensures Inv(w')
  {
    TraceGrows(w.trace, event);
  }

  lemma ReplayKeepsInv(w: World, ok: bool, now: int, generation: Generation, listed: nat)
    requires Inv(w) && w.phase.Replaying?
    ensures Inv(WorkOn(w, ok, now, generation, listed))
  {
    TraceGrows(w.trace, ReplayCompleted);
    if w.phase.remaining == 0 {
      TraceMoves(w, WorkOn(w, ok, now, generation, listed), ReplayCompleted);
    } else {
      PhaseMoves(w, WorkOn(w, ok, now, generation, listed));
    }
  }

  lemma ActivationKeepsInv(w: World, ok: bool, now: int, generation: Generation, listed: nat)
    requires Inv(w) && w.phase.Activating?
    ensures Inv(WorkOn(w, ok, now, generation, listed))
  {
    TraceGrows(w.trace, PointersSwitched);
    if ok {
      TraceMoves(w, WorkOn(w, ok, now, generation, listed), PointersSwitched);
    } else {
      PhaseMoves(w, WorkOn(w, ok, now, generation, listed));
    }
  }

  /** The steps between saves. */
  lemma PassKeepsInv(w: World, ok: bool, now: int, generation: Generation, listed: nat)
    requires Inv(w)
    requires w.phase.Idle? || w.phase.Building? || w.phase.Built? || w.phase.Staged? || w.phase.ReplayDone?
             || w.phase.Failing? || w.phase.CancelFind?
    ensures Inv(WorkOn(w, ok, now, generation, listed))
  {
    PhaseMoves(w, WorkOn(w, ok, now, generation, listed));
  }

  lemma WorkKeepsInv(w: World, ok: bool, now: int, generation: Generation, listed: nat)
    requires Inv(w)
    ensures Inv(WorkOn(w, ok, now, generation, listed))
  {
    if w.phase.Picked? {
      StartKeepsInv(w, ok, now, generation, listed);
    } else if w.phase.Staging? {
      StageKeepsInv(w, ok, now, generation, listed);
    } else if w.phase.Activated? || w.phase.FailFound? || w.phase.Cancelling? {
      FinishKeepsInv(w, ok, now, generation, listed);
    } else if w.phase.Replaying? {
      ReplayKeepsInv(w, ok, now, generation, listed);
    } else if w.phase.Activating? {
      ActivationKeepsInv(w, ok, now, generation, listed);
    } else {
      PassKeepsInv(w, ok, now, generation, listed);
    }
  }

  /** A cancel saved beside the worker leaves the worker's phase sound. */
  lemma CancelKeepsPhase(w: World, saved: Operation)
    requires Inv(w) && IsLifecycle(Save(w, saved).versions)
    requires Edge(Last(w.versions).status, saved.status)
    requires saved.status == CancelRequested || (saved.status == Cancelled && Last(w.versions).status == Accepted)
    requires forall held :: Held(w, held) ==> Held(Save(w, saved), held)
    ensures PhaseSound(Save(w, saved))
  {
    TraceGrows(w.trace, Saved(saved.status));
  }

  /** A cancelling caller can only turn the stored version into a cancelled or cancel-requested one. */
  lemma CancelKeepsInv(w: World, caller: nat, now: int)
    requires Inv(w) && caller in w.callers
    ensures Inv(CancelWith(w, w.callers[caller], now))
  {
    var op := w.callers[caller];
    var saved := if op.status == Accepted
                 then op.(status := Cancelled, finishedAt := Some(now), updatedBy := Caller, updatedAt := now)
                 else op.(status := CancelRequested, updatedBy := Caller, updatedAt := now);
    if op.status in {Accepted, Running} && CasSucceeds(w, saved, op.revision) {
      HeldIsCurrent(w, op);
      SaveExtends(w, saved);
      CancelKeepsPhase(w, saved);
      assert CancelWith(w, op, now) == Save(w, saved);
    }
  }

  /** The steps that save nothing and only take a look. */
  lemma LookingKeepsInv(w: World, step: Step)
    requires Inv(w) && (step.Poll? || step.Crash? || step.CancelRead?)
    ensures Inv(Next(w, step))
  {
    if !step.CancelRead? { PhaseMoves(w, Next(w, step)); }
  }

  lemma NextKeepsInv(w: World, step: Step)
    requires Inv(w)
    ensures Inv(Next(w, step))
  {
    match step
    case Work(ok, now, generation, listed) => WorkKeepsInv(w, ok, now, generation, listed);
    case CancelSave(caller, now) => if caller in w.callers { CancelKeepsInv(w, caller, now); }
    case _ => LookingKeepsInv(w, step);
  }

  lemma {:induction false} RunKeepsInv(wired: bool, created: int, steps: seq<Step>)
    ensures Inv(Run(Initial(wired, created), steps))
    decreases |steps|
  {
    if steps != [] {
      RunKeepsInv(wired, created, steps[..|steps| - 1]);
      NextKeepsInv(Run(Initial(wired, created), steps[..|steps| - 1]), Last(steps));
    }
  }

  // ------------------------------------------------------------ the results

  /**
    In every run the saved versions walk the lifecycle: each save moves along an edge, so terminal states
    absorb, the revision counts the saves, and the start and finish times match the status. With the replay
    dependencies wired, success comes after a completed replay and a pointer switch, in that order.
   */
  lemma RebuildFollowsLifecycle(wired: bool, created: int, steps: seq<Step>)
    ensures var w := Run(Initial(wired, created), steps);
            && IsLifecycle(w.versions)
            && (wired && Last(w.versions).status == Succeeded ==> ReplayedAndSwitched(w.trace))
  {
    RunKeepsInv(wired, created, steps);
  }

  lemma {:induction false} RunAppends(w: World, steps: seq<Step>, more: seq<Step>)
    requires w.versions != []
    ensures Run(w, steps + more) == Run(Run(w, steps), more)
    decreases |more|
  {
    if more == [] {
      assert steps + more == steps;
    } else {
      RunAppends(w, steps, more[..|more| - 1]);
      assert (steps + more)[..|steps + more| - 1] == steps + more[..|more| - 1];
    }
  }

  lemma NoEdgeOutOfTerminal(before: seq<Operation>, after: seq<Operation>)
    requires IsLifecycle(after) && before != [] && before <= after
    ensures before == after || !Terminal(Last(before).status)
  {
    if before != after {
      assert after[|before| - 1] == Last(before) && Edge(after[|before| - 1].status, after[|before|].status);
    }
  }

  /** A finished operation is never saved again. */
  lemma TerminalAbsorbs(wired: bool, created: int, steps: seq<Step>, more: seq<Step>)
    requires Terminal(Last(Run(Initial(wired, created), steps).versions).status)
    ensures Run(Initial(wired, created), steps + more).versions == Run(Initial(wired, created), steps).versions
  {
    RunAppends(Initial(wired, created), steps, more);
    RunKeepsInv(wired, created, steps + more);
    NoEdgeOutOfTerminal(Run(Initial(wired, created), steps).versions,
                        Run(Initial(wired, created), steps + more).versions);
  }

  /**
    What the last save depends on. A worker that has activated the staged generation saves success exactly
    when nothing was saved since the staged version.
   */
  lemma SuccessNeedsNoLateCancel(w: World, ok: bool, now: int, generation: Generation, listed: nat)
    requires Inv(w) && w.phase.Activated?
    ensures Last(WorkOn(w, ok, now, generation, listed).versions).status == Succeeded <==>
            Last(w.versions) == w.phase.staged
  {
    if Last(w.versions).revision == w.phase.staged.revision {
      HeldIsCurrent(w, w.phase.staged);
    }
  }

  /**
    Cancelled therefore does not mean that the pointers were left alone. Whenever a cancel lands after the
    switch and before the last save, the operation ends up cancelled with the switch in its trace.
   */
  lemma CancelCanFollowSwitch(w: World, caller: nat, now: int, g: Generation)
    requires Inv(w) && w.wired && w.phase.Activated? && Last(w.versions) == w.phase.staged
    ensures var requested := Next(Next(w, CancelRead(caller)), CancelSave(caller, now));
            var dropped := Next(requested, Work(true, now, g, 0));
            var ended := Next(Next(Next(dropped, Poll(|w.versions|)), Work(true, now, g, 0)), Work(true, now, g, 0));
            Last(ended.versions).status == Cancelled && ReplayedAndSwitched(ended.trace)
  {
    var requested := Next(Next(w, CancelRead(caller)), CancelSave(caller, now));
    NextKeepsInv(w, CancelRead(caller));
    NextKeepsInv(Next(w, CancelRead(caller)), CancelSave(caller, now));
    assert Last(requested.versions).status == CancelRequested && requested.phase == w.phase;
    SuccessNeedsNoLateCancel(requested, true, now, g, 0);
    var dropped := Next(requested, Work(true, now, g, 0));
    assert dropped == requested.(phase := Idle);
    CancelRequestIsFinished(dropped, |w.versions|, now, g);
  }

  /** An idle worker that polls a requested cancellation finishes it. */
  lemma CancelRequestIsFinished(w: World, version: nat, now: int, g: Generation)
    requires Inv(w) && w.phase == Idle && |w.versions| == version + 1 && Last(w.versions).status == CancelRequested
    ensures var ended := Next(Next(Next(w, Poll(version)), Work(true, now, g, 0)), Work(true, now, g, 0));
            Last(ended.versions).status == Cancelled
            && (ReplayedAndSwitched(w.trace) ==> ReplayedAndSwitched(ended.trace))
  {
    TraceGrows(w.trace, Saved(Cancelled));
    var picked := Next(w, Poll(version));
    assert picked == w.(phase := Picked(Last(w.versions)));
    var cancelling := Next(picked, Work(true, now, g, 0));
    assert cancelling == w.(phase := Cancelling(Last(w.versions)));
  }

  // --------------------------------------------------------- reachable worlds

  ghost predicate Linked(worlds: seq<World>, i: nat) {
    i + 1 < |worlds| ==> worlds[i].versions != [] && exists step :: worlds[i + 1] == Next(worlds[i], step)
  }

  ghost predicate IsInitial(w: World) {
    exists wired: bool, created: int :: w == Initial(wired, created)
  }

  /** Worlds that follow one another from an initial one. */
  ghost predicate IsBehaviour(worlds: seq<World>) {
    worlds != [] && IsInitial(worlds[0]) && forall i :: Linked(worlds, i)
  }

  ghost predicate Reachable(w: World) {
    exists worlds :: IsBehaviour(worlds) && Last(worlds) == w
  }

  lemma InitialIsReachable(wired: bool, created: int)
    ensures Reachable(Initial(wired, created))
  {
    var w := Initial(wired, created);
    assert forall i :: Linked([w], i);
    assert IsBehaviour([w]) && Last([w]) == w;
  }

  lemma NextIsReachable(w: World, step: Step)
    requires Reachable(w) && w.versions != []
    ensures Reachable(Next(w, step))
  {
    var worlds :| IsBehaviour(worlds) && Last(worlds) == w;
    var longer := worlds + [Next(w, step)];
    forall i: nat ensures Linked(longer, i) {
      assert Linked(worlds, i);
    }
    assert IsBehaviour(longer) && Last(longer) == Next(w, step);
  }

  lemma FrontIsBehaviour(worlds: seq<World>)
    requires IsBehaviour(worlds) && |worlds| > 1
    ensures IsBehaviour(worlds[..|worlds| - 1])
  {
    var front := worlds[..|worlds| - 1];
    forall i: nat ensures Linked(front, i) { assert Linked(worlds, i); }
  }

  /** A reachable world ends some run, so what holds of every run holds of it. */
  lemma {:induction false} BehaviourIsRun(worlds: seq<World>) returns (wired: bool, created: int, steps: seq<Step>)
    requires IsBehaviour(worlds)
    ensures Last(worlds) == Run(Initial(wired, created), steps)
    decreases |worlds|
  {
    if |worlds| == 1 {
      wired, created :| worlds[0] == Initial(wired, created);
      steps := [];
    } else {
      FrontIsBehaviour(worlds);
      wired, created, steps := BehaviourIsRun(worlds[..|worlds| - 1]);
      assert Linked(worlds, |worlds| - 2);
      var step :| worlds[|worlds| - 1] == Next(worlds[|worlds| - 2], step);
      RunThen(Initial(wired, created), steps, step);
      steps := steps + [step];
    }
  }

  lemma RunThen(w: World, steps: seq<Step>, step: Step)
    requires w.versions != []
    ensures Run(w, steps + [step]) == Next(Run(w, steps), step)
  {
    assert (steps + [step])[..|steps|] == steps;
  }

  lemma ReachableIsSound(w: World)
    requires Reachable(w)
    ensures w.versions != [] && Inv(w)
  {
    var worlds :| IsBehaviour(worlds) && Last(worlds) == w;
    var wired, created, steps := BehaviourIsRun(worlds);
    RunKeepsInv(wired, created, steps);
  }

  // ------------------------------------------- a cancellation after the switch

  /** The next world of a run: the worker goes on and nothing fails. */
  function Worked(w: World, now: int, g: Generation): World
    requires w.versions != []
  {
    Next(w, Work(true, now, g, 0))
  }

  lemma WorkedIsReachable(w: World, now: int, g: Generation)
    requires Reachable(w) && w.versions != []
    ensures Reachable(Worked(w, now, g))
  {
    NextIsReachable(w, Work(true, now, g, 0));
  }

  lemma RunningIsReached(created: int, now: int, g: Generation) returns (w: World)
    ensures Reachable(w) && w.versions != [] && w.wired && w.phase.Building?
    ensures Last(w.versions).status == Running && Validates(Last(w.versions))
  {
    w := Initial(true, created);
    InitialIsReachable(true, created);
    NextIsReachable(w, Poll(0));
    w := Next(w, Poll(0));
    WorkedIsReachable(w, now, g);
    w := Worked(w, now, g);
  }

  lemma StagedIsReached(created: int, now: int, g: Generation) returns (w: World)
    ensures Reachable(w) && w.versions != [] && w.wired && w.phase == Staged(Last(w.versions), g)
    ensures Last(w.versions).status == Running
  {
    w := RunningIsReached(created, now, g);
    w := StagedAgain(w, now, g);
  }

  /** A worker that is left alone, with an archive that is empty, gets as far as the switch. */
  lemma SwitchIsReached(created: int, now: int, g: Generation) returns (w: World)
    ensures Reachable(w) && w.versions != [] && w.wired && w.phase.Activated? && Last(w.versions) == w.phase.staged
  {
    w := StagedIsReached(created, now, g);
    WorkedIsReachable(w, now, g);
    w := Worked(w, now, g);
    WorkedIsReachable(w, now, g);
    w := Worked(w, now, g);
    WorkedIsReachable(w, now, g);
    w := Worked(w, now, g);
    WorkedIsReachable(w, now, g);
    w := Worked(w, now, g);
  }

  /** So some run ends cancelled although its pointers were switched. */
  lemma CancelledAfterSwitch(created: int, now: int, g: Generation) returns (w: World)
    ensures Reachable(w) && w.versions != [] && w.wired
    ensures Last(w.versions).status == Cancelled && ReplayedAndSwitched(w.trace)
  {
    w := SwitchIsReached(created, now, g);
    var switched := w;
    ReachableIsSound(w);
    CancelCanFollowSwitch(w, 0, now, g);
    NextIsReachable(w, CancelRead(0));
    w := Next(w, CancelRead(0));
    NextIsReachable(w, CancelSave(0, now));
    w := Next(w, CancelSave(0, now));
    WorkedIsReachable(w, now, g);
    w := Worked(w, now, g);
    NextIsReachable(w, Poll(|switched.versions|));
    w := Next(w, Poll(|switched.versions|));
    WorkedIsReachable(w, now, g);
    w := Worked(w, now, g);
    WorkedIsReachable(w, now, g);
    w := Worked(w, now, g);
  }

  // ------------------------------------------------ a crash after the switch

  /** Between the switch and the save of success a worker may crash; the operation still runs, and is picked again. */
  lemma RetryIsReached(created: int, now: int, g: Generation, listed: nat) returns (w: World)
    requires listed <= MAX_REPLAY_EVENTS
    ensures Reachable(w) && w.versions != [] && w.wired && w.phase == Replaying(Last(w.versions), g, listed)
    ensures Last(w.versions).status == Running && ReplayedAndSwitched(w.trace)
  {
    w := SwitchIsReached(created, now, g);
    ReachableIsSound(w);
    NextIsReachable(w, Crash);
    w := Next(w, Crash);
    NextIsReachable(w, Poll(|w.versions| - 1));
    w := Next(w, Poll(|w.versions| - 1));
    WorkedIsReachable(w, now, g);
    w := Worked(w, now, g);
    w := StagedAgain(w, now, g);
    NextIsReachable(w, Work(true, now, g, listed));
    w := Next(w, Work(true, now, g, listed));
  }

  lemma StagedAgain(building: World, now: int, g: Generation) returns (w: World)
    requires Reachable(building) && building.versions != [] && building.phase.Building?
    requires Last(building.versions).status == Running && Validates(Last(building.versions))
    ensures Reachable(w) && w.versions != [] && w.wired == building.wired && w.phase == Staged(Last(w.versions), g)
    ensures Last(w.versions).status == Running
    ensures ReplayedAndSwitched(building.trace) ==> ReplayedAndSwitched(w.trace)
  {
    w := building;
    WorkedIsReachable(w, now, g);
    w := Worked(w, now, g);
    WorkedIsReachable(w, now, g);
    w := Worked(w, now, g);
    WorkedIsReachable(w, now, g);
    TraceGrows(w.trace, Saved(Running));
    w := Worked(w, now, g);
  }

  /** The retry may fail: some run ends failed although its pointers were switched. */
  lemma FailedAfterSwitch(created: int, now: int, g: Generation) returns (w: World)
    ensures Reachable(w) && w.versions != [] && w.wired
    ensures Last(w.versions).status == Failed && ReplayedAndSwitched(w.trace)
  {
    w := RetryIsReached(created, now, g, 1);
    NextIsReachable(w, Work(false, now, g, 0));
    w := Next(w, Work(false, now, g, 0));
    w := FailingFails(w, now, g);
  }

  lemma FailingFails(failing: World, now: int, g: Generation) returns (w: World)
    requires Reachable(failing) && failing.versions != [] && failing.phase.Failing?
    requires Last(failing.versions).status == Running
    ensures Reachable(w) && w.versions != [] && w.wired == failing.wired && Last(w.versions).status == Failed
    ensures ReplayedAndSwitched(failing.trace) ==> ReplayedAndSwitched(w.trace)
  {
    ReachableIsSound(failing);
    WorkedIsReachable(failing, now, g);
    w := Worked(failing, now, g);
    TraceGrows(failing.trace, Saved(Failed));
    WorkedIsReachable(w, now, g);
    w := Worked(w, now, g);
  }

  /** Or switch once more: one operation, two switches. */
  ghost predicate SwitchedTwice(trace: seq<Event>) {
    exists i, j :: 0 <= i < j < |trace| && trace[i] == PointersSwitched && trace[j] == PointersSwitched
  }

  lemma SwitchedAgain(created: int, now: int, g: Generation) returns (w: World)
    ensures Reachable(w) && w.versions != [] && w.wired && w.phase.Activated? && SwitchedTwice(w.trace)
  {
    w := RetryIsReached(created, now, g, 0);
    WorkedIsReachable(w, now, g);
    TraceGrows(w.trace, ReplayCompleted);
    w := Worked(w, now, g);
    WorkedIsReachable(w, now, g);
    w := Worked(w, now, g);
    var i, j :| 0 <= i < j < |w.trace| && w.trace[i] == ReplayCompleted && w.trace[j] == PointersSwitched;
    var before := w.trace;
    WorkedIsReachable(w, now, g);
    w := Worked(w, now, g);
    assert w.trace == before + [PointersSwitched];
    assert w.trace[j] == PointersSwitched && w.trace[|before|] == PointersSwitched;
  }
}
