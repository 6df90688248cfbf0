/**
  The live projection as a state machine of atomic steps: any number of workers take deliveries in any
  order and any number of times, and may crash between any two steps (nats.go, summary_projector.go,
  store.go). Messages, workers and responses are chosen by the environment.
 */
module ProjectionPipeline {
  import opened Common
  import opened ProjectionStore

  datatype Delivery = Delivery(message: Envelope, subject: string, attempts: int)

  /** What looking up and running the mapping yields for a message. */
  datatype Routing = Refused | MappingRejects(workspaceId: string) | RoutedTo(target: Target)

  datatype Outcome = Success | Transient | Deterministic

  /** How far a worker has got with a delivery. */
  datatype Stage =
    | Received
    | Archived(target: Target)
    | Claiming(target: Target, row: InboxRow)
    | Returned(outcome: Outcome)
    | DeadLettered

  datatype Task = Task(delivery: Delivery, stage: Stage)

  /** One committed application of an event; the log of these is a history variable. */
  datatype Application = Application(e: Envelope, t: Target, now: int)

  datatype World = World(
    store: Store, tasks: map<nat, Task>, applied: seq<Application>,
    acked: set<Envelope>, deadLetters: set<Delivery>, terminated: set<Delivery>)

  const Genesis := World(EmptyStore, map[], [], {}, {}, {})

  datatype DeadLetterReply = NoDeadLetters | PublishFailed | Published

  datatype Step =
    | Deliver(id: nat, delivery: Delivery)
    | RouteAndArchive(id: nat, routing: Routing, now: int)
    | ClaimInbox(id: nat, now: int)
    | CommitApply(id: nat, now: int, responseLost: bool)
    | Interrupt(id: nat, outcome: Outcome)
    | Crash(id: nat)
    | Settle(id: nat, maxDeliver: int, reply: DeadLetterReply)
    | StageRecord(collection: string, e: Envelope, t: Target, now: int)
    | ActivatePointers(scope: Scope, tables: set<string>, pointer: ReadPointer, proposed: map<AggregateKey, Checkpoint>)

  /** The steps a rebuild takes on its own. */
  predicate IsRebuildStep(step: Step) {
    step.StageRecord? || step.ActivatePointers?
  }

  // ------------------------------------------------------------ the machine

  predicate WellIdentified(e: Envelope) {
    e.aggregateVersion >= 1 && e.eventId != "" && e.tenantId != "" && e.sourceSystem != OtherSource("")
    && e.aggregateType != "" && e.aggregateId != ""
  }

  function At(w: World, id: nat, stage: Stage): World
    requires id in w.tasks
  {
    w.(tasks := w.tasks[id := w.tasks[id].(stage := stage)])
  }

  function Without(w: World, id: nat): World {
    w.(tasks := w.tasks - {id})
  }

  function Archive(w: World, id: nat, workspaceId: string, now: int, stage: Stage): World
    requires id in w.tasks
  {
    var d := w.tasks[id].delivery;
    if ArchiveAccepts(w.store, d.message)
    then At(w.(store := AfterArchive(w.store, d.message, d.subject, workspaceId, now)), id, stage)
    else At(w, id, Returned(Transient))
  }

  function Route(w: World, id: nat, routing: Routing, now: int): World
    requires id in w.tasks
  {
    var e := w.tasks[id].delivery.message;
    if !WellIdentified(e) || ConsumerForSource(e.sourceSystem) == NoConsumer then At(w, id, Returned(Deterministic))
    else match routing
      case Refused => At(w, id, Returned(Deterministic))
      case MappingRejects(workspaceId) => Archive(w, id, workspaceId, now, Returned(Deterministic))
      case RoutedTo(t) => Archive(w, id, t.workspaceId, now, Archived(t))
  }

  function Claim(w: World, id: nat, now: int): World
    requires id in w.tasks && w.tasks[id].stage.Archived?
  {
    var d := w.tasks[id].delivery;
    var t := w.tasks[id].stage.target;
    match ClaimOutcome(w.store, d.message, d.subject, t.workspaceId, now)
    case ClaimConflict => At(w, id, Returned(Transient))
    case Claimed(row, duplicate) =>
      var claimed := w.(store := AfterClaim(w.store, d.message, d.subject, t.workspaceId, now));
      if duplicate && row.status == InboxApplied then At(claimed, id, Returned(Success))
      else At(claimed, id, Claiming(t, row))
  }

  /** The error, if any, that the projection transaction hands back. */
  function OutcomeOf(result: ApplyResult, responseLost: bool): Outcome {
    match result
    case Applied => if responseLost then Transient else Success
    case StaleApplied => if responseLost then Transient else Success
    case AlreadyApplied => Success
    case VersionGap => Transient
    case ApplyRefused(_) => Transient
  }

  function Commit(w: World, id: nat, now: int, responseLost: bool): World
    requires id in w.tasks && w.tasks[id].stage.Claiming?
  {
    var e := w.tasks[id].delivery.message;
    var t := w.tasks[id].stage.target;
    var row := w.tasks[id].stage.row;
    var result := ApplyOutcome(w.store, row, e, t);
    var committed := w.(
      store := AfterApply(w.store, row, e, t, now),
      applied := if result == Applied then w.applied + [Application(e, t, now)] else w.applied);
    At(committed, id, Returned(OutcomeOf(result, responseLost)))
  }

  function SettleTask(w: World, id: nat, maxDeliver: int, reply: DeadLetterReply): World
    requires id in w.tasks
  {
    var d := w.tasks[id].delivery;
    match w.tasks[id].stage
    case Returned(outcome) =>
      if outcome == Success then Without(w, id).(acked := w.acked + {d.message})
      else if (outcome == Deterministic || (if d.attempts > 0 then d.attempts else 1) >= maxDeliver)
           && reply == Published
      then At(w, id, DeadLettered).(deadLetters := w.deadLetters + {d})
      else Without(w, id)
    case DeadLettered => Without(w, id).(terminated := w.terminated + {d})
    case _ => w
  }

  /** One step. A step that is not enabled leaves the world as it is. */
  function Next(w: World, step: Step): World {
    match step
    case Deliver(id, delivery) => if id in w.tasks then w else w.(tasks := w.tasks[id := Task(delivery, Received)])
    case RouteAndArchive(id, routing, now) =>
      if id in w.tasks && w.tasks[id].stage == Received then Route(w, id, routing, now) else w
    case ClaimInbox(id, now) => if id in w.tasks && w.tasks[id].stage.Archived? then Claim(w, id, now) else w
    case CommitApply(id, now, lost) =>
      if id in w.tasks && w.tasks[id].stage.Claiming? then Commit(w, id, now, lost) else w
    case Interrupt(id, outcome) =>
      if id in w.tasks && !w.tasks[id].stage.Returned? && !w.tasks[id].stage.DeadLettered? && outcome != Success
      then At(w, id, Returned(outcome)) else w
    case Crash(id) => Without(w, id)
    case Settle(id, maxDeliver, reply) => if id in w.tasks then SettleTask(w, id, maxDeliver, reply) else w
    case StageRecord(collection, e, t, now) => w.(store := AfterStaging(w.store, collection, e, t, now))
    case ActivatePointers(scope, tables, pointer, proposed) =>
      w.(store := AfterActivation(w.store, scope, tables, pointer, proposed))
  }

  function Run(w: World, steps: seq<Step>): World
    decreases |steps|
  {
    if steps == [] then w else Next(Run(w, steps[..|steps| - 1]), Last(steps))
  }

  // ------------------------------------------------------------- the history

  /** The applications of one aggregate's events, in commit order. */
  function OfAggregate(log: seq<Application>, a: AggregateKey): seq<Application>
    decreases |log|
  {
    if log == [] then []
    else
      var rest := OfAggregate(log[..|log| - 1], a);
      if AggregateOf(Last(log).e, Last(log).t.workspaceId) == a then rest + [Last(log)] else rest
  }

  /** The record the latest application to a document leaves behind. */
  function LastWrite(log: seq<Application>, d: DocumentKey): Option<Record>
    decreases |log|
  {
    if log == [] then None
    else if DocumentOf(Last(log).e, Last(log).t) == d then Some(ImageOf(Last(log).e, Last(log).t, Last(log).now))
    else LastWrite(log[..|log| - 1], d)
  }

  /** The aggregate's versions 1, 2, ..., v were applied once each and in that order; v is its checkpoint. */
  ghost predicate AppliedInOrder(s: Store, log: seq<Application>, a: AggregateKey) {
    var own := OfAggregate(log, a);
    && VersionOf(s, a) == |own|
    && (forall i :: 0 <= i < |own| ==> own[i].e.aggregateVersion == i + 1)
    && (a in s.checkpoints ==>
          && own != [] && s.checkpoints[a].lastEventId == Last(own).e.eventId
          && s.checkpoints[a].syncedAt == Last(own).now)
  }

  ghost predicate CheckpointsFollow(s: Store, log: seq<Application>) {
    forall a :: AppliedInOrder(s, log, a)
  }

  ghost predicate RecordsFollow(s: Store, log: seq<Application>) {
    forall d :: Content(Visible(s, d)) == Content(LastWrite(log, d))
  }

  ghost predicate AuditFollows(s: Store, log: seq<Application>) {
    |s.audit| == |log| && forall i :: 0 <= i < |log| ==> IsAuditFor(s.audit[i], log[i].e, log[i].t, log[i].now)
  }

  /** An applied inbox row belongs to an aggregate whose checkpoint has reached the row's version. */
  ghost predicate RowJustified(s: Store, k: MessageKey)
    requires k in s.inbox
  {
    var row := s.inbox[k];
    && KeyOf(row.digest) == k
    && row.digest.aggregateVersion >= 1
    && k in s.archive && s.archive[k].raw == row.digest
    && (row.status == InboxApplied ==>
          VersionOf(s, AggregateOf(row.digest, row.workspaceId)) >= row.digest.aggregateVersion)
  }

  ghost predicate InboxJustified(s: Store) {
    forall k :: k in s.inbox ==> RowJustified(s, k)
  }

  ghost predicate ArchiveKeyed(s: Store) {
    forall k :: k in s.archive ==> KeyOf(s.archive[k].raw) == k
  }

  predicate InInbox(s: Store, e: Envelope, workspaceId: string, applied: bool) {
    KeyOf(e) in s.inbox && s.inbox[KeyOf(e)].digest == e && s.inbox[KeyOf(e)].workspaceId == workspaceId
    && (applied ==> s.inbox[KeyOf(e)].status == InboxApplied)
  }

  ghost predicate LogRecorded(s: Store, log: seq<Application>) {
    forall i :: 0 <= i < |log| ==> InInbox(s, log[i].e, log[i].t.workspaceId, true)
  }

  /** What holds of the store in every run, rebuilds included. */
  ghost predicate StoreSafe(s: Store, log: seq<Application>) {
    AuditFollows(s, log) && InboxJustified(s) && ArchiveKeyed(s) && LogRecorded(s, log)
  }

  /** What holds of the store as long as no rebuild overtakes the live projection. */
  ghost predicate StoreFollows(s: Store, log: seq<Application>) {
    CheckpointsFollow(s, log) && RecordsFollow(s, log)
  }

  predicate RowIsApplied(s: Store, e: Envelope) {
    KeyOf(e) in s.inbox && s.inbox[KeyOf(e)].digest == e && s.inbox[KeyOf(e)].status == InboxApplied
  }

  predicate TaskSound(w: World, task: Task) {
    var e := task.delivery.message;
    match task.stage
    case Received => true
    case Archived(t) =>
      WellIdentified(e) && KeyOf(e) in w.store.archive && w.store.archive[KeyOf(e)].raw == e
    case Claiming(t, row) => row.digest == e && InInbox(w.store, e, row.workspaceId, false)
    case Returned(outcome) => outcome == Success ==> RowIsApplied(w.store, e)
    case DeadLettered => task.delivery in w.deadLetters
  }

  ghost predicate WorkersSound(w: World) {
    && (forall id :: id in w.tasks ==> TaskSound(w, w.tasks[id]))
    && (forall e :: e in w.acked ==> RowIsApplied(w.store, e))
    && w.terminated <= w.deadLetters
  }

  ghost predicate Safe(w: World) {
    StoreSafe(w.store, w.applied) && WorkersSound(w)
  }

  ghost predicate Sound(w: World) {
    Safe(w) && StoreFollows(w.store, w.applied)
  }

  // ------------------------------------------- what one transaction keeps

  lemma OfAggregateAppend(log: seq<Application>, x: Application, a: AggregateKey)
    ensures OfAggregate(log + [x], a)
         == if AggregateOf(x.e, x.t.workspaceId) == a then OfAggregate(log, a) + [x] else OfAggregate(log, a)
  {
    assert (log + [x])[..|log|] == log;
  }

  lemma LastWriteAppend(log: seq<Application>, x: Application, d: DocumentKey)
    ensures LastWrite(log + [x], d)
         == if DocumentOf(x.e, x.t) == d then Some(ImageOf(x.e, x.t, x.now)) else LastWrite(log, d)
  {
    assert (log + [x])[..|log|] == log;
  }

  lemma CheckpointsFrame(s: Store, s': Store, log: seq<Application>)
    requires CheckpointsFollow(s, log) && s'.checkpoints == s.checkpoints
    ensures CheckpointsFollow(s', log)
  {
    forall a ensures AppliedInOrder(s', log, a) { assert AppliedInOrder(s, log, a); }
  }

  lemma RecordsFrame(s: Store, s': Store, log: seq<Application>)
    requires RecordsFollow(s, log) && s'.records == s.records && s'.pointers == s.pointers
    ensures RecordsFollow(s', log)
  {
    forall d ensures Content(Visible(s', d)) == Content(LastWrite(log, d)) {
      assert Content(Visible(s, d)) == Content(LastWrite(log, d));
    }
  }

  /** A committed application is the next one of its aggregate. */
  lemma CommitExtendsOrder(s: Store, log: seq<Application>, row: InboxRow, e: Envelope, t: Target, now: int)
    requires CheckpointsFollow(s, log) && ApplyOutcome(s, row, e, t) == Applied
    ensures CheckpointsFollow(AfterApply(s, row, e, t, now), log + [Application(e, t, now)])
  {
    var s' := AfterApply(s, row, e, t, now);
    var x := Application(e, t, now);
    forall b ensures AppliedInOrder(s', log + [x], b) {
      assert AppliedInOrder(s, log, b);
      OfAggregateAppend(log, x, b);
      if b != AggregateOf(e, t.workspaceId) {
        assert OfAggregate(log + [x], b) == OfAggregate(log, b);
        assert b in s'.checkpoints <==> b in s.checkpoints;
      }
    }
  }

  /** Flagging a gap moves no version. */
  lemma RefusalKeepsOrder(s: Store, log: seq<Application>, row: InboxRow, e: Envelope, t: Target, now: int)
    requires CheckpointsFollow(s, log) && ApplyOutcome(s, row, e, t) != Applied
    ensures CheckpointsFollow(AfterApply(s, row, e, t, now), log)
  {
    var s' := AfterApply(s, row, e, t, now);
    forall b ensures AppliedInOrder(s', log, b) { assert AppliedInOrder(s, log, b); }
  }

  lemma CommitExtendsRecords(s: Store, log: seq<Application>, row: InboxRow, e: Envelope, t: Target, now: int)
    requires RecordsFollow(s, log) && ApplyOutcome(s, row, e, t) == Applied
    ensures RecordsFollow(AfterApply(s, row, e, t, now), log + [Application(e, t, now)])
  {
    var s' := AfterApply(s, row, e, t, now);
    forall d ensures Content(Visible(s', d)) == Content(LastWrite(log + [Application(e, t, now)], d)) {
      assert Content(Visible(s, d)) == Content(LastWrite(log, d));
      LastWriteAppend(log, Application(e, t, now), d);
    }
  }

  lemma ApplyKeepsView(s: Store, log: seq<Application>, row: InboxRow, e: Envelope, t: Target, now: int)
    requires StoreFollows(s, log)
    ensures StoreFollows(AfterApply(s, row, e, t, now),
                         if ApplyOutcome(s, row, e, t) == Applied then log + [Application(e, t, now)] else log)
  {
    if ApplyOutcome(s, row, e, t) == Applied {
      CommitExtendsOrder(s, log, row, e, t, now);
      CommitExtendsRecords(s, log, row, e, t, now);
    } else {
      RefusalKeepsOrder(s, log, row, e, t, now);
      ApplyShape(s, row, e, t, now);
      RecordsFrame(s, AfterApply(s, row, e, t, now), log);
    }
  }

  /** No version goes back. */
  ghost predicate Advances(s: Store, s': Store) {
    forall a :: VersionOf(s', a) >= VersionOf(s, a)
  }

  /** Nothing a step does takes back what a worker relies on. */
  ghost predicate Grows(s: Store, s': Store) {
    && (forall k :: k in s.inbox ==> k in s'.inbox && RowGrows(s.inbox[k], s'.inbox[k]))
    && (forall k :: k in s.archive ==> k in s'.archive && s'.archive[k] == s.archive[k])
  }

  predicate RowGrows(row: InboxRow, row': InboxRow) {
    row'.digest == row.digest && row'.workspaceId == row.workspaceId
    && (row.status == InboxApplied ==> row'.status == InboxApplied)
  }

  /** The transaction touches one inbox row at most, and neither the archive nor the pointers. */
  lemma ApplyShape(s: Store, row: InboxRow, e: Envelope, t: Target, now: int)
    ensures var s' := AfterApply(s, row, e, t, now);
            && s'.archive == s.archive && s'.pointers == s.pointers
            && (s'.inbox == s.inbox || (KeyOf(e) in s.inbox && s'.inbox == RowApplied(s, e, now)))
            && (ApplyOutcome(s, row, e, t) != Applied ==> s'.records == s.records && s'.audit == s.audit)
  {
    ApplyLeavesRest(s, row, e, t, now);
    ApplyTouchesRow(s, row, e, t, now);
  }

  lemma ApplyLeavesRest(s: Store, row: InboxRow, e: Envelope, t: Target, now: int)
    ensures var s' := AfterApply(s, row, e, t, now);
            && s'.archive == s.archive && s'.pointers == s.pointers
            && (ApplyOutcome(s, row, e, t) != Applied ==> s'.records == s.records && s'.audit == s.audit)
  {
  }

  lemma ApplyTouchesRow(s: Store, row: InboxRow, e: Envelope, t: Target, now: int)
    ensures var s' := AfterApply(s, row, e, t, now);
            s'.inbox == s.inbox || (KeyOf(e) in s.inbox && s'.inbox == RowApplied(s, e, now))
  {
    match ApplyOutcome(s, row, e, t)
    case Applied =>
    case StaleApplied =>
    case AlreadyApplied =>
    case VersionGap =>
    case ApplyRefused(_) =>
  }

  lemma ApplyAdvances(s: Store, row: InboxRow, e: Envelope, t: Target, now: int)
    ensures Advances(s, AfterApply(s, row, e, t, now))
    ensures AfterApply(s, row, e, t, now).inbox != s.inbox
            ==> VersionOf(AfterApply(s, row, e, t, now), AggregateOf(e, t.workspaceId)) >= e.aggregateVersion
    ensures AfterApply(s, row, e, t, now).inbox != s.inbox ==> row.workspaceId == t.workspaceId
  {
  }

  lemma InboxUpdateGrows(s: Store, s': Store, e: Envelope, now: int)
    requires s'.archive == s.archive
    requires s'.inbox == s.inbox || (KeyOf(e) in s.inbox && s'.inbox == RowApplied(s, e, now))
    ensures Grows(s, s')
  {
  }

  lemma ApplyGrows(s: Store, row: InboxRow, e: Envelope, t: Target, now: int)
    ensures Grows(s, AfterApply(s, row, e, t, now))
  {
    ApplyShape(s, row, e, t, now);
    InboxUpdateGrows(s, AfterApply(s, row, e, t, now), e, now);
  }

  lemma InboxUpdateIsJustified(s: Store, s': Store, row: InboxRow, e: Envelope, t: Target, now: int)
    requires InboxJustified(s) && InInbox(s, e, row.workspaceId, false) && Advances(s, s') && s'.archive == s.archive
    requires s'.inbox == s.inbox
             || (s'.inbox == RowApplied(s, e, now) && row.workspaceId == t.workspaceId
                 && VersionOf(s', AggregateOf(e, t.workspaceId)) >= e.aggregateVersion)
    ensures InboxJustified(s')
  {
    forall k | k in s'.inbox ensures RowJustified(s', k) {
      assert RowJustified(s, k);
    }
  }

  lemma ApplyKeepsInbox(s: Store, row: InboxRow, e: Envelope, t: Target, now: int)
    requires InboxJustified(s) && InInbox(s, e, row.workspaceId, false)
    ensures InboxJustified(AfterApply(s, row, e, t, now))
  {
    ApplyShape(s, row, e, t, now);
    ApplyAdvances(s, row, e, t, now);
    ApplyGrows(s, row, e, t, now);
    InboxUpdateIsJustified(s, AfterApply(s, row, e, t, now), row, e, t, now);
  }

  lemma LogRecordedFrame(s: Store, s': Store, log: seq<Application>)
    requires LogRecorded(s, log) && Grows(s, s')
    ensures LogRecorded(s', log)
  {
  }

  lemma CommitIsAudited(s: Store, log: seq<Application>, row: InboxRow, e: Envelope, t: Target, now: int)
    requires AuditFollows(s, log) && LogRecorded(s, log) && ApplyOutcome(s, row, e, t) == Applied
    requires InInbox(s, e, row.workspaceId, false)
    ensures AuditFollows(AfterApply(s, row, e, t, now), log + [Application(e, t, now)])
    ensures LogRecorded(AfterApply(s, row, e, t, now), log + [Application(e, t, now)])
  {
    ApplyGrows(s, row, e, t, now);
    LogRecordedFrame(s, AfterApply(s, row, e, t, now), log);
  }

  /** The transaction keeps the books, whatever row the worker carries. */
  lemma ApplyKeepsSafety(s: Store, log: seq<Application>, row: InboxRow, e: Envelope, t: Target, now: int)
    requires StoreSafe(s, log) && row.digest == e && InInbox(s, e, row.workspaceId, false)
    ensures StoreSafe(AfterApply(s, row, e, t, now),
                      if ApplyOutcome(s, row, e, t) == Applied then log + [Application(e, t, now)] else log)
  {
    ApplyKeepsInbox(s, row, e, t, now);
    ApplyShape(s, row, e, t, now);
    if ApplyOutcome(s, row, e, t) == Applied {
      CommitIsAudited(s, log, row, e, t, now);
    } else {
      ApplyGrows(s, row, e, t, now);
      LogRecordedFrame(s, AfterApply(s, row, e, t, now), log);
    }
  }

  /** A change that leaves inbox and audit alone and moves nothing back keeps the books. */
  lemma GrowthKeepsSafety(s: Store, s': Store, log: seq<Application>)
    requires StoreSafe(s, log) && Grows(s, s') && Advances(s, s') && ArchiveKeyed(s')
    requires s'.inbox == s.inbox && s'.audit == s.audit
    ensures StoreSafe(s', log)
  {
    LogRecordedFrame(s, s', log);
    forall k | k in s'.inbox ensures RowJustified(s', k) { assert RowJustified(s, k); }
  }

  lemma ArchiveGrows(s: Store, e: Envelope, subject: string, workspaceId: string, now: int)
    ensures Grows(s, AfterArchive(s, e, subject, workspaceId, now))
    ensures ArchiveKeyed(s) ==> ArchiveKeyed(AfterArchive(s, e, subject, workspaceId, now))
  {
  }

  lemma ArchiveKeepsSafety(s: Store, log: seq<Application>, e: Envelope, subject: string, workspaceId: string, now: int)
    requires StoreSafe(s, log)
    ensures StoreSafe(AfterArchive(s, e, subject, workspaceId, now), log)
  {
    ArchiveGrows(s, e, subject, workspaceId, now);
    GrowthKeepsSafety(s, AfterArchive(s, e, subject, workspaceId, now), log);
  }

  lemma ClaimGrows(s: Store, e: Envelope, subject: string, workspaceId: string, now: int)
    ensures Grows(s, AfterClaim(s, e, subject, workspaceId, now))
  {
  }

  lemma ClaimKeepsInbox(s: Store, e: Envelope, subject: string, workspaceId: string, now: int)
    requires InboxJustified(s) && e.aggregateVersion >= 1 && KeyOf(e) in s.archive && s.archive[KeyOf(e)].raw == e
    ensures InboxJustified(AfterClaim(s, e, subject, workspaceId, now))
  {
    var s' := AfterClaim(s, e, subject, workspaceId, now);
    forall k | k in s'.inbox ensures RowJustified(s', k) { if k in s.inbox { assert RowJustified(s, k); } }
  }

  lemma ClaimKeepsSafety(s: Store, log: seq<Application>, e: Envelope, subject: string, workspaceId: string, now: int)
    requires StoreSafe(s, log)
    requires e.aggregateVersion >= 1 && KeyOf(e) in s.archive && s.archive[KeyOf(e)].raw == e
    ensures StoreSafe(AfterClaim(s, e, subject, workspaceId, now), log)
  {
    ClaimGrows(s, e, subject, workspaceId, now);
    LogRecordedFrame(s, AfterClaim(s, e, subject, workspaceId, now), log);
    ClaimKeepsInbox(s, e, subject, workspaceId, now);
  }

  lemma ActivationAdvances(
    s: Store, scope: Scope, tables: set<string>, pointer: ReadPointer, proposed: map<AggregateKey, Checkpoint>)
    ensures Advances(s, AfterActivation(s, scope, tables, pointer, proposed))
    ensures var s' := AfterActivation(s, scope, tables, pointer, proposed);
            s' == s.(pointers := s'.pointers, checkpoints := s'.checkpoints)
  {
  }

  // ---------------------------------------------- what a worker's step keeps

  /** A step of one worker that only grows the store, and leaves that worker sound, leaves all workers sound. */
  lemma GrowthKeepsWorkers(w: World, w': World, id: nat)
    requires WorkersSound(w) && Grows(w.store, w'.store)
    requires id in w'.tasks ==> TaskSound(w', w'.tasks[id])
    requires w'.tasks - {id} == w.tasks - {id}
    requires w.deadLetters <= w'.deadLetters && w'.acked == w.acked && w'.terminated == w.terminated
    ensures WorkersSound(w')
  {
    forall other | other in w'.tasks ensures TaskSound(w', w'.tasks[other]) {
      if other != id {
        assert other in w'.tasks - {id};
        assert (w'.tasks - {id})[other] == (w.tasks - {id})[other];
        assert TaskSound(w, w.tasks[other]);
      }
    }
  }

  /** All that routing does to the world: it may archive the message, and moves its own worker on. */
  lemma RouteShape(w: World, id: nat, routing: Routing, now: int) returns (archived: bool, workspaceId: string)
    requires id in w.tasks
    ensures var w' := Route(w, id, routing, now);
            var d := w.tasks[id].delivery;
            && w'.store == (if archived then AfterArchive(w.store, d.message, d.subject, workspaceId, now) else w.store)
            && w' == w.(store := w'.store, tasks := w'.tasks)
            && w'.tasks - {id} == w.tasks - {id}
            && TaskSound(w', w'.tasks[id])
  {
    var e := w.tasks[id].delivery.message;
    workspaceId := match routing case RoutedTo(t) => t.workspaceId case MappingRejects(x) => x case Refused => "";
    archived := WellIdentified(e) && ConsumerForSource(e.sourceSystem) != NoConsumer && !routing.Refused?
                && ArchiveAccepts(w.store, e);
  }

  lemma RouteIsSafe(w: World, id: nat, routing: Routing, now: int)
    requires Safe(w) && id in w.tasks
    ensures Safe(Route(w, id, routing, now))
    ensures StoreFollows(w.store, w.applied) ==> Sound(Route(w, id, routing, now))
  {
    var w' := Route(w, id, routing, now);
    var archived, workspaceId := RouteShape(w, id, routing, now);
    ArchiveGrows(w.store, w.tasks[id].delivery.message, w.tasks[id].delivery.subject, workspaceId, now);
    ArchiveKeepsSafety(w.store, w.applied, w.tasks[id].delivery.message, w.tasks[id].delivery.subject, workspaceId,
                       now);
    GrowthKeepsWorkers(w, w', id);
    if StoreFollows(w.store, w.applied) {
      CheckpointsFrame(w.store, w'.store, w.applied);
      RecordsFrame(w.store, w'.store, w.applied);
    }
  }

  lemma ClaimShape(w: World, id: nat, now: int)
    requires id in w.tasks && w.tasks[id].stage.Archived? && TaskSound(w, w.tasks[id])
    ensures var w' := Claim(w, id, now);
            var d := w.tasks[id].delivery;
            && w'.store in {w.store, AfterClaim(w.store, d.message, d.subject, w.tasks[id].stage.target.workspaceId,
                                                now)}
            && w' == w.(store := w'.store, tasks := w'.tasks)
            && w'.tasks - {id} == w.tasks - {id}
            && TaskSound(w', w'.tasks[id])
  {
  }

  lemma ClaimIsSafe(w: World, id: nat, now: int)
    requires Safe(w) && id in w.tasks && w.tasks[id].stage.Archived?
    ensures Safe(Claim(w, id, now))
    ensures StoreFollows(w.store, w.applied) ==> Sound(Claim(w, id, now))
  {
    var d := w.tasks[id].delivery;
    var w' := Claim(w, id, now);
    assert TaskSound(w, w.tasks[id]);
    ClaimShape(w, id, now);
    ClaimGrows(w.store, d.message, d.subject, w.tasks[id].stage.target.workspaceId, now);
    ClaimKeepsSafety(w.store, w.applied, d.message, d.subject, w.tasks[id].stage.target.workspaceId, now);
    GrowthKeepsWorkers(w, w', id);
    if StoreFollows(w.store, w.applied) {
      CheckpointsFrame(w.store, w'.store, w.applied);
      RecordsFrame(w.store, w'.store, w.applied);
    }
  }

  lemma CommitShape(w: World, id: nat, now: int, lost: bool)
    requires id in w.tasks && w.tasks[id].stage.Claiming? && TaskSound(w, w.tasks[id])
    ensures var w' := Commit(w, id, now, lost);
            && w' == w.(store := w'.store, tasks := w'.tasks, applied := w'.applied)
            && w'.tasks - {id} == w.tasks - {id}
            && TaskSound(w', w'.tasks[id])
  {
  }

  lemma CommitIsSafe(w: World, id: nat, now: int, lost: bool)
    requires Safe(w) && id in w.tasks && w.tasks[id].stage.Claiming?
    ensures Safe(Commit(w, id, now, lost))
    ensures StoreFollows(w.store, w.applied) ==> Sound(Commit(w, id, now, lost))
  {
    var stage := w.tasks[id].stage;
    var e := w.tasks[id].delivery.message;
    assert TaskSound(w, w.tasks[id]);
    ApplyKeepsSafety(w.store, w.applied, stage.row, e, stage.target, now);
    ApplyGrows(w.store, stage.row, e, stage.target, now);
    CommitShape(w, id, now, lost);
    GrowthKeepsWorkers(w, Commit(w, id, now, lost), id);
    if StoreFollows(w.store, w.applied) {
      ApplyKeepsView(w.store, w.applied, stage.row, e, stage.target, now);
    }
  }

  lemma SettleIsSafe(w: World, id: nat, maxDeliver: int, reply: DeadLetterReply)
    requires Safe(w) && id in w.tasks
    ensures Safe(SettleTask(w, id, maxDeliver, reply))
  {
    assert TaskSound(w, w.tasks[id]);
    var w' := SettleTask(w, id, maxDeliver, reply);
    forall other | other in w'.tasks ensures TaskSound(w', w'.tasks[other]) {
      assert TaskSound(w, w.tasks[other]);
    }
  }

  lemma RebuildStepIsSafe(w: World, step: Step)
    requires Safe(w) && IsRebuildStep(step)
    ensures Safe(Next(w, step))
  {
    var s' := Next(w, step).store;
    match step {
      case StageRecord(_, _, _, _) =>
      case ActivatePointers(scope, tables, pointer, proposed) =>
        ActivationAdvances(w.store, scope, tables, pointer, proposed);
    }
    assert s' == w.store.(pointers := s'.pointers, checkpoints := s'.checkpoints, records := s'.records);
    BookkeepingFrame(w, Next(w, step));
  }

  lemma BookkeepingFrame(w: World, w': World)
    requires Safe(w) && w' == w.(store := w'.store) && Advances(w.store, w'.store)
    requires w'.store == w.store.(pointers := w'.store.pointers, checkpoints := w'.store.checkpoints,
                                  records := w'.store.records)
    ensures Safe(w')
  {
    GrowthKeepsSafety(w.store, w'.store, w.applied);
    forall id | id in w.tasks ensures TaskSound(w', w.tasks[id]) { assert TaskSound(w, w.tasks[id]); }
  }

  lemma QueueStepIsSafe(w: World, step: Step)
    requires Safe(w) && (step.Deliver? || step.Interrupt? || step.Crash?)
    ensures Safe(Next(w, step))
  {
    GrowthKeepsWorkers(w, Next(w, step), step.id);
  }

  /** Every step keeps a world safe, and every live step keeps a sound one sound. */
  lemma NextIsSafe(w: World, step: Step)
    requires Safe(w)
    ensures Safe(Next(w, step))
    ensures StoreFollows(w.store, w.applied) && !IsRebuildStep(step) ==> Sound(Next(w, step))
  {
    match step
    case RouteAndArchive(id, routing, now) =>
      if id in w.tasks && w.tasks[id].stage == Received { RouteIsSafe(w, id, routing, now); }
    case ClaimInbox(id, now) =>
      if id in w.tasks && w.tasks[id].stage.Archived? { ClaimIsSafe(w, id, now); }
    case CommitApply(id, now, lost) =>
      if id in w.tasks && w.tasks[id].stage.Claiming? { CommitIsSafe(w, id, now, lost); }
    case Settle(id, maxDeliver, reply) =>
      if id in w.tasks { SettleIsSafe(w, id, maxDeliver, reply); }
    case StageRecord(_, _, _, _) => RebuildStepIsSafe(w, step);
    case ActivatePointers(_, _, _, _) => RebuildStepIsSafe(w, step);
    case _ => QueueStepIsSafe(w, step);
  }

  lemma GenesisIsSound()
    ensures Sound(Genesis)
  {
    forall a ensures AppliedInOrder(EmptyStore, [], a) {}
  }

  /** Every world any run reaches is safe, rebuilds included. */
  lemma {:induction false} RunIsSafe(steps: seq<Step>)
    ensures Safe(Run(Genesis, steps))
    decreases |steps|
  {
    if steps == [] {
      GenesisIsSound();
    } else {
      RunIsSafe(steps[..|steps| - 1]);
      NextIsSafe(Run(Genesis, steps[..|steps| - 1]), Last(steps));
    }
  }

  /** The archive is append-only: whatever happens, an entry stays what it is. */
  lemma NextKeepsArchive(w: World, step: Step, k: MessageKey)
    requires k in w.store.archive
    ensures k in Next(w, step).store.archive && Next(w, step).store.archive[k] == w.store.archive[k]
  {
    match step
    case CommitApply(id, now, _) =>
      if id in w.tasks && w.tasks[id].stage.Claiming? {
        ApplyLeavesRest(w.store, w.tasks[id].stage.row, w.tasks[id].delivery.message, w.tasks[id].stage.target, now);
      }
    case RouteAndArchive(id, routing, now) =>
      if id in w.tasks && w.tasks[id].stage == Received {
        var archived, workspaceId := RouteShape(w, id, routing, now);
      }
    case _ => OthersKeepArchive(w, step);
  }

  lemma OthersKeepArchive(w: World, step: Step)
    requires !step.CommitApply? && !step.RouteAndArchive?
    ensures Next(w, step).store.archive == w.store.archive
  {
  }

  lemma {:induction false} RunKeepsArchive(w: World, steps: seq<Step>, k: MessageKey)
    requires k in w.store.archive
    ensures k in Run(w, steps).store.archive && Run(w, steps).store.archive[k] == w.store.archive[k]
    decreases |steps|
  {
    if steps != [] {
      RunKeepsArchive(w, steps[..|steps| - 1], k);
      NextKeepsArchive(Run(w, steps[..|steps| - 1]), Last(steps), k);
    }
  }

  // --------------------------------------------------------- reachable worlds

  ghost predicate ReachedBy(w: World, steps: seq<Step>) {
    w == Run(Genesis, steps)
  }

  ghost predicate Reachable(w: World) {
    exists steps :: ReachedBy(w, steps)
  }

  lemma GenesisIsReachable()
    ensures Reachable(Genesis)
  {
    assert ReachedBy(Genesis, []);
  }

  lemma NextIsReachable(w: World, step: Step)
    requires Reachable(w)
    ensures Reachable(Next(w, step))
  {
    var steps :| ReachedBy(w, steps);
    assert (steps + [step])[..|steps + [step]| - 1] == steps;
    assert ReachedBy(Next(w, step), steps + [step]);
  }

  lemma ReachableIsSafe(w: World)
    requires Reachable(w)
    ensures Safe(w)
  {
    var steps :| ReachedBy(w, steps);
    RunIsSafe(steps);
  }

  // ------------------------------------------------ how a message meets the store

  /** The message is well formed, agrees with the archive, and is new to the inbox or still processing there. */
  predicate Deliverable(s: Store, e: Envelope, t: Target) {
    && WellIdentified(e) && ConsumerForSource(e.sourceSystem) != NoConsumer && ArchiveAccepts(s, e)
    && (KeyOf(e) in s.inbox ==> InInbox(s, e, t.workspaceId, false) && s.inbox[KeyOf(e)].status == InboxProcessing)
  }

  /** Nothing but its version keeps the event from being applied: it is not yet the next one of its aggregate. */
  predicate ComesEarly(s: Store, e: Envelope, t: Target) {
    Deliverable(s, e, t) && e.aggregateVersion > VersionOf(s, AggregateOf(e, t.workspaceId)) + 1
  }

  predicate ComesNext(s: Store, e: Envelope, t: Target) {
    && Deliverable(s, e, t) && e.aggregateVersion == VersionOf(s, AggregateOf(e, t.workspaceId)) + 1
    && ActiveCollection(s, e.tenantId, t.workspaceId, t.tableId) != ""
  }

  predicate ComesLate(s: Store, e: Envelope, t: Target) {
    Deliverable(s, e, t) && e.aggregateVersion <= VersionOf(s, AggregateOf(e, t.workspaceId))
  }

  /** The message of an early event waits in archive and inbox; nothing is written, and no version moves. */
  ghost predicate StoreWaits(s: Store, s': Store, e: Envelope, t: Target) {
    && s'.records == s.records && s'.audit == s.audit && s'.pointers == s.pointers
    && InInbox(s', e, t.workspaceId, false) && s'.inbox[KeyOf(e)].status == InboxProcessing
    && KeyOf(e) in s'.archive && s'.archive[KeyOf(e)].raw == e
    && (forall a :: VersionOf(s', a) == VersionOf(s, a)) && OthersWait(s, s', e)
  }

  /** The next event is applied: its version is the checkpoint's, readers see it, and it is audited. */
  ghost predicate StoreAdvances(s: Store, s': Store, e: Envelope, t: Target, now: int) {
    && RowIsApplied(s', e) && VersionOf(s', AggregateOf(e, t.workspaceId)) == e.aggregateVersion
    && ShowsEventSince(s', e, t, now) && Audits(s, s', e, t, now) && s'.pointers == s.pointers
    && WritesRecord(s, s', ActiveCollection(s, e.tenantId, t.workspaceId, t.tableId), e, t, now)
    && OthersWait(s, s', e)
  }

  /** Inbox and archive hold for any other message what they held. */
  ghost predicate OthersWait(s: Store, s': Store, e: Envelope) {
    forall k :: k != KeyOf(e) ==>
      Lookup(s'.inbox, k) == Lookup(s.inbox, k) && Lookup(s'.archive, k) == Lookup(s.archive, k)
  }

  /** An event the checkpoint has passed is marked applied and leaves no other trace than its archive entry. */
  ghost predicate StorePasses(s: Store, s': Store, e: Envelope) {
    && RowIsApplied(s', e) && s' == s.(inbox := s'.inbox, archive := s'.archive)
    && KeyOf(e) in s'.archive && s'.archive[KeyOf(e)].raw == e && OthersWait(s, s', e)
  }

  /** What claim and transaction do to a message that was archived and is to be applied next, later, or not at all. */
  ghost predicate Treated(s: Store, s': Store, e: Envelope, t: Target, now: int) {
    && (ComesEarly(s, e, t) ==> StoreWaits(s, s', e, t))
    && (ComesNext(s, e, t) ==> StoreAdvances(s, s', e, t, now))
    && (ComesLate(s, e, t) ==> StorePasses(s, s', e))
  }

  lemma ArchiveOfDeliverable(s: Store, e: Envelope, t: Target, subject: string, now: int)
    requires Deliverable(s, e, t)
    ensures var archived := AfterArchive(s, e, subject, t.workspaceId, now);
            && archived == s.(archive := archived.archive) && OthersWait(s, archived, e)
            && KeyOf(e) in archived.archive && archived.archive[KeyOf(e)].raw == e
  {
  }

  /** The row of a deliverable message once it is archived and claimed. */
  lemma ClaimOfDeliverable(s: Store, e: Envelope, t: Target, subject: string, now: int)
    requires Deliverable(s, e, t)
    ensures var archived := AfterArchive(s, e, subject, t.workspaceId, now);
            var c := AfterClaim(archived, e, subject, t.workspaceId, now);
            && c == s.(archive := c.archive, inbox := c.inbox)
            && KeyOf(e) in c.inbox && MeetsRow(c, c.inbox[KeyOf(e)], e, t, InboxProcessing)
            && c.inbox[KeyOf(e)].digest == e && KeyOf(e) in c.archive && c.archive[KeyOf(e)].raw == e
            && ClaimOutcome(archived, e, subject, t.workspaceId, now)
               == Claimed(c.inbox[KeyOf(e)], KeyOf(e) in s.inbox)
            && c.inbox[KeyOf(e)].workspaceId == t.workspaceId && OthersWait(s, c, e)
  {
    ArchiveOfDeliverable(s, e, t, subject, now);
  }

  lemma AdvanceIs(s: Store, c: Store, s': Store, e: Envelope, t: Target, now: int)
    requires c == s.(archive := c.archive, inbox := c.inbox) && s'.pointers == s.pointers
    requires MarksApplied(c, s', e, now) && c.inbox[KeyOf(e)].digest == e && Audits(c, s', e, t, now)
    requires MovesCheckpoint(c, s', e, t.workspaceId, now)
    requires WritesRecord(c, s', ActiveCollection(s, e.tenantId, t.workspaceId, t.tableId), e, t, now)
    requires OthersWait(s, c, e) && s'.archive == c.archive
    ensures StoreAdvances(s, s', e, t, now)
  {
    AggregateIs(AggregateOf(e, t.workspaceId), e, t.workspaceId);
    OthersStay(s, c, s', e);
  }

  lemma OthersStay(s: Store, c: Store, s': Store, e: Envelope)
    requires OthersWait(s, c, e) && OtherRowsStay(c, s', e) && s'.archive == c.archive
    ensures OthersWait(s, s', e)
  {
    forall k | k != KeyOf(e) ensures Lookup(s'.inbox, k) == Lookup(c.inbox, k) { KeyIs(k, e); }
  }

  lemma WaitingIs(s: Store, c: Store, s': Store, e: Envelope, t: Target)
    requires c == s.(archive := c.archive, inbox := c.inbox) && FlagsGap(c, s', e, t.workspaceId)
    requires InInbox(c, e, t.workspaceId, false) && c.inbox[KeyOf(e)].status == InboxProcessing
    requires KeyOf(e) in c.archive && c.archive[KeyOf(e)].raw == e && OthersWait(s, c, e)
    ensures StoreWaits(s, s', e, t)
  {
  }

  lemma PassingIs(s: Store, c: Store, s': Store, e: Envelope, now: int)
    requires c == s.(archive := c.archive, inbox := c.inbox) && s' == c.(inbox := s'.inbox)
    requires MarksApplied(c, s', e, now) && c.inbox[KeyOf(e)].digest == e
    requires KeyOf(e) in c.archive && c.archive[KeyOf(e)].raw == e && OthersWait(s, c, e)
    ensures StorePasses(s, s', e)
  {
    OthersStay(s, c, s', e);
  }

  /** A claimed message is treated by its version. */
  lemma ApplyTreats(s: Store, c: Store, row: InboxRow, e: Envelope, t: Target, now: int)
    requires c == s.(archive := c.archive, inbox := c.inbox) && MeetsRow(c, row, e, t, InboxProcessing)
    requires row.digest == e && KeyOf(e) in c.archive && c.archive[KeyOf(e)].raw == e
    requires c.inbox[KeyOf(e)].workspaceId == t.workspaceId && OthersWait(s, c, e)
    ensures Treated(s, AfterApply(c, row, e, t, now), e, t, now)
  {
    var s' := AfterApply(c, row, e, t, now);
    TransactionIs(c, row, e, t, now);
    if ComesEarly(s, e, t) { WaitingIs(s, c, s', e, t); }
    if ComesNext(s, e, t) { AdvanceIs(s, c, s', e, t, now); }
    if ComesLate(s, e, t) { PassingIs(s, c, s', e, now); }
  }
}
