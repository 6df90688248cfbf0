/**
  The repositories over the projection's collections, updating them in place, and the message handler that
  drives them. Every method is tied to the step function of ProjectionStore that the proofs speak about.
 */
module ProjectionDatabase {
  import opened Common
  import opened ProjectionStore
  import opened ProjectionPipeline

  function Elements(tables: seq<string>): set<string> {
    set table | table in tables
  }

  class Database {
    var inbox: map<MessageKey, InboxRow>
    var archive: map<MessageKey, ArchiveEntry>
    var checkpoints: map<AggregateKey, Checkpoint>
    var records: map<Address, Record>
    var audit: seq<AuditEntry>
    var pointers: map<PointerKey, ReadPointer>

    function State(): Store
      reads this
    {
      Store(inbox, archive, checkpoints, records, audit, pointers)
    }

    constructor ()
      ensures State() == EmptyStore
    {
      inbox, archive, checkpoints, records, audit, pointers := map[], map[], map[], map[], [], map[];
    }

    /** Insert, or on a duplicate key compare with what is stored. */
    method Claim(e: Envelope, subject: string, workspaceId: string, now: int) returns (result: ClaimResult)
      modifies this
      ensures State() == AfterClaim(old(State()), e, subject, workspaceId, now)
      ensures result == ClaimOutcome(old(State()), e, subject, workspaceId, now)
      ensures ClaimDid(old(State()), e, subject, workspaceId, now, State(), result)
    {
      ClaimIs(State(), e, subject, workspaceId, now);
      var event := FreshRow(e, subject, workspaceId, now);
      if KeyOf(e) !in inbox {
        inbox := inbox[KeyOf(e) := event];
        return Claimed(event, false);
      }
      var existing := inbox[KeyOf(e)];
      if existing.digest != event.digest {
        return ClaimConflict;
      }
      return Claimed(existing, true);
    }

    /** Append-only: a second insert of a key succeeds only when the messages are identical. */
    method ArchiveEvent(e: Envelope, subject: string, workspaceId: string, now: int) returns (accepted: bool)
      modifies this`archive
      ensures accepted == ArchiveAccepts(old(State()), e)
      ensures accepted ==> State() == AfterArchive(old(State()), e, subject, workspaceId, now)
      ensures !accepted ==> State() == old(State())
      ensures ArchiveDid(old(State()), e, subject, workspaceId, now, State(), accepted)
    {
      ArchiveIs(State(), e, subject, workspaceId, now);
      if KeyOf(e) !in archive {
        archive := archive[KeyOf(e) := ArchiveEntry(e, subject, workspaceId, now)];
        return true;
      }
      return archive[KeyOf(e)].raw == e;
    }

    /** The projection transaction, for rows of the target's workspace; an error rolls everything back. */
    method Apply(claimed: InboxRow, e: Envelope, t: Target, now: int) returns (result: ApplyResult)
      modifies this`inbox, this`records, this`checkpoints, this`audit
      ensures State() == AfterApply(old(State()), claimed, e, t, now)
      ensures result == ApplyOutcome(old(State()), claimed, e, t)
      ensures TransactionEnds(old(State()), claimed, e, t, result)
      ensures TransactionDid(old(State()), e, t, now, State(), result)
    {
      TransactionIs(State(), claimed, e, t, now);
      if claimed.workspaceId != t.workspaceId {
        return ApplyRefused(ScopeMismatch);
      }
      result := InTransaction(claimed, e, t, now);
    }

    method InTransaction(claimed: InboxRow, e: Envelope, t: Target, now: int) returns (result: ApplyResult)
      requires claimed.workspaceId == t.workspaceId
      modifies this`inbox, this`records, this`checkpoints, this`audit
      ensures State() == AfterApply(old(State()), claimed, e, t, now)
      ensures result == ApplyOutcome(old(State()), claimed, e, t)
    {
      if KeyOf(e) !in inbox {
        return ApplyRefused(InboxNotFound);
      }
      var existing := inbox[KeyOf(e)];
      if existing.digest != claimed.digest {
        return ApplyRefused(PayloadConflict);
      }
      if existing.status == InboxApplied {
        return AlreadyApplied;
      }
      if existing.status != InboxProcessing {
        return ApplyRefused(StateConflict);
      }
      var a := AggregateOf(e, t.workspaceId);
      var decision := ClassifyCheckpoint(Lookup(checkpoints, a), e.aggregateVersion);
      var applied := existing.(status := InboxApplied, appliedAt := Some(now));
      if decision == DecideStale {
        inbox := inbox[KeyOf(e) := applied];
        return StaleApplied;
      }
      if decision == DecideGap {
        if a in checkpoints {
          checkpoints := checkpoints[a := checkpoints[a].(status := CheckpointGap)];
        }
        return VersionGap;
      }
      var collection := ActiveCollection(State(), e.tenantId, t.workspaceId, t.tableId);
      if collection == "" {
        return ApplyRefused(PointerUnavailable);
      }
      inbox := inbox[KeyOf(e) := applied];
      records := records[Address(collection, DocumentOf(e, t)) := ImageOf(e, t, now)];
      checkpoints := checkpoints[a := Checkpoint(e.aggregateVersion, e.eventId, now, CheckpointCurrent)];
      audit := audit + [AuditOf(e, t, now)];
      return Applied;
    }

    method ApplyStaging(collection: string, e: Envelope, t: Target, now: int)
      modifies this`records
      ensures State() == AfterStaging(old(State()), collection, e, t, now)
      ensures StagingDid(old(State()), collection, e, t, now, State())
    {
      StagingIs(State(), collection, e, t, now);
      var address := Address(collection, DocumentOf(e, t));
      if address in records {
        var current := records[address];
        if current.recordVersion >= t.recordVersion {
          return;
        }
      }
      records := records[address := ImageOf(e, t, now)];
    }

    /**
      The pointer transaction. Retiring an active pointer collides with a retired one of the same table in
      the unique index; the collision, like an invalid checkpoint, rolls the whole switch back.
     */
    method ActivateManyWithCheckpoints(
      scope: Scope, tableIds: seq<string>, pointer: ReadPointer, proposed: map<AggregateKey, Checkpoint>)
      returns (ok: bool)
      modifies this`pointers, this`checkpoints
      ensures var tables := Elements(tableIds) - {""};
              && State() == AfterActivation(old(State()), scope, tables, pointer, proposed)
              && (ok <==> tables == {} || (ActivationAllowed(old(State()), scope, tables)
                                           && CheckpointsValid(proposed)))
              && ActivationDid(old(State()), scope, tables, pointer, proposed, State(), ok)
    {
      ActivationIs(State(), scope, Elements(tableIds) - {""}, pointer, proposed);
      var uniqueTables := UniqueTables(tableIds);
      assert Elements(uniqueTables) == Elements(tableIds) - {""};
      if uniqueTables == [] {
        return true;
      }
      var switched, switchedOk := SwitchAll(pointers, scope, uniqueTables, pointer);
      var advanced, valid := AdvanceAll(proposed);
      if uniqueTables != [] { assert uniqueTables[0] in Elements(uniqueTables); }
      if !switchedOk || !valid {
        return false;
      }
      pointers := switched;
      checkpoints := advanced;
      return true;
    }

    /** The checkpoint loop: insert what is missing, advance what is behind. */
    method AdvanceAll(proposed: map<AggregateKey, Checkpoint>) returns (c: map<AggregateKey, Checkpoint>, ok: bool)
      ensures ok <==> CheckpointsValid(proposed)
      ensures ok ==> c == Advanced(checkpoints, proposed)
    {
      c := checkpoints;
      var remaining := proposed.Keys;
      assert Advanced(checkpoints, proposed - remaining) == c;
      while remaining != {}
        invariant remaining <= proposed.Keys
        invariant forall a :: a in proposed && a !in remaining ==>
                    proposed[a].sourceVersion >= 0 && proposed[a].lastEventId != ""
        invariant c == Advanced(checkpoints, proposed - remaining)
      {
        var a :| a in remaining;
        if proposed[a].sourceVersion < 0 || proposed[a].lastEventId == "" {
          return c, false;
        }
        if a !in c || c[a].sourceVersion < proposed[a].sourceVersion {
          c := c[a := proposed[a]];
        }
        remaining := remaining - {a};
        assert c == Advanced(checkpoints, proposed - remaining);
      }
      assert proposed - {} == proposed;
      return c, true;
    }
  }

  /** Blank and repeated table identifiers are dropped. */
  method UniqueTables(tableIds: seq<string>) returns (unique: seq<string>)
    ensures forall i, j :: 0 <= i < j < |unique| ==> unique[i] != unique[j]
    ensures Elements(unique) == Elements(tableIds) - {""}
  {
    unique := [];
    for n := 0 to |tableIds|
      invariant forall i, j :: 0 <= i < j < |unique| ==> unique[i] != unique[j]
      invariant forall table :: table in unique <==> table in tableIds[..n] && table != ""
    {
      if tableIds[n] != "" && tableIds[n] !in unique {
        unique := unique + [tableIds[n]];
      }
    }
  }

  /** One table: retire its active pointer, unless the unique index objects, and insert the new one. */
  method SwitchOne(before: map<PointerKey, ReadPointer>, scope: Scope, table: string, pointer: ReadPointer)
    returns (p: map<PointerKey, ReadPointer>, ok: bool)
    ensures ok <==> PointerSwitchAllowed(before, scope, table)
    ensures ok ==> p == SwitchPointer(before, scope, table, pointer)
  {
    p := before;
    var active := PointerKey(scope.tenantId, scope.workspaceId, table, PointerActive);
    var retired := PointerKey(scope.tenantId, scope.workspaceId, table, PointerRetired);
    if active in p {
      if retired in p {
        return p, false;
      }
      p := p[retired := p[active]];
    }
    return p[active := pointer], true;
  }

  /** The loop over the tables, on the transaction's own copy of the pointers. */
  method SwitchAll(before: map<PointerKey, ReadPointer>, scope: Scope, tables: seq<string>, pointer: ReadPointer)
    returns (p: map<PointerKey, ReadPointer>, ok: bool)
    requires forall i, j :: 0 <= i < j < |tables| ==> tables[i] != tables[j]
    ensures ok <==> forall table :: table in Elements(tables) ==> PointerSwitchAllowed(before, scope, table)
    ensures ok ==> p == SwitchedPointers(before, scope, Elements(tables), pointer)
  {
    p, ok := before, true;
    SwitchNothing(before, scope, pointer);
    assert Elements(tables[..0]) == {};
    for n := 0 to |tables|
      invariant ok
      invariant forall table :: table in Elements(tables[..n]) ==> PointerSwitchAllowed(before, scope, table)
      invariant p == SwitchedPointers(before, scope, Elements(tables[..n]), pointer)
    {
      ghost var done := Elements(tables[..n]);
      SwitchOneMore(before, scope, done, pointer, tables[n]);
      p, ok := SwitchOne(p, scope, tables[n], pointer);
      assert tables[n] in Elements(tables);
      if !ok {
        return;
      }
      assert Elements(tables[..n + 1]) == done + {tables[n]};
    }
    assert tables[..|tables|] == tables;
  }

  lemma SwitchNothing(before: map<PointerKey, ReadPointer>, scope: Scope, pointer: ReadPointer)
    ensures SwitchedPointers(before, scope, {}, pointer) == before
  {
  }

  /** Switching one more table on top of the others; the others do not matter to whether it may switch. */
  lemma SwitchOneMore(
    before: map<PointerKey, ReadPointer>, scope: Scope, done: set<string>, pointer: ReadPointer, table: string)
    requires table !in done
    ensures SwitchedPointers(before, scope, done + {table}, pointer)
         == SwitchPointer(SwitchedPointers(before, scope, done, pointer), scope, table, pointer)
    ensures PointerSwitchAllowed(SwitchedPointers(before, scope, done, pointer), scope, table)
        <==> PointerSwitchAllowed(before, scope, table)
  {
    var active := PointerKey(scope.tenantId, scope.workspaceId, table, PointerActive);
    var retired := PointerKey(scope.tenantId, scope.workspaceId, table, PointerRetired);
    var p := SwitchedPointers(before, scope, done, pointer);
    var q := SwitchPointer(p, scope, table, pointer);
    var r := SwitchedPointers(before, scope, done + {table}, pointer);
    assert Lookup(p, active) == SwitchedPointer(before, scope, done, pointer, active);
    assert Lookup(p, retired) == SwitchedPointer(before, scope, done, pointer, retired);
    forall k ensures Lookup(r, k) == Lookup(q, k) {
      assert Lookup(p, k) == SwitchedPointer(before, scope, done, pointer, k);
      assert Lookup(r, k) == SwitchedPointer(before, scope, done + {table}, pointer, k);
    }
    SameLookups(r, q);
  }

  lemma SameLookups<K(!new), V(!new)>(m: map<K, V>, n: map<K, V>)
    requires forall k :: Lookup(m, k) == Lookup(n, k)
    ensures m == n
  {
    forall k ensures k in m <==> k in n { assert Lookup(m, k) == Lookup(n, k); }
    forall k | k in m ensures m[k] == n[k] { assert Lookup(m, k) == Lookup(n, k); }
  }

  /** The world of one worker with one delivery in hand. */
  function Alone(s: Store, d: Delivery): World {
    World(s, map[0 := Task(d, Received)], [], {}, {}, {})
  }

  /** What handling a delivery leaves and returns: archive, then claim, then apply. */
  function Handled(s: Store, d: Delivery, routing: Routing, now: int, responseLost: bool): (Store, Outcome) {
    var e := d.message;
    if !WellIdentified(e) || ConsumerForSource(e.sourceSystem) == NoConsumer || routing.Refused? then (s, Deterministic)
    else
      var workspaceId := if routing.RoutedTo? then routing.target.workspaceId else routing.workspaceId;
      if !ArchiveAccepts(s, e) then (s, Transient)
      else if routing.MappingRejects? then (AfterArchive(s, e, d.subject, workspaceId, now), Deterministic)
      else HandledArchived(AfterArchive(s, e, d.subject, workspaceId, now), d, routing.target, now, responseLost)
  }

  function HandledArchived(s: Store, d: Delivery, t: Target, now: int, responseLost: bool): (Store, Outcome) {
    var e := d.message;
    match ClaimOutcome(s, e, d.subject, t.workspaceId, now)
    case ClaimConflict => (s, Transient)
    case Claimed(row, duplicate) =>
      var claimed := AfterClaim(s, e, d.subject, t.workspaceId, now);
      if duplicate && row.status == InboxApplied then (claimed, Success)
      else (AfterApply(claimed, row, e, t, now), OutcomeOf(ApplyOutcome(claimed, row, e, t), responseLost))
  }

  /** Trying again cannot help: the message is ill-formed, has no consumer or no mapping, or the mapping rejects it. */
  predicate IsHopeless(s: Store, e: Envelope, routing: Routing) {
    e.eventId == "" || e.tenantId == "" || e.aggregateType == "" || e.aggregateId == "" || e.aggregateVersion < 1
    || e.sourceSystem.OtherSource? || routing.Refused? || (routing.MappingRejects? && ArchiveAccepts(s, e))
  }

  /** The message was applied before. */
  predicate ComesAgain(s: Store, e: Envelope) {
    WellIdentified(e) && ConsumerForSource(e.sourceSystem) != NoConsumer && ArchiveAccepts(s, e) && RowIsApplied(s, e)
  }

  /** What the handler answers, by what the message meets. */
  predicate HandlingEnds(s: Store, e: Envelope, routing: Routing, responseLost: bool, outcome: Outcome) {
    && (outcome == Deterministic <==> IsHopeless(s, e, routing))
    && (outcome == Success <==>
          routing.RoutedTo?
          && (ComesAgain(s, e)
              || ((ComesNext(s, e, routing.target) || ComesLate(s, e, routing.target)) && !responseLost)))
  }

  /** What it leaves of a message that has a target. */
  ghost predicate HandlingDid(s: Store, s': Store, e: Envelope, routing: Routing, now: int) {
    routing.RoutedTo? ==>
      Treated(s, s', e, routing.target, now) && (ComesAgain(s, e) ==> s' == s.(archive := s'.archive))
  }

  lemma HandlingOf(s: Store, d: Delivery, routing: Routing, now: int, responseLost: bool)
    ensures HandlingEnds(s, d.message, routing, responseLost, Handled(s, d, routing, now, responseLost).1)
    ensures HandlingDid(s, Handled(s, d, routing, now, responseLost).0, d.message, routing, now)
  {
    var e := d.message;
    if routing.RoutedTo? && Deliverable(s, e, routing.target) {
      HandlingOfDeliverable(s, d, routing.target, now, responseLost);
    }
  }

  lemma HandlingOfDeliverable(s: Store, d: Delivery, t: Target, now: int, responseLost: bool)
    requires Deliverable(s, d.message, t)
    ensures HandlingEnds(s, d.message, RoutedTo(t), responseLost, Handled(s, d, RoutedTo(t), now, responseLost).1)
    ensures Treated(s, Handled(s, d, RoutedTo(t), now, responseLost).0, d.message, t, now)
  {
    var e := d.message;
    var archived := AfterArchive(s, e, d.subject, t.workspaceId, now);
    var c := AfterClaim(archived, e, d.subject, t.workspaceId, now);
    ClaimOfDeliverable(s, e, t, d.subject, now);
    EndIs(c, c.inbox[KeyOf(e)], e, t);
    ApplyTreats(s, c, c.inbox[KeyOf(e)], e, t, now);
  }

  /** SummaryProjector.Handle with nobody else at work. */
  method Handle(
    database: Database, d: Delivery, routing: Routing, now: int, responseLost: bool) returns (outcome: Outcome)
    modifies database
    ensures (database.State(), outcome) == Handled(old(database.State()), d, routing, now, responseLost)
    ensures HandlingEnds(old(database.State()), d.message, routing, responseLost, outcome)
    ensures HandlingDid(old(database.State()), database.State(), d.message, routing, now)
  {
    HandlingOf(database.State(), d, routing, now, responseLost);
    var e := d.message;
    if !WellIdentified(e) || ConsumerForSource(e.sourceSystem) == NoConsumer || routing.Refused? {
      return Deterministic;
    }
    var workspaceId := if routing.RoutedTo? then routing.target.workspaceId else routing.workspaceId;
    var accepted := database.ArchiveEvent(e, d.subject, workspaceId, now);
    if !accepted {
      return Transient;
    }
    if routing.MappingRejects? {
      return Deterministic;
    }
    var claim := database.Claim(e, d.subject, workspaceId, now);
    if claim.ClaimConflict? {
      return Transient;
    }
    if claim.duplicate && claim.row.status == InboxApplied {
      return Success;
    }
    var result := database.Apply(claim.row, e, routing.target, now);
    return OutcomeOf(result, responseLost);
  }

  /** What a worker does between receiving a delivery and settling it. */
  function HandlingSteps(routing: Routing, now: int, responseLost: bool): seq<Step> {
    [RouteAndArchive(0, routing, now), ClaimInbox(0, now), CommitApply(0, now, responseLost)]
  }

  lemma StepKeepsTasks(w: World, step: Step)
    requires step.RouteAndArchive? || step.ClaimInbox? || step.CommitApply?
    ensures Next(w, step).tasks.Keys == w.tasks.Keys
  {
  }

  lemma HandlingIsThreeSteps(w: World, routing: Routing, now: int, responseLost: bool)
    ensures Run(w, HandlingSteps(routing, now, responseLost))
         == Next(Next(Next(w, RouteAndArchive(0, routing, now)), ClaimInbox(0, now)), CommitApply(0, now, responseLost))
    ensures w.tasks.Keys == {0} ==> Run(w, HandlingSteps(routing, now, responseLost)).tasks.Keys == {0}
  {
    var a, b, c := RouteAndArchive(0, routing, now), ClaimInbox(0, now), CommitApply(0, now, responseLost);
    assert [a, b, c][..2] == [a, b] && [a, b][..1] == [a] && [a][..0] == [];
    assert Run(w, [a]) == Next(w, a);
    assert Run(w, [a, b]) == Next(Run(w, [a]), b);
    StepKeepsTasks(w, a);
    StepKeepsTasks(Next(w, a), b);
    StepKeepsTasks(Next(Next(w, a), b), c);
  }

  lemma StepsAfterArchive(w: World, t: Target, now: int, responseLost: bool)
    requires 0 in w.tasks && w.tasks[0].stage == Archived(t)
    ensures var w' := Next(Next(w, ClaimInbox(0, now)), CommitApply(0, now, responseLost));
            && w'.store == HandledArchived(w.store, w.tasks[0].delivery, t, now, responseLost).0
            && 0 in w'.tasks && w'.tasks[0]
               == Task(w.tasks[0].delivery,
                       Returned(HandledArchived(w.store, w.tasks[0].delivery, t, now, responseLost).1))
  {
  }

  lemma StepsAfterReturn(w: World, now: int, responseLost: bool)
    requires 0 in w.tasks && w.tasks[0].stage.Returned?
    ensures Next(Next(w, ClaimInbox(0, now)), CommitApply(0, now, responseLost)) == w
  {
  }

  lemma RoutedIsHandled(s: Store, d: Delivery, routing: Routing, now: int, responseLost: bool)
    ensures var routed := Route(Alone(s, d), 0, routing, now);
            var handled := Handled(s, d, routing, now, responseLost);
            && 0 in routed.tasks && routed.tasks[0].delivery == d
            && (if routed.tasks[0].stage.Archived?
                then routing.RoutedTo? && routed.tasks[0].stage == Archived(routing.target)
                     && handled == HandledArchived(routed.store, d, routing.target, now, responseLost)
                else routed.tasks[0].stage == Returned(handled.1) && routed.store == handled.0)
  {
  }

  /** Handling is what the machine's three steps do to a worker that is alone. */
  lemma HandledIsThreeSteps(s: Store, d: Delivery, routing: Routing, now: int, responseLost: bool)
    ensures var w := Next(Next(Route(Alone(s, d), 0, routing, now), ClaimInbox(0, now)),
                          CommitApply(0, now, responseLost));
            && w.store == Handled(s, d, routing, now, responseLost).0
            && 0 in w.tasks && w.tasks[0] == Task(d, Returned(Handled(s, d, routing, now, responseLost).1))
  {
    var routed := Route(Alone(s, d), 0, routing, now);
    RoutedIsHandled(s, d, routing, now, responseLost);
    if routed.tasks[0].stage.Archived? {
      StepsAfterArchive(routed, routing.target, now, responseLost);
    } else {
      StepsAfterReturn(routed, now, responseLost);
    }
  }

  lemma HandledIsRun(s: Store, d: Delivery, routing: Routing, now: int, responseLost: bool)
    ensures var w := Run(Alone(s, d), HandlingSteps(routing, now, responseLost));
            && w.store == Handled(s, d, routing, now, responseLost).0
            && w.tasks == map[0 := Task(d, Returned(Handled(s, d, routing, now, responseLost).1))]
  {
    HandlingIsThreeSteps(Alone(s, d), routing, now, responseLost);
    HandledIsThreeSteps(s, d, routing, now, responseLost);
  }

  lemma SuccessAfterArchive(s: Store, d: Delivery, t: Target, now: int, responseLost: bool)
    ensures HandledArchived(s, d, t, now, responseLost).1 == Success ==>
              RowIsApplied(HandledArchived(s, d, t, now, responseLost).0, d.message)
  {
  }

  /** A nil return means that the message's inbox row is applied. */
  lemma SuccessMeansApplied(s: Store, d: Delivery, routing: Routing, now: int, responseLost: bool)
    requires Handled(s, d, routing, now, responseLost).1 == Success
    ensures RowIsApplied(Handled(s, d, routing, now, responseLost).0, d.message)
  {
    RoutedIsHandled(s, d, routing, now, responseLost);
    if routing.RoutedTo? {
      SuccessAfterArchive(AfterArchive(s, d.message, d.subject, routing.target.workspaceId, now), d, routing.target,
                          now, responseLost);
    }
  }

  /** The same, as a run of the machine. */
  method HandleRun(
    database: Database, d: Delivery, routing: Routing, now: int, responseLost: bool) returns (outcome: Outcome)
    modifies database
    ensures var w := Run(Alone(old(database.State()), d), HandlingSteps(routing, now, responseLost));
            database.State() == w.store && w.tasks == map[0 := Task(d, Returned(outcome))]
    ensures HandlingEnds(old(database.State()), d.message, routing, responseLost, outcome)
    ensures HandlingDid(old(database.State()), database.State(), d.message, routing, now)
  {
    HandledIsRun(database.State(), d, routing, now, responseLost);
    outcome := Handle(database, d, routing, now, responseLost);
  }
}
