/**
  The stores and services of the command module as they are written (commands/repository.go, inbox.go, service.go).
  Every service call is shown to be a sequence of steps of the protocol, so what holds of all runs holds of the code.
 */
module CommandServices {
  import opened Common
  import opened CommandModel
  import opened CommandProtocol

  // ------------------------------------------------------------- the stores

  ghost predicate OneEach(values: map<OperationKey, Operation>) {
    && (forall k :: k in values ==> values[k].key == k)
    && (forall k, l :: k in values && l in values && values[k].request.idempotency == values[l].request.idempotency ==>
          k == l)
  }

  datatype SaveOutcome = Saved | Missing | Stale

  class OperationStore {
    var values: map<OperationKey, Operation>

    constructor ()
      ensures values == map[] && OneEach(values)
    {
      values := map[];
    }

    method FindByIdempotency(key: IdempotencyKey) returns (r: Option<Operation>)
      ensures r.Some? ==> exists k :: k in values && values[k] == r.value && r.value.request.idempotency == key
      ensures r.None? ==> forall k :: k in values ==> values[k].request.idempotency != key
    {
      var rest := values.Keys;
      while rest != {}
        invariant rest <= values.Keys
        invariant forall k :: k in values && k !in rest ==> values[k].request.idempotency != key
        decreases |rest|
      {
        var k :| k in rest;
        if values[k].request.idempotency == key { return Some(values[k]); }
        rest := rest - {k};
      }
      return None;
    }

    /** Refused when the key is taken or another operation has the idempotency key, and only then. */
    method Create(op: Operation) returns (created: bool)
      requires OneEach(values)
      modifies this
      ensures created == CanCreate(old(values), op)
      ensures values == if created then old(values)[op.key := op] else old(values)
      ensures OneEach(values)
    {
      if op.key in values { return false; }
      var existing := FindByIdempotency(op.request.idempotency);
      if existing.Some? && existing.value.key != op.key { return false; }
      values := values[op.key := op];
      return true;
    }

    /** Replaces an operation whose stored revision is still the expected one. */
    method SaveCAS(op: Operation, expected: int) returns (r: SaveOutcome)
      requires OneEach(values) && (op.key in values ==> op.request == values[op.key].request)
      modifies this
      ensures (r == Saved) == CanSave(old(values), op, expected) && (r == Missing) == (op.key !in old(values))
      ensures values == if r == Saved then old(values)[op.key := op] else old(values)
      ensures OneEach(values)
    {
      if op.key !in values { return Missing; }
      if values[op.key].revision != expected { return Stale; }
      values := values[op.key := op];
      return Saved;
    }
  }

  predicate HasEvent(values: map<OperationKey, InboxEntry>, k: OperationKey, eventId: string) {
    k in values && values[k].status == Committed && values[k].result.Some? && values[k].result.value.eventId == eventId
  }

  datatype CommitOutcome = Recorded(entry: InboxEntry) | NotFound | Conflict

  type Inboxes = map<OperationKey, InboxEntry>

  /** The entry is for a command with this payload, owner and action. */
  predicate IsFor(entry: InboxEntry, c: Command) {
    && entry.command.request.payload == c.request.payload && entry.command.request.action == c.request.action
    && entry.command.request.ownerSystem == c.request.ownerSystem
  }

  /** A new command is claimed; one seen before is answered by its entry, which stays. */
  predicate ClaimDid(before: Inboxes, c: Command, r: ClaimResult, after: Inboxes) {
    if c.key !in before then r.Fresh? && IsClaimOf(r.entry, c) && after == before[c.key := r.entry]
    else
      && after == before
      && (r.InboxConflict? <==> !IsFor(before[c.key], c))
      && (r.Replayed? <==> IsFor(before[c.key], c) && before[c.key].status == Committed)
      && (r.AlreadyClaimed? <==> IsFor(before[c.key], c) && before[c.key].status == Claimed)
      && (r.Replayed? ==> r.entry == before[c.key])
  }

  /** The claim that still stands at its revision is committed with the result; nothing else changes an entry. */
  predicate CommitDid(
    before: Inboxes, claimed: InboxEntry, result: ResultEnvelope, r: CommitOutcome, after: Inboxes)
  {
    var k := claimed.command.key;
    var stands := k in before && before[k].status == Claimed && before[k].revision == claimed.revision;
    && (stands ==> k in after && IsCommitOf(before[k], after[k], result) && after == before[k := after[k]])
    && (!stands ==> after == before)
    && (r.NotFound? <==> k !in before)
    && (r.Recorded? <==> stands || HasEvent(before, k, result.eventId))
    && (r.Recorded? ==> k in after && r.entry == after[k])
  }

  class InboxStore {
    var values: map<OperationKey, InboxEntry>

    constructor ()
      ensures values == map[]
    {
      values := map[];
    }

    method Claim(c: Command) returns (r: ClaimResult)
      modifies this
      ensures r == ClaimOutcome(old(values), c) && values == AfterClaim(old(values), c)
      ensures ClaimDid(old(values), c, r, values)
    {
      if c.key in values {
        var existing := values[c.key];
        if !SameCommand(existing.command, c) { return InboxConflict; }
        if existing.status == Committed { return Replayed(existing); }
        return AlreadyClaimed;
      }
      var entry := InboxEntry(c, Claimed, None, 1);
      values := values[c.key := entry];
      return Fresh(entry);
    }

    /** A claim still standing is committed; a commit of the same event is repeated; anything else is a conflict. */
    method Commit(claimed: InboxEntry, result: ResultEnvelope) returns (r: CommitOutcome)
      modifies this
      ensures var k := claimed.command.key;
              && values == (if CanCommit(old(values), claimed)
                            then old(values)[k := CommittedEntry(old(values)[k], result)] else old(values))
              && (r.Recorded? <==> HasEvent(values, k, result.eventId))
              && (r.Recorded? ==> r.entry == values[k]) && (r.NotFound? <==> k !in values)
      ensures CommitDid(old(values), claimed, result, r, values)
    {
      var k := claimed.command.key;
      if k !in values { return NotFound; }
      var current := values[k];
      if current.status == Committed {
        if current.result.Some? && current.result.value.eventId == result.eventId { return Recorded(current); }
        return Conflict;
      }
      if current.revision != claimed.revision { return Conflict; }
      values := values[k := CommittedEntry(current, result)];
      return Recorded(values[k]);
    }
  }

  // ------------------------------------------------------------ the gateway

  lemma StoredOneEach(w: World)
    requires Reachable(w)
    ensures OneEach(Stored(w))
  {
    ReachableIsSound(w);
    forall k | k in Stored(w)
      ensures Stored(w)[k].key == k && w.versions[k] != []
      ensures Stored(w)[k].request == w.versions[k][0].request
    {
      assert IsHistory(k, w.versions[k]);
    }
    forall k, l | k in Stored(w) && l in Stored(w)
                  && Stored(w)[k].request.idempotency == Stored(w)[l].request.idempotency
      ensures k == l
    {
      assert SameRequester(w.versions, k, l);
    }
  }

  /** Saving a version is storing it. */
  lemma StoredAfterSave(w: World, op: Operation)
    ensures Stored(Save(w, op)) == Stored(w)[op.key := op]
  {
    var versions := Save(w, op).versions;
    assert versions[op.key] != [] && Last(versions[op.key]) == op;
  }

  lemma HeldRequest(w: World, op: Operation)
    requires HistoriesSound(w.versions, w.inbox) && Held(w.versions, op)
    ensures op.key in Stored(w) && Stored(w)[op.key].request == op.request
  {
    assert IsHistory(op.key, w.versions[op.key]);
  }

  /** What the store and the command stream hold. */
  ghost predicate Presents(values: map<OperationKey, Operation>, published: set<Command>, w: World) {
    values == Stored(w) && published == w.published
  }

  ghost function Dispatching(w: World, id: nat, publishes: bool, now: int): World {
    Next(Next(w, Publish(id, publishes)), SaveDispatch(id, now))
  }

  lemma SaveInPresents(w: World, id: nat, op: Operation, expected: int)
    ensures var w' := SaveIn(w, id, op, expected);
            && Stored(w') == (if CanSave(Stored(w), op, expected) then Stored(w)[op.key := op] else Stored(w))
            && w'.published == w.published
  {
    StoredAfterSave(w, op);
    if CanSave(Stored(w), op, expected) { assert SaveIn(w, id, op, expected).versions == Save(w, op).versions; }
  }

  /** What a store may rely on when it is asked to save a held copy. */
  predicate Saveable(values: map<OperationKey, Operation>, op: Operation) {
    op.key in values && values[op.key].request == op.request
  }

  lemma DispatchingIsReachable(w: World, id: nat, publishes: bool, now: int)
    requires Reachable(w)
    ensures Reachable(Dispatching(w, id, publishes, now))
  {
    NextIsReachable(w, Publish(id, publishes));
    NextIsReachable(Next(w, Publish(id, publishes)), SaveDispatch(id, now));
  }

  lemma PublishingIsSaveable(w: World, id: nat, op: Operation)
    requires Reachable(w) && id in w.tasks && w.tasks[id] == Publishing(op)
    ensures op.status == Accepted && OneEach(Stored(w)) && Saveable(Stored(w), op)
  {
    ReachableIsSound(w);
    assert TaskSound(w, id, w.tasks[id]);
    HeldRequest(w, op);
    StoredOneEach(w);
  }

  lemma DispatchingPresents(w: World, id: nat, op: Operation, publishes: bool, now: int)
    requires id in w.tasks && w.tasks[id] == Publishing(op)
    ensures var updated := DispatchedOf(op, now);
            Presents(if publishes && CanSave(Stored(w), updated, op.revision) then Stored(w)[op.key := updated]
                     else Stored(w), if publishes then w.published + {Command(op.key, op.request)}
                     else w.published, Dispatching(w, id, publishes, now))
  {
    SaveInPresents(Next(w, Publish(id, publishes)), id, DispatchedOf(op, now), op.revision);
  }

  lemma DispatchingAnswers(w: World, id: nat, publishes: bool, now: int)
    ensures Dispatching(w, id, publishes, now).answers == w.answers
    ensures id !in w.tasks ==> Dispatching(w, id, publishes, now) == w
  {
  }

  ghost function Asking(w: World, id: nat, request: Request, newKey: OperationKey, now: int, auditFails: bool): World {
    Next(Next(w, Submit(id, request, newKey, now)), Create(id, auditFails))
  }

  lemma AskingIsReachable(w: World, id: nat, request: Request, newKey: OperationKey, now: int, auditFails: bool)
    requires Reachable(w)
    ensures Reachable(Asking(w, id, request, newKey, now, auditFails))
  {
    NextIsReachable(w, Submit(id, request, newKey, now));
    NextIsReachable(Next(w, Submit(id, request, newKey, now)), Create(id, auditFails));
  }

  /** A repeated request finds its operation, and publishes it again if it was never dispatched. */
  lemma AskingAgain(
    w: World, id: nat, request: Request, newKey: OperationKey, now: int, auditFails: bool, k: OperationKey)
    requires OneEach(Stored(w)) && id !in w.tasks && k in Stored(w)
    requires Stored(w)[k].request.idempotency == request.idempotency
    ensures var w' := Asking(w, id, request, newKey, now, auditFails);
            && Presents(Stored(w), w.published, w')
            && (if Stored(w)[k].request.payload != request.payload then w' == w
                else Answer(request, k) in w'.answers
                     && w'.tasks == (if Stored(w)[k].status == Accepted then w.tasks[id := Publishing(Stored(w)[k])]
                                     else w.tasks))
  {
    assert FindByIdempotency(w, request.idempotency) == Some(k);
  }

  lemma CreatingPresents(w: World, id: nat, op: Operation, auditFails: bool)
    requires id in w.tasks && w.tasks[id] == Creating(op)
    requires forall k :: k in Stored(w) ==> Stored(w)[k].request.idempotency != op.request.idempotency
    ensures var w' := CreateIn(w, id, op, auditFails);
            if op.key in Stored(w) then w' == Done(w, id)
            else && Stored(w') == Stored(w)[op.key := op] && w'.published == w.published
                 && Answer(op.request, op.key) in w'.answers
                 && w'.tasks == w.tasks[id := Publishing(Audited(op, auditFails))]
  {
    assert FindByIdempotency(w, op.request.idempotency) == None;
    StoredAfterSave(w, op);
    if op.key !in Stored(w) { assert CreateIn(w, id, op, auditFails).versions == Save(w, op).versions; }
  }

  lemma SubmittingStarts(w: World, id: nat, op: Operation)
    requires id !in w.tasks && op == Operation(op.key, op.request, Accepted, 1, NoResult, op.updatedAt)
    requires forall k :: k in Stored(w) ==> Stored(w)[k].request.idempotency != op.request.idempotency
    ensures Next(w, Submit(id, op.request, op.key, op.updatedAt)) == At(w, id, Creating(op))
    ensures Stored(At(w, id, Creating(op))) == Stored(w)
  {
    assert FindByIdempotency(w, op.request.idempotency) == None;
  }

  lemma AskingFirst(w: World, id: nat, op: Operation, auditFails: bool)
    requires id !in w.tasks && op == Operation(op.key, op.request, Accepted, 1, NoResult, op.updatedAt)
    requires forall k :: k in Stored(w) ==> Stored(w)[k].request.idempotency != op.request.idempotency
    ensures var w' := Asking(w, id, op.request, op.key, op.updatedAt, auditFails);
            if op.key in Stored(w) then Presents(Stored(w), w.published, w') && id !in w'.tasks
            else && Presents(Stored(w)[op.key := op], w.published, w') && Answer(op.request, op.key) in w'.answers
                 && w'.tasks == w.tasks[id := Publishing(Audited(op, auditFails))]
  {
    SubmittingStarts(w, id, op);
    var w1 := At(w, id, Creating(op));
    CreatingPresents(w1, id, op, auditFails);
  }

  /** The operation in hand notes a failed audit; the stored one does not. */
  function Audited(op: Operation, auditFails: bool): Operation {
    if auditFails then op.(result := op.result.(safeError := "audit unavailable")) else op
  }

  /** A published operation that nothing overtook is stored as dispatched. */
  predicate DispatchDid(
    before: map<OperationKey, Operation>, op: Operation, publishes: bool, now: int, r: Operation,
    after: map<OperationKey, Operation>)
  {
    if publishes && op.key in before && before[op.key].revision == op.revision
    then IsDispatched(op, now, r) && after == before[op.key := r]
    else r == op && after == before
  }

  lemma SubmittingIs(
    before: map<OperationKey, Operation>, op: Operation, auditFails: bool, publishes: bool, later: int,
    answer: Operation, after: map<OperationKey, Operation>)
    requires op.key !in before && op == Operation(op.key, op.request, Accepted, 1, NoResult, op.updatedAt)
    requires DispatchDid(before[op.key := op], Audited(op, auditFails), publishes, later, answer, after)
    ensures SubmitDid(before, op.key, op.request, auditFails, publishes, op.updatedAt, later, answer, after)
  {
    assert before[op.key := op][op.key := answer] == before[op.key := answer];
  }

  /** One operation more: the submitted one, dispatched if the command could be published. */
  predicate SubmitDid(
    before: map<OperationKey, Operation>, key: OperationKey, request: Request, auditFails: bool, publishes: bool,
    now: int, later: int, answer: Operation, after: map<OperationKey, Operation>)
  {
    && key !in before && key in after && after == before[key := after[key]]
    && (if publishes
        then answer == after[key] && answer.status == Dispatched && answer.revision == 2 && answer.updatedAt == later
             && IsSubmitted(answer.(status := Accepted, revision := 1, updatedAt := now), key, request, !auditFails,
                            now)
        else IsSubmitted(after[key], key, request, true, now) && IsSubmitted(answer, key, request, !auditFails, now))
  }

  ghost predicate Refused(values: map<OperationKey, Operation>, request: Request, newKey: OperationKey) {
    if exists k :: k in values && values[k].request.idempotency == request.idempotency
    then exists k ::
           k in values && values[k].request.idempotency == request.idempotency
           && values[k].request.payload != request.payload
    else newKey in values
  }

  ghost function Applying(w: World, id: nat, r: ResultEnvelope, now: int): World {
    Next(Next(w, ReadForResult(id, r)), SaveResult(id, now))
  }

  /**
    A result is applied when it is well formed, answers a stored operation of its owner and action, and none was applied
    before.
   */
  predicate Applicable(values: map<OperationKey, Operation>, r: ResultEnvelope) {
    ValidResult(r) && r.key in values && DecideResult(values[r.key], r) == ApplyNow
  }

  function ValuesAfterResult(
    values: map<OperationKey, Operation>, r: ResultEnvelope, now: int): map<OperationKey, Operation>
  {
    if Applicable(values, r) then values[r.key := WithResult(values[r.key], r, now)] else values
  }

  lemma ApplyingIsReachable(w: World, id: nat, r: ResultEnvelope, now: int)
    requires Reachable(w)
    ensures Reachable(Applying(w, id, r, now))
  {
    NextIsReachable(w, ReadForResult(id, r));
    NextIsReachable(Next(w, ReadForResult(id, r)), SaveResult(id, now));
  }

  lemma ApplyingPresents(w: World, id: nat, r: ResultEnvelope, now: int)
    requires OneEach(Stored(w)) && id !in w.tasks && r in w.results
    ensures Presents(ValuesAfterResult(Stored(w), r, now), w.published, Applying(w, id, r, now))
  {
    if Applicable(Stored(w), r) {
      var op := Stored(w)[r.key];
      var w1 := At(w, id, SavingResult(op, r));
      assert Next(w, ReadForResult(id, r)) == w1 && Stored(w1) == Stored(w);
      SaveInPresents(w1, id, WithResult(op, r, now), op.revision);
    }
  }

  datatype SubmitResult = Submitted(op: Operation, replayed: bool) | IdempotencyConflict

  datatype ApplyResultOutcome =
    | Applied(op: Operation) | RecordedBefore(op: Operation)
    | ConflictingResult | InvalidResult | UnknownOperation | LostRace

  /**
    A result is applied to an open operation it answers, and found recorded by a finished one that carries it; nothing
    else changes an operation.
   */
  predicate ResultDid(
    before: map<OperationKey, Operation>, r: ResultEnvelope, now: int, outcome: ApplyResultOutcome,
    after: map<OperationKey, Operation>)
  {
    var answers := r.key in before && before[r.key].key == r.key && Answers(r, before[r.key]);
    var open := answers && before[r.key].status in {Accepted, Dispatched};
    && (outcome.Applied? <==> open)
    && (outcome.Applied? ==> IsAnswered(before[r.key], r, now, outcome.op) && after == before[r.key := outcome.op])
    && (!outcome.Applied? ==> after == before)
    && (outcome.RecordedBefore? <==> answers && !open && Carries(before[r.key], r))
    && (outcome.RecordedBefore? ==> outcome.op == before[r.key])
  }

  /** The gateway: world is the history of the protocol that the store and the command stream are the present of. */
  class Service {
    const store: OperationStore
    var published: set<Command>
    ghost var world: World

    ghost predicate Valid()
      reads this, store
    {
      Reachable(world) && Presents(store.values, published, world)
    }

    constructor (store: OperationStore)
      requires store.values == map[]
      ensures Valid() && this.store == store && world == Start
    {
      this.store := store;
      published := {};
      world := Start;
      StartIsReachable();
    }

    /** Publish the command, then mark the operation as dispatched if nothing overtook it. */
    method Dispatch(op: Operation, publishes: bool, now: int, ghost id: nat) returns (r: Operation)
      requires Valid() && id in world.tasks && world.tasks[id] == Publishing(op)
      modifies this, store
      ensures Valid() && world == Dispatching(old(world), id, publishes, now)
      ensures published == if publishes then old(published) + {Command(op.key, op.request)} else old(published)
      ensures DispatchDid(old(store.values), op, publishes, now, r, store.values)
      ensures world.answers == old(world).answers && store.values.Keys == old(store.values).Keys
    {
      PublishingIsSaveable(world, id, op);
      DispatchingIsReachable(world, id, publishes, now);
      DispatchingPresents(world, id, op, publishes, now);
      DispatchingAnswers(world, id, publishes, now);
      world := Dispatching(world, id, publishes, now);
      if op.status != Accepted || !publishes { return op; }
      published := published + {Command(op.key, op.request)};
      var saved := store.SaveCAS(DispatchedOf(op, now), op.revision);
      return if saved == Saved then DispatchedOf(op, now) else op;
    }

    /** The first request with its idempotency key: create the operation and dispatch it. */
    method CreateAndDispatch(
      op: Operation, auditFails: bool, publishes: bool, later: int, ghost id: nat) returns (r: SubmitResult)
      requires Valid() && id !in world.tasks && op == Operation(op.key, op.request, Accepted, 1, NoResult, op.updatedAt)
      requires forall k :: k in store.values ==> store.values[k].request.idempotency != op.request.idempotency
      modifies this, store
      ensures Valid()
      ensures world == Dispatching(Asking(old(world), id, op.request, op.key, op.updatedAt, auditFails), id, publishes,
                                   later)
      ensures r.IdempotencyConflict? <==> op.key in old(store.values)
      ensures r.IdempotencyConflict? ==> store.values == old(store.values) && published == old(published)
      ensures r.Submitted? ==> Answer(op.request, r.op.key) in world.answers && r.op.key == op.key && !r.replayed
      ensures r.Submitted? ==>
                SubmitDid(old(store.values), op.key, op.request, auditFails, publishes, op.updatedAt, later, r.op,
                          store.values)
    {
      DispatchingAnswers(Asking(world, id, op.request, op.key, op.updatedAt, auditFails), id, publishes, later);
      StoredOneEach(world);
      AskingIsReachable(world, id, op.request, op.key, op.updatedAt, auditFails);
      AskingFirst(world, id, op, auditFails);
      world := Asking(world, id, op.request, op.key, op.updatedAt, auditFails);
      var created := store.Create(op);
      if !created {
        // Nobody interfered, so the key cannot have been found by now; the protocol's Create step has the other branch.
        return IdempotencyConflict;
      }
      var dispatched := Dispatch(Audited(op, auditFails), publishes, later, id);
      SubmittingIs(old(store.values), op, auditFails, publishes, later, dispatched, store.values);
      return Submitted(dispatched, false);
    }

    /** Submit without interference: its steps in order. */
    method Submit(
      request: Request, newKey: OperationKey, auditFails: bool, publishes: bool, now: int, later: int, ghost id: nat)
      returns (r: SubmitResult)
      requires Valid() && id !in world.tasks
      modifies this, store
      ensures Valid()
      ensures world == Dispatching(Asking(old(world), id, request, newKey, now, auditFails), id, publishes, later)
      ensures r.IdempotencyConflict? <==> Refused(old(store.values), request, newKey)
      ensures r.IdempotencyConflict? ==> store.values == old(store.values) && published == old(published)
      ensures r.Submitted? ==>
                Answer(request, r.op.key) in world.answers && r.replayed == (r.op.key in old(store.values))
      ensures r.Submitted? && !r.replayed ==>
                r.op.key == newKey
                && SubmitDid(old(store.values), newKey, request, auditFails, publishes, now, later, r.op, store.values)
      ensures r.Submitted? && r.replayed ==>
                r.op.request.idempotency == request.idempotency && r.op.request.payload == request.payload
    {
      StoredOneEach(world);
      var found := store.FindByIdempotency(request.idempotency);
      if found.None? {
        r := CreateAndDispatch(Operation(newKey, request, Accepted, 1, NoResult, now), auditFails, publishes, later,
                               id);
        return;
      }
      var existing := found.value;
      AskingIsReachable(world, id, request, newKey, now, auditFails);
      AskingAgain(world, id, request, newKey, now, auditFails, existing.key);
      world := Asking(world, id, request, newKey, now, auditFails);
      DispatchingAnswers(world, id, publishes, later);
      if existing.request.payload != request.payload { return IdempotencyConflict; }
      if existing.status == Accepted { existing := Dispatch(existing, publishes, later, id); }
      return Submitted(existing, true);
    }

    /**
      Any result message: it is applied exactly when it is applicable. One that the result stream carries is a step of
      the protocol.
     */
    method ApplyResult(r: ResultEnvelope, now: int, ghost id: nat) returns (outcome: ApplyResultOutcome)
      requires Valid() && id !in world.tasks
      modifies this, store
      ensures store.values == ValuesAfterResult(old(store.values), r, now)
      ensures outcome.Applied? <==> Applicable(old(store.values), r)
      ensures ResultDid(old(store.values), r, now, outcome, store.values)
      ensures outcome.InvalidResult? <==> !ValidResult(r)
      ensures outcome.UnknownOperation? <==> ValidResult(r) && r.key !in old(store.values)
      ensures world == Applying(old(world), id, r, now)
      ensures r in old(world).results ==> Valid()
    {
      ApplyingIsReachable(world, id, r, now);
      StoredOneEach(world);
      if r in world.results { ApplyingPresents(world, id, r, now); }
      world := Applying(world, id, r, now);
      if !ValidResult(r) { return InvalidResult; }
      if r.key !in store.values { return UnknownOperation; }
      var op := store.values[r.key];
      var decision := DecideResult(op, r);
      if decision == ResultConflict { return ConflictingResult; }
      if decision == AlreadyRecorded { return RecordedBefore(op); }
      var updated := WithResult(op, r, now);
      var saved := store.SaveCAS(updated, op.revision);
      return if saved == Saved then Applied(updated) else LostRace;
    }
  }

  // -------------------------------------------------------------- the owner

  ghost function Processing(w: World, id: nat, c: Command, outcome: CallbackOutcome, now: int): World {
    Next(Next(Next(w, OwnerClaim(id, c)), OwnerExecute(id, outcome, now)), OwnerCommit(id))
  }

  /** The owner's inbox after a command was processed without interference. */
  function InboxAfter(
    inbox: map<OperationKey, InboxEntry>, c: Command, outcome: CallbackOutcome, now: int)
    : map<OperationKey, InboxEntry>
  {
    var r := Completed(c, outcome, now);
    if c.key in inbox then inbox
    else if Acceptable(c, r) then inbox[c.key := CommittedEntry(InboxEntry(c, Claimed, None, 1), r)]
    else inbox[c.key := InboxEntry(c, Claimed, None, 1)]
  }

  lemma ProcessingIsReachable(w: World, id: nat, c: Command, outcome: CallbackOutcome, now: int)
    requires Reachable(w)
    ensures Reachable(Processing(w, id, c, outcome, now))
  {
    var w1 := Next(w, OwnerClaim(id, c));
    NextIsReachable(w, OwnerClaim(id, c));
    NextIsReachable(w1, OwnerExecute(id, outcome, now));
    NextIsReachable(Next(w1, OwnerExecute(id, outcome, now)), OwnerCommit(id));
  }

  lemma ClaimingFirst(w: World, id: nat, c: Command)
    requires id !in w.tasks && c in w.published && c.key !in w.inbox
    ensures var w' := ClaimIn(w, id, c);
            && Next(w, OwnerClaim(id, c)) == w' && id in w'.tasks
            && w'.tasks[id] == Executing(InboxEntry(c, Claimed, None, 1))
            && w'.inbox == w.inbox[c.key := InboxEntry(c, Claimed, None, 1)] && w'.executions == w.executions
  {
  }

  lemma ExecutingFirst(w: World, id: nat, entry: InboxEntry, outcome: CallbackOutcome, now: int)
    requires id in w.tasks && w.tasks[id] == Executing(entry)
    ensures var w' := ExecuteIn(w, id, entry, outcome, now);
            var r := Completed(entry.command, outcome, now);
            && Next(w, OwnerExecute(id, outcome, now)) == w' && w'.inbox == w.inbox
            && w'.executions == w.executions + [entry.command.key]
            && (if Acceptable(entry.command, r) then id in w'.tasks && w'.tasks[id] == Committing(entry, r)
                else id !in w'.tasks)
  {
  }

  lemma CommittingFirst(w: World, id: nat, entry: InboxEntry, r: ResultEnvelope)
    requires entry.command.key in w.inbox && w.inbox[entry.command.key] == entry && entry.status == Claimed
    requires if Acceptable(entry.command, r) then id in w.tasks && w.tasks[id] == Committing(entry, r)
             else id !in w.tasks
    ensures var w' := Next(w, OwnerCommit(id));
            && w'.executions == w.executions
            && (if Acceptable(entry.command, r)
                then r in w'.results && w'.inbox == w.inbox[entry.command.key := CommittedEntry(entry, r)]
                else w'.inbox == w.inbox)
  {
  }

  /** A new command is executed once, and its result is kept if it answers the command. */
  lemma ProcessingFirst(w: World, id: nat, c: Command, outcome: CallbackOutcome, now: int)
    requires id !in w.tasks && c in w.published && c.key !in w.inbox
    ensures var w' := Processing(w, id, c, outcome, now);
            && w'.inbox == InboxAfter(w.inbox, c, outcome, now) && w'.executions == w.executions + [c.key]
            && (Acceptable(c, Completed(c, outcome, now)) ==> Completed(c, outcome, now) in w'.results)
  {
    var entry := InboxEntry(c, Claimed, None, 1);
    ClaimingFirst(w, id, c);
    var w1 := ClaimIn(w, id, c);
    ExecutingFirst(w1, id, entry, outcome, now);
    CommittingFirst(ExecuteIn(w1, id, entry, outcome, now), id, entry, Completed(c, outcome, now));
  }

  lemma EntriesAreSound(w: World, k: OperationKey)
    requires Reachable(w) && k in w.inbox
    ensures EntrySound(k, w.inbox[k])
  {
    ReachableIsSound(w);
  }

  /** A command seen before is not executed again; a committed result is sent again. */
  lemma ProcessingAgain(w: World, id: nat, c: Command, outcome: CallbackOutcome, now: int)
    requires Reachable(w) && id !in w.tasks && c in w.published && c.key in w.inbox
    ensures var w' := Processing(w, id, c, outcome, now);
            && w'.inbox == w.inbox && w'.executions == w.executions
            && (SameCommand(w.inbox[c.key].command, c) && w.inbox[c.key].status == Committed ==>
                  w.inbox[c.key].result.Some? && w.inbox[c.key].result.value in w'.results)
  {
    EntriesAreSound(w, c.key);
    var w1 := ClaimIn(w, id, c);
    assert Next(w, OwnerClaim(id, c)) == w1 && w1.tasks == w.tasks;
  }

  datatype ProcessResult = Answered(result: ResultEnvelope, replayed: bool) | Unanswered(why: ProcessError)

  datatype ProcessError = StillClaimed | CommandConflict | UnacceptableResult | CommitRefused

  class InboxService {
    const store: InboxStore
    ghost var world: World

    ghost predicate Valid()
      reads this, store
    {
      Reachable(world) && store.values == world.inbox
    }

    constructor (store: InboxStore)
      requires store.values == map[]
      ensures Valid() && this.store == store && world == Start
    {
      this.store := store;
      world := Start;
      StartIsReachable();
    }

    /**
      Claim, execute, commit: outcome is what the owner's callback does if it is called, and executed whether it was.
     */
    method Process(
      c: Command, outcome: CallbackOutcome, now: int, ghost id: nat) returns (r: ProcessResult, executed: bool)
      requires Valid() && id !in world.tasks && c in world.published
      modifies this, store
      ensures Valid() && world == Processing(old(world), id, c, outcome, now)
      ensures executed == (c.key !in old(store.values))
      ensures store.values == InboxAfter(old(store.values), c, outcome, now)
      ensures r.Answered? <==> HasAnswer(store.values, c)
      ensures r.Answered? ==>
                && r.result in world.results && store.values[c.key].result == Some(r.result)
                && r.replayed == !executed
      ensures executed ==> (r.Answered? <==> Fits(c, outcome))
      ensures r.Answered? && executed ==> IsCompletion(c, outcome, now, r.result)
    {
      ProcessingIsReachable(world, id, c, outcome, now);
      if c.key in store.values {
        ProcessingAgain(world, id, c, outcome, now);
      } else {
        ProcessingFirst(world, id, c, outcome, now);
      }
      world := Processing(world, id, c, outcome, now);
      executed := false;
      var claim := store.Claim(c);
      if claim.AlreadyClaimed? { return Unanswered(StillClaimed), false; }
      if claim.InboxConflict? { return Unanswered(CommandConflict), false; }
      if claim.Replayed? && claim.entry.result.Some? { return Answered(claim.entry.result.value, true), false; }
      executed := true;
      var result := Completed(c, outcome, now);
      CompletionIs(c, outcome, now);
      if !Acceptable(c, result) { return Unanswered(UnacceptableResult), executed; }
      var committed := store.Commit(claim.entry, result);
      if !committed.Recorded? { return Unanswered(CommitRefused), executed; }
      return Answered(result, false), executed;
    }
  }

  /** The inbox holds the answer to this very command. */
  predicate HasAnswer(inbox: map<OperationKey, InboxEntry>, c: Command) {
    c.key in inbox && SameCommand(inbox[c.key].command, c) && inbox[c.key].status == Committed
  }
}
