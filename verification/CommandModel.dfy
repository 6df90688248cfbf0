/** The vocabulary of the command gateway and the owner inbox (commands/model.go) and their pure decisions. */
module CommandModel {
  import opened Common

  datatype Status = Accepted | Dispatched | Succeeded | Rejected | Failed | Expired

  predicate Terminal(status: Status) {
    status != Accepted && status != Dispatched
  }

  datatype OperationKey = OperationKey(tenantId: string, workspaceId: string, operationId: string)

  datatype IdempotencyKey = IdempotencyKey(tenantId: string, workspaceId: string, policyId: string, key: string)

  /** What a submitted command asks for; it never changes. A payload hash is modelled by the payload. */
  datatype Request = Request(idempotency: IdempotencyKey, ownerSystem: string, action: string, payload: string)

  datatype ResultFields = ResultFields(eventId: string, hash: string, version: Option<int>, safeError: string)

  const NoResult := ResultFields("", "", None, "")

  datatype Operation = Operation(
    key: OperationKey, request: Request, status: Status, revision: int, result: ResultFields, updatedAt: int)

  /** The command message an owner receives. */
  datatype Command = Command(key: OperationKey, request: Request)

  datatype ResultEnvelope = ResultEnvelope(
    eventId: string, key: OperationKey, ownerSystem: string, action: string, status: Status,
    resultHash: string, errorCode: string, safeError: string, resultVersion: Option<int>, occurredAt: int)

  predicate ValidResult(r: ResultEnvelope) {
    r.eventId != "" && Terminal(r.status) && (r.resultVersion.Some? ==> r.resultVersion.value >= 1)
  }

  /** The fields of a result that the gateway keeps. */
  function FieldsOf(r: ResultEnvelope): ResultFields {
    ResultFields(r.eventId, r.resultHash, r.resultVersion, r.safeError)
  }

  /** The operation has the result's status and carries its event, hash, version and error. */
  predicate Carries(op: Operation, r: ResultEnvelope) {
    && op.status == r.status && op.result.eventId == r.eventId && op.result.hash == r.resultHash
    && op.result.version == r.resultVersion && op.result.safeError == r.safeError
  }

  // ------------------------------------------------------------ the gateway

  /** The unique indexes: one operation per key and one per idempotency key. */
  ghost predicate CanCreate(values: map<OperationKey, Operation>, op: Operation) {
    op.key !in values && forall k :: k in values ==> values[k].request.idempotency != op.request.idempotency
  }

  predicate CanSave(values: map<OperationKey, Operation>, op: Operation, expected: int) {
    op.key in values && values[op.key].revision == expected
  }

  function DispatchedOf(op: Operation, now: int): Operation {
    op.(status := Dispatched, revision := op.revision + 1, updatedAt := now)
  }

  datatype ApplyDecision = ApplyNow | AlreadyRecorded | ResultConflict

  function DecideResult(op: Operation, r: ResultEnvelope): ApplyDecision {
    if op.request.ownerSystem != r.ownerSystem || op.request.action != r.action then ResultConflict
    else if Terminal(op.status) then
      if op.status == r.status && op.result == FieldsOf(r) then AlreadyRecorded else ResultConflict
    else ApplyNow
  }

  function WithResult(op: Operation, r: ResultEnvelope, now: int): Operation {
    op.(status := r.status, result := FieldsOf(r), revision := op.revision + 1,
        updatedAt := if r.occurredAt < op.updatedAt then now else r.occurredAt)
  }

  /** The result is well formed and comes from the operation's owner for its action. */
  predicate Answers(r: ResultEnvelope, op: Operation) {
    && r.eventId != "" && r.status in {Succeeded, Rejected, Failed, Expired}
    && (r.resultVersion.Some? ==> r.resultVersion.value >= 1)
    && r.key == op.key && r.ownerSystem == op.request.ownerSystem && r.action == op.request.action
  }

  /** The next version of the operation, with the result; time does not run backwards. */
  predicate IsAnswered(op: Operation, r: ResultEnvelope, now: int, op': Operation) {
    && Carries(op', r) && op'.key == op.key && op'.request == op.request && op'.revision == op.revision + 1
    && op'.updatedAt == if op.updatedAt <= r.occurredAt then r.occurredAt else now
  }

  /** The next version of the operation, dispatched. */
  predicate IsDispatched(op: Operation, now: int, op': Operation) {
    && op'.status == Dispatched && op'.key == op.key && op'.request == op.request && op'.result == op.result
    && op'.revision == op.revision + 1 && op'.updatedAt == now
  }

  /** The first version of an operation; its creation may not have been audited. */
  predicate IsSubmitted(op: Operation, key: OperationKey, request: Request, audited: bool, now: int) {
    && op.key == key && op.request == request && op.status == Accepted && op.revision == 1 && op.updatedAt == now
    && op.result.eventId == "" && op.result.hash == "" && op.result.version == None
    && op.result.safeError == if audited then "" else "audit unavailable"
  }

  // --------------------------------------------------------------- the owner

  datatype InboxStatus = Claimed | Committed

  datatype InboxEntry = InboxEntry(command: Command, status: InboxStatus, result: Option<ResultEnvelope>, revision: int)

  datatype ClaimResult = Fresh(entry: InboxEntry) | Replayed(entry: InboxEntry) | AlreadyClaimed | InboxConflict

  /** A stored entry matches a redelivery when owner, action and payload hash agree. */
  predicate SameCommand(stored: Command, c: Command) {
    stored.request.payload == c.request.payload && stored.request.ownerSystem == c.request.ownerSystem
    && stored.request.action == c.request.action
  }

  function ClaimOutcome(inbox: map<OperationKey, InboxEntry>, c: Command): ClaimResult {
    if c.key !in inbox then Fresh(InboxEntry(c, Claimed, None, 1))
    else if !SameCommand(inbox[c.key].command, c) then InboxConflict
    else if inbox[c.key].status == Committed then Replayed(inbox[c.key])
    else AlreadyClaimed
  }

  function AfterClaim(inbox: map<OperationKey, InboxEntry>, c: Command): map<OperationKey, InboxEntry> {
    if c.key in inbox then inbox else inbox[c.key := InboxEntry(c, Claimed, None, 1)]
  }

  predicate CanCommit(inbox: map<OperationKey, InboxEntry>, claimed: InboxEntry) {
    claimed.command.key in inbox
    && inbox[claimed.command.key].revision == claimed.revision && inbox[claimed.command.key].status == Claimed
  }

  function CommittedEntry(entry: InboxEntry, r: ResultEnvelope): InboxEntry {
    entry.(status := Committed, result := Some(r), revision := entry.revision + 1)
  }

  /** What the owner's callback does: it fails, or it returns a result, perhaps with blanks. */
  datatype CallbackOutcome = Raised | Returned(result: ResultEnvelope)

  function Default(value: string, fallback: string): string {
    if value == "" then fallback else value
  }

  /** The blanks filled in from the command; a raised error becomes a failed result. */
  function Completed(c: Command, outcome: CallbackOutcome, now: int): ResultEnvelope {
    match outcome
    case Raised =>
      ResultEnvelope("command-result-" + c.key.operationId, c.key, c.request.ownerSystem, c.request.action, Failed, "",
                     "OWNER_EXECUTION_FAILED", "owner execution failed", None, now)
    case Returned(r) =>
      r.(eventId := Default(r.eventId, "command-result-" + c.key.operationId),
         key := OperationKey(Default(r.key.tenantId, c.key.tenantId), Default(r.key.workspaceId, c.key.workspaceId),
                             Default(r.key.operationId, c.key.operationId)),
         ownerSystem := Default(r.ownerSystem, c.request.ownerSystem),
         action := Default(r.action, c.request.action),
         occurredAt := if r.occurredAt == 0 then now else r.occurredAt)
  }

  /** A fresh claim of the command. */
  predicate IsClaimOf(entry: InboxEntry, c: Command) {
    entry.command == c && entry.status == Claimed && entry.result == None && entry.revision == 1
  }

  /** The claim, committed with the result. */
  predicate IsCommitOf(entry: InboxEntry, entry': InboxEntry, r: ResultEnvelope) {
    entry'.command == entry.command && entry'.status == Committed && entry'.result == Some(r)
    && entry'.revision == entry.revision + 1
  }

  /** What the callback gave where it gave something, and otherwise what the command says. */
  predicate IsFilled(given: string, fallback: string, r: string) {
    r == given || (given == "" && r == fallback)
  }

  /** A raised error is a failure that says no more; a result keeps its content, and its blanks are filled in. */
  predicate IsCompletion(c: Command, outcome: CallbackOutcome, now: int, r: ResultEnvelope) {
    match outcome
    case Raised =>
      && r.status == Failed && r.errorCode == "OWNER_EXECUTION_FAILED" && r.safeError == "owner execution failed"
      && r.eventId == "command-result-" + c.key.operationId && r.key == c.key && r.resultHash == ""
      && r.ownerSystem == c.request.ownerSystem && r.action == c.request.action && r.resultVersion == None
      && r.occurredAt == now
    case Returned(x) =>
      && r.status == x.status && r.resultHash == x.resultHash && r.errorCode == x.errorCode
      && r.safeError == x.safeError && r.resultVersion == x.resultVersion
      && r.eventId != "" && IsFilled(x.eventId, "command-result-" + c.key.operationId, r.eventId)
      && r.key == c.key && IsFilled(x.key.tenantId, c.key.tenantId, r.key.tenantId)
      && IsFilled(x.key.workspaceId, c.key.workspaceId, r.key.workspaceId)
      && IsFilled(x.key.operationId, c.key.operationId, r.key.operationId)
      && r.ownerSystem == c.request.ownerSystem && IsFilled(x.ownerSystem, c.request.ownerSystem, r.ownerSystem)
      && r.action == c.request.action && IsFilled(x.action, c.request.action, r.action)
      && (if x.occurredAt == 0 then r.occurredAt == now else r.occurredAt == x.occurredAt)
  }

  /** The callback failed, or its result is a final one that names nothing but the command it answers. */
  predicate Fits(c: Command, outcome: CallbackOutcome) {
    outcome.Returned? ==>
      var x := outcome.result;
      && x.key.tenantId in {"", c.key.tenantId} && x.key.workspaceId in {"", c.key.workspaceId}
      && x.key.operationId in {"", c.key.operationId} && x.ownerSystem in {"", c.request.ownerSystem}
      && x.action in {"", c.request.action} && x.status in {Succeeded, Rejected, Failed, Expired}
      && (x.resultVersion.Some? ==> x.resultVersion.value >= 1)
  }

  lemma CompletionIs(c: Command, outcome: CallbackOutcome, now: int)
    ensures Acceptable(c, Completed(c, outcome, now)) <==> Fits(c, outcome)
    ensures Fits(c, outcome) ==> IsCompletion(c, outcome, now, Completed(c, outcome, now))
  {
    assert ("command-result-" + c.key.operationId)[0] == 'c';
  }

  /** The result names the command it answers, and is well formed. */
  predicate Acceptable(c: Command, r: ResultEnvelope) {
    r.key == c.key && r.ownerSystem == c.request.ownerSystem && r.action == c.request.action && ValidResult(r)
  }
}
