/**
  The durable state of the projection: inbox, event archive, checkpoints, records, audit and read
  pointers, and the atomic operations on them (store.go, inbox.go, archive.go, read_pointer.go).

  A SHA-256 digest is modelled by the very value it is the digest of, so digests are injective.
 */
module ProjectionStore {
  import opened Common

  const DEFAULT_COLLECTION := "records"

  /** The first-party sources have a durable consumer each; any other source has none. */
  datatype SourceSystem = Approver | Fluxion | Bids | OtherSource(name: string)
  datatype Consumer = ApproverConsumer | FluxionConsumer | BidsConsumer | NoConsumer

  /** A decoded event message. Two raw messages are equal exactly when their envelopes are. */
  datatype Envelope = Envelope(
    eventId: string, eventType: string, schemaVersion: int, sourceSystem: SourceSystem, tenantId: string,
    aggregateType: string, aggregateId: string, aggregateVersion: int, occurredAt: int,
    payload: string, metadata: map<string, string>)

  /** Where the mapping in force sends an event, and the record content it extracts from it. */
  datatype Target = Target(
    workspaceId: string, tableId: string, perTable: bool, schemaId: string, schemaVersion: int,
    recordVersion: int, data: string)

  datatype MessageKey = MessageKey(consumer: Consumer, eventId: string)

  datatype AggregateKey = AggregateKey(
    tenantId: string, workspaceId: string, consumer: Consumer, sourceSystem: SourceSystem,
    aggregateType: string, aggregateId: string)

  /** The hashed record identifier: with the table for a catalog mapping, without it for a built-in one. */
  datatype RecordId =
    | SummaryRecordId(tenantId: string, workspaceId: string, sourceSystem: SourceSystem, aggregateType: string,
                      aggregateId: string)
    | TableRecordId(tenantId: string, workspaceId: string, tableId: string, sourceSystem: SourceSystem,
                    aggregateType: string, aggregateId: string)

  datatype DocumentKey = DocumentKey(tenantId: string, workspaceId: string, tableId: string, id: RecordId)

  datatype InboxStatus = InboxProcessing | InboxApplied | InboxRejected | InboxFailed

  datatype InboxRow = InboxRow(
    digest: Envelope, subject: string, workspaceId: string, status: InboxStatus, receivedAt: int,
    appliedAt: Option<int>)

  datatype ArchiveEntry = ArchiveEntry(raw: Envelope, subject: string, workspaceId: string, receivedAt: int)

  datatype CheckpointStatus = CheckpointCurrent | CheckpointGap | CheckpointFailed

  datatype Checkpoint = Checkpoint(sourceVersion: int, lastEventId: string, syncedAt: int, status: CheckpointStatus)

  datatype Record = Record(
    schemaId: string, schemaVersion: int, sourceVersion: int, recordVersion: int, data: string,
    lastEventId: string, createdAt: int, syncedAt: int)

  datatype AuditEntry = AuditEntry(
    tenantId: string, workspaceId: string, resourceId: RecordId, resourceVersion: int, afterHash: Envelope,
    createdAt: int)

  datatype PointerStatus = PointerActive | PointerRetired

  /** The unique index of the pointer collection covers the status too. */
  datatype PointerKey = PointerKey(tenantId: string, workspaceId: string, tableId: string, status: PointerStatus)

  datatype ReadPointer = ReadPointer(generationId: string, collectionName: string, operationId: string)

  /** A document is addressed by its collection and its key inside it. */
  datatype Address = Address(collection: string, document: DocumentKey)

  datatype Store = Store(
    inbox: map<MessageKey, InboxRow>,
    archive: map<MessageKey, ArchiveEntry>,
    checkpoints: map<AggregateKey, Checkpoint>,
    records: map<Address, Record>,
    audit: seq<AuditEntry>,
    pointers: map<PointerKey, ReadPointer>)

  const EmptyStore := Store(map[], map[], map[], map[], [], map[])

  function ConsumerForSource(source: SourceSystem): Consumer {
    match source
    case Approver => ApproverConsumer
    case Fluxion => FluxionConsumer
    case Bids => BidsConsumer
    case OtherSource(_) => NoConsumer
  }

  function KeyOf(e: Envelope): MessageKey {
    MessageKey(ConsumerForSource(e.sourceSystem), e.eventId)
  }

  function AggregateOf(e: Envelope, workspaceId: string): AggregateKey {
    AggregateKey(e.tenantId, workspaceId, ConsumerForSource(e.sourceSystem), e.sourceSystem, e.aggregateType,
                 e.aggregateId)
  }

  function RecordIdOf(e: Envelope, t: Target): RecordId {
    if t.perTable
    then TableRecordId(e.tenantId, t.workspaceId, t.tableId, e.sourceSystem, e.aggregateType, e.aggregateId)
    else SummaryRecordId(e.tenantId, t.workspaceId, e.sourceSystem, e.aggregateType, e.aggregateId)
  }

  function DocumentOf(e: Envelope, t: Target): DocumentKey {
    DocumentKey(e.tenantId, t.workspaceId, t.tableId, RecordIdOf(e, t))
  }

  /** The record an event produces. */
  function ImageOf(e: Envelope, t: Target, now: int): Record {
    Record(t.schemaId, t.schemaVersion, e.aggregateVersion, t.recordVersion, t.data, e.eventId, e.occurredAt, now)
  }

  function AuditOf(e: Envelope, t: Target, now: int): AuditEntry {
    AuditEntry(e.tenantId, t.workspaceId, RecordIdOf(e, t), t.recordVersion, e, now)
  }

  // ---------------------------------------------------------------- reading

  /** The collection readers and live writers use for a table. */
  function ActiveCollection(s: Store, tenantId: string, workspaceId: string, tableId: string): string {
    var key := PointerKey(tenantId, workspaceId, tableId, PointerActive);
    if tableId != "" && key in s.pointers then s.pointers[key].collectionName else DEFAULT_COLLECTION
  }

  /** What a reader sees of a document. */
  function Visible(s: Store, d: DocumentKey): Option<Record> {
    Lookup(s.records, Address(ActiveCollection(s, d.tenantId, d.workspaceId, d.tableId), d))
  }

  /** A record apart from the time it was written. */
  function Content(r: Option<Record>): Option<Record> {
    if r.Some? then Some(r.value.(syncedAt := 0)) else None
  }

  /** The version an aggregate's checkpoint stands at; zero when it has none. */
  function VersionOf(s: Store, a: AggregateKey): int {
    if a in s.checkpoints then s.checkpoints[a].sourceVersion else 0
  }

  // ------------------------------------------------------- claim and archive

  datatype ClaimResult = Claimed(row: InboxRow, duplicate: bool) | ClaimConflict

  function FreshRow(e: Envelope, subject: string, workspaceId: string, now: int): InboxRow {
    InboxRow(e, subject, workspaceId, InboxProcessing, now, None)
  }

  function AfterClaim(s: Store, e: Envelope, subject: string, workspaceId: string, now: int): Store {
    if KeyOf(e) in s.inbox then s else s.(inbox := s.inbox[KeyOf(e) := FreshRow(e, subject, workspaceId, now)])
  }

  function ClaimOutcome(s: Store, e: Envelope, subject: string, workspaceId: string, now: int): ClaimResult {
    if KeyOf(e) !in s.inbox then Claimed(FreshRow(e, subject, workspaceId, now), false)
    else if s.inbox[KeyOf(e)].digest != e then ClaimConflict
    else Claimed(s.inbox[KeyOf(e)], true)
  }

  function AfterArchive(s: Store, e: Envelope, subject: string, workspaceId: string, now: int): Store {
    if KeyOf(e) in s.archive then s
    else s.(archive := s.archive[KeyOf(e) := ArchiveEntry(e, subject, workspaceId, now)])
  }

  /** A duplicate is accepted only when the stored message is byte-identical. */
  predicate ArchiveAccepts(s: Store, e: Envelope) {
    KeyOf(e) in s.archive ==> s.archive[KeyOf(e)].raw == e
  }

  // ------------------------------------------------------------------- apply

  datatype Decision = DecideApply | DecideStale | DecideGap

  function ClassifyCheckpoint(current: Option<Checkpoint>, incoming: int): (d: Decision)
    ensures d == DecideApply <==> incoming == 1 + (if current.Some? then current.value.sourceVersion else 0)
    ensures d == DecideStale <==> incoming <= (if current.Some? then current.value.sourceVersion else 0)
  {
    var currentVersion := if current.Some? then current.value.sourceVersion else 0;
    if incoming <= currentVersion then DecideStale
    else if incoming != currentVersion + 1 then DecideGap
    else DecideApply
  }

  datatype ApplyResult =
    | Applied | StaleApplied | AlreadyApplied | VersionGap
    | ApplyRefused(reason: ApplyError)

  datatype ApplyError = ScopeMismatch | InboxNotFound | PayloadConflict | StateConflict | PointerUnavailable

  function ApplyOutcome(s: Store, claimed: InboxRow, e: Envelope, t: Target): ApplyResult {
    if claimed.workspaceId != t.workspaceId then ApplyRefused(ScopeMismatch)
    else if KeyOf(e) !in s.inbox then ApplyRefused(InboxNotFound)
    else
      var row := s.inbox[KeyOf(e)];
      if row.digest != claimed.digest then ApplyRefused(PayloadConflict)
      else if row.status == InboxApplied then AlreadyApplied
      else if row.status != InboxProcessing then ApplyRefused(StateConflict)
      else match ClassifyCheckpoint(Lookup(s.checkpoints, AggregateOf(e, t.workspaceId)), e.aggregateVersion)
        case DecideStale => StaleApplied
        case DecideGap => VersionGap
        case DecideApply =>
          if ActiveCollection(s, e.tenantId, t.workspaceId, t.tableId) == "" then ApplyRefused(PointerUnavailable)
          else Applied
  }

  function RowApplied(s: Store, e: Envelope, now: int): map<MessageKey, InboxRow>
    requires KeyOf(e) in s.inbox
  {
    s.inbox[KeyOf(e) := s.inbox[KeyOf(e)].(status := InboxApplied, appliedAt := Some(now))]
  }

  /** The committed effect of the projection transaction. */
  function AfterApply(s: Store, claimed: InboxRow, e: Envelope, t: Target, now: int): Store {
    var a := AggregateOf(e, t.workspaceId);
    match ApplyOutcome(s, claimed, e, t)
    case StaleApplied => s.(inbox := RowApplied(s, e, now))
    case VersionGap =>
      if a in s.checkpoints
      then s.(checkpoints := s.checkpoints[a := s.checkpoints[a].(status := CheckpointGap)])
      else s
    case Applied =>
      var collection := ActiveCollection(s, e.tenantId, t.workspaceId, t.tableId);
      s.(inbox := RowApplied(s, e, now),
         records := s.records[Address(collection, DocumentOf(e, t)) := ImageOf(e, t, now)],
         checkpoints := s.checkpoints[a := Checkpoint(e.aggregateVersion, e.eventId, now, CheckpointCurrent)],
         audit := s.audit + [AuditOf(e, t, now)])
    case AlreadyApplied => s
    case ApplyRefused(_) => s
  }

  // ----------------------------------------------------------------- staging

  /** The staged replay rule: keep the greatest record version, the first of equals. */
  function AfterStaging(s: Store, collection: string, e: Envelope, t: Target, now: int): Store {
    var address := Address(collection, DocumentOf(e, t));
    if address in s.records && s.records[address].recordVersion >= t.recordVersion then s
    else s.(records := s.records[address := ImageOf(e, t, now)])
  }

  // -------------------------------------- what the operations do, field by field

  /** The key names the message, with the durable consumer of its source. */
  predicate IsKeyOf(k: MessageKey, e: Envelope) {
    && k.eventId == e.eventId
    && (e.sourceSystem.Approver? <==> k.consumer.ApproverConsumer?)
    && (e.sourceSystem.Fluxion? <==> k.consumer.FluxionConsumer?)
    && (e.sourceSystem.Bids? <==> k.consumer.BidsConsumer?)
  }

  /** The key names the aggregate in the workspace, with the durable consumer of its source. */
  predicate IsAggregateOf(a: AggregateKey, e: Envelope, workspaceId: string) {
    && a.tenantId == e.tenantId && a.workspaceId == workspaceId && a.sourceSystem == e.sourceSystem
    && a.aggregateType == e.aggregateType && a.aggregateId == e.aggregateId
    && IsKeyOf(MessageKey(a.consumer, e.eventId), e)
  }

  /** The key names the event's tenant, aggregate and table; the identifier holds the table if it is per table. */
  predicate IsPlaceOf(d: DocumentKey, e: Envelope, t: Target) {
    && d.tenantId == e.tenantId && d.workspaceId == t.workspaceId && d.tableId == t.tableId
    && d.id.tenantId == e.tenantId && d.id.workspaceId == t.workspaceId && d.id.sourceSystem == e.sourceSystem
    && d.id.aggregateType == e.aggregateType && d.id.aggregateId == e.aggregateId
    && (d.id.TableRecordId? <==> t.perTable) && (d.id.TableRecordId? ==> d.id.tableId == t.tableId)
  }

  lemma KeyIs(k: MessageKey, e: Envelope)
    ensures IsKeyOf(k, e) <==> k == KeyOf(e)
  {
  }

  lemma AggregateIs(a: AggregateKey, e: Envelope, workspaceId: string)
    ensures IsAggregateOf(a, e, workspaceId) <==> a == AggregateOf(e, workspaceId)
  {
  }

  lemma PlaceIsDocument(d: DocumentKey, e: Envelope, t: Target)
    ensures IsPlaceOf(d, e, t) <==> d == DocumentOf(e, t)
  {
  }

  /** The record holds the mapped content and the versions of the event, and names it. */
  predicate Says(r: Record, e: Envelope, t: Target) {
    && r.data == t.data && r.schemaId == t.schemaId && r.schemaVersion == t.schemaVersion
    && r.recordVersion == t.recordVersion && r.sourceVersion == e.aggregateVersion
    && r.lastEventId == e.eventId && r.createdAt == e.occurredAt
  }

  /** A reader of the document sees what the event says. */
  predicate Shows(s: Store, d: DocumentKey, e: Envelope, t: Target) {
    Visible(s, d).Some? && Says(Visible(s, d).value, e, t)
  }

  /** Whatever document the event writes, readers see in it what the event says. */
  ghost predicate ShowsEvent(s: Store, e: Envelope, t: Target) {
    forall d :: IsPlaceOf(d, e, t) ==> Shows(s, d, e, t)
  }

  /** They do since the given time. */
  ghost predicate ShowsEventSince(s: Store, e: Envelope, t: Target, now: int) {
    forall d :: IsPlaceOf(d, e, t) ==> Shows(s, d, e, t) && Visible(s, d).value.syncedAt == now
  }

  /** The audit entry names the written record and the message that wrote it. */
  predicate IsAuditFor(a: AuditEntry, e: Envelope, t: Target, now: int) {
    && IsPlaceOf(DocumentKey(a.tenantId, a.workspaceId, t.tableId, a.resourceId), e, t)
    && a.resourceVersion == t.recordVersion && a.afterHash == e && a.createdAt == now
  }

  /** One row is new or changed at most: that of the message. */
  ghost predicate OtherRowsStay(s: Store, s': Store, e: Envelope) {
    forall k :: !IsKeyOf(k, e) ==> Lookup(s'.inbox, k) == Lookup(s.inbox, k)
  }

  /** A claim inserts a row that waits, repeats the row of the same message, or meets another message under the key. */
  ghost predicate ClaimDid(
    s: Store, e: Envelope, subject: string, workspaceId: string, now: int, s': Store, result: ClaimResult)
  {
    forall k :: IsKeyOf(k, e) ==>
      && s' == s.(inbox := s'.inbox) && OtherRowsStay(s, s', e)
      && (result.ClaimConflict? <==> k in s.inbox && s.inbox[k].digest != e)
      && (result.Claimed? ==> k in s'.inbox && result.row == s'.inbox[k] && (result.duplicate <==> k in s.inbox))
      && (k in s.inbox ==> s' == s)
      && (k !in s.inbox && k in s'.inbox ==>
            && s'.inbox[k].digest == e && s'.inbox[k].subject == subject && s'.inbox[k].workspaceId == workspaceId
            && s'.inbox[k].status == InboxProcessing && s'.inbox[k].receivedAt == now && s'.inbox[k].appliedAt == None)
  }

  lemma ClaimIs(s: Store, e: Envelope, subject: string, workspaceId: string, now: int)
    ensures ClaimDid(s, e, subject, workspaceId, now, AfterClaim(s, e, subject, workspaceId, now),
                     ClaimOutcome(s, e, subject, workspaceId, now))
  {
    forall k ensures IsKeyOf(k, e) <==> k == KeyOf(e) { KeyIs(k, e); }
  }

  /** A message is archived with what came with it, or what the archive holds under its key stays. */
  ghost predicate ArchiveDid(
    s: Store, e: Envelope, subject: string, workspaceId: string, now: int, s': Store, accepted: bool)
  {
    forall k :: IsKeyOf(k, e) ==>
      && s' == s.(archive := s'.archive) && (forall j :: j != k ==> Lookup(s'.archive, j) == Lookup(s.archive, j))
      && (accepted <==> (k in s.archive ==> s.archive[k].raw == e))
      && (k in s.archive ==> s' == s)
      && (k !in s.archive ==>
            && k in s'.archive && s'.archive[k].raw == e && s'.archive[k].subject == subject
            && s'.archive[k].workspaceId == workspaceId && s'.archive[k].receivedAt == now)
  }

  lemma ArchiveIs(s: Store, e: Envelope, subject: string, workspaceId: string, now: int)
    ensures ArchiveDid(s, e, subject, workspaceId, now,
                       if ArchiveAccepts(s, e) then AfterArchive(s, e, subject, workspaceId, now) else s,
                       ArchiveAccepts(s, e))
  {
    forall k ensures IsKeyOf(k, e) <==> k == KeyOf(e) { KeyIs(k, e); }
  }

  /** The worker's row is of the target's workspace, and the stored row carries the same message in this state. */
  predicate MeetsRow(s: Store, claimed: InboxRow, e: Envelope, t: Target, status: InboxStatus) {
    && claimed.workspaceId == t.workspaceId && KeyOf(e) in s.inbox && s.inbox[KeyOf(e)].digest == claimed.digest
    && s.inbox[KeyOf(e)].status == status
  }

  /** The row of the message is applied; the rest of it, and the other rows, are as they were. */
  ghost predicate MarksApplied(s: Store, s': Store, e: Envelope, now: int) {
    && OtherRowsStay(s, s', e) && KeyOf(e) in s.inbox && KeyOf(e) in s'.inbox
    && var row, row' := s.inbox[KeyOf(e)], s'.inbox[KeyOf(e)];
       && row'.status == InboxApplied && row'.appliedAt == Some(now) && row'.receivedAt == row.receivedAt
       && row'.digest == row.digest && row'.subject == row.subject && row'.workspaceId == row.workspaceId
  }

  /** The event's document in the collection says what the event says, written at the given time; no other changes. */
  ghost predicate WritesRecord(s: Store, s': Store, collection: string, e: Envelope, t: Target, now: int) {
    && (forall d :: IsPlaceOf(d, e, t) ==>
          && Address(collection, d) in s'.records && Says(s'.records[Address(collection, d)], e, t)
          && s'.records[Address(collection, d)].syncedAt == now)
    && (forall x: Address :: x.collection != collection || !IsPlaceOf(x.document, e, t) ==>
          Lookup(s'.records, x) == Lookup(s.records, x))
  }

  /** The checkpoint of the event's aggregate names the event and is current; no other changes. */
  ghost predicate MovesCheckpoint(s: Store, s': Store, e: Envelope, workspaceId: string, now: int) {
    && (forall a :: IsAggregateOf(a, e, workspaceId) ==>
          && a in s'.checkpoints && s'.checkpoints[a].sourceVersion == e.aggregateVersion
          && s'.checkpoints[a].lastEventId == e.eventId && s'.checkpoints[a].syncedAt == now
          && s'.checkpoints[a].status == CheckpointCurrent)
    && (forall a :: !IsAggregateOf(a, e, workspaceId) ==> Lookup(s'.checkpoints, a) == Lookup(s.checkpoints, a))
  }

  /** The checkpoint of the event's aggregate, if there is one, is marked and nothing else changes. */
  ghost predicate FlagsGap(s: Store, s': Store, e: Envelope, workspaceId: string) {
    && s' == s.(checkpoints := s'.checkpoints) && s'.checkpoints.Keys == s.checkpoints.Keys
    && (forall a :: a in s.checkpoints ==>
          && s'.checkpoints[a].sourceVersion == s.checkpoints[a].sourceVersion
          && s'.checkpoints[a].lastEventId == s.checkpoints[a].lastEventId
          && s'.checkpoints[a].syncedAt == s.checkpoints[a].syncedAt
          && s'.checkpoints[a].status
             == if IsAggregateOf(a, e, workspaceId) then CheckpointGap else s.checkpoints[a].status)
  }

  /** One audit entry more: that of the written record. */
  predicate Audits(s: Store, s': Store, e: Envelope, t: Target, now: int) {
    |s'.audit| == |s.audit| + 1 && s'.audit[..|s.audit|] == s.audit && IsAuditFor(Last(s'.audit), e, t, now)
  }

  /** The four ways the transaction ends without an error, by the state of the row and the version of the event. */
  predicate TransactionEnds(s: Store, claimed: InboxRow, e: Envelope, t: Target, result: ApplyResult) {
    var waits := MeetsRow(s, claimed, e, t, InboxProcessing);
    var version := VersionOf(s, AggregateOf(e, t.workspaceId));
    && (result.Applied? <==>
          waits && e.aggregateVersion == version + 1
          && ActiveCollection(s, e.tenantId, t.workspaceId, t.tableId) != "")
    && (result.StaleApplied? <==> waits && e.aggregateVersion <= version)
    && (result.VersionGap? <==> waits && e.aggregateVersion > version + 1)
    && (result.AlreadyApplied? <==> MeetsRow(s, claimed, e, t, InboxApplied))
  }

  /** What it leaves in each of them; an error leaves no trace. */
  ghost predicate TransactionDid(s: Store, e: Envelope, t: Target, now: int, s': Store, result: ApplyResult) {
    var collection := ActiveCollection(s, e.tenantId, t.workspaceId, t.tableId);
    && s'.archive == s.archive && s'.pointers == s.pointers
    && (result.Applied? ==>
          && MarksApplied(s, s', e, now) && WritesRecord(s, s', collection, e, t, now)
          && MovesCheckpoint(s, s', e, t.workspaceId, now) && Audits(s, s', e, t, now))
    && (result.StaleApplied? ==> s' == s.(inbox := s'.inbox) && MarksApplied(s, s', e, now))
    && (result.VersionGap? ==> FlagsGap(s, s', e, t.workspaceId))
    && (result.AlreadyApplied? || result.ApplyRefused? ==> s' == s)
  }

  lemma TransactionIs(s: Store, claimed: InboxRow, e: Envelope, t: Target, now: int)
    ensures TransactionEnds(s, claimed, e, t, ApplyOutcome(s, claimed, e, t))
    ensures TransactionDid(s, e, t, now, AfterApply(s, claimed, e, t, now), ApplyOutcome(s, claimed, e, t))
  {
    var s' := AfterApply(s, claimed, e, t, now);
    EndIs(s, claimed, e, t);
    match ApplyOutcome(s, claimed, e, t) {
      case Applied => ApplicationIs(s, claimed, e, t, now);
      case StaleApplied => RowAppliedIs(s, s', e, now);
      case VersionGap => GapIs(s, claimed, e, t, now);
      case AlreadyApplied =>
      case ApplyRefused(_) =>
    }
  }

  lemma EndIs(s: Store, claimed: InboxRow, e: Envelope, t: Target)
    ensures TransactionEnds(s, claimed, e, t, ApplyOutcome(s, claimed, e, t))
  {
  }

  lemma RowAppliedIs(s: Store, s': Store, e: Envelope, now: int)
    requires KeyOf(e) in s.inbox && s'.inbox == RowApplied(s, e, now)
    ensures MarksApplied(s, s', e, now)
  {
    forall k ensures IsKeyOf(k, e) <==> k == KeyOf(e) { KeyIs(k, e); }
  }

  lemma GapIs(s: Store, claimed: InboxRow, e: Envelope, t: Target, now: int)
    requires ApplyOutcome(s, claimed, e, t) == VersionGap
    ensures FlagsGap(s, AfterApply(s, claimed, e, t, now), e, t.workspaceId)
  {
    forall a ensures IsAggregateOf(a, e, t.workspaceId) <==> a == AggregateOf(e, t.workspaceId) {
      AggregateIs(a, e, t.workspaceId);
    }
  }

  lemma RecordIs(s: Store, s': Store, collection: string, e: Envelope, t: Target, now: int)
    requires s'.records == s.records[Address(collection, DocumentOf(e, t)) := ImageOf(e, t, now)]
    ensures WritesRecord(s, s', collection, e, t, now)
  {
    forall d ensures IsPlaceOf(d, e, t) <==> d == DocumentOf(e, t) { PlaceIsDocument(d, e, t); }
  }

  lemma ApplicationIs(s: Store, claimed: InboxRow, e: Envelope, t: Target, now: int)
    requires ApplyOutcome(s, claimed, e, t) == Applied
    ensures var s' := AfterApply(s, claimed, e, t, now);
            && MarksApplied(s, s', e, now)
            && WritesRecord(s, s', ActiveCollection(s, e.tenantId, t.workspaceId, t.tableId), e, t, now)
            && MovesCheckpoint(s, s', e, t.workspaceId, now) && Audits(s, s', e, t, now)
  {
    var s' := AfterApply(s, claimed, e, t, now);
    RowAppliedIs(s, s', e, now);
    RecordIs(s, s', ActiveCollection(s, e.tenantId, t.workspaceId, t.tableId), e, t, now);
    forall a ensures IsAggregateOf(a, e, t.workspaceId) <==> a == AggregateOf(e, t.workspaceId) {
      AggregateIs(a, e, t.workspaceId);
    }
  }

  /** Staging writes the record of the event unless the collection holds one at least as new. */
  ghost predicate StagingDid(s: Store, collection: string, e: Envelope, t: Target, now: int, s': Store) {
    && s' == s.(records := s'.records)
    && forall d :: IsPlaceOf(d, e, t) ==>
         var at := Address(collection, d);
         if at in s.records && t.recordVersion <= s.records[at].recordVersion then s' == s
         else WritesRecord(s, s', collection, e, t, now)
  }

  lemma StagingIs(s: Store, collection: string, e: Envelope, t: Target, now: int)
    ensures StagingDid(s, collection, e, t, now, AfterStaging(s, collection, e, t, now))
  {
    var s' := AfterStaging(s, collection, e, t, now);
    forall d ensures IsPlaceOf(d, e, t) <==> d == DocumentOf(e, t) { PlaceIsDocument(d, e, t); }
    if s' != s { RecordIs(s, s', collection, e, t, now); }
  }

  // ------------------------------------------------------- pointer activation

  datatype Scope = Scope(tenantId: string, workspaceId: string)

  /** Activation trips over the unique index when a table already has a retired pointer and must retire another. */
  predicate PointerSwitchAllowed(pointers: map<PointerKey, ReadPointer>, scope: Scope, tableId: string) {
    !(PointerKey(scope.tenantId, scope.workspaceId, tableId, PointerActive) in pointers
      && PointerKey(scope.tenantId, scope.workspaceId, tableId, PointerRetired) in pointers)
  }

  /** One table's active pointer retired and replaced. */
  function SwitchPointer(
    before: map<PointerKey, ReadPointer>, scope: Scope, tableId: string, pointer: ReadPointer)
    : map<PointerKey, ReadPointer>
  {
    var active := PointerKey(scope.tenantId, scope.workspaceId, tableId, PointerActive);
    var retired := PointerKey(scope.tenantId, scope.workspaceId, tableId, PointerRetired);
    (if active in before then before[retired := before[active]] else before)[active := pointer]
  }

  /** The pointer stored under a key once the tables' active pointers were retired and replaced. */
  function SwitchedPointer(
    before: map<PointerKey, ReadPointer>, scope: Scope, tables: set<string>, pointer: ReadPointer, k: PointerKey)
    : Option<ReadPointer>
  {
    if k.tenantId != scope.tenantId || k.workspaceId != scope.workspaceId || k.tableId !in tables then Lookup(before, k)
    else if k.status == PointerActive then Some(pointer)
    else if k.(status := PointerActive) in before then Some(before[k.(status := PointerActive)])
    else Lookup(before, k)
  }

  function SwitchedPointers(
    before: map<PointerKey, ReadPointer>, scope: Scope, tables: set<string>, pointer: ReadPointer)
    : map<PointerKey, ReadPointer>
  {
    var touched := set table, status | table in tables && status in {PointerActive, PointerRetired}
                                     :: PointerKey(scope.tenantId, scope.workspaceId, table, status);
    map k | k in before.Keys + touched && SwitchedPointer(before, scope, tables, pointer, k).Some?
          :: SwitchedPointer(before, scope, tables, pointer, k).value
  }

  /** Checkpoints only ever move forward under an activation. */
  function Advanced(
    current: map<AggregateKey, Checkpoint>, proposed: map<AggregateKey, Checkpoint>): map<AggregateKey, Checkpoint>
  {
    map a | a in current.Keys + proposed.Keys ::
      if a in proposed && (a !in current || current[a].sourceVersion < proposed[a].sourceVersion)
      then proposed[a] else current[a]
  }

  predicate ActivationAllowed(s: Store, scope: Scope, tables: set<string>) {
    forall table :: table in tables ==> PointerSwitchAllowed(s.pointers, scope, table)
  }

  predicate CheckpointsValid(proposed: map<AggregateKey, Checkpoint>) {
    forall a :: a in proposed ==> proposed[a].sourceVersion >= 0 && proposed[a].lastEventId != ""
  }

  /** The pointer transaction: all tables switch and all checkpoints advance, or nothing happens. */
  function AfterActivation(
    s: Store, scope: Scope, tables: set<string>, pointer: ReadPointer, proposed: map<AggregateKey, Checkpoint>): Store
  {
    if tables == {} || !ActivationAllowed(s, scope, tables) || !CheckpointsValid(proposed) then s
    else s.(pointers := SwitchedPointers(s.pointers, scope, tables, pointer),
            checkpoints := Advanced(s.checkpoints, proposed))
  }

  /** The pointer a table has in this status. */
  function PointerAt(s: Store, scope: Scope, tableId: string, status: PointerStatus): Option<ReadPointer> {
    Lookup(s.pointers, PointerKey(scope.tenantId, scope.workspaceId, tableId, status))
  }

  /** The tables read from the new pointer, what they read from is retired, and no other pointer changes. */
  ghost predicate SwitchesPointers(s: Store, s': Store, scope: Scope, tables: set<string>, pointer: ReadPointer) {
    && (forall table :: table in tables ==>
          && PointerAt(s', scope, table, PointerActive) == Some(pointer)
          && PointerAt(s', scope, table, PointerRetired)
             == (if PointerAt(s, scope, table, PointerActive).Some? then PointerAt(s, scope, table, PointerActive)
                 else PointerAt(s, scope, table, PointerRetired)))
    && (forall k: PointerKey ::
          k.tenantId != scope.tenantId || k.workspaceId != scope.workspaceId || k.tableId !in tables ==>
            Lookup(s'.pointers, k) == Lookup(s.pointers, k))
  }

  /** A checkpoint is replaced by a proposed one exactly when it is missing or behind. */
  ghost predicate AdvancesCheckpoints(s: Store, s': Store, proposed: map<AggregateKey, Checkpoint>) {
    forall a ::
      Lookup(s'.checkpoints, a)
      == if a in proposed && (a in s.checkpoints ==> s.checkpoints[a].sourceVersion < proposed[a].sourceVersion)
         then Some(proposed[a]) else Lookup(s.checkpoints, a)
  }

  ghost predicate ActivationDid(
    s: Store, scope: Scope, tables: set<string>, pointer: ReadPointer, proposed: map<AggregateKey, Checkpoint>,
    s': Store, ok: bool)
  {
    && (ok <==> tables == {} || (CheckpointsValid(proposed) && forall table :: table in tables ==>
                                   PointerAt(s, scope, table, PointerActive) == None
                                   || PointerAt(s, scope, table, PointerRetired) == None))
    && (if ok && tables != {}
        then s' == s.(pointers := s'.pointers, checkpoints := s'.checkpoints)
             && SwitchesPointers(s, s', scope, tables, pointer) && AdvancesCheckpoints(s, s', proposed)
        else s' == s)
  }

  lemma ActivationIs(
    s: Store, scope: Scope, tables: set<string>, pointer: ReadPointer, proposed: map<AggregateKey, Checkpoint>)
    ensures ActivationDid(s, scope, tables, pointer, proposed, AfterActivation(s, scope, tables, pointer, proposed),
                          tables == {} || (ActivationAllowed(s, scope, tables) && CheckpointsValid(proposed)))
  {
    forall table | table in tables
      ensures PointerSwitchAllowed(s.pointers, scope, table) <==>
              PointerAt(s, scope, table, PointerActive) == None || PointerAt(s, scope, table, PointerRetired) == None
    {
    }
  }

  /** The tables are read from the collection, by pointers that name the generation and operation that filled it. */
  ghost predicate ReadFrom(
    s: Store, scope: Scope, tables: set<string>, collection: string, operationId: string, generationId: string)
  {
    forall table :: table in tables ==>
      && ActiveCollection(s, scope.tenantId, scope.workspaceId, table) == collection
      && PointerAt(s, scope, table, PointerActive).Some?
      && PointerAt(s, scope, table, PointerActive).value.collectionName == collection
      && PointerAt(s, scope, table, PointerActive).value.operationId == operationId
      && PointerAt(s, scope, table, PointerActive).value.generationId == generationId
  }

  /** Once it goes through, the tables read the pointer's collection. */
  lemma ActivationSwitches(
    s: Store, scope: Scope, tables: set<string>, pointer: ReadPointer, proposed: map<AggregateKey, Checkpoint>)
    requires tables != {} && "" !in tables && ActivationAllowed(s, scope, tables) && CheckpointsValid(proposed)
    ensures var s' := AfterActivation(s, scope, tables, pointer, proposed);
            && s' == s.(pointers := s'.pointers, checkpoints := s'.checkpoints) && AdvancesCheckpoints(s, s', proposed)
            && ReadFrom(s', scope, tables, pointer.collectionName, pointer.operationId, pointer.generationId)
  {
    ActivationIs(s, scope, tables, pointer, proposed);
    var s' := AfterActivation(s, scope, tables, pointer, proposed);
    forall table | table in tables
      ensures ActiveCollection(s', scope.tenantId, scope.workspaceId, table) == pointer.collectionName
    {
      assert PointerAt(s', scope, table, PointerActive) == Some(pointer);
    }
  }
}
