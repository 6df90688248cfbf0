/**
  Rebuilds beside live traffic (rebuild.go, read_pointer.go): listings of the archive are staged one entry at a time,
  with live steps and stale redeliveries in between, and then the read pointers are switched. An operation may be taken
  up again after a crash, also when its pointers were switched already and readers use its collection.
 */
module ProjectionRebuild {
  import opened Common
  import opened ProjectionStore
  import opened ProjectionPipeline
  import opened ProjectionRefinement
  import opened ProjectionReplay

  // --------------------------------------------------------------- the switch

  /** The switch of the read pointers to a staged collection. */
  function AfterSwitch(
    s: Store, scope: Scope, tables: set<string>, pointer: ReadPointer, collection: string,
    latest: map<AggregateKey, Checkpoint>): Store
  {
    AfterActivation(s, scope, tables, pointer.(collectionName := collection), latest)
  }

  /** The switch takes effect, and the document is one of those it covers. */
  predicate SwitchCovers(
    s: Store, scope: Scope, tables: set<string>, latest: map<AggregateKey, Checkpoint>, d: DocumentKey)
  {
    && ActivationAllowed(s, scope, tables) && CheckpointsValid(latest)
    && d.tenantId == scope.tenantId && d.workspaceId == scope.workspaceId && d.tableId in tables && d.tableId != ""
  }

  /** After a switch a reader sees the staged document where the switch covers it, and what it saw before elsewhere. */
  lemma SwitchShows(
    s: Store, scope: Scope, tables: set<string>, pointer: ReadPointer, collection: string,
    latest: map<AggregateKey, Checkpoint>, d: DocumentKey)
    ensures Visible(AfterSwitch(s, scope, tables, pointer, collection, latest), d)
         == if SwitchCovers(s, scope, tables, latest, d) then Lookup(s.records, Address(collection, d))
            else Visible(s, d)
  {
    SwitchedView(s, scope, tables, pointer.(collectionName := collection), d.tenantId, d.workspaceId, d.tableId);
  }

  /** The documents of the scope in the collection are the live ones. */
  ghost predicate HoldsLive(s: Store, log: seq<Application>, scope: Scope, collection: string) {
    forall d: DocumentKey :: d.tenantId == scope.tenantId && d.workspaceId == scope.workspaceId ==>
      Content(Lookup(s.records, Address(collection, d))) == Content(LastWrite(log, d))
  }

  /**
    A switch at quiescence to such a collection changes nothing a reader or a later delivery can see: every document
    keeps its content, every checkpoint is as it was, and the store still follows the live history. Tables the switch
    does not cover are included.
   */
  lemma QuiescentSwitchKeepsView(
    source: Source, s: Store, log: seq<Application>, scope: Scope, entries: seq<ArchiveEntry>, collection: string,
    tables: set<string>, pointer: ReadPointer, latest: map<AggregateKey, Checkpoint>)
    requires StoreSafe(s, log) && StoreFollows(s, log) && StoreRouted(source, s) && LogRouted(source, log)
    requires UniqueVersions(source) && Lists(s, scope, entries) && Quiescent(s, scope) && AreLatest(entries, latest)
    requires HoldsLive(s, log, scope, collection)
    ensures var s' := AfterSwitch(s, scope, tables, pointer, collection, latest);
            && s' == s.(pointers := s'.pointers)
            && (forall d :: Content(Visible(s', d)) == Content(Visible(s, d)))
            && StoreFollows(s', log)
  {
    var s' := AfterSwitch(s, scope, tables, pointer, collection, latest);
    CheckpointsStay(source, s, log, scope, entries, latest);
    forall d ensures Content(Visible(s', d)) == Content(Visible(s, d)) == Content(LastWrite(log, d)) {
      SwitchShows(s, scope, tables, pointer, collection, latest, d);
      assert Content(Visible(s, d)) == Content(LastWrite(log, d));
    }
    CheckpointsFrame(s, s', log);
  }

  lemma ReplayFramed(source: Source, s: Store, s': Store, collection: string, events: set<Envelope>)
    requires HoldsReplayOf(source, s, collection, events)
    requires forall d :: Lookup(s'.records, Address(collection, d)) == Lookup(s.records, Address(collection, d))
    ensures HoldsReplayOf(source, s', collection, events)
  {
    forall d ensures StagedIsGreatest(source, s', collection, events, d) {
      assert StagedIsGreatest(source, s, collection, events, d);
      assert Lookup(s'.records, Address(collection, d)) == Lookup(s.records, Address(collection, d));
      if Lookup(s.records, Address(collection, d)).Some? {
        var e :| e in events && IsStagedImage(source, s, collection, events, d, e);
        assert IsStagedImage(source, s', collection, events, d, e);
      }
    }
  }

  // ------------------------------------------------ records of applied events

  /** The event of the application wrote the document, with this content. */
  predicate IsImageOf(x: Application, d: DocumentKey, r: Record) {
    DocumentOf(x.e, x.t) == d && Content(Some(r)) == Some(ImageOf(x.e, x.t, 0))
  }

  ghost predicate JustifiedAt(s: Store, log: seq<Application>, a: Address) {
    a in s.records ==> exists x :: x in log && IsImageOf(x, a.document, s.records[a])
  }

  /** Every record, in whatever collection, is the image of an event that was applied to its document. */
  ghost predicate RecordsJustified(s: Store, log: seq<Application>) {
    forall a: Address :: JustifiedAt(s, log, a)
  }

  /** No record disappears or gets a smaller record version. */
  ghost predicate NeverLess(s: Store, s': Store) {
    forall a: Address :: a in s.records ==>
      a in s'.records && s'.records[a].recordVersion >= s.records[a].recordVersion
  }

  /** The collection holds the document of the event with at least its record version. */
  predicate StagedAt(source: Source, s: Store, collection: string, e: Envelope) {
    && e in source.route
    && Address(collection, DocumentOf(e, source.route[e])) in s.records
    && s.records[Address(collection, DocumentOf(e, source.route[e]))].recordVersion >= source.route[e].recordVersion
  }

  /** What is applied is not beyond the checkpoint. */
  lemma AppliedIsReached(s: Store, log: seq<Application>, x: Application)
    requires CheckpointsFollow(s, log) && x in log
    ensures x.e.aggregateVersion <= VersionOf(s, AggregateOf(x.e, x.t.workspaceId))
  {
    var a := AggregateOf(x.e, x.t.workspaceId);
    assert AppliedInOrder(s, log, a);
    OfAggregateComplete(log, x);
    var i :| 0 <= i < |OfAggregate(log, a)| && OfAggregate(log, a)[i] == x;
  }

  /** The next event of an aggregate has a greater record version than any record of its document. */
  lemma NextIsGreater(source: Source, s: Store, log: seq<Application>, e: Envelope, a: Address)
    requires CheckpointsFollow(s, log) && LogRouted(source, log) && RecordVersionsIncrease(source)
    requires JustifiedAt(s, log, a) && a in s.records && Writes(source, e, a.document)
    requires e.aggregateVersion == VersionOf(s, AggregateIn(source, e)) + 1
    ensures s.records[a].recordVersion < source.route[e].recordVersion
  {
    var x :| x in log && IsImageOf(x, a.document, s.records[a]);
    assert Routed(source, x.e, x.t) && Writes(source, x.e, a.document);
    assert AggregateIn(source, x.e) == OwnerOf(a.document) == AggregateIn(source, e);
    AppliedIsReached(s, log, x);
  }

  lemma ApplyKeepsJustified(
    source: Source, s: Store, log: seq<Application>, row: InboxRow, e: Envelope, t: Target, now: int)
    requires CheckpointsFollow(s, log) && LogRouted(source, log) && RecordVersionsIncrease(source)
    requires RecordsJustified(s, log) && Routed(source, e, t) && ApplyOutcome(s, row, e, t) == Applied
    ensures RecordsJustified(AfterApply(s, row, e, t, now), log + [Application(e, t, now)])
    ensures NeverLess(s, AfterApply(s, row, e, t, now))
  {
    var s', x := AfterApply(s, row, e, t, now), Application(e, t, now);
    var written := Address(ActiveCollection(s, e.tenantId, t.workspaceId, t.tableId), DocumentOf(e, t));
    assert x in log + [x];
    forall a: Address ensures JustifiedAt(s', log + [x], a) {
      assert JustifiedAt(s, log, a);
      if a == written { assert IsImageOf(x, a.document, s'.records[a]); }
    }
    if written in s.records {
      assert JustifiedAt(s, log, written);
      NextIsGreater(source, s, log, e, written);
    }
  }

  /** What a live step leaves alone: pointers, the archive and what is applied. */
  ghost predicate LiveFrame(s: Store, s': Store) {
    s'.pointers == s.pointers && Grows(s, s') && NeverLess(s, s')
  }

  lemma LiveKeepsJustified(source: Source, w: World, step: Step)
    requires Sound(w) && FromSource(source, w) && RecordVersionsIncrease(source) && !IsRebuildStep(step)
    requires RecordsJustified(w.store, w.applied)
    ensures RecordsJustified(Next(w, step).store, Next(w, step).applied)
    ensures LiveFrame(w.store, Next(w, step).store)
  {
    match step
    case CommitApply(id, now, lost) =>
      if id in w.tasks && w.tasks[id].stage.Claiming? { CommitKeepsJustified(source, w, id, now, lost); }
    case _ =>
      QueueKeepsRecords(w, step);
      JustifiedFrame(w.store, Next(w, step).store, w.applied);
  }

  lemma CommitKeepsJustified(source: Source, w: World, id: nat, now: int, lost: bool)
    requires Sound(w) && FromSource(source, w) && RecordVersionsIncrease(source)
    requires RecordsJustified(w.store, w.applied) && id in w.tasks && w.tasks[id].stage.Claiming?
    ensures RecordsJustified(Commit(w, id, now, lost).store, Commit(w, id, now, lost).applied)
    ensures LiveFrame(w.store, Commit(w, id, now, lost).store)
  {
    var row, e, t := w.tasks[id].stage.row, w.tasks[id].delivery.message, w.tasks[id].stage.target;
    assert TaskRouted(source, w.tasks[id]);
    ApplyShape(w.store, row, e, t, now);
    ApplyGrows(w.store, row, e, t, now);
    if ApplyOutcome(w.store, row, e, t) == Applied {
      ApplyKeepsJustified(source, w.store, w.applied, row, e, t, now);
    } else {
      JustifiedFrame(w.store, AfterApply(w.store, row, e, t, now), w.applied);
    }
  }

  lemma JustifiedFrame(s: Store, s': Store, log: seq<Application>)
    requires RecordsJustified(s, log) && s'.records == s.records
    ensures RecordsJustified(s', log)
  {
    forall a: Address ensures JustifiedAt(s', log, a) { assert JustifiedAt(s, log, a); }
  }

  lemma QueueKeepsRecords(w: World, step: Step)
    requires !IsRebuildStep(step) && !step.CommitApply?
    ensures Next(w, step).store.records == w.store.records && Next(w, step).applied == w.applied
    ensures LiveFrame(w.store, Next(w, step).store)
  {
    match step
    case RouteAndArchive(id, routing, now) =>
      if id in w.tasks && w.tasks[id].stage == Received {
        var d := w.tasks[id].delivery;
        var archived, workspaceId := RouteShape(w, id, routing, now);
        ArchiveGrows(w.store, d.message, d.subject, workspaceId, now);
      }
    case ClaimInbox(id, now) =>
      if id in w.tasks && w.tasks[id].stage.Archived? {
        var d := w.tasks[id].delivery;
        ClaimGrows(w.store, d.message, d.subject, w.tasks[id].stage.target.workspaceId, now);
      }
    case _ =>
  }

  // ---------------------------------------------------------- staging at rest

  /**
    Staging an event that was applied changes no view, whatever collection it goes to: where readers use that
    collection, it shows the newest applied event, whose record version is at least as great.
   */
  lemma AppliedStagesUnseen(
    source: Source, s: Store, log: seq<Application>, collection: string, x: Application, now: int, d: DocumentKey)
    requires StoreSafe(s, log) && StoreFollows(s, log) && LogRouted(source, log)
    requires UniqueVersions(source) && RecordVersionsIncrease(source) && x in log
    ensures x.e in source.route
    ensures Visible(AfterStaging(s, collection, x.e, source.route[x.e], now), d) == Visible(s, d)
  {
    assert Routed(source, x.e, x.t);
    if DocumentOf(x.e, x.t) == d && ActiveCollection(s, d.tenantId, d.workspaceId, d.tableId) == collection {
      assert Content(Visible(s, d)) == Content(LastWrite(log, d));
      WrittenIsVisible(log, x);
      var newest := LastWriteIsNewest(source, s, log, d);
      assert Writes(source, x.e, d) && AggregateIn(source, x.e) == OwnerOf(d) == AggregateIn(source, newest.e);
      assert source.route[x.e].recordVersion <= source.route[newest.e].recordVersion;
    }
  }

  lemma StagingKeepsJustified(
    source: Source, s: Store, log: seq<Application>, collection: string, x: Application, now: int)
    requires RecordsJustified(s, log) && LogRouted(source, log) && x in log && x.e in source.route
    ensures var s' := AfterStaging(s, collection, x.e, source.route[x.e], now);
            RecordsJustified(s', log) && NeverLess(s, s') && StagedAt(source, s', collection, x.e)
  {
    assert Routed(source, x.e, x.t);
    var s' := AfterStaging(s, collection, x.e, source.route[x.e], now);
    forall a: Address ensures JustifiedAt(s', log, a) {
      assert JustifiedAt(s, log, a);
      if a in s'.records && (a !in s.records || s'.records[a] != s.records[a]) {
        assert IsImageOf(x, a.document, s'.records[a]);
      }
    }
  }

  /** A store in which only records moved, and none that is read. */
  lemma UnseenWritesKeepStore(source: Source, s: Store, s': Store, log: seq<Application>)
    requires StoreSafe(s, log) && StoreFollows(s, log) && StoreRouted(source, s)
    requires s' == s.(records := s'.records) && forall d :: Content(Visible(s', d)) == Content(Visible(s, d))
    ensures StoreSafe(s', log) && StoreFollows(s', log) && StoreRouted(source, s')
  {
    CheckpointsFrame(s, s', log);
    forall d ensures Content(Visible(s', d)) == Content(LastWrite(log, d)) {
      assert Content(Visible(s, d)) == Content(LastWrite(log, d));
    }
    RecordsAreApart(s, s', log);
  }

  lemma RecordsAreApart(s: Store, s': Store, log: seq<Application>)
    requires StoreSafe(s, log) && s' == s.(records := s'.records)
    ensures StoreSafe(s', log)
  {
    forall k | k in s'.inbox ensures RowJustified(s', k) { assert RowJustified(s, k); }
    forall i | 0 <= i < |log| ensures InInbox(s', log[i].e, log[i].t.workspaceId, true) {
      assert InInbox(s, log[i].e, log[i].t.workspaceId, true);
    }
  }

  /** Every event of a quiescent listing was applied. */
  lemma ListedWasApplied(
    source: Source, s: Store, log: seq<Application>, scope: Scope, entries: seq<ArchiveEntry>, entry: ArchiveEntry)
    returns (x: Application)
    requires StoreSafe(s, log) && StoreFollows(s, log) && StoreRouted(source, s) && LogRouted(source, log)
    requires UniqueVersions(source) && Lists(s, scope, entries) && Quiescent(s, scope) && entry in entries
    ensures x in log && x.e == entry.raw && Routed(source, x.e, x.t)
  {
    ListedIsApplied(source, s, log, scope, entries, entry);
    x :| x in OfAggregate(log, AggregateIn(source, entry.raw)) && x.e == entry.raw;
    OfAggregateSubset(log, AggregateIn(source, entry.raw));
  }

  /** Once every listed event is staged the collection holds the live documents of the scope, whatever it held. */
  lemma StagedIsLive(
    source: Source, s: Store, log: seq<Application>, scope: Scope, entries: seq<ArchiveEntry>, collection: string)
    requires StoreSafe(s, log) && StoreFollows(s, log) && StoreRouted(source, s) && LogRouted(source, log)
    requires UniqueVersions(source) && RecordVersionsIncrease(source) && RecordsJustified(s, log)
    requires Lists(s, scope, entries)
    requires forall i :: 0 <= i < |entries| ==> StagedAt(source, s, collection, entries[i].raw)
    ensures HoldsLive(s, log, scope, collection)
  {
    forall d: DocumentKey | d.tenantId == scope.tenantId && d.workspaceId == scope.workspaceId
      ensures Content(Lookup(s.records, Address(collection, d))) == Content(LastWrite(log, d))
    {
      StagedDocumentIsLive(source, s, log, scope, entries, collection, d);
    }
  }

  lemma StagedDocumentIsLive(
    source: Source, s: Store, log: seq<Application>, scope: Scope, entries: seq<ArchiveEntry>, collection: string,
    d: DocumentKey)
    requires StoreSafe(s, log) && StoreFollows(s, log) && StoreRouted(source, s) && LogRouted(source, log)
    requires UniqueVersions(source) && RecordVersionsIncrease(source) && RecordsJustified(s, log)
    requires Lists(s, scope, entries)
    requires forall i :: 0 <= i < |entries| ==> StagedAt(source, s, collection, entries[i].raw)
    requires d.tenantId == scope.tenantId && d.workspaceId == scope.workspaceId
    ensures Content(Lookup(s.records, Address(collection, d))) == Content(LastWrite(log, d))
  {
    var a := Address(collection, d);
    assert JustifiedAt(s, log, a);
    if a in s.records {
      var g :| g in log && IsImageOf(g, d, s.records[a]);
      assert Routed(source, g.e, g.t);
      WrittenIsVisible(log, g);
    }
    if LastWrite(log, d).Some? {
      var x := LastWriteIsNewest(source, s, log, d);
      assert Routed(source, x.e, x.t);
      WriteIsListed(source, s, log, scope, entries, x);
      var entry := RawsAreListed(entries, x.e);
      assert StagedAt(source, s, collection, x.e);
      var g :| g in log && IsImageOf(g, d, s.records[a]);
      assert Routed(source, g.e, g.t) && Writes(source, g.e, d);
      NewestIsGreatest(source, {x.e}, d, x.e, g.e);
    }
  }

  ghost predicate WasApplied(log: seq<Application>, e: Envelope) {
    exists x :: x in log && x.e == e
  }

  /** Only records have moved, none of them is read, each is justified, and the events are staged. */
  ghost predicate StagedUnseen(
    source: Source, s: Store, s': Store, log: seq<Application>, collection: string, events: seq<Envelope>)
  {
    && s' == s.(records := s'.records) && (forall d :: Visible(s', d) == Visible(s, d))
    && RecordsJustified(s', log) && (forall e :: e in events ==> StagedAt(source, s', collection, e))
  }

  lemma OneMoreStagesUnseen(
    source: Source, s: Store, before: Store, log: seq<Application>, collection: string, init: seq<Envelope>,
    e: Envelope, now: int)
    requires StoreSafe(s, log) && StoreFollows(s, log) && StoreRouted(source, s) && LogRouted(source, log)
    requires UniqueVersions(source) && RecordVersionsIncrease(source)
    requires StagedUnseen(source, s, before, log, collection, init) && e in source.route && WasApplied(log, e)
    ensures StagedUnseen(source, s, AfterStaging(before, collection, e, source.route[e], now), log, collection,
                         init + [e])
  {
    var x :| x in log && x.e == e;
    UnseenWritesKeepStore(source, s, before, log);
    OneApplicationUnseen(source, s, before, log, collection, init, x, now);
  }

  lemma OneApplicationUnseen(
    source: Source, s: Store, before: Store, log: seq<Application>, collection: string, init: seq<Envelope>,
    x: Application, now: int)
    requires StoreSafe(before, log) && StoreFollows(before, log) && LogRouted(source, log)
    requires UniqueVersions(source) && RecordVersionsIncrease(source)
    requires StagedUnseen(source, s, before, log, collection, init) && x in log && x.e in source.route
    ensures StagedUnseen(source, s, AfterStaging(before, collection, x.e, source.route[x.e], now), log, collection,
                         init + [x.e])
  {
    var s' := AfterStaging(before, collection, x.e, source.route[x.e], now);
    forall d ensures Visible(s', d) == Visible(s, d) {
      AppliedStagesUnseen(source, before, log, collection, x, now, d);
    }
    StagingKeepsJustified(source, before, log, collection, x, now);
    forall e | e in init + [x.e] ensures StagedAt(source, s', collection, e) {
      if e in init { assert StagedAt(source, before, collection, e); }
    }
  }

  /** A replay of applied events, into whatever collection, changes no view and leaves every one of them staged. */
  lemma {:induction false} AppliedReplaysUnseen(
    source: Source, s: Store, log: seq<Application>, collection: string, events: seq<Envelope>, now: int)
    requires StoreSafe(s, log) && StoreFollows(s, log) && StoreRouted(source, s) && LogRouted(source, log)
    requires UniqueVersions(source) && RecordVersionsIncrease(source) && RecordsJustified(s, log)
    requires forall e :: e in events ==> e in source.route && WasApplied(log, e)
    ensures StagedUnseen(source, s, Replay(source, s, collection, events, now), log, collection, events)
    decreases |events|
  {
    if events != [] {
      var init, e := events[..|events| - 1], Last(events);
      assert events == init + [e] && e in events;
      AppliedReplaysUnseen(source, s, log, collection, init, now);
      OneMoreStagesUnseen(source, s, Replay(source, s, collection, init, now), log, collection, init, e, now);
    }
  }

  /**
    The replay of a listing at rest leaves the live documents of the scope in the collection, whatever the collection
    held and whoever reads it, and changes no view.
   */
  lemma RestReplaysUnseen(
    source: Source, s: Store, log: seq<Application>, scope: Scope, entries: seq<ArchiveEntry>, collection: string,
    now: int)
    requires StoreSafe(s, log) && StoreFollows(s, log) && StoreRouted(source, s) && LogRouted(source, log)
    requires UniqueVersions(source) && RecordVersionsIncrease(source) && RecordsJustified(s, log)
    requires Lists(s, scope, entries) && Quiescent(s, scope)
    ensures forall e :: e in Raws(entries) ==> e in source.route
    ensures var s' := Replay(source, s, collection, Raws(entries), now);
            && s' == s.(records := s'.records) && (forall d :: Visible(s', d) == Visible(s, d))
            && RecordsJustified(s', log) && HoldsLive(s', log, scope, collection)
  {
    forall e | e in Raws(entries) ensures e in source.route && WasApplied(log, e) {
      var entry := RawsAreListed(entries, e);
      var x := ListedWasApplied(source, s, log, scope, entries, entry);
    }
    AppliedReplaysUnseen(source, s, log, collection, Raws(entries), now);
    var s' := Replay(source, s, collection, Raws(entries), now);
    UnseenWritesKeepStore(source, s, s', log);
    forall i | 0 <= i < |entries| ensures StagedAt(source, s', collection, entries[i].raw) {
      assert Raws(entries)[i] == entries[i].raw;
    }
    StagedIsLive(source, s', log, scope, entries, collection);
  }

  // --------------------------------------------- live steps beside rebuilds

  /** An operation's attempt: what it listed, and how far it has staged it. */
  datatype Attempt = Attempt(scope: Scope, collection: string, entries: seq<ArchiveEntry>, done: nat)

  /** Any number of attempts at once, each under a number of its own. */
  datatype Joint = Joint(world: World, attempts: map<nat, Attempt>)

  datatype Action =
    | Live(step: Step)
    | List(id: nat, scope: Scope, collection: string, entries: seq<ArchiveEntry>)
    | StageNext(id: nat, now: int)
    | Switch(id: nat, tables: set<string>, pointer: ReadPointer, again: seq<ArchiveEntry>,
             latest: map<AggregateKey, Checkpoint>)
    | Abandon(id: nat)

  predicate CanStage(source: Source, j: Joint, id: nat) {
    id in j.attempts && j.attempts[id].done < |j.attempts[id].entries|
    && j.attempts[id].entries[j.attempts[id].done].raw in source.route
  }

  predicate CanSwitch(j: Joint, id: nat) {
    id in j.attempts && j.attempts[id].done == |j.attempts[id].entries|
  }

  function StageOne(source: Source, j: Joint, id: nat, now: int): Joint
    requires CanStage(source, j, id)
  {
    var a := j.attempts[id];
    var e := a.entries[a.done].raw;
    Joint(Next(j.world, StageRecord(a.collection, e, source.route[e], now)),
          j.attempts[id := a.(done := a.done + 1)])
  }

  /**
    An action that is not enabled changes nothing. A crash or a failure abandons an attempt. A restart lists again, for
    the same collection, whether or not an earlier attempt had switched to it.
   */
  function Act(source: Source, j: Joint, action: Action): Joint {
    match action
    case Live(step) => j.(world := Next(j.world, step))
    case List(id, scope, collection, entries) =>
      if id in j.attempts then j else j.(attempts := j.attempts[id := Attempt(scope, collection, entries, 0)])
    case StageNext(id, now) => if CanStage(source, j, id) then StageOne(source, j, id, now) else j
    case Switch(id, tables, pointer, again, latest) =>
      if CanSwitch(j, id)
      then Joint(Next(j.world, Activation(j.attempts[id], tables, pointer, latest)), j.attempts - {id})
      else j
    case Abandon(id) => j.(attempts := j.attempts - {id})
  }

  function Activation(
    a: Attempt, tables: set<string>, pointer: ReadPointer, latest: map<AggregateKey, Checkpoint>): Step
  {
    ActivatePointers(a.scope, tables, pointer.(collectionName := a.collection), latest)
  }

  function RunActions(source: Source, actions: seq<Action>): Joint
    decreases |actions|
  {
    if actions == [] then Joint(Genesis, map[])
    else Act(source, RunActions(source, actions[..|actions| - 1]), Last(actions))
  }

  /** The step archives nothing new in the scope. Redeliveries of what is archived, and all other scopes, go on. */
  ghost predicate ArchivesNothingNew(w: World, step: Step, scope: Scope) {
    var after := Next(w, step).store.archive;
    forall k :: k in after && InScope(scope, after[k]) ==> k in w.store.archive
  }

  /**
    The action is as the code takes it: live steps follow the mapping generation, and both listings hold the scope's
    archive of the moment. Nothing is asked of the collection.
   */
  ghost predicate Taken(source: Source, j: Joint, action: Action) {
    match action
    case Live(step) => !IsRebuildStep(step) && Admissible(source, j.world, step)
    case List(_, scope, _, entries) => Lists(j.world.store, scope, entries)
    case Switch(id, _, _, again, latest) =>
      id in j.attempts ==> Lists(j.world.store, j.attempts[id].scope, again) && AreLatest(again, latest)
    case _ => true
  }

  /** A scope is at rest when its archive is listed, and archives nothing new while it is staged. */
  ghost predicate AtRest(j: Joint, action: Action) {
    match action
    case Live(step) => forall id :: id in j.attempts ==> ArchivesNothingNew(j.world, step, j.attempts[id].scope)
    case List(_, scope, _, _) => Quiescent(j.world.store, scope)
    case _ => true
  }

  ghost predicate Allowed(source: Source, j: Joint, action: Action) {
    Taken(source, j, action) && AtRest(j, action)
  }

  /** Every action of the run is as the code takes it. */
  ghost predicate TakenRun(source: Source, actions: seq<Action>)
    decreases |actions|
  {
    actions == []
    || (TakenRun(source, actions[..|actions| - 1])
        && Taken(source, RunActions(source, actions[..|actions| - 1]), Last(actions)))
  }

  ghost predicate AllowedRun(source: Source, actions: seq<Action>)
    decreases |actions|
  {
    actions == []
    || (AllowedRun(source, actions[..|actions| - 1])
        && Allowed(source, RunActions(source, actions[..|actions| - 1]), Last(actions)))
  }

  // ----------------------------------------------------------- the invariant

  ghost predicate AttemptSound(source: Source, s: Store, a: Attempt) {
    && Lists(s, a.scope, a.entries) && Quiescent(s, a.scope) && a.done <= |a.entries|
    && forall i :: 0 <= i < a.done ==> StagedAt(source, s, a.collection, a.entries[i].raw)
  }

  ghost predicate AttemptsSound(source: Source, j: Joint) {
    forall id :: id in j.attempts ==> AttemptSound(source, j.world.store, j.attempts[id])
  }

  ghost predicate JointSound(source: Source, j: Joint) {
    && Sound(j.world) && FromSource(source, j.world) && RecordsJustified(j.world.store, j.world.applied)
    && AttemptsSound(source, j)
  }

  /** An attempt stays sound while records only grow, rows stay applied and the archive gains nothing in its scope. */
  lemma AttemptFramed(source: Source, s: Store, s': Store, a: Attempt)
    requires AttemptSound(source, s, a) && Grows(s, s') && NeverLess(s, s')
    requires forall k :: k in s'.archive && InScope(a.scope, s'.archive[k]) ==> k in s.archive
    ensures AttemptSound(source, s', a)
  {
    forall k | k in s'.archive && InScope(a.scope, s'.archive[k])
      ensures s'.archive[k] in a.entries && RowIsApplied(s', s'.archive[k].raw)
    {
      assert s.archive[k] == s'.archive[k] && RowIsApplied(s, s.archive[k].raw);
    }
    forall i | 0 <= i < a.done ensures StagedAt(source, s', a.collection, a.entries[i].raw) {
      assert StagedAt(source, s, a.collection, a.entries[i].raw);
    }
  }

  lemma LiveKeepsJoint(source: Source, j: Joint, step: Step)
    requires JointSound(source, j) && RecordVersionsIncrease(source) && Allowed(source, j, Live(step))
    ensures JointSound(source, Act(source, j, Live(step)))
  {
    NextIsSafe(j.world, step);
    NextFromSource(source, j.world, step);
    LiveKeepsJustified(source, j.world, step);
    forall id | id in j.attempts ensures AttemptSound(source, Next(j.world, step).store, j.attempts[id]) {
      assert ArchivesNothingNew(j.world, step, j.attempts[id].scope);
      AttemptFramed(source, j.world.store, Next(j.world, step).store, j.attempts[id]);
    }
  }

  lemma StagedWorldIsSound(source: Source, w: World, collection: string, x: Application, now: int)
    requires Sound(w) && FromSource(source, w) && RecordsJustified(w.store, w.applied) && x in w.applied
    requires UniqueVersions(source) && RecordVersionsIncrease(source)
    ensures x.e in source.route
    ensures var w' := Next(w, StageRecord(collection, x.e, source.route[x.e], now));
            && Sound(w') && FromSource(source, w') && w'.applied == w.applied
            && w'.store == w.store.(records := w'.store.records)
  {
    assert Routed(source, x.e, x.t);
    var w' := Next(w, StageRecord(collection, x.e, source.route[x.e], now));
    forall d ensures Content(Visible(w'.store, d)) == Content(Visible(w.store, d)) {
      AppliedStagesUnseen(source, w.store, w.applied, collection, x, now, d);
    }
    UnseenWritesKeepStore(source, w.store, w'.store, w.applied);
    BookkeepingFrame(w, w');
  }

  /** Staging keeps every attempt sound, and the one that stages is one entry further. */
  lemma StagingKeepsAttempts(source: Source, j: Joint, id: nat, now: int)
    requires AttemptsSound(source, j) && CanStage(source, j, id)
    requires var j' := StageOne(source, j, id, now);
             && j'.world.store == j.world.store.(records := j'.world.store.records)
             && NeverLess(j.world.store, j'.world.store)
             && StagedAt(source, j'.world.store, j.attempts[id].collection,
                         j.attempts[id].entries[j.attempts[id].done].raw)
    ensures AttemptsSound(source, StageOne(source, j, id, now))
  {
    var j' := StageOne(source, j, id, now);
    forall other | other in j.attempts ensures AttemptSound(source, j'.world.store, j.attempts[other]) {
      AttemptFramed(source, j.world.store, j'.world.store, j.attempts[other]);
    }
    assert AttemptSound(source, j'.world.store, j.attempts[id]);
  }

  lemma StageKeepsJoint(source: Source, j: Joint, id: nat, now: int)
    requires JointSound(source, j) && UniqueVersions(source) && RecordVersionsIncrease(source)
    requires CanStage(source, j, id)
    ensures JointSound(source, StageOne(source, j, id, now))
  {
    StageKeepsWorld(source, j, id, now);
    StagingKeepsAttempts(source, j, id, now);
  }

  lemma StageKeepsWorld(source: Source, j: Joint, id: nat, now: int)
    requires JointSound(source, j) && UniqueVersions(source) && RecordVersionsIncrease(source)
    requires CanStage(source, j, id)
    ensures var w' := StageOne(source, j, id, now).world;
            && Sound(w') && FromSource(source, w') && RecordsJustified(w'.store, w'.applied)
            && w'.store == j.world.store.(records := w'.store.records) && NeverLess(j.world.store, w'.store)
            && StagedAt(source, w'.store, j.attempts[id].collection,
                        j.attempts[id].entries[j.attempts[id].done].raw)
  {
    var x := NextEntryWasApplied(source, j, id);
    StagingKeepsWorld(source, j.world, j.attempts[id].collection, x, now);
  }

  lemma NextEntryWasApplied(source: Source, j: Joint, id: nat) returns (x: Application)
    requires JointSound(source, j) && UniqueVersions(source) && CanStage(source, j, id)
    ensures x in j.world.applied && x.e == j.attempts[id].entries[j.attempts[id].done].raw
  {
    var a, w := j.attempts[id], j.world;
    assert AttemptSound(source, w.store, a);
    x := ListedWasApplied(source, w.store, w.applied, a.scope, a.entries, a.entries[a.done]);
  }

  lemma StagingKeepsWorld(source: Source, w: World, collection: string, x: Application, now: int)
    requires Sound(w) && FromSource(source, w) && RecordsJustified(w.store, w.applied) && x in w.applied
    requires UniqueVersions(source) && RecordVersionsIncrease(source)
    ensures x.e in source.route
    ensures var w' := Next(w, StageRecord(collection, x.e, source.route[x.e], now));
            && Sound(w') && FromSource(source, w') && RecordsJustified(w'.store, w'.applied)
            && w'.store == w.store.(records := w'.store.records) && NeverLess(w.store, w'.store)
            && StagedAt(source, w'.store, collection, x.e)
  {
    StagedWorldIsSound(source, w, collection, x, now);
    StagingKeepsJustified(source, w.store, w.applied, collection, x, now);
  }

  lemma SwitchKeepsJoint(source: Source, j: Joint, action: Action)
    requires JointSound(source, j) && UniqueVersions(source) && RecordVersionsIncrease(source)
    requires action.Switch? && Allowed(source, j, action) && CanSwitch(j, action.id)
    ensures JointSound(source, Act(source, j, action))
  {
    var a, s, w' := j.attempts[action.id], j.world.store, Act(source, j, action).world;
    assert AttemptSound(source, s, a);
    StagedIsLive(source, s, j.world.applied, a.scope, a.entries, a.collection);
    QuiescentSwitchKeepsView(source, s, j.world.applied, a.scope, action.again, a.collection, action.tables,
                             action.pointer, action.latest);
    BookkeepingFrame(j.world, w');
    JustifiedFrame(s, w'.store, j.world.applied);
    forall id | id in j.attempts ensures AttemptSound(source, w'.store, j.attempts[id]) {
      AttemptFramed(source, s, w'.store, j.attempts[id]);
    }
  }

  /** Whatever was allowed keeps the live projection and every attempt sound together. */
  lemma ActKeepsJoint(source: Source, j: Joint, action: Action)
    requires JointSound(source, j) && UniqueVersions(source) && RecordVersionsIncrease(source)
    requires Allowed(source, j, action)
    ensures JointSound(source, Act(source, j, action))
  {
    match action
    case Live(step) => LiveKeepsJoint(source, j, step);
    case List(_, _, _, _) =>
    case StageNext(id, now) => if CanStage(source, j, id) { StageKeepsJoint(source, j, id, now); }
    case Switch(id, _, _, _, _) => if CanSwitch(j, id) { SwitchKeepsJoint(source, j, action); }
    case Abandon(_) =>
  }

  lemma {:induction false} AllowedRunIsSound(source: Source, actions: seq<Action>)
    requires AllowedRun(source, actions) && UniqueVersions(source) && RecordVersionsIncrease(source)
    ensures JointSound(source, RunActions(source, actions))
    decreases |actions|
  {
    if actions == [] {
      GenesisIsSound();
    } else {
      AllowedRunIsSound(source, actions[..|actions| - 1]);
      ActKeepsJoint(source, RunActions(source, actions[..|actions| - 1]), Last(actions));
    }
  }

  /**
    The refinement with rebuilds. Any number of scopes are staged entry by entry, in whatever collections, also in those
    that readers use; attempts fail and crash at any point, also between the switch and the save of success, and are
    taken up again; live steps of other scopes and redeliveries of archived messages go on in between, and pointers are
    switched. At every moment of every such run an aggregate at version v shows the in-order fold of events 1 to v of
    its history.
   */
  lemma RebuildsAreInvisible(source: Source, actions: seq<Action>, a: AggregateKey, history: seq<Envelope>)
    requires AllowedRun(source, actions) && UniqueVersions(source) && RecordVersionsIncrease(source)
    requires IsHistory(source, a, history) && VersionOf(RunActions(source, actions).world.store, a) <= |history|
    ensures var w := RunActions(source, actions).world;
            var v := VersionOf(w.store, a);
            && 0 <= v && EventsOf(OfAggregate(w.applied, a)) == history[..v]
            && (forall d :: OwnerOf(d) == a ==> Content(Visible(w.store, d)) == FoldInOrder(source, history[..v], d))
            && ShowsHistory(source, w.store, history[..v], a)
            && (v > 0 ==> ShowsEvent(w.store, history[v - 1], source.route[history[v - 1]]))
  {
    AllowedRunIsSound(source, actions);
    var w := RunActions(source, actions).world;
    StoreIsInOrderFold(source, w.store, w.applied, a, history);
    StoreShowsLatest(source, w.store, w.applied, a, history);
  }

  // -------------------------------------------------- an attempt, as actions

  /** List the archive and stage the first n entries. */
  function AttemptActions(
    id: nat, scope: Scope, collection: string, entries: seq<ArchiveEntry>, n: nat, now: int): seq<Action>
  {
    [List(id, scope, collection, entries)] + seq(n, _ => StageNext(id, now))
  }

  lemma RunActionsAppend(source: Source, actions: seq<Action>, action: Action)
    ensures RunActions(source, actions + [action]) == Act(source, RunActions(source, actions), action)
  {
    assert (actions + [action])[..|actions|] == actions;
  }

  /** The first n entries of a listing are staged on top of a world. */
  ghost predicate StagedSoFar(source: Source, j: Joint, before: World, id: nat, a: Attempt, now: int) {
    && a.done <= |a.entries| && (forall e :: e in Raws(a.entries[..a.done]) ==> e in source.route)
    && j.world == before.(store := Replay(source, before.store, a.collection, Raws(a.entries[..a.done]), now))
    && id in j.attempts && j.attempts[id] == a
  }

  lemma RawsGrow(entries: seq<ArchiveEntry>, n: nat)
    requires n < |entries|
    ensures Raws(entries[..n + 1]) == Raws(entries[..n]) + [entries[n].raw]
    ensures Raws(entries[..n + 1])[..n] == Raws(entries[..n])
  {
  }

  lemma StageNextStages(source: Source, j: Joint, before: World, id: nat, a: Attempt, now: int)
    requires StagedSoFar(source, j, before, id, a, now)
    requires a.done < |a.entries| && a.entries[a.done].raw in source.route
    ensures StagedSoFar(source, Act(source, j, StageNext(id, now)), before, id, a.(done := a.done + 1), now)
  {
    RawsGrow(a.entries, a.done);
  }

  lemma ListStages(
    source: Source, j: Joint, id: nat, scope: Scope, collection: string, entries: seq<ArchiveEntry>, now: int)
    requires id !in j.attempts
    ensures StagedSoFar(source, Act(source, j, List(id, scope, collection, entries)), j.world, id,
                        Attempt(scope, collection, entries, 0), now)
  {
  }

  lemma AttemptGrows(
    actions: seq<Action>, id: nat, scope: Scope, collection: string, entries: seq<ArchiveEntry>, n: nat, now: int)
    ensures actions + AttemptActions(id, scope, collection, entries, n + 1, now)
         == (actions + AttemptActions(id, scope, collection, entries, n, now)) + [StageNext(id, now)]
  {
  }

  /** What the actions of an attempt stage is the replay of the entries it got through. */
  lemma {:induction false} AttemptStages(
    source: Source, actions: seq<Action>, id: nat, scope: Scope, collection: string, entries: seq<ArchiveEntry>,
    n: nat, now: int)
    requires n <= |entries| && id !in RunActions(source, actions).attempts
    requires forall i :: 0 <= i < n ==> entries[i].raw in source.route
    ensures StagedSoFar(source, RunActions(source, actions + AttemptActions(id, scope, collection, entries, n, now)),
                        RunActions(source, actions).world, id, Attempt(scope, collection, entries, n), now)
    decreases n
  {
    var before := RunActions(source, actions);
    if n == 0 {
      assert AttemptActions(id, scope, collection, entries, 0, now) == [List(id, scope, collection, entries)];
      RunActionsAppend(source, actions, List(id, scope, collection, entries));
      ListStages(source, before, id, scope, collection, entries, now);
    } else {
      AttemptStages(source, actions, id, scope, collection, entries, n - 1, now);
      var shorter := actions + AttemptActions(id, scope, collection, entries, n - 1, now);
      AttemptGrows(actions, id, scope, collection, entries, n - 1, now);
      RunActionsAppend(source, shorter, StageNext(id, now));
      StageNextStages(source, RunActions(source, shorter), before.world, id,
                      Attempt(scope, collection, entries, n - 1), now);
    }
  }

  lemma SwitchSwitches(source: Source, j: Joint, action: Action)
    requires action.Switch? && CanSwitch(j, action.id)
    ensures var a := j.attempts[action.id];
            && Act(source, j, action).world.store
               == AfterSwitch(j.world.store, a.scope, action.tables, action.pointer, a.collection, action.latest)
            && Act(source, j, action).attempts == j.attempts - {action.id}
  {
  }

  /** An attempt that goes through is the machine's listing, staging of every entry, and switch. */
  lemma AttemptSwitches(
    source: Source, actions: seq<Action>, scope: Scope, collection: string, entries: seq<ArchiveEntry>, now: int,
    switch: Action)
    requires switch.Switch? && switch.id !in RunActions(source, actions).attempts
    requires forall i :: 0 <= i < |entries| ==> entries[i].raw in source.route
    ensures forall e :: e in Raws(entries) ==> e in source.route
    ensures var before := RunActions(source, actions).world.store;
            var attempt := AttemptActions(switch.id, scope, collection, entries, |entries|, now);
            RunActions(source, actions + (attempt + [switch])).world.store
            == AfterSwitch(Replay(source, before, collection, Raws(entries), now), scope, switch.tables, switch.pointer,
                           collection, switch.latest)
  {
    var attempt := AttemptActions(switch.id, scope, collection, entries, |entries|, now);
    AttemptStages(source, actions, switch.id, scope, collection, entries, |entries|, now);
    assert entries[..|entries|] == entries;
    assert actions + (attempt + [switch]) == (actions + attempt) + [switch];
    RunActionsAppend(source, actions + attempt, switch);
    SwitchSwitches(source, RunActions(source, actions + attempt), switch);
  }
}
