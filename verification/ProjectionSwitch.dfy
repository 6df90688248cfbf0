/**
  What a switch of the read pointers does when a rebuild is not alone with its scope, and how often a table can be
  switched (rebuild.go, read_pointer.go).
 */
module ProjectionSwitch {
  import opened Common
  import opened ProjectionStore
  import opened ProjectionPipeline
  import opened ProjectionRefinement
  import opened ProjectionReplay
  import opened ProjectionRebuild

  // ------------------------------------------------------ what readers see

  /** The event behind the last write to a document. */
  function NewestEvent(log: seq<Application>, d: DocumentKey): Option<Envelope>
    decreases |log|
  {
    if log == [] then None
    else if DocumentOf(Last(log).e, Last(log).t) == d then Some(Last(log).e)
    else NewestEvent(log[..|log| - 1], d)
  }

  lemma {:induction false} NewestEventIsLast(log: seq<Application>, d: DocumentKey) returns (x: Application)
    requires NewestEvent(log, d).Some?
    ensures x in log && NewestEvent(log, d) == Some(x.e) && DocumentOf(x.e, x.t) == d
    ensures LastWrite(log, d) == Some(ImageOf(x.e, x.t, x.now))
    decreases |log|
  {
    x := Last(log);
    if DocumentOf(Last(log).e, Last(log).t) != d {
      x := NewestEventIsLast(log[..|log| - 1], d);
    }
  }

  lemma {:induction false} NoNewestNoWrite(log: seq<Application>, d: DocumentKey)
    ensures NewestEvent(log, d).None? <==> LastWrite(log, d).None?
    decreases |log|
  {
    if log != [] { NoNewestNoWrite(log[..|log| - 1], d); }
  }

  /**
    The staged events leave a document as it is: they contain the event behind its last live write and none that writes
    it with a greater record version; or nothing wrote it, live or staged.
   */
  ghost predicate StagedLeaves(source: Source, log: seq<Application>, staged: set<Envelope>, d: DocumentKey) {
    match NewestEvent(log, d)
    case None => forall e :: e in staged ==> !Writes(source, e, d)
    case Some(x) =>
      && x in staged && x in source.route
      && forall e :: e in staged && Writes(source, e, d) ==>
           source.route[e].recordVersion <= source.route[x].recordVersion
  }

  /** One event of an aggregate for each version: two events of one document with equal images are one event. */
  lemma ImagesDiffer(source: Source, e: Envelope, f: Envelope, d: DocumentKey)
    requires UniqueVersions(source) && Writes(source, e, d) && Writes(source, f, d)
    requires ImageOf(e, source.route[e], 0) == ImageOf(f, source.route[f], 0)
    ensures e == f
  {
    assert AggregateIn(source, e) == OwnerOf(d) == AggregateIn(source, f);
  }

  lemma GreatestIsOne(source: Source, e: Envelope, f: Envelope, d: DocumentKey)
    requires UniqueVersions(source) && RecordVersionsIncrease(source) && Writes(source, e, d) && Writes(source, f, d)
    requires source.route[e].recordVersion == source.route[f].recordVersion
    ensures e == f
  {
    assert AggregateIn(source, e) == OwnerOf(d) == AggregateIn(source, f);
  }

  /** The staged document equals the live one exactly when the staged events leave it as it is. */
  lemma StagedAgreesIff(
    source: Source, s: Store, log: seq<Application>, collection: string, staged: set<Envelope>, d: DocumentKey)
    requires LogRouted(source, log) && UniqueVersions(source) && RecordVersionsIncrease(source)
    requires HoldsReplayOf(source, s, collection, staged)
    ensures Content(Lookup(s.records, Address(collection, d))) == Content(LastWrite(log, d))
            <==> StagedLeaves(source, log, staged, d)
  {
    assert StagedIsGreatest(source, s, collection, staged, d);
    NoNewestNoWrite(log, d);
    if NewestEvent(log, d).Some? {
      var z := NewestEventIsLast(log, d);
      assert Routed(source, z.e, z.t) && Writes(source, z.e, d);
      assert Content(LastWrite(log, d)) == Some(ImageOf(z.e, source.route[z.e], 0));
      StagedIsNewestIff(source, s, collection, staged, d, z.e);
    } else if Lookup(s.records, Address(collection, d)).Some? {
      var g :| g in staged && IsStagedImage(source, s, collection, staged, d, g);
    }
  }

  lemma StagedIsNewestIff(
    source: Source, s: Store, collection: string, staged: set<Envelope>, d: DocumentKey, x: Envelope)
    requires UniqueVersions(source) && RecordVersionsIncrease(source) && Writes(source, x, d)
    requires StagedIsGreatest(source, s, collection, staged, d)
    ensures Content(Lookup(s.records, Address(collection, d))) == Some(ImageOf(x, source.route[x], 0)) <==>
            && x in staged
            && forall e :: e in staged && Writes(source, e, d) ==>
                 source.route[e].recordVersion <= source.route[x].recordVersion
  {
    if Lookup(s.records, Address(collection, d)).Some? {
      var g :| g in staged && IsStagedImage(source, s, collection, staged, d, g);
      if Content(Lookup(s.records, Address(collection, d))) == Some(ImageOf(x, source.route[x], 0)) {
        ImagesDiffer(source, g, x, d);
      }
      if x in staged && source.route[g].recordVersion <= source.route[x].recordVersion {
        GreatestIsOne(source, g, x, d);
      }
    }
  }

  /**
    What quiescence is for. A collection holds the replay of some listing, and the pointers switch to it at any later
    moment: events may have been archived or applied since, and listed ones may not have been applied at all. A document
    reads as before exactly when the switch does not cover it, or the staged events leave it as it is.
   */
  lemma LateEventsDecideTheView(
    source: Source, s: Store, log: seq<Application>, scope: Scope, collection: string, staged: set<Envelope>,
    tables: set<string>, pointer: ReadPointer, latest: map<AggregateKey, Checkpoint>, d: DocumentKey)
    requires StoreFollows(s, log) && LogRouted(source, log) && UniqueVersions(source) && RecordVersionsIncrease(source)
    requires HoldsReplayOf(source, s, collection, staged)
    ensures Content(Visible(AfterSwitch(s, scope, tables, pointer, collection, latest), d))
            == Content(Visible(s, d)) <==>
            !SwitchCovers(s, scope, tables, latest, d) || StagedLeaves(source, log, staged, d)
  {
    SwitchShows(s, scope, tables, pointer, collection, latest, d);
    assert Content(Visible(s, d)) == Content(LastWrite(log, d));
    StagedAgreesIff(source, s, log, collection, staged, d);
  }

  /** A staged document equals the live one exactly when the first top of what was staged is the newest live event. */
  lemma FirstTopAgreesIff(
    source: Source, s: Store, log: seq<Application>, collection: string, staged: seq<Envelope>, d: DocumentKey)
    requires LogRouted(source, log) && UniqueVersions(source)
    requires Content(Lookup(s.records, Address(collection, d))) == FirstImage(source, staged, d)
    ensures Content(Lookup(s.records, Address(collection, d))) == Content(LastWrite(log, d))
            <==> FirstTop(source, staged, d) == NewestEvent(log, d)
  {
    NoNewestNoWrite(log, d);
    if NewestEvent(log, d).Some? {
      var z := NewestEventIsLast(log, d);
      assert Routed(source, z.e, z.t) && Writes(source, z.e, d);
      assert Content(LastWrite(log, d)) == Some(ImageOf(z.e, source.route[z.e], 0));
      if FirstImage(source, staged, d) == Content(LastWrite(log, d)) {
        ImagesDiffer(source, FirstTop(source, staged, d).value, z.e, d);
      }
    }
  }

  /**
    The same for a replay followed by the switch, without any hypothesis on record versions or on who uses the
    collection; the listing is replayed on top of what the collection holds. A document reads as before exactly when it
    is read elsewhere and the switch does not cover it, or the first of the staged events with the greatest record
    version is the one behind the last live write.
   */
  lemma ListingDecidesTheView(
    source: Source, s: Store, log: seq<Application>, scope: Scope, earlier: seq<Envelope>, listed: seq<Envelope>,
    collection: string, tables: set<string>, pointer: ReadPointer, latest: map<AggregateKey, Checkpoint>, now: int,
    d: DocumentKey)
    requires StoreFollows(s, log) && LogRouted(source, log) && UniqueVersions(source)
    requires forall e :: e in listed ==> e in source.route
    requires Content(Lookup(s.records, Address(collection, d))) == FirstImage(source, earlier, d)
    ensures var s' := AfterSwitch(Replay(source, s, collection, listed, now), scope, tables, pointer, collection,
                                  latest);
            Content(Visible(s', d)) == Content(Visible(s, d)) <==>
            (!ReadsFrom(s, d, collection) && !SwitchCovers(s, scope, tables, latest, d))
            || FirstTop(source, earlier + listed, d) == NewestEvent(log, d)
  {
    var r := Replay(source, s, collection, listed, now);
    ReplayShowsFirstTop(source, s, collection, earlier, listed, now, d);
    ReplayFrame(source, s, collection, listed, now);
    SwitchShows(r, scope, tables, pointer, collection, latest, d);
    assert Content(Visible(s, d)) == Content(LastWrite(log, d));
    FirstTopAgreesIff(source, r, log, collection, earlier + listed, d);
  }

  /** Readers and live writers find the document in this collection. */
  predicate ReadsFrom(s: Store, d: DocumentKey, collection: string) {
    ActiveCollection(s, d.tenantId, d.workspaceId, d.tableId) == collection
  }

  /**
    Staged records are meant to become visible with the pointers only. Staging an entry changes what a document shows
    exactly when the document is read from the staging collection, as after a switch whose operation is taken up again,
    and holds no record there, or one with a smaller record version. By AppliedStagesUnseen that takes an event that was
    not applied.
   */
  lemma StagingShowsIff(s: Store, collection: string, e: Envelope, t: Target, now: int, d: DocumentKey)
    ensures Content(Visible(AfterStaging(s, collection, e, t, now), d)) != Content(Visible(s, d)) <==>
            && DocumentOf(e, t) == d && ReadsFrom(s, d, collection)
            && (Visible(s, d).Some? ==> Visible(s, d).value.recordVersion < t.recordVersion)
  {
    var a := Address(collection, d);
    if DocumentOf(e, t) == d && ReadsFrom(s, d, collection) {
      assert Visible(s, d) == Lookup(s.records, a);
      assert Visible(AfterStaging(s, collection, e, t, now), d)
          == Lookup(AfterStaging(s, collection, e, t, now).records, a);
    }
  }

  // --------------------------------------------- checkpoints that run ahead

  /** No step moves a checkpoint back, and what a step applies is the next version of its aggregate. */
  lemma NextMovesOn(w: World, step: Step)
    ensures Advances(w.store, Next(w, step).store)
    ensures w.applied <= Next(w, step).applied
    ensures forall i :: |w.applied| <= i < |Next(w, step).applied| ==> IsNext(w, Next(w, step).applied[i])
  {
    match step
    case CommitApply(id, now, lost) =>
      if id in w.tasks && w.tasks[id].stage.Claiming? {
        ApplyAdvances(w.store, w.tasks[id].stage.row, w.tasks[id].delivery.message, w.tasks[id].stage.target, now);
        ApplyTakesNext(w.store, w.tasks[id].stage.row, w.tasks[id].delivery.message, w.tasks[id].stage.target);
      }
    case ActivatePointers(scope, tables, pointer, proposed) =>
      ActivationAdvances(w.store, scope, tables, pointer, proposed);
    case _ => OthersKeepCheckpoints(w, step);
  }

  predicate IsNext(w: World, x: Application) {
    x.e.aggregateVersion == VersionOf(w.store, AggregateOf(x.e, x.t.workspaceId)) + 1
  }

  lemma ApplyTakesNext(s: Store, row: InboxRow, e: Envelope, t: Target)
    ensures ApplyOutcome(s, row, e, t) == Applied ==>
              e.aggregateVersion == VersionOf(s, AggregateOf(e, t.workspaceId)) + 1
  {
  }

  lemma OthersKeepCheckpoints(w: World, step: Step)
    requires !step.CommitApply? && !step.ActivatePointers?
    ensures Next(w, step).store.checkpoints == w.store.checkpoints && Next(w, step).applied == w.applied
  {
  }

  /** Once a checkpoint is at a version, no later step of any run applies that version or an earlier one. */
  lemma {:induction false} ReachedIsNotApplied(w: World, steps: seq<Step>, a: AggregateKey)
    ensures w.applied <= Run(w, steps).applied && VersionOf(Run(w, steps).store, a) >= VersionOf(w.store, a)
    ensures forall i :: |w.applied| <= i < |Run(w, steps).applied| ==>
              Beyond(Run(w, steps).applied[i], a, VersionOf(w.store, a))
    decreases |steps|
  {
    if steps != [] {
      var before := Run(w, steps[..|steps| - 1]);
      ReachedIsNotApplied(w, steps[..|steps| - 1], a);
      NextMovesOn(before, Last(steps));
      var after := Next(before, Last(steps));
      forall i | |w.applied| <= i < |after.applied| ensures Beyond(after.applied[i], a, VersionOf(w.store, a)) {
        if i < |before.applied| {
          assert after.applied[i] == before.applied[i];
        } else {
          assert IsNext(before, after.applied[i]);
        }
      }
    }
  }

  predicate Beyond(x: Application, a: AggregateKey, version: int) {
    AggregateOf(x.e, x.t.workspaceId) == a ==> x.e.aggregateVersion > version
  }

  /**
    A delivery at or below the checkpoint is acknowledged as stale: its row is applied, and nothing is written or
    audited.
   */
  lemma StaleDeliveryIsAcknowledged(w: World, id: nat, d: Delivery, t: Target, now: int)
    requires id !in w.tasks && ComesLate(w.store, d.message, t)
    ensures var w' := CleanDelivery(w, id, d, t, now);
            && w' == w.(store := w'.store, acked := w.acked + {d.message})
            && StorePasses(w.store, w'.store, d.message)
  {
    DeliveryTreats(w, id, d, t, now, 1, NoDeadLetters);
    DeliverySettles(w, id, d, t, now, 1, NoDeadLetters);
  }

  /** After a switch that takes effect every aggregate of its second listing stands at or above each of its entries. */
  lemma SwitchReachesListing(
    s: Store, scope: Scope, tables: set<string>, pointer: ReadPointer, entries: seq<ArchiveEntry>,
    latest: map<AggregateKey, Checkpoint>, entry: ArchiveEntry)
    requires AreLatest(entries, latest) && entry in entries
    requires tables != {} && ActivationAllowed(s, scope, tables) && CheckpointsValid(latest)
    ensures Reached(AfterActivation(s, scope, tables, pointer, latest).checkpoints, entry)
  {
    var i :| 0 <= i < |entries| && entries[i] == entry;
    assert NotOlder(latest[EntryAggregate(entry)], EntryCheckpoint(entry));
  }

  /**
    The archive is listed again for the checkpoints of the switch. An event that was archived by then and not yet
    applied is lost to the live path: in no run after the switch is it applied, and its next undisturbed delivery is
    acknowledged as stale, with no record written and no audit entry. By CheckpointsStayIff this happens to some listed
    aggregate unless all were reached.
   */
  lemma ListedAgainIsNeverApplied(
    w: World, scope: Scope, tables: set<string>, pointer: ReadPointer, entries: seq<ArchiveEntry>,
    latest: map<AggregateKey, Checkpoint>, entry: ArchiveEntry, steps: seq<Step>)
    requires AreLatest(entries, latest) && entry in entries
    requires tables != {} && ActivationAllowed(w.store, scope, tables) && CheckpointsValid(latest)
    ensures var w' := Run(Next(w, ActivatePointers(scope, tables, pointer, latest)), steps);
            && Reached(w'.store.checkpoints, entry)
            && w.applied <= w'.applied
            && forall i :: |w.applied| <= i < |w'.applied| ==>
                 Beyond(w'.applied[i], EntryAggregate(entry), entry.raw.aggregateVersion)
  {
    var switched := Next(w, ActivatePointers(scope, tables, pointer, latest));
    var a := EntryAggregate(entry);
    SwitchReachesListing(w.store, scope, tables, pointer, entries, latest, entry);
    ReachedIsNotApplied(switched, steps, a);
    RunKeepsCheckpoint(switched, steps, a);
    var w' := Run(switched, steps);
    forall i | |w.applied| <= i < |w'.applied| ensures Beyond(w'.applied[i], a, entry.raw.aggregateVersion) {
      assert Beyond(w'.applied[i], a, VersionOf(switched.store, a));
    }
  }

  lemma NextKeepsCheckpoint(w: World, step: Step, a: AggregateKey)
    requires a in w.store.checkpoints
    ensures a in Next(w, step).store.checkpoints
  {
    if !step.CommitApply? && !step.ActivatePointers? { OthersKeepCheckpoints(w, step); }
  }

  lemma {:induction false} RunKeepsCheckpoint(w: World, steps: seq<Step>, a: AggregateKey)
    requires a in w.store.checkpoints
    ensures a in Run(w, steps).store.checkpoints
    decreases |steps|
  {
    if steps != [] {
      RunKeepsCheckpoint(w, steps[..|steps| - 1], a);
      NextKeepsCheckpoint(Run(w, steps[..|steps| - 1]), Last(steps), a);
    }
  }

  // ------------------------------------------------- tables that never switch

  /** The step switches neither the table nor writes the default collection as a staging collection. */
  predicate LeavesTable(step: Step, table: string) {
    && (step.ActivatePointers? ==> table !in step.tables)
    && (step.StageRecord? ==> step.collection != DEFAULT_COLLECTION)
  }

  predicate NeverSwitched(s: Store, d: DocumentKey) {
    PointerKey(d.tenantId, d.workspaceId, d.tableId, PointerActive) !in s.pointers
  }

  predicate ShowsVersion(s: Store, d: DocumentKey, version: int) {
    Visible(s, d).Some? && Visible(s, d).value.sourceVersion == version
  }

  /** A table that is never switched shows what the live path writes. */
  lemma UnswitchedShows(w: World, step: Step, d: DocumentKey)
    requires NeverSwitched(w.store, d) && LeavesTable(step, d.tableId)
    ensures NeverSwitched(Next(w, step).store, d)
    ensures Visible(Next(w, step).store, d) == Visible(w.store, d) || WritesLast(w, Next(w, step), d)
  {
    match step
    case CommitApply(id, now, _) =>
      if id in w.tasks && w.tasks[id].stage.Claiming? {
        ApplyLeavesRest(w.store, w.tasks[id].stage.row, w.tasks[id].delivery.message, w.tasks[id].stage.target, now);
      }
    case ActivatePointers(scope, tables, pointer, proposed) =>
      var k := PointerKey(d.tenantId, d.workspaceId, d.tableId, PointerActive);
      assert Lookup(SwitchedPointers(w.store.pointers, scope, tables, pointer), k)
          == SwitchedPointer(w.store.pointers, scope, tables, pointer, k);
    case StageRecord(_, _, _, _) =>
    case _ => OthersKeepView(w, step);
  }

  /** The step applied an event to the document, and that is what it shows. */
  predicate WritesLast(w: World, w': World, d: DocumentKey) {
    && |w'.applied| == |w.applied| + 1
    && Visible(w'.store, d) == Some(ImageOf(Last(w'.applied).e, Last(w'.applied).t, Last(w'.applied).now))
    && DocumentOf(Last(w'.applied).e, Last(w'.applied).t) == d
  }

  lemma OthersKeepView(w: World, step: Step)
    requires !step.CommitApply? && !step.ActivatePointers? && !step.StageRecord?
    ensures Next(w, step).store.records == w.store.records && Next(w, step).store.pointers == w.store.pointers
  {
  }

  /** Once the checkpoint of its aggregate has reached a version a document does not show, no later run shows it. */
  lemma {:induction false} ReachedIsNotShown(w: World, steps: seq<Step>, d: DocumentKey, version: int)
    requires NeverSwitched(w.store, d) && forall step :: step in steps ==> LeavesTable(step, d.tableId)
    requires VersionOf(w.store, OwnerOf(d)) >= version && !ShowsVersion(w.store, d, version)
    ensures NeverSwitched(Run(w, steps).store, d) && !ShowsVersion(Run(w, steps).store, d, version)
    decreases |steps|
  {
    if steps != [] {
      var init := steps[..|steps| - 1];
      var before := Run(w, init);
      ReachedIsNotShown(w, init, d, version);
      ReachedIsNotApplied(w, init, OwnerOf(d));
      NextMovesOn(before, Last(steps));
      UnswitchedShows(before, Last(steps), d);
      if WritesLast(before, Next(before, Last(steps)), d) {
        assert IsNext(before, Last(Next(before, Last(steps)).applied));
      }
    }
  }

  /**
    A rebuild moves the checkpoint of every listed aggregate, also of one whose documents lie in a table it does not
    switch. An event of such a document that was listed again, and is not shown by then, is shown in no later run, as
    long as the table is not switched either.
   */
  lemma ListedAgainIsNeverShown(
    w: World, scope: Scope, tables: set<string>, pointer: ReadPointer, entries: seq<ArchiveEntry>,
    latest: map<AggregateKey, Checkpoint>, entry: ArchiveEntry, d: DocumentKey, steps: seq<Step>)
    requires AreLatest(entries, latest) && entry in entries && EntryAggregate(entry) == OwnerOf(d)
    requires tables != {} && ActivationAllowed(w.store, scope, tables) && CheckpointsValid(latest)
    requires d.tableId !in tables && NeverSwitched(w.store, d)
    requires !ShowsVersion(w.store, d, entry.raw.aggregateVersion)
    requires forall step :: step in steps ==> LeavesTable(step, d.tableId)
    ensures var w' := Run(Next(w, ActivatePointers(scope, tables, pointer, latest)), steps);
            Reached(w'.store.checkpoints, entry) && !ShowsVersion(w'.store, d, entry.raw.aggregateVersion)
  {
    var activation := ActivatePointers(scope, tables, pointer, latest);
    var switched := Next(w, activation);
    SwitchReachesListing(w.store, scope, tables, pointer, entries, latest, entry);
    UnswitchedShows(w, activation, d);
    ReachedIsNotShown(switched, steps, d, entry.raw.aggregateVersion);
    ReachedIsNotApplied(switched, steps, OwnerOf(d));
    RunKeepsCheckpoint(switched, steps, OwnerOf(d));
  }

  // -------------------------------------------------- how often one can switch

  function ActiveKey(scope: Scope, table: string): PointerKey {
    PointerKey(scope.tenantId, scope.workspaceId, table, PointerActive)
  }

  function RetiredKey(scope: Scope, table: string): PointerKey {
    PointerKey(scope.tenantId, scope.workspaceId, table, PointerRetired)
  }

  /** The step switches the table's read pointer: it names the table and takes effect. */
  predicate SwitchesTable(w: World, step: Step, scope: Scope, table: string) {
    && step.ActivatePointers? && step.scope == scope && table in step.tables
    && ActivationAllowed(w.store, scope, step.tables) && CheckpointsValid(step.proposed)
  }

  /** How often a run has switched a table. */
  function SwitchCount(steps: seq<Step>, scope: Scope, table: string): nat
    decreases |steps|
  {
    if steps == [] then 0
    else SwitchCount(steps[..|steps| - 1], scope, table)
         + if SwitchesTable(Run(Genesis, steps[..|steps| - 1]), Last(steps), scope, table) then 1 else 0
  }

  /** The pointers of a table tell how often it was switched: none, an active one, an active and a retired one. */
  predicate PointersCount(pointers: map<PointerKey, ReadPointer>, scope: Scope, table: string, count: nat) {
    && (ActiveKey(scope, table) in pointers <==> count >= 1)
    && (RetiredKey(scope, table) in pointers <==> count >= 2)
    && count <= 2
  }

  /** What an activation leaves of the pointers of a table it names. */
  lemma SwitchedKeys(
    s: Store, scope: Scope, tables: set<string>, pointer: ReadPointer, latest: map<AggregateKey, Checkpoint>,
    table: string)
    requires table in tables && ActivationAllowed(s, scope, tables) && CheckpointsValid(latest)
    ensures var pointers := AfterActivation(s, scope, tables, pointer, latest).pointers;
            && ActiveKey(scope, table) in pointers && pointers[ActiveKey(scope, table)] == pointer
            && (RetiredKey(scope, table) in pointers <==>
                ActiveKey(scope, table) in s.pointers || RetiredKey(scope, table) in s.pointers)
  {
    var active, retired := ActiveKey(scope, table), RetiredKey(scope, table);
    var switched := SwitchedPointers(s.pointers, scope, tables, pointer);
    assert Lookup(switched, active) == Some(pointer);
    assert Lookup(switched, retired) == SwitchedPointer(s.pointers, scope, tables, pointer, retired);
  }

  /** A step that does not switch the table leaves its pointers as they are. */
  lemma OtherStepsKeepPointers(w: World, step: Step, scope: Scope, table: string, k: PointerKey)
    requires !SwitchesTable(w, step, scope, table)
    requires k == ActiveKey(scope, table) || k == RetiredKey(scope, table)
    ensures k in Next(w, step).store.pointers <==> k in w.store.pointers
  {
    match step
    case CommitApply(id, now, _) =>
      if id in w.tasks && w.tasks[id].stage.Claiming? {
        ApplyLeavesRest(w.store, w.tasks[id].stage.row, w.tasks[id].delivery.message, w.tasks[id].stage.target, now);
      }
    case ActivatePointers(other, tables, pointer, proposed) =>
      var switched := SwitchedPointers(w.store.pointers, other, tables, pointer);
      assert Lookup(switched, k) == SwitchedPointer(w.store.pointers, other, tables, pointer, k);
    case _ => OthersKeepPointers(w, step);
  }

  lemma OthersKeepPointers(w: World, step: Step)
    requires !step.CommitApply? && !step.ActivatePointers?
    ensures Next(w, step).store.pointers == w.store.pointers
  {
  }

  lemma StepCountsSwitches(w: World, step: Step, scope: Scope, table: string, count: nat)
    requires PointersCount(w.store.pointers, scope, table, count)
    ensures PointersCount(Next(w, step).store.pointers, scope, table,
                          count + if SwitchesTable(w, step, scope, table) then 1 else 0)
  {
    if SwitchesTable(w, step, scope, table) {
      assert PointerSwitchAllowed(w.store.pointers, scope, table);
      SwitchedKeys(w.store, scope, step.tables, step.pointer, step.proposed, table);
    } else {
      OtherStepsKeepPointers(w, step, scope, table, ActiveKey(scope, table));
      OtherStepsKeepPointers(w, step, scope, table, RetiredKey(scope, table));
    }
  }

  lemma {:induction false} SwitchesAreCounted(steps: seq<Step>, scope: Scope, table: string)
    ensures PointersCount(Run(Genesis, steps).store.pointers, scope, table, SwitchCount(steps, scope, table))
    decreases |steps|
  {
    if steps != [] {
      var init := steps[..|steps| - 1];
      SwitchesAreCounted(init, scope, table);
      StepCountsSwitches(Run(Genesis, init), Last(steps), scope, table, SwitchCount(init, scope, table));
    }
  }

  /**
    In every run a table is switched at most twice, and an activation passes the unique index exactly when each
    of its tables was switched less than twice.
   */
  lemma AtMostTwoSwitches(steps: seq<Step>, scope: Scope, tables: set<string>)
    ensures forall table :: SwitchCount(steps, scope, table) <= 2
    ensures ActivationAllowed(Run(Genesis, steps).store, scope, tables)
            <==> forall table :: table in tables ==> SwitchCount(steps, scope, table) < 2
  {
    var s := Run(Genesis, steps).store;
    forall table
      ensures SwitchCount(steps, scope, table) <= 2
      ensures PointerSwitchAllowed(s.pointers, scope, table) <==> SwitchCount(steps, scope, table) < 2
    {
      SwitchesAreCounted(steps, scope, table);
    }
  }

  /** The tables of the three first-party summaries. */
  const SUMMARY_TABLES := {"projection-approver-summary", "projection-fluxion-summary", "projection-bids-summary"}

  /** The tables a rebuild switches: those of the generation's mappings, and the summaries always. */
  function TargetTables(mapped: set<string>): set<string> {
    (mapped - {""}) + SUMMARY_TABLES
  }

  /** How often rebuilds of a scope have switched its pointers. */
  function RebuildCount(steps: seq<Step>, scope: Scope): nat {
    SwitchCount(steps, scope, "projection-approver-summary")
  }

  /**
    Every rebuild names the summary tables, so a workspace can be rebuilt twice. From then on no activation of a
    rebuild changes anything, whatever mappings, pointer and checkpoints it carries.
   */
  lemma ThirdRebuildIsRefused(
    steps: seq<Step>, scope: Scope, mapped: set<string>, pointer: ReadPointer, latest: map<AggregateKey, Checkpoint>)
    ensures RebuildCount(steps, scope) <= 2
    ensures var s := Run(Genesis, steps).store;
            RebuildCount(steps, scope) == 2 ==>
              && !ActivationAllowed(s, scope, TargetTables(mapped))
              && AfterActivation(s, scope, TargetTables(mapped), pointer, latest) == s
  {
    AtMostTwoSwitches(steps, scope, TargetTables(mapped));
    assert "projection-approver-summary" in TargetTables(mapped);
  }

  /** The table the handler writes approval events to, beside the summary tables. */
  const APPROVAL_TABLE := "projection-approver-approval-summary"

  /** A rebuild switches it only if a mapping of the generation targets it; else ListedAgainIsNeverShown applies. */
  lemma ApprovalsAreNotSwitched(mapped: set<string>)
    ensures APPROVAL_TABLE in TargetTables(mapped) <==> APPROVAL_TABLE in mapped
  {
    var n := |"projection-approver-"|;
    assert APPROVAL_TABLE[n] == 'a' && "projection-approver-summary"[n] == 's';
    assert |APPROVAL_TABLE| > |"projection-fluxion-summary"| && |APPROVAL_TABLE| > |"projection-bids-summary"|;
  }
}
