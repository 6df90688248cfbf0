/**
  Runs in which a rebuild is not invisible: the inputs behind the exact conditions of ProjectionSwitch. Every action is
  as the code takes it; what is missing is a scope at rest, or record versions that increase.
 */
module ProjectionExamples {
  import opened Common
  import opened ProjectionStore
  import opened ProjectionPipeline
  import opened ProjectionRefinement
  import opened ProjectionReplay
  import opened ProjectionRebuild
  import opened ProjectionSwitch

  ghost predicate ArrivedBy(source: Source, j: Joint, actions: seq<Action>) {
    TakenRun(source, actions) && RunActions(source, actions) == j
  }

  /** Some run of live steps and rebuild actions, each as the code takes it, ends there. */
  ghost predicate Arrives(source: Source, j: Joint) {
    exists actions :: ArrivedBy(source, j, actions)
  }

  lemma ArrivesAtStart(source: Source)
    ensures Arrives(source, Joint(Genesis, map[]))
  {
    assert ArrivedBy(source, Joint(Genesis, map[]), []);
  }

  lemma ArrivesNext(source: Source, j: Joint, action: Action)
    requires Arrives(source, j) && Taken(source, j, action)
    ensures Arrives(source, Act(source, j, action))
  {
    var actions :| ArrivedBy(source, j, actions);
    RunActionsAppend(source, actions, action);
    assert (actions + [action])[..|actions|] == actions;
    assert ArrivedBy(source, Act(source, j, action), actions + [action]);
  }

  /** Any event that can be first of its aggregate. */
  predicate IsFirst(e: Envelope) {
    WellIdentified(e) && ConsumerForSource(e.sourceSystem) != NoConsumer && e.aggregateVersion == 1
  }

  predicate IsStaging(collection: string) {
    collection != "" && collection != DEFAULT_COLLECTION
  }

  function ScopeOf(e: Envelope, t: Target): Scope {
    Scope(e.tenantId, t.workspaceId)
  }

  function OnlyEvent(e: Envelope, t: Target): Source {
    Source(map[e := t])
  }

  function EntryFor(e: Envelope, t: Target, now: int): ArchiveEntry {
    ArchiveEntry(e, "subject", t.workspaceId, now)
  }

  // ------------------------------------------------- one event, step by step

  /** Nothing has happened but that pointers were switched. */
  function StartWith(pointers: map<PointerKey, ReadPointer>): World {
    Genesis.(store := EmptyStore.(pointers := pointers))
  }

  /** Then the event has been archived, and its worker is about to claim it. */
  function ArchivedWith(e: Envelope, t: Target, now: int, pointers: map<PointerKey, ReadPointer>): World {
    Genesis.(store := EmptyStore.(archive := map[KeyOf(e) := EntryFor(e, t, now)], pointers := pointers),
             tasks := map[0 := Task(Delivery(e, "subject", 1), Archived(t))])
  }

  function ArchivedWorld(e: Envelope, t: Target, now: int): World {
    ArchivedWith(e, t, now, map[])
  }

  lemma ArchivedIsReached(
    e: Envelope, t: Target, now: int, pointers: map<PointerKey, ReadPointer>, attempts: map<nat, Attempt>)
    requires IsFirst(e) && Arrives(OnlyEvent(e, t), Joint(StartWith(pointers), attempts))
    ensures Arrives(OnlyEvent(e, t), Joint(ArchivedWith(e, t, now, pointers), attempts))
  {
    var source, d, w := OnlyEvent(e, t), Delivery(e, "subject", 1), StartWith(pointers);
    ArrivesNext(source, Joint(w, attempts), Live(Deliver(0, d)));
    var received := w.(tasks := map[0 := Task(d, Received)]);
    assert Next(w, Deliver(0, d)) == received;
    var step := RouteAndArchive(0, RoutedTo(t), now);
    assert Next(received, step) == ArchivedWith(e, t, now, pointers);
    ArrivesNext(source, Joint(received, attempts), Live(step));
  }

  /** Claimed and applied. */
  function AppliedWorld(e: Envelope, t: Target, now: int): World {
    Next(Next(ArchivedWorld(e, t, now), ClaimInbox(0, now)), CommitApply(0, now, false))
  }

  lemma AppliedShows(e: Envelope, t: Target, now: int)
    requires IsFirst(e)
    ensures var w := AppliedWorld(e, t, now);
            && w.store.archive == map[KeyOf(e) := EntryFor(e, t, now)] && w.store.pointers == map[]
            && w.store.records == map[Address(DEFAULT_COLLECTION, DocumentOf(e, t)) := ImageOf(e, t, now)]
            && w.applied == [Application(e, t, now)]
  {
    var claimed := Next(ArchivedWorld(e, t, now), ClaimInbox(0, now));
    assert claimed.tasks[0].stage == Claiming(t, FreshRow(e, "subject", t.workspaceId, now));
    assert ApplyOutcome(claimed.store, claimed.tasks[0].stage.row, e, t) == Applied;
  }

  lemma AppliedIsReached(e: Envelope, t: Target, now: int, attempts: map<nat, Attempt>)
    requires Arrives(OnlyEvent(e, t), Joint(ArchivedWorld(e, t, now), attempts))
    ensures Arrives(OnlyEvent(e, t), Joint(AppliedWorld(e, t, now), attempts))
  {
    var source, w := OnlyEvent(e, t), ArchivedWorld(e, t, now);
    ArrivesNext(source, Joint(w, attempts), Live(ClaimInbox(0, now)));
    ArrivesNext(source, Joint(Next(w, ClaimInbox(0, now)), attempts), Live(CommitApply(0, now, false)));
  }

  /** A listing of an archive with one entry of the scope. */
  lemma OneEntryLists(s: Store, e: Envelope, t: Target, now: int)
    requires s.archive == map[KeyOf(e) := EntryFor(e, t, now)]
    ensures Lists(s, ScopeOf(e, t), [EntryFor(e, t, now)])
    ensures AreLatest([EntryFor(e, t, now)], LatestOf([EntryFor(e, t, now)]))
  {
    assert EntryFor(e, t, now) in [EntryFor(e, t, now)];
    LatestOfIsLatest([EntryFor(e, t, now)]);
  }

  /** The listing was taken before the event came. */
  function ListedEmpty(e: Envelope, t: Target, collection: string): map<nat, Attempt> {
    map[0 := Attempt(ScopeOf(e, t), collection, [], 0)]
  }

  lemma EmptyIsListed(e: Envelope, t: Target, collection: string)
    requires IsStaging(collection)
    ensures Arrives(OnlyEvent(e, t), Joint(Genesis, ListedEmpty(e, t, collection)))
  {
    EmptyIsListedFor(OnlyEvent(e, t), ScopeOf(e, t), collection);
  }

  /** The switch of a rebuild, with the checkpoints of a second listing that names the event. */
  function SwitchNow(e: Envelope, t: Target, tables: set<string>, pointer: ReadPointer, now: int): Action {
    Switch(0, tables, pointer, [EntryFor(e, t, now)], LatestOf([EntryFor(e, t, now)]))
  }

  // ------------------------------------------------------------- the examples

  /** An event that was applied after the listing disappears at the switch. */
  lemma LateEventDisappears(
    e: Envelope, t: Target, collection: string, tables: set<string>, pointer: ReadPointer, now: int) returns (j: Joint)
    requires IsFirst(e) && IsStaging(collection) && t.tableId in tables && t.tableId != ""
    ensures Arrives(OnlyEvent(e, t), j) && Taken(OnlyEvent(e, t), j, SwitchNow(e, t, tables, pointer, now))
    ensures Visible(j.world.store, DocumentOf(e, t)) == Some(ImageOf(e, t, now))
    ensures var w := Act(OnlyEvent(e, t), j, SwitchNow(e, t, tables, pointer, now)).world;
            Visible(w.store, DocumentOf(e, t)) == None
  {
    var source, r := OnlyEvent(e, t), ListedEmpty(e, t, collection);
    EmptyIsListed(e, t, collection);
    ArchivedIsReached(e, t, now, map[], r);
    AppliedIsReached(e, t, now, r);
    AppliedShows(e, t, now);
    j := Joint(AppliedWorld(e, t, now), r);
    OneEntryLists(j.world.store, e, t, now);
    ListedCheckpointsAreValid(e, t, now);
    SwitchSwitches(source, j, SwitchNow(e, t, tables, pointer, now));
    SwitchShows(j.world.store, ScopeOf(e, t), tables, pointer, collection, LatestOf([EntryFor(e, t, now)]),
                DocumentOf(e, t));
  }

  lemma ListedCheckpointsAreValid(e: Envelope, t: Target, now: int)
    requires IsFirst(e)
    ensures CheckpointsValid(LatestOf([EntryFor(e, t, now)]))
    ensures LatestOf([EntryFor(e, t, now)])
         == map[AggregateOf(e, t.workspaceId) := EntryCheckpoint(EntryFor(e, t, now))]
  {
    var entry := EntryFor(e, t, now);
    assert [entry][..0] == [];
    assert LatestOf([entry]) == WithEntry(map[], entry);
  }

  /** An event that was listed before it was applied appears at the switch, unaudited. */
  lemma UnappliedEventAppears(
    e: Envelope, t: Target, collection: string, tables: set<string>, pointer: ReadPointer, now: int) returns (j: Joint)
    requires IsFirst(e) && IsStaging(collection) && t.tableId in tables && t.tableId != ""
    ensures Arrives(OnlyEvent(e, t), j) && Taken(OnlyEvent(e, t), j, SwitchNow(e, t, tables, pointer, now))
    ensures Visible(j.world.store, DocumentOf(e, t)) == None
    ensures var w := Act(OnlyEvent(e, t), j, SwitchNow(e, t, tables, pointer, now)).world;
            && Visible(w.store, DocumentOf(e, t)) == Some(ImageOf(e, t, now)) && w.applied == [] && w.store.audit == []
  {
    j := StagedOne(e, t, collection, now);
    StagedOneIsReached(e, t, collection, now);
    OneEntryLists(j.world.store, e, t, now);
    ListedCheckpointsAreValid(e, t, now);
    var action := SwitchNow(e, t, tables, pointer, now);
    SwitchLeavesLog(OnlyEvent(e, t), j, action);
    SwitchSwitches(OnlyEvent(e, t), j, action);
    SwitchShows(j.world.store, ScopeOf(e, t), tables, pointer, collection, action.latest, DocumentOf(e, t));
  }

  lemma SwitchLeavesLog(source: Source, j: Joint, action: Action)
    requires action.Switch?
    ensures Act(source, j, action).world.applied == j.world.applied
    ensures Act(source, j, action).world.store.audit == j.world.store.audit
  {
  }

  function ListedOne(e: Envelope, t: Target, collection: string, now: int): Joint {
    Joint(ArchivedWorld(e, t, now), map[0 := Attempt(ScopeOf(e, t), collection, [EntryFor(e, t, now)], 0)])
  }

  function StagedOne(e: Envelope, t: Target, collection: string, now: int): Joint {
    var w := ArchivedWorld(e, t, now);
    Joint(w.(store := w.store.(records := map[Address(collection, DocumentOf(e, t)) := ImageOf(e, t, now)])),
          map[0 := Attempt(ScopeOf(e, t), collection, [EntryFor(e, t, now)], 1)])
  }

  lemma ListedOneIsReached(e: Envelope, t: Target, collection: string, now: int)
    requires IsFirst(e) && IsStaging(collection)
    ensures Arrives(OnlyEvent(e, t), ListedOne(e, t, collection, now))
  {
    var w := ArchivedWorld(e, t, now);
    ArrivesAtStart(OnlyEvent(e, t));
    ArchivedIsReached(e, t, now, map[], map[]);
    OneEntryLists(w.store, e, t, now);
    ArrivesNext(OnlyEvent(e, t), Joint(w, map[]), List(0, ScopeOf(e, t), collection, [EntryFor(e, t, now)]));
  }

  lemma StagedOneFollows(e: Envelope, t: Target, collection: string, now: int)
    ensures Act(OnlyEvent(e, t), ListedOne(e, t, collection, now), StageNext(0, now))
         == StagedOne(e, t, collection, now)
  {
    StagingInEmpty(ArchivedWorld(e, t, now).store, collection, e, t, now);
  }

  lemma StagingInEmpty(s: Store, collection: string, e: Envelope, t: Target, now: int)
    requires s.records == map[]
    ensures AfterStaging(s, collection, e, t, now)
         == s.(records := map[Address(collection, DocumentOf(e, t)) := ImageOf(e, t, now)])
  {
  }

  lemma StagedOneIsReached(e: Envelope, t: Target, collection: string, now: int)
    requires IsFirst(e) && IsStaging(collection)
    ensures Arrives(OnlyEvent(e, t), StagedOne(e, t, collection, now))
  {
    ListedOneIsReached(e, t, collection, now);
    ArrivesNext(OnlyEvent(e, t), ListedOne(e, t, collection, now), StageNext(0, now));
    StagedOneFollows(e, t, collection, now);
  }

  /**
    An event that was archived between the two listings is lost: it is acknowledged without having been applied, staged
    or audited, and no reader sees it, whether or not the rebuild switches its table.
   */
  lemma ListedAgainEventIsLost(
    e: Envelope, t: Target, collection: string, tables: set<string>, pointer: ReadPointer, now: int) returns (j: Joint)
    requires IsFirst(e) && IsStaging(collection) && tables != {}
    ensures Arrives(OnlyEvent(e, t), j) && e in j.world.acked && RowIsApplied(j.world.store, e)
    ensures j.world.applied == [] && j.world.store.audit == [] && j.world.store.records == map[]
    ensures VersionOf(j.world.store, AggregateOf(e, t.workspaceId)) == 1
  {
    var source, r := OnlyEvent(e, t), ListedEmpty(e, t, collection);
    EmptyIsListed(e, t, collection);
    ArchivedIsReached(e, t, now, map[], r);
    j := Joint(ArchivedWorld(e, t, now), r);
    OneEntryLists(j.world.store, e, t, now);
    ArrivesNext(source, j, SwitchNow(e, t, tables, pointer, now));
    var w := SwitchedBeforeClaim(e, t, collection, tables, pointer, now);
    ArrivesNext(source, Joint(w, map[]), Live(ClaimInbox(0, now)));
    var claimed := Next(w, ClaimInbox(0, now));
    ArrivesNext(source, Joint(claimed, map[]), Live(CommitApply(0, now, false)));
    var committed := Next(claimed, CommitApply(0, now, false));
    ArrivesNext(source, Joint(committed, map[]), Live(Settle(0, 1, NoDeadLetters)));
    j := Joint(Next(committed, Settle(0, 1, NoDeadLetters)), map[]);
    SwitchedIsStale(e, t, w, now);
  }

  lemma SwitchedBeforeClaim(
    e: Envelope, t: Target, collection: string, tables: set<string>, pointer: ReadPointer, now: int) returns (w: World)
    requires IsFirst(e) && tables != {}
    ensures Act(OnlyEvent(e, t), Joint(ArchivedWorld(e, t, now), ListedEmpty(e, t, collection)),
                SwitchNow(e, t, tables, pointer, now)) == Joint(w, map[])
    ensures w == ArchivedWorld(e, t, now).(store := w.store)
    ensures w.store == ArchivedWorld(e, t, now).store.(pointers := w.store.pointers, checkpoints := w.store.checkpoints)
    ensures VersionOf(w.store, AggregateOf(e, t.workspaceId)) == 1
  {
    var j := Joint(ArchivedWorld(e, t, now), ListedEmpty(e, t, collection));
    ListedCheckpointsAreValid(e, t, now);
    w := Act(OnlyEvent(e, t), j, SwitchNow(e, t, tables, pointer, now)).world;
    ActivationAdvances(j.world.store, ScopeOf(e, t), tables, pointer.(collectionName := collection),
                       LatestOf([EntryFor(e, t, now)]));
  }

  lemma SwitchedIsStale(e: Envelope, t: Target, w: World, now: int)
    requires IsFirst(e) && w == ArchivedWorld(e, t, now).(store := w.store)
    requires w.store
          == ArchivedWorld(e, t, now).store.(pointers := w.store.pointers, checkpoints := w.store.checkpoints)
    requires VersionOf(w.store, AggregateOf(e, t.workspaceId)) == 1
    ensures var committed := Next(Next(w, ClaimInbox(0, now)), CommitApply(0, now, false));
            var settled := Next(committed, Settle(0, 1, NoDeadLetters));
            && e in settled.acked && RowIsApplied(settled.store, e) && settled.applied == []
            && settled.store.audit == [] && settled.store.records == map[]
            && VersionOf(settled.store, AggregateOf(e, t.workspaceId)) == 1
  {
    var claimed := Next(w, ClaimInbox(0, now));
    assert claimed.tasks[0] == Task(Delivery(e, "subject", 1), Claiming(t, FreshRow(e, "subject", t.workspaceId, now)));
    assert ApplyOutcome(claimed.store, claimed.tasks[0].stage.row, e, t) == StaleApplied;
  }

  // ----------------------------- operations taken up again after their switch

  /** The pointers after a workspace without events was rebuilt. */
  function FirstSwitch(
    scope: Scope, tables: set<string>, pointer: ReadPointer, collection: string): map<PointerKey, ReadPointer>
  {
    SwitchedPointers(map[], scope, tables, pointer.(collectionName := collection))
  }

  /** An operation lists, and switches; its worker crashes before it saves success. */
  lemma SwitchThenCrash(source: Source, scope: Scope, tables: set<string>, pointer: ReadPointer, collection: string)
    requires tables != {}
    ensures Arrives(source, Joint(StartWith(FirstSwitch(scope, tables, pointer, collection)), map[]))
  {
    var listed := Joint(Genesis, map[0 := Attempt(scope, collection, [], 0)]);
    EmptyIsListedFor(source, scope, collection);
    var action := Switch(0, tables, pointer, [], map[]);
    ArrivesNext(source, listed, action);
    EmptyActivation(scope, tables, pointer.(collectionName := collection));
    assert listed.attempts - {0} == map[];
  }

  lemma EmptyIsListedFor(source: Source, scope: Scope, collection: string)
    ensures Arrives(source, Joint(Genesis, map[0 := Attempt(scope, collection, [], 0)]))
  {
    ArrivesAtStart(source);
    ArrivesNext(source, Joint(Genesis, map[]), List(0, scope, collection, []));
  }

  lemma EmptyActivation(scope: Scope, tables: set<string>, pointer: ReadPointer)
    requires tables != {}
    ensures AfterActivation(EmptyStore, scope, tables, pointer, map[])
         == EmptyStore.(pointers := SwitchedPointers(map[], scope, tables, pointer))
  {
    assert Advanced(map[], map[]) == map[];
  }

  /**
    Staged records are not hidden until the switch. When an operation that has switched is taken up again, an event that
    was archived since is staged where readers look: it is visible with nothing applied and nothing audited.
   */
  lemma RetryShowsUnapplied(
    e: Envelope, t: Target, collection: string, tables: set<string>, pointer: ReadPointer, now: int)
    returns (j: Joint)
    requires IsFirst(e) && t.tableId in tables && t.tableId != ""
    ensures Arrives(OnlyEvent(e, t), j) && CanStage(OnlyEvent(e, t), j, 1)
    ensures Visible(j.world.store, DocumentOf(e, t)) == None
    ensures var w := Act(OnlyEvent(e, t), j, StageNext(1, now)).world;
            && Visible(w.store, DocumentOf(e, t)) == Some(ImageOf(e, t, now)) && w.applied == [] && w.store.audit == []
  {
    j := RetryIsListed(e, t, collection, tables, pointer, now);
    var pointers, key := j.world.store.pointers, ActiveKey(ScopeOf(e, t), t.tableId);
    assert Lookup(pointers, key) == Some(pointer.(collectionName := collection));
  }

  /** The retry has listed the event, and its next action stages it. */
  lemma RetryIsListed(
    e: Envelope, t: Target, collection: string, tables: set<string>, pointer: ReadPointer, now: int)
    returns (j: Joint)
    requires IsFirst(e) && tables != {}
    ensures Arrives(OnlyEvent(e, t), j)
    ensures j.world == ArchivedWith(e, t, now, FirstSwitch(ScopeOf(e, t), tables, pointer, collection))
    ensures j.attempts == map[1 := Attempt(ScopeOf(e, t), collection, [EntryFor(e, t, now)], 0)]
  {
    var source, scope, entries := OnlyEvent(e, t), ScopeOf(e, t), [EntryFor(e, t, now)];
    var pointers := FirstSwitch(scope, tables, pointer, collection);
    var w := ArchivedWith(e, t, now, pointers);
    SwitchThenCrash(source, scope, tables, pointer, collection);
    ArchivedIsReached(e, t, now, pointers, map[]);
    OneEntryLists(w.store, e, t, now);
    ArrivesNext(source, Joint(w, map[]), List(1, scope, collection, entries));
    j := Act(source, Joint(w, map[]), List(1, scope, collection, entries));
  }

  /** One operation whose retry switches again takes both pointers of each table: nobody can switch it a third time. */
  lemma RetryTakesBothPointers(
    source: Source, scope: Scope, collection: string, tables: set<string>, pointer: ReadPointer) returns (j: Joint)
    requires tables != {}
    ensures Arrives(source, j)
    ensures forall table :: table in tables ==> BothName(j.world.store.pointers, scope, table, collection)
    ensures !ActivationAllowed(j.world.store, scope, tables)
  {
    j := RetrySwitches(source, scope, collection, tables, pointer);
    forall table | table in tables ensures BothName(j.world.store.pointers, scope, table, collection) {
      SecondNamesBoth(scope, tables, pointer, collection, table);
    }
    var table :| table in tables;
    assert !PointerSwitchAllowed(j.world.store.pointers, scope, table);
  }

  lemma RetrySwitches(
    source: Source, scope: Scope, collection: string, tables: set<string>, pointer: ReadPointer) returns (j: Joint)
    requires tables != {}
    ensures Arrives(source, j)
    ensures j.world.store.pointers
         == SwitchedPointers(FirstSwitch(scope, tables, pointer, collection), scope, tables,
                             pointer.(collectionName := collection))
  {
    var listed := RetryLists(source, scope, collection, tables, pointer);
    var action := Switch(1, tables, pointer, [], map[]);
    ArrivesNext(source, listed, action);
    j := Act(source, listed, action);
    SwitchSwitches(source, listed, action);
    FirstIsActive(scope, tables, pointer, collection);
  }

  lemma RetryLists(source: Source, scope: Scope, collection: string, tables: set<string>, pointer: ReadPointer)
    returns (j: Joint)
    requires tables != {}
    ensures Arrives(source, j)
    ensures j.world == StartWith(FirstSwitch(scope, tables, pointer, collection))
    ensures j.attempts == map[1 := Attempt(scope, collection, [], 0)]
  {
    var crashed := Joint(StartWith(FirstSwitch(scope, tables, pointer, collection)), map[]);
    SwitchThenCrash(source, scope, tables, pointer, collection);
    ArrivesNext(source, crashed, List(1, scope, collection, []));
    j := Act(source, crashed, List(1, scope, collection, []));
  }

  lemma SecondNamesBoth(
    scope: Scope, tables: set<string>, pointer: ReadPointer, collection: string, table: string)
    requires table in tables
    ensures BothName(SwitchedPointers(FirstSwitch(scope, tables, pointer, collection), scope, tables,
                                      pointer.(collectionName := collection)), scope, table, collection)
  {
    var first, p := FirstSwitch(scope, tables, pointer, collection), pointer.(collectionName := collection);
    FirstIsActive(scope, tables, pointer, collection);
    var switched := SwitchedPointers(first, scope, tables, p);
    assert Lookup(switched, ActiveKey(scope, table)) == Some(p);
    assert Lookup(switched, RetiredKey(scope, table)) == Some(first[ActiveKey(scope, table)]);
  }

  predicate BothName(pointers: map<PointerKey, ReadPointer>, scope: Scope, table: string, collection: string) {
    && ActiveKey(scope, table) in pointers && pointers[ActiveKey(scope, table)].collectionName == collection
    && RetiredKey(scope, table) in pointers && pointers[RetiredKey(scope, table)].collectionName == collection
  }

  lemma FirstIsActive(scope: Scope, tables: set<string>, pointer: ReadPointer, collection: string)
    ensures var first := FirstSwitch(scope, tables, pointer, collection);
            && (forall table :: table in tables ==>
                  && ActiveKey(scope, table) in first && RetiredKey(scope, table) !in first
                  && first[ActiveKey(scope, table)] == pointer.(collectionName := collection))
            && forall table :: PointerSwitchAllowed(first, scope, table)
  {
    var first, p := FirstSwitch(scope, tables, pointer, collection), pointer.(collectionName := collection);
    forall table
      ensures RetiredKey(scope, table) !in first
      ensures table in tables ==> Lookup(first, ActiveKey(scope, table)) == Some(p)
    {
      var active, retired := ActiveKey(scope, table), RetiredKey(scope, table);
      assert Lookup(first, active) == SwitchedPointer(map[], scope, tables, p, active);
      assert Lookup(first, retired) == SwitchedPointer(map[], scope, tables, p, retired);
    }
  }

  /** Two rebuilds of a workspace can switch its pointers. */
  lemma TwoRebuildsSwitch(scope: Scope, mapped: set<string>, p: ReadPointer, q: ReadPointer) returns (steps: seq<Step>)
    ensures RebuildCount(steps, scope) == 2
  {
    var one := ActivatePointers(scope, TargetTables(mapped), p, map[]);
    var two := ActivatePointers(scope, TargetTables(mapped), q, map[]);
    var table := "projection-approver-summary";
    steps := [one, two];
    assert steps[..1] == [one] && [one][..0] == [];
    forall t ensures SwitchCount([one], scope, t) <= 1 {}
    AtMostTwoSwitches([], scope, TargetTables(mapped));
    AtMostTwoSwitches([one], scope, TargetTables(mapped));
    assert SwitchesTable(Run(Genesis, []), one, scope, table);
    assert SwitchesTable(Run(Genesis, [one]), two, scope, table);
  }

  /** A message its mapping rejects is in the archive for ever; RefusedEntryFailsRebuilds is about its workspace. */
  lemma RejectedIsArchived(d: Delivery, workspaceId: string, now: int) returns (w: World)
    requires WellIdentified(d.message) && ConsumerForSource(d.message.sourceSystem) != NoConsumer
    ensures Reachable(w) && KeyOf(d.message) in w.store.archive
    ensures w.store.archive[KeyOf(d.message)] == ArchiveEntry(d.message, d.subject, workspaceId, now)
    ensures w.store.inbox == map[] && w.tasks == map[0 := Task(d, Returned(Deterministic))]
  {
    GenesisIsReachable();
    NextIsReachable(Genesis, Deliver(0, d));
    w := Next(Genesis, Deliver(0, d));
    NextIsReachable(w, RouteAndArchive(0, MappingRejects(workspaceId), now));
    w := Next(w, RouteAndArchive(0, MappingRejects(workspaceId), now));
  }

  // -------------------------------------------- record versions that go back

  /** Two versions of one document, the later one with a record version that is not greater. */
  predicate GoesBack(e: Envelope, t: Target, f: Envelope, u: Target) {
    && IsFirst(e) && WellIdentified(f) && f.aggregateVersion == 2 && KeyOf(e) != KeyOf(f)
    && DocumentOf(e, t) == DocumentOf(f, u) && u.recordVersion <= t.recordVersion
  }

  function BothEvents(e: Envelope, t: Target, f: Envelope, u: Target): Source {
    Source(map[e := t, f := u])
  }

  /** Both delivered, in order and undisturbed. */
  function BothDelivered(e: Envelope, t: Target, f: Envelope, u: Target, now: int): World {
    CleanDelivery(CleanDelivery(Genesis, 0, Delivery(e, "subject", 1), t, now), 0, Delivery(f, "subject", 1), u, now)
  }

  lemma DeliveryArrives(source: Source, w: World, id: nat, d: Delivery, t: Target, now: int)
    requires Arrives(source, Joint(w, map[])) && Routed(source, d.message, t) && id !in w.tasks
    ensures Arrives(source, Joint(CleanDelivery(w, id, d, t, now), map[]))
  {
    var w1 := Next(w, Deliver(id, d));
    ArrivesNext(source, Joint(w, map[]), Live(Deliver(id, d)));
    ArrivesNext(source, Joint(w1, map[]), Live(RouteAndArchive(id, RoutedTo(t), now)));
    var w2 := Next(w1, RouteAndArchive(id, RoutedTo(t), now));
    ArrivesNext(source, Joint(w2, map[]), Live(ClaimInbox(id, now)));
    var w3 := CleanClaim(w, id, d, t, now);
    ArrivesNext(source, Joint(w3, map[]), Live(CommitApply(id, now, false)));
    ArrivesNext(source, Joint(Next(w3, CommitApply(id, now, false)), map[]), Live(Settle(id, 1, NoDeadLetters)));
  }

  /** What an undisturbed delivery of a new message leaves in the store. */
  lemma DeliveryLeaves(w: World, id: nat, d: Delivery, t: Target, now: int)
    requires id !in w.tasks && WellIdentified(d.message)
    requires ConsumerForSource(d.message.sourceSystem) != NoConsumer
    requires KeyOf(d.message) !in w.store.inbox && KeyOf(d.message) !in w.store.archive && w.store.pointers == map[]
    requires d.message.aggregateVersion == VersionOf(w.store, AggregateOf(d.message, t.workspaceId)) + 1
    ensures var e, s, w' := d.message, w.store, CleanDelivery(w, id, d, t, now);
            && w'.tasks == w.tasks && w'.store.pointers == map[]
            && w'.store.archive == s.archive[KeyOf(e) := ArchiveEntry(e, d.subject, t.workspaceId, now)]
            && w'.store.inbox
               == s.inbox[KeyOf(e) := InboxRow(e, d.subject, t.workspaceId, InboxApplied, now, Some(now))]
            && w'.store.records == s.records[Address(DEFAULT_COLLECTION, DocumentOf(e, t)) := ImageOf(e, t, now)]
            && VersionOf(w'.store, AggregateOf(e, t.workspaceId)) == e.aggregateVersion
  {
    ClaimLeaves(w, id, d, t, now);
    CommitLeaves(CleanClaim(w, id, d, t, now), id, d, t, now);
  }

  lemma CommitLeaves(c: World, id: nat, d: Delivery, t: Target, now: int)
    requires id in c.tasks && c.tasks[id] == Task(d, Claiming(t, FreshRow(d.message, d.subject, t.workspaceId, now)))
    requires KeyOf(d.message) in c.store.inbox && c.store.inbox[KeyOf(d.message)] == c.tasks[id].stage.row
    requires c.store.pointers == map[]
    requires d.message.aggregateVersion == VersionOf(c.store, AggregateOf(d.message, t.workspaceId)) + 1
    ensures var e, w' := d.message, Next(Next(c, CommitApply(id, now, false)), Settle(id, 1, NoDeadLetters));
            && w'.tasks == c.tasks - {id} && w'.store.pointers == map[] && w'.store.archive == c.store.archive
            && w'.store.inbox == RowApplied(c.store, e, now)
            && w'.store.records == c.store.records[Address(DEFAULT_COLLECTION, DocumentOf(e, t)) := ImageOf(e, t, now)]
            && VersionOf(w'.store, AggregateOf(e, t.workspaceId)) == e.aggregateVersion
  {
    assert ApplyOutcome(c.store, c.tasks[id].stage.row, d.message, t) == Applied;
    var committed := Next(c, CommitApply(id, now, false));
    assert committed.tasks == c.tasks[id := Task(d, Returned(Success))];
  }

  lemma ClaimLeaves(w: World, id: nat, d: Delivery, t: Target, now: int)
    requires id !in w.tasks && WellIdentified(d.message)
    requires ConsumerForSource(d.message.sourceSystem) != NoConsumer
    requires KeyOf(d.message) !in w.store.inbox && KeyOf(d.message) !in w.store.archive
    ensures var e, s, row := d.message, w.store, FreshRow(d.message, d.subject, t.workspaceId, now);
            CleanClaim(w, id, d, t, now)
            == w.(store := s.(archive := s.archive[KeyOf(e) := ArchiveEntry(e, d.subject, t.workspaceId, now)],
                              inbox := s.inbox[KeyOf(e) := row]),
                  tasks := w.tasks[id := Task(d, Claiming(t, row))])
  {
    var received := Next(w, Deliver(id, d));
    assert received.tasks == w.tasks[id := Task(d, Received)];
    var routed := Next(received, RouteAndArchive(id, RoutedTo(t), now));
    assert routed.tasks == w.tasks[id := Task(d, Archived(t))];
  }

  lemma BothLeave(e: Envelope, t: Target, f: Envelope, u: Target, now: int)
    requires GoesBack(e, t, f, u)
    ensures var s, d := BothDelivered(e, t, f, u, now).store, DocumentOf(e, t);
            && s.archive == map[KeyOf(e) := EntryFor(e, t, now), KeyOf(f) := EntryFor(f, u, now)]
            && s.records == map[Address(DEFAULT_COLLECTION, d) := ImageOf(f, u, now)] && s.pointers == map[]
            && Quiescent(s, ScopeOf(e, t))
  {
    var d1, d2 := Delivery(e, "subject", 1), Delivery(f, "subject", 1);
    DeliveryLeaves(Genesis, 0, d1, t, now);
    DeliveryLeaves(CleanDelivery(Genesis, 0, d1, t, now), 0, d2, u, now);
  }

  lemma BothArrive(e: Envelope, t: Target, f: Envelope, u: Target, now: int)
    requires GoesBack(e, t, f, u)
    ensures Arrives(BothEvents(e, t, f, u), Joint(BothDelivered(e, t, f, u, now), map[]))
  {
    var source, d1, d2 := BothEvents(e, t, f, u), Delivery(e, "subject", 1), Delivery(f, "subject", 1);
    DeliveryLeaves(Genesis, 0, d1, t, now);
    ArrivesAtStart(source);
    DeliveryArrives(source, Genesis, 0, d1, t, now);
    DeliveryArrives(source, CleanDelivery(Genesis, 0, d1, t, now), 0, d2, u, now);
  }

  lemma BothAreListed(s: Store, e: Envelope, t: Target, f: Envelope, u: Target, now: int)
    requires GoesBack(e, t, f, u)
    requires s.archive == map[KeyOf(e) := EntryFor(e, t, now), KeyOf(f) := EntryFor(f, u, now)]
    ensures var entries := [EntryFor(e, t, now), EntryFor(f, u, now)];
            && Lists(s, ScopeOf(e, t), entries)
            && AreLatest(entries, LatestOf(entries)) && CheckpointsValid(LatestOf(entries))
  {
    TwoEntriesList(s, ScopeOf(e, t), EntryFor(e, t, now), EntryFor(f, u, now));
    BothCheckpointsAreValid(e, t, f, u, now);
  }

  lemma TwoEntriesList(s: Store, scope: Scope, x: ArchiveEntry, y: ArchiveEntry)
    requires s.archive == map[KeyOf(x.raw) := x, KeyOf(y.raw) := y] && KeyOf(x.raw) != KeyOf(y.raw)
    requires InScope(scope, x) && InScope(scope, y)
    ensures Lists(s, scope, [x, y])
  {
    assert x in [x, y] && y in [x, y];
    forall entry | entry in [x, y] ensures entry == x || entry == y {}
  }

  lemma BothCheckpointsAreValid(e: Envelope, t: Target, f: Envelope, u: Target, now: int)
    requires GoesBack(e, t, f, u)
    ensures var entries := [EntryFor(e, t, now), EntryFor(f, u, now)];
            AreLatest(entries, LatestOf(entries)) && CheckpointsValid(LatestOf(entries))
  {
    LatestOfIsLatest([EntryFor(e, t, now), EntryFor(f, u, now)]);
  }

  /** Both are staged, in the order of the archive. */
  lemma BothStage(e: Envelope, t: Target, f: Envelope, u: Target, collection: string, now: int) returns (j: Joint)
    requires GoesBack(e, t, f, u) && IsStaging(collection)
    ensures Arrives(BothEvents(e, t, f, u), j)
    ensures StagedSoFar(BothEvents(e, t, f, u), j, BothDelivered(e, t, f, u, now), 0,
                        Attempt(ScopeOf(e, t), collection, [EntryFor(e, t, now), EntryFor(f, u, now)], 2), now)
  {
    BothArrive(e, t, f, u, now);
    BothCanBeListed(e, t, f, u, collection, now);
    j := EntriesStage(BothEvents(e, t, f, u), BothDelivered(e, t, f, u, now), ScopeOf(e, t), collection,
                      [EntryFor(e, t, now), EntryFor(f, u, now)], 2, now);
  }

  /** The first stays. */
  lemma BothShow(j: Joint, e: Envelope, t: Target, f: Envelope, u: Target, collection: string, now: int)
    requires GoesBack(e, t, f, u) && IsStaging(collection)
    requires StagedSoFar(BothEvents(e, t, f, u), j, BothDelivered(e, t, f, u, now), 0,
                         Attempt(ScopeOf(e, t), collection, [EntryFor(e, t, now), EntryFor(f, u, now)], 2), now)
    ensures var s, d := BothDelivered(e, t, f, u, now).store, DocumentOf(e, t);
            && j.world.store == s.(records := j.world.store.records)
            && Visible(j.world.store, d) == Some(ImageOf(f, u, now))
            && Content(Lookup(j.world.store.records, Address(collection, d))) == Some(ImageOf(e, t, 0))
  {
    var entries := [EntryFor(e, t, now), EntryFor(f, u, now)];
    assert Raws(entries[..2]) == [e, f];
    BothCanBeListed(e, t, f, u, collection, now);
    FirstStays(BothEvents(e, t, f, u), BothDelivered(e, t, f, u, now).store, collection, e, f, DocumentOf(e, t), now);
  }

  lemma BothCanBeListed(e: Envelope, t: Target, f: Envelope, u: Target, collection: string, now: int)
    requires GoesBack(e, t, f, u) && IsStaging(collection)
    ensures var w, entries := BothDelivered(e, t, f, u, now), [EntryFor(e, t, now), EntryFor(f, u, now)];
            && Taken(BothEvents(e, t, f, u), Joint(w, map[]), List(0, ScopeOf(e, t), collection, entries))
            && w.store.pointers == map[] && IsEmpty(w.store, collection)
            && Visible(w.store, DocumentOf(e, t)) == Some(ImageOf(f, u, now))
  {
    BothLeave(e, t, f, u, now);
    BothAreListed(BothDelivered(e, t, f, u, now).store, e, t, f, u, now);
  }

  /** The first n entries of a listing are staged one after the other. */
  lemma {:induction false} EntriesStage(
    source: Source, w: World, scope: Scope, collection: string, entries: seq<ArchiveEntry>, n: nat, now: int)
    returns (j: Joint)
    requires Arrives(source, Joint(w, map[]))
    requires Taken(source, Joint(w, map[]), List(0, scope, collection, entries))
    requires n <= |entries| && forall i :: 0 <= i < n ==> entries[i].raw in source.route
    ensures Arrives(source, j) && StagedSoFar(source, j, w, 0, Attempt(scope, collection, entries, n), now)
    decreases n
  {
    if n == 0 {
      j := Act(source, Joint(w, map[]), List(0, scope, collection, entries));
      ArrivesNext(source, Joint(w, map[]), List(0, scope, collection, entries));
      ListStages(source, Joint(w, map[]), 0, scope, collection, entries, now);
    } else {
      var before := EntriesStage(source, w, scope, collection, entries, n - 1, now);
      j := Act(source, before, StageNext(0, now));
      NextArrives(source, before, now);
      StageNextStages(source, before, w, 0, Attempt(scope, collection, entries, n - 1), now);
    }
  }

  lemma NextArrives(source: Source, j: Joint, now: int)
    requires Arrives(source, j)
    ensures Arrives(source, Act(source, j, StageNext(0, now)))
  {
    ArrivesNext(source, j, StageNext(0, now));
  }

  lemma FirstStays(source: Source, s: Store, collection: string, e: Envelope, f: Envelope, d: DocumentKey, now: int)
    requires Writes(source, e, d) && Writes(source, f, d)
    requires source.route[f].recordVersion <= source.route[e].recordVersion
    requires IsEmpty(s, collection) && !ReadsFrom(s, d, collection)
    ensures var s' := Replay(source, s, collection, [e, f], now);
            && s' == s.(records := s'.records) && Visible(s', d) == Visible(s, d)
            && Content(Lookup(s'.records, Address(collection, d))) == Some(ImageOf(e, source.route[e], 0))
  {
    FirstTopIff(source, [e, f], d, 0);
    assert [] + [e, f] == [e, f];
    ReplayShowsFirstTop(source, s, collection, [], [e, f], now, d);
    ReplayFrame(source, s, collection, [e, f], now);
  }

  /**
    Nothing ties the record version of a summary event, which its payload carries, to the version of its aggregate.
    Where it does not increase, a rebuild of a scope at rest takes a document back to an earlier event.
   */
  lemma RecordVersionsGoBack(
    e: Envelope, t: Target, f: Envelope, u: Target, collection: string, tables: set<string>, pointer: ReadPointer,
    now: int) returns (j: Joint, action: Action)
    requires GoesBack(e, t, f, u) && IsStaging(collection) && t.tableId in tables && t.tableId != ""
    ensures Arrives(BothEvents(e, t, f, u), j) && Quiescent(j.world.store, ScopeOf(e, t))
    ensures action.Switch? && Taken(BothEvents(e, t, f, u), j, action)
    ensures Content(Visible(j.world.store, DocumentOf(e, t))) == Some(ImageOf(f, u, 0))
    ensures Content(Visible(Act(BothEvents(e, t, f, u), j, action).world.store, DocumentOf(e, t)))
         == Some(ImageOf(e, t, 0))
  {
    var entries := [EntryFor(e, t, now), EntryFor(f, u, now)];
    j := BothStage(e, t, f, u, collection, now);
    BothShow(j, e, t, f, u, collection, now);
    action := Switch(0, tables, pointer, entries, LatestOf(entries));
    BothLeave(e, t, f, u, now);
    BothAreListed(j.world.store, e, t, f, u, now);
    SwitchSwitches(BothEvents(e, t, f, u), j, action);
    SwitchShows(j.world.store, ScopeOf(e, t), tables, pointer, collection, LatestOf(entries), DocumentOf(e, t));
  }
}
