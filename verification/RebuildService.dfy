/**
  The rebuild service as it is written (projection/rebuild.go): process, fail, finishCancelled and Cancel over a stored
  operation, replaying into a collection of its own and switching the read pointers of the projection's database.
  Callers may cancel at any of the worker's yield points. Every call is a sequence of steps of the lifecycle machine, so
  the lifecycle results hold of the code.
 */
module RebuildServices {
  import opened Common
  import opened ProjectionStore
  import opened RebuildLifecycle
  import ProjectionDatabase
  import ProjectionPipeline
  import ProjectionRebuild
  import ProjectionRefinement
  import ProjectionReplay
  import ProjectionSwitch

  const NoGeneration := Generation("", 0)

  /** A built generation: where it sends events, and the target tables of its mappings for the scope. */
  datatype Catalog = Catalog(generation: Generation, source: ProjectionRefinement.Source, mapped: seq<string>)

  /**
    What the database answers during one attempt: the two listings of the archive, and the calls that fail. Staging is
    named by the place of its entry, the switch by the place after the last.
   */
  datatype Answers = Answers(
    listed: Option<seq<ArchiveEntry>>, again: Option<seq<ArchiveEntry>>, outages: set<nat>)

  lemma StoredFacts(w: World)
    requires Reachable(w)
    ensures w.versions != [] && Last(w.versions).revision == |w.versions| && Validates(Last(w.versions))
  {
    ReachableIsSound(w);
  }

  // ------------------------------------------------------- what an attempt does

  /** The staging projector takes the entry in. */
  predicate Accepts(catalog: Catalog, answers: Answers, i: nat, entry: ArchiveEntry) {
    i !in answers.outages && entry.raw in catalog.source.route
  }

  /** The listing succeeds within the limit and every entry of it is taken in. */
  predicate Replays(catalog: Catalog, answers: Answers) {
    && answers.listed.Some? && |answers.listed.value| <= MAX_REPLAY_EVENTS
    && AllAccepted(catalog, answers, answers.listed.value)
  }

  predicate AllAccepted(catalog: Catalog, answers: Answers, entries: seq<ArchiveEntry>) {
    forall i :: 0 <= i < |entries| ==> Accepts(catalog, answers, i, entries[i])
  }

  function Tables(catalog: Catalog): set<string> {
    ProjectionSwitch.TargetTables(ProjectionDatabase.Elements(catalog.mapped))
  }

  /** The switch goes through after the replay of this many entries. */
  predicate Switches(s: Store, scope: Scope, catalog: Catalog, answers: Answers, replayed: nat) {
    && replayed !in answers.outages && answers.again.Some?
    && ActivationAllowed(s, scope, Tables(catalog))
    && CheckpointsValid(ProjectionReplay.LatestOf(answers.again.value))
  }

  /** How an attempt nobody cancels ends, from the state of the database it starts in. */
  function Verdict(wired: bool, s: Store, scope: Scope, built: Option<Catalog>, answers: Answers): Status {
    if built.None? then Failed
    else if !wired then Succeeded
    else if Replays(built.value, answers) && Switches(s, scope, built.value, answers, |answers.listed.value|)
         then Succeeded
    else Failed
  }

  /** What an attempt that fails complains of. */
  function Complaint(built: Option<Catalog>, answers: Answers): string {
    if built.None? then "generation validation failed"
    else if !Replays(built.value, answers) then "historical projection replay failed"
    else "projection read pointer activation failed"
  }

  predicate FailedWith(op: Operation, reason: string) {
    op.status == Failed && op.safeError == reason
  }

  /** The database after the first n entries of the listing were staged. */
  ghost predicate HasStaged(
    s: Store, s': Store, collection: string, catalog: Catalog, entries: seq<ArchiveEntry>, n: nat, now: int)
  {
    && n <= |entries|
    && (forall e :: e in ProjectionReplay.Raws(entries[..n]) ==> e in catalog.source.route)
    && s' == ProjectionReplay.Replay(catalog.source, s, collection, ProjectionReplay.Raws(entries[..n]), now)
  }

  /** The database after the switch to the collection. */
  function Switched(
    s: Store, scope: Scope, collection: string, operationId: string, catalog: Catalog, again: seq<ArchiveEntry>): Store
  {
    ProjectionRebuild.AfterSwitch(s, scope, Tables(catalog),
                                  ReadPointer(catalog.generation.id, collection, operationId), collection,
                                  ProjectionReplay.LatestOf(again))
  }

  /** What a rebuild leaves when it got as far as the switch: the whole listing staged, and the pointers switched. */
  ghost predicate Completed(
    s: Store, s': Store, scope: Scope, collection: string, operationId: string, catalog: Catalog, answers: Answers,
    now: int)
  {
    && Replays(catalog, answers) && Switches(s, scope, catalog, answers, |answers.listed.value|)
    && exists staged ::
         && HasStaged(s, staged, collection, catalog, answers.listed.value, |answers.listed.value|, now)
         && s' == Switched(staged, scope, collection, operationId, catalog, answers.again.value)
  }

  // ------------------------------------------------- what a save leaves behind

  /** The next version of the operation, saved at this time by this side, and finished at it if it is finished now. */
  predicate IsSaved(op: Operation, op': Operation, status: Status, actor: Actor, now: int) {
    && op'.status == status && op'.revision == op.revision + 1 && op'.updatedBy == actor && op'.updatedAt == now
    && op'.finishedAt == (if status in {Succeeded, Failed, Cancelled} then Some(now) else op.finishedAt)
  }

  /** A save that starts nothing, stages nothing, and reports no error. */
  predicate KeepsWork(op: Operation, op': Operation) {
    && op'.startedAt == op.startedAt && op'.stagingGenerationId == op.stagingGenerationId
    && op'.mappingCount == op.mappingCount && op'.activeGenerationId == op.activeGenerationId
    && op'.safeError == op.safeError
  }

  class RebuildService {
    const wired: bool
    const scope: Scope
    const operationId: string
    const collection: string
    const database: ProjectionDatabase.Database
    var stored: Operation
    ghost var world: World

    ghost predicate Valid()
      reads this
    {
      Reachable(world) && world.versions != [] && stored == Last(world.versions) && world.wired == wired
    }

    constructor (
      wired: bool, scope: Scope, operationId: string, collection: string, database: ProjectionDatabase.Database,
      now: int)
      ensures Valid() && world == Initial(wired, now) && this.wired == wired
      ensures this.scope == scope && this.operationId == operationId && this.collection == collection
      ensures this.database == database
    {
      this.wired, this.scope, this.operationId, this.collection := wired, scope, operationId, collection;
      this.database := database;
      stored := Operation(Accepted, 1, None, None, "", "", 0, "", Caller, now);
      world := Initial(wired, now);
      InitialIsReachable(wired, now);
    }

    method SaveCAS(op: Operation, expected: int) returns (saved: bool)
      modifies this`stored
      ensures saved == (Validates(op) && expected >= 1 && old(stored).revision == expected)
      ensures stored == if saved then op.(revision := old(stored).revision + 1) else old(stored)
    {
      if !Validates(op) || expected < 1 || stored.revision != expected { return false; }
      stored := op.(revision := stored.revision + 1);
      return true;
    }

    /** The machine takes the step that the code has just taken. */
    ghost method Took(step: Step)
      requires Reachable(world) && world.versions != [] && world.wired == wired
      modifies this`world
      ensures Reachable(world) && world == Next(old(world), step) && world.wired == wired
    {
      NextIsReachable(world, step);
      world := Next(world, step);
    }

    /** A caller cancels: an accepted operation at once, a running one by request; anything else is left alone. */
    method Cancel(now: int, ghost caller: nat)
      requires Valid()
      modifies this
      ensures Valid() && world == Next(Next(old(world), CancelRead(caller)), CancelSave(caller, now))
      ensures world.phase == old(world).phase
      ensures stored.status == (if old(stored).status == Accepted then Cancelled
                                else if old(stored).status == Running then CancelRequested else old(stored).status)
      ensures if old(stored).status in {Accepted, Running}
              then IsSaved(old(stored), stored, stored.status, Caller, now) && KeepsWork(old(stored), stored)
              else stored == old(stored)
      ensures stored.status == Succeeded ==> old(stored).status == Succeeded
    {
      StoredFacts(world);
      Took(CancelRead(caller));
      var operation := stored;
      if operation.status == Accepted {
        var saved :=
          SaveCAS(operation.(status := Cancelled, finishedAt := Some(now), updatedBy := Caller, updatedAt := now),
                  operation.revision);
      } else if operation.status == Running {
        var saved := SaveCAS(operation.(status := CancelRequested, updatedBy := Caller, updatedAt := now),
                             operation.revision);
      }
      Took(CancelSave(caller, now));
    }

    /** A yield point of the worker: perhaps somebody cancels. */
    method Yield(cancelled: bool, now: int)
      requires Valid()
      modifies this
      ensures Valid() && world.phase == old(world).phase
      ensures !cancelled ==> stored == old(stored)
      ensures stored.status == Succeeded ==> old(stored).status == Succeeded
    {
      if cancelled { Cancel(now, 0); }
    }

    method FinishCancelled(operation: Operation, now: int)
      requires Valid() && world.phase == Cancelling(operation)
      modifies this
      ensures Valid() && world.phase == Idle
      ensures operation == old(stored) && operation.status == CancelRequested ==>
                stored.status == Cancelled && IsSaved(operation, stored, Cancelled, Worker, now)
                && KeepsWork(operation, stored)
      ensures stored.status == Succeeded ==> old(stored).status == Succeeded
    {
      StoredFacts(world);
      if operation.status != Cancelled {
        var saved :=
          SaveCAS(operation.(status := Cancelled, finishedAt := Some(now), updatedAt := now, updatedBy := Worker),
                  operation.revision);
      }
      Took(Work(true, now, NoGeneration, 0));
    }

    /** The check after every Find: a requested cancellation is finished, and anything no longer running is dropped. */
    method GoOn(now: int) returns (goOn: bool)
      requires Valid() && (stored.status == CancelRequested ==> world.phase == Cancelling(stored))
      requires stored.status != CancelRequested && stored.status != Running ==> world.phase == Idle
      modifies this
      ensures Valid() && goOn == (old(stored).status == Running)
      ensures goOn ==> stored == old(stored) && world == old(world)
      ensures !goOn ==> world.phase == Idle
      ensures old(stored).status == CancelRequested ==> stored.status == Cancelled
      ensures stored.status == Succeeded ==> old(stored).status == Succeeded
    {
      if stored.status == CancelRequested {
        FinishCancelled(stored, now);
        return false;
      }
      return stored.status == Running;
    }

    method SaveFailed(latest: Operation, reason: string, now: int)
      requires Valid() && world.phase == FailFound(latest, reason) && latest == stored && stored.status == Running
      modifies this
      ensures Valid() && world.phase == Idle && stored.status == Failed && stored.safeError == reason
      ensures IsSaved(latest, stored, Failed, Worker, now) && KeepsWork(latest, stored.(safeError := latest.safeError))
    {
      StoredFacts(world);
      var saved :=
        SaveCAS(latest.(status := Failed, safeError := reason, finishedAt := Some(now), updatedAt := now,
                        updatedBy := Worker), latest.revision);
      Took(Work(true, now, NoGeneration, 0));
    }

    /** fail: look again, and record the failure unless a cancellation came first. */
    method Fail(reason: string, now: int)
      requires Valid() && world.phase == Failing(reason)
      modifies this
      ensures Valid() && world.phase == Idle
      ensures old(stored).status == Running ==>
                && stored.status == Failed && stored.safeError == reason
                && IsSaved(old(stored), stored, Failed, Worker, now)
      ensures old(stored).status == CancelRequested ==> stored.status == Cancelled
      ensures stored.status == Succeeded ==> old(stored).status == Succeeded
    {
      Took(Work(true, now, NoGeneration, 0));
      var latest := stored;
      var goOn := GoOn(now);
      if goOn { SaveFailed(latest, reason, now); }
    }

    /** Take an accepted operation; somebody may have cancelled it since it was listed. */
    method Start(operation: Operation, now: int) returns (started: bool)
      requires Valid() && world.phase == Picked(operation) && operation.status in {Accepted, Running}
      modifies this
      ensures Valid() && (if started then world.phase.Building? else world.phase == Idle)
      ensures operation == old(stored) ==> started && stored.status == Running
      ensures operation == old(stored) && operation.status == Accepted ==>
                && IsSaved(operation, stored, Running, Worker, now) && stored.startedAt == Some(now)
                && KeepsWork(operation, stored.(startedAt := operation.startedAt))
      ensures stored.status == Succeeded ==> old(stored).status == Succeeded
    {
      StoredFacts(world);
      started := true;
      if operation.status == Accepted {
        started := SaveCAS(operation.(status := Running, startedAt := Some(now), updatedAt := now, updatedBy := Worker),
                           operation.revision);
      }
      Took(Work(true, now, NoGeneration, 0));
    }

    /** Record the staged generation, unless somebody cancelled since the last look. */
    method Stage(latest: Operation, generation: Generation, now: int) returns (saved: bool)
      requires Valid() && world.phase == Staging(latest, generation)
      modifies this
      ensures Valid()
      ensures if saved then world.phase == Staged(stored, generation) && stored.status == latest.status
              else world.phase == Idle
      ensures saved ==>
                && stored.stagingGenerationId == generation.id && stored.mappingCount == generation.entries
                && IsSaved(latest, stored, latest.status, Worker, now) && stored.startedAt == latest.startedAt
                && stored.activeGenerationId == latest.activeGenerationId && stored.safeError == latest.safeError
      ensures latest == old(stored) ==> saved
      ensures stored.status == Succeeded ==> old(stored).status == Succeeded
    {
      StoredFacts(world);
      ReachableIsSound(world);
      saved := SaveCAS(latest.(stagingGenerationId := generation.id, mappingCount := generation.entries,
                               updatedAt := now, updatedBy := Worker), latest.revision);
      Took(Work(true, now, NoGeneration, 0));
    }

    /** One archived event: look for a cancellation, then hand the event to the staging projector. */
    method ReplayOne(
      staged: Operation, catalog: Catalog, entry: ArchiveEntry, remaining: nat, reachable: bool, cancelled: bool,
      now: int)
      returns (goOn: bool)
      requires Valid() && world.phase == Replaying(staged, catalog.generation, remaining) && remaining > 0
      modifies this, database
      ensures Valid() && world.phase == (if goOn then Replaying(staged, catalog.generation, remaining - 1) else Idle)
      ensures goOn ==> reachable && entry.raw in catalog.source.route
      ensures database.State()
           == if goOn
              then AfterStaging(old(database.State()), collection, entry.raw, catalog.source.route[entry.raw], now)
              else old(database.State())
      ensures !cancelled && old(stored).status == Running ==>
                && goOn == (reachable && entry.raw in catalog.source.route)
                && (if goOn then stored == old(stored) else FailedWith(stored, "historical projection replay failed"))
      ensures stored.status == Succeeded ==> old(stored).status == Succeeded
    {
      var accepted := reachable && entry.raw in catalog.source.route;
      Yield(cancelled, now);
      Took(Work(accepted, now, NoGeneration, 0));
      if stored.status != Running {
        FinishAfterCancellation(now);
        return false;
      }
      if !accepted {
        Fail("historical projection replay failed", now);
        return false;
      }
      database.ApplyStaging(collection, entry.raw, catalog.source.route[entry.raw], now);
      return true;
    }

    /**
      Replay the listed entries into the operation's collection. Whatever stops it, the collection has taken in the
      entries before, in order, and nothing else in the database has changed.
     */
    method Replay(
      staged: Operation, catalog: Catalog, entries: seq<ArchiveEntry>, answers: Answers, cancels: set<nat>, now: int)
      returns (completed: bool, ghost count: nat)
      requires Valid() && world.phase == Replaying(staged, catalog.generation, |entries|)
      modifies this, database
      ensures Valid() && world.phase == (if completed then ReplayDone(staged, catalog.generation) else Idle)
      ensures HasStaged(old(database.State()), database.State(), collection, catalog, entries, count, now)
      ensures completed ==> count == |entries| && AllAccepted(catalog, answers, entries)
      ensures cancels == {} && old(stored).status == Running ==>
                && completed == AllAccepted(catalog, answers, entries)
                && (if completed then stored == old(stored)
                    else FailedWith(stored, "historical projection replay failed"))
      ensures stored.status == Succeeded ==> old(stored).status == Succeeded
    {
      ghost var undisturbed := cancels == {} && stored.status == Running;
      count := 0;
      for i := 0 to |entries|
        invariant Valid() && world.phase == Replaying(staged, catalog.generation, |entries| - i) && count == i
        invariant HasStaged(old(database.State()), database.State(), collection, catalog, entries, i, now)
        invariant forall j :: 0 <= j < i ==> Accepts(catalog, answers, j, entries[j])
        invariant undisturbed ==> stored == old(stored)
        invariant stored.status == Succeeded ==> old(stored).status == Succeeded
      {
        ghost var before := database.State();
        var goOn := ReplayOne(staged, catalog, entries[i], |entries| - i, i !in answers.outages, i in cancels, now);
        if !goOn { return false, count; }
        ReplayedOneMore(old(database.State()), before, collection, catalog, entries, i, now);
        count := count + 1;
      }
      CompleteReplay(staged, catalog.generation, now);
      return true, count;
    }

    ghost method CompleteReplay(staged: Operation, generation: Generation, now: int)
      requires Valid() && world.phase == Replaying(staged, generation, 0)
      modifies this`world
      ensures Valid() && world.phase == ReplayDone(staged, generation)
    {
      Took(Work(true, now, NoGeneration, 0));
    }

    /** The replay saw a cancellation: look once more and finish it. */
    method FinishAfterCancellation(now: int)
      requires Valid() && world.phase == CancelFind
      modifies this
      ensures Valid() && world.phase == Idle
      ensures stored.status == Succeeded ==> old(stored).status == Succeeded
    {
      Took(Work(true, now, NoGeneration, 0));
      FinishCancelled(stored, now);
    }

    /** Switch the pointers and save success, if nothing was saved since the staged version. */
    method Finish(latest: Operation, staged: Operation, generation: Generation, now: int)
      requires Valid() && world.phase == Activated(latest, staged, generation)
      modifies this
      ensures Valid() && world.phase == Idle
      ensures stored.status == Succeeded <==> old(stored) == staged
      ensures stored.status == Succeeded ==>
                && stored.activeGenerationId == generation.id && stored.finishedAt == Some(now)
                && IsSaved(latest.(revision := staged.revision), stored, Succeeded, Worker, now)
                && KeepsWork(latest, stored.(activeGenerationId := latest.activeGenerationId))
    {
      StoredFacts(world);
      ReachableIsSound(world);
      SuccessNeedsNoLateCancel(world, true, now, NoGeneration, 0);
      var saved :=
        SaveCAS(latest.(status := Succeeded, activeGenerationId := generation.id, finishedAt := Some(now),
                        updatedAt := now, updatedBy := Worker), staged.revision);
      Took(Work(true, now, NoGeneration, 0));
    }

    /** The look between the replay and the read pointers. */
    method LookAfterReplay(staged: Operation, generation: Generation, now: int) returns (goOn: bool)
      requires Valid() && world.phase == ReplayDone(staged, generation)
      modifies this
      ensures Valid() && world.phase == (if goOn then Activating(stored, staged, generation) else Idle)
      ensures goOn == (old(stored).status == Running) && (goOn ==> stored == old(stored))
      ensures stored.status == Succeeded ==> old(stored).status == Succeeded
    {
      Took(Work(true, now, NoGeneration, 0));
      goOn := GoOn(now);
    }

    /** activateReadPointers: the second listing, its checkpoints, and the pointer transaction. */
    method ActivateReadPointers(catalog: Catalog, answers: Answers, replayed: nat) returns (switched: bool)
      modifies database
      ensures switched == Switches(old(database.State()), scope, catalog, answers, replayed)
      ensures database.State()
           == if switched
              then Switched(old(database.State()), scope, collection, operationId, catalog, answers.again.value)
              else old(database.State())
    {
      switched := false;
      if answers.again.Some? && replayed !in answers.outages {
        var latestCheckpoints := ProjectionReplay.LatestCheckpoints(answers.again.value);
        var tableIds := TargetTableIds(catalog.mapped);
        switched := database.ActivateManyWithCheckpoints(
          scope, tableIds, ReadPointer(catalog.generation.id, collection, operationId), latestCheckpoints);
      }
    }

    /** Switch the read pointers; a switch that fails ends the rebuild. */
    method SwitchPointers(
      latest: Operation, staged: Operation, catalog: Catalog, answers: Answers, replayed: nat, now: int)
      returns (switched: bool)
      requires Valid() && world.phase == Activating(latest, staged, catalog.generation)
      modifies this, database
      ensures Valid() && world.phase == (if switched then Activated(latest, staged, catalog.generation) else Idle)
      ensures switched == Switches(old(database.State()), scope, catalog, answers, replayed)
      ensures database.State()
           == if switched
              then Switched(old(database.State()), scope, collection, operationId, catalog, answers.again.value)
              else old(database.State())
      ensures if switched then stored == old(stored)
              else old(stored).status == Running ==> FailedWith(stored, "projection read pointer activation failed")
      ensures stored.status == Succeeded ==> old(stored).status == Succeeded
    {
      switched := ActivateReadPointers(catalog, answers, replayed);
      Took(Work(switched, now, NoGeneration, 0));
      if !switched { Fail("projection read pointer activation failed", now); }
    }

    /** After the replay: one more look, then the read pointers. */
    method Activate(staged: Operation, catalog: Catalog, answers: Answers, replayed: nat, now: int)
      returns (latest: Operation, activated: bool)
      requires Valid() && world.phase == ReplayDone(staged, catalog.generation)
      modifies this, database
      ensures Valid() && world.phase == (if activated then Activated(latest, staged, catalog.generation) else Idle)
      ensures activated ==> Switches(old(database.State()), scope, catalog, answers, replayed)
      ensures database.State()
           == if activated
              then Switched(old(database.State()), scope, collection, operationId, catalog, answers.again.value)
              else old(database.State())
      ensures old(stored).status == Running ==>
                && activated == Switches(old(database.State()), scope, catalog, answers, replayed)
                && (if activated then stored == old(stored)
                    else FailedWith(stored, "projection read pointer activation failed"))
      ensures stored.status == Succeeded ==> old(stored).status == Succeeded
    {
      latest, activated := stored, false;
      var goOn := LookAfterReplay(staged, catalog.generation, now);
      if goOn {
        activated := SwitchPointers(latest, staged, catalog, answers, replayed, now);
      }
    }

    /** Replay the listing and switch to it. */
    method ReplayAndSwitch(
      staged: Operation, catalog: Catalog, entries: seq<ArchiveEntry>, answers: Answers, cancels: set<nat>, now: int)
      returns (latest: Operation, activated: bool, ghost count: nat)
      requires Valid() && world.phase == Replaying(staged, catalog.generation, |entries|)
      requires answers.listed == Some(entries) && |entries| <= MAX_REPLAY_EVENTS
      modifies this, database
      ensures Valid() && world.phase == (if activated then Activated(latest, staged, catalog.generation) else Idle)
      ensures if activated
              then Completed(old(database.State()), database.State(), scope, collection, operationId, catalog, answers,
                             now)
              else HasStaged(old(database.State()), database.State(), collection, catalog, entries, count, now)
      ensures cancels == {} && old(stored).status == Running ==>
                && activated == (Verdict(true, old(database.State()), scope, Some(catalog), answers) == Succeeded)
                && (if activated then stored == old(stored) else FailedWith(stored, Complaint(Some(catalog), answers)))
      ensures stored.status == Succeeded ==> old(stored).status == Succeeded
    {
      ghost var s := database.State();
      var completed;
      completed, count := Replay(staged, catalog, entries, answers, cancels, now);
      latest, activated := stored, false;
      if completed {
        ReplayKeepsPointers(s, database.State(), collection, catalog, entries, count, now);
        latest, activated := Activate(staged, catalog, answers, |entries|, now);
      }
    }

    /** The part after the staged save: replay, switch, finish. */
    method ReplayAndActivate(staged: Operation, catalog: Catalog, answers: Answers, cancels: set<nat>, now: int)
      returns (ghost switched: bool, ghost count: nat)
      requires Valid() && world.phase == Staged(staged, catalog.generation)
      modifies this, database
      ensures Valid() && world.phase == Idle
      ensures wired && stored.status == Succeeded ==> switched || old(stored).status == Succeeded
      ensures Left(old(database.State()), database.State(), catalog, answers, switched, count, now)
      ensures cancels == {} && old(stored) == staged && staged.status == Running ==>
                && stored.status == Verdict(wired, old(database.State()), scope, Some(catalog), answers)
                && (stored.status == Failed ==> stored.safeError == Complaint(Some(catalog), answers))
    {
      switched, count := false, 0;
      Yield(0 in cancels, now);
      var entries := if answers.listed.Some? then answers.listed.value else [];
      Took(Work(answers.listed.Some?, now, NoGeneration, |entries|));
      var latest := stored;
      var goOn := GoOn(now);
      if !goOn { return; }
      if wired {
        if answers.listed.None? || |entries| > MAX_REPLAY_EVENTS {
          Fail("historical projection replay failed", now);
          return;
        }
        var activated;
        latest, activated, count := ReplayAndSwitch(staged, catalog, entries, answers, cancels, now);
        if !activated { return; }
        switched := true;
      }
      Yield(1 in cancels, now);
      Finish(latest, staged, catalog.generation, now);
    }

    /** Build the generation, look again, and stage it. */
    method BuildAndStage(built: Option<Catalog>, cancelled: bool, now: int) returns (staged: bool)
      requires Valid() && world.phase.Building?
      modifies this
      ensures Valid()
      ensures if staged
              then built.Some? && world.phase == Staged(stored, built.value.generation) && stored.status == Running
              else world.phase == Idle
      ensures !cancelled && old(stored).status == Running ==>
                staged == built.Some? && (built.None? ==> FailedWith(stored, "generation validation failed"))
      ensures !staged && stored.status == Succeeded ==> old(stored).status == Succeeded
    {
      Yield(cancelled, now);
      Took(Work(built.Some?, now, if built.Some? then built.value.generation else NoGeneration, 0));
      if built.None? {
        Fail("generation validation failed", now);
        return false;
      }
      Took(Work(true, now, NoGeneration, 0));
      var latest := stored;
      var goOn := GoOn(now);
      if !goOn { return false; }
      staged := Stage(latest, built.value.generation, now);
    }

    /** The stored operation is listed and picked. */
    ghost method Pick(operation: Operation)
      requires Valid() && world.phase == Idle && operation == stored && !Terminal(stored.status)
      modifies this`world
      ensures Valid() && world.phase == Picked(operation)
    {
      Took(Poll(|world.versions| - 1));
    }

    method FinishPicked(operation: Operation, now: int)
      requires Valid() && world.phase == Picked(operation) && operation == stored && stored.status == CancelRequested
      modifies this
      ensures Valid() && world.phase == Idle && stored.status == Cancelled
    {
      Took(Work(true, now, NoGeneration, 0));
      FinishCancelled(operation, now);
    }

    /** What an attempt leaves of the database: completed, or stopped after some entries of the listing. */
    ghost predicate Left(
      s: Store, s': Store, catalog: Catalog, answers: Answers, switched: bool, count: nat, now: int)
    {
      if switched then Completed(s, s', scope, collection, operationId, catalog, answers, now)
      else s' == s || (answers.listed.Some? && HasStaged(s, s', collection, catalog, answers.listed.value, count, now))
    }

    /**
      process, for an operation that was just listed; cancels says at which yield points somebody cancels. Undisturbed
      it ends as the verdict says. A wired operation that succeeded has staged its whole listing and switched its tables
      to the collection; any other attempt has staged part of the listing in its own collection, or was cancelled after
      the switch.
     */
    method Process(built: Option<Catalog>, answers: Answers, cancels: set<nat>, now: int)
      returns (ghost switched: bool, ghost count: nat)
      requires Valid() && world.phase == Idle && !Terminal(stored.status)
      modifies this, database
      ensures Valid() && world.phase == Idle
      ensures old(stored).status == CancelRequested ==>
                stored.status == Cancelled && database.State() == old(database.State())
      ensures cancels == {} && old(stored).status != CancelRequested ==>
                && stored.status == Verdict(wired, old(database.State()), scope, built, answers)
                && (stored.status == Failed ==> stored.safeError == Complaint(built, answers))
      ensures wired && stored.status == Succeeded ==> switched
      ensures if built.Some? then Left(old(database.State()), database.State(), built.value, answers, switched, count,
                                       now)
              else database.State() == old(database.State())
    {
      switched, count := false, 0;
      var operation := stored;
      Pick(operation);
      if operation.status == CancelRequested {
        FinishPicked(operation, now);
        return;
      }
      Yield(0 in cancels, now);
      var started := Start(operation, now);
      if !started { return; }
      var staged := BuildAndStage(built, 1 in cancels, now);
      if !staged { return; }
      switched, count := ReplayAndActivate(stored, built.value, answers, cancels, now);
    }
  }

  /** TargetTableIDs: the distinct target tables of the mappings, and the summary tables always. */
  method TargetTableIds(mapped: seq<string>) returns (ids: seq<string>)
    ensures ProjectionDatabase.Elements(ids) - {""}
            == ProjectionSwitch.TargetTables(ProjectionDatabase.Elements(mapped))
    ensures forall i, j :: 0 <= i < j < |ids| ==> ids[i] != ids[j]
  {
    var summaries := ["projection-approver-summary", "projection-fluxion-summary", "projection-bids-summary"];
    assert ProjectionDatabase.Elements(summaries) == ProjectionSwitch.SUMMARY_TABLES;
    var all := mapped + summaries;
    ids := ProjectionDatabase.UniqueTables(all);
  }

  lemma ReplayedOneMore(
    s: Store, s': Store, collection: string, catalog: Catalog, entries: seq<ArchiveEntry>, n: nat, now: int)
    requires HasStaged(s, s', collection, catalog, entries, n, now) && n < |entries|
    requires entries[n].raw in catalog.source.route
    ensures HasStaged(s, AfterStaging(s', collection, entries[n].raw, catalog.source.route[entries[n].raw], now),
                     collection, catalog, entries, n + 1, now)
  {
    assert ProjectionReplay.Raws(entries[..n + 1])
        == ProjectionReplay.Raws(entries[..n]) + [entries[n].raw];
    assert ProjectionReplay.Raws(entries[..n + 1])[..n] == ProjectionReplay.Raws(entries[..n]);
  }

  /** Whether the pointers can be switched does not depend on the replay. */
  lemma ReplayKeepsPointers(
    s: Store, s': Store, collection: string, catalog: Catalog, entries: seq<ArchiveEntry>, n: nat, now: int)
    requires HasStaged(s, s', collection, catalog, entries, n, now)
    ensures s' == s.(records := s'.records)
  {
    ProjectionReplay.ReplayFrame(catalog.source, s, collection, ProjectionReplay.Raws(entries[..n]), now);
  }

  // ------------------------------------------------------- what it is good for

  /** The archive was listed when nothing of the scope was on its way, both times. */
  ghost predicate ListedAtRest(s: Store, scope: Scope, answers: Answers) {
    && ProjectionReplay.Quiescent(s, scope)
    && answers.listed.Some? && ProjectionReplay.Lists(s, scope, answers.listed.value)
    && answers.again.Some? && ProjectionReplay.Lists(s, scope, answers.again.value)
  }

  function Listed(answers: Answers): set<Envelope>
    requires answers.listed.Some?
  {
    ProjectionReplay.EventSet(ProjectionReplay.Raws(answers.listed.value))
  }

  /**
    A completed rebuild serves its collection: every target table reads it, by a pointer that names collection,
    operation and generation, and it holds the replay of exactly the listed events, also when earlier attempts of the
    operation had staged some of them. Checkpoints move to the newest entries listed again where they are behind.
   */
  lemma CompletedIsServed(
    s: Store, s': Store, scope: Scope, collection: string, operationId: string, catalog: Catalog, answers: Answers,
    now: int, already: set<Envelope>)
    requires Completed(s, s', scope, collection, operationId, catalog, answers, now)
    requires ProjectionReplay.HoldsReplayOf(catalog.source, s, collection, already) && already <= Listed(answers)
    ensures ReadFrom(s', scope, Tables(catalog), collection, operationId, catalog.generation.id)
    ensures ProjectionReplay.HoldsReplayOf(catalog.source, s', collection, Listed(answers))
    ensures AdvancesCheckpoints(s, s', ProjectionReplay.LatestOf(answers.again.value))
    ensures ProjectionReplay.NewestOfEach(answers.again.value, ProjectionReplay.LatestOf(answers.again.value))
  {
    var entries := answers.listed.value;
    var staged :| HasStaged(s, staged, collection, catalog, entries, |entries|, now)
                  && s' == Switched(staged, scope, collection, operationId, catalog, answers.again.value);
    assert entries[..|entries|] == entries;
    ReplayKeepsPointers(s, staged, collection, catalog, entries, |entries|, now);
    ProjectionReplay.ReplayCompletes(catalog.source, s, collection, already, ProjectionReplay.Raws(entries), now);
    SwitchedIsServed(staged, scope, collection, operationId, catalog, answers.again.value);
    ProjectionReplay.LatestOfIsLatest(answers.again.value);
    ProjectionReplay.LatestIsNewest(answers.again.value, ProjectionReplay.LatestOf(answers.again.value));
    ProjectionRebuild.ReplayFramed(catalog.source, staged, s', collection, Listed(answers));
  }

  lemma SwitchedIsServed(
    s: Store, scope: Scope, collection: string, operationId: string, catalog: Catalog, again: seq<ArchiveEntry>)
    requires ActivationAllowed(s, scope, Tables(catalog)) && CheckpointsValid(ProjectionReplay.LatestOf(again))
    ensures var s' := Switched(s, scope, collection, operationId, catalog, again);
            && ReadFrom(s', scope, Tables(catalog), collection, operationId, catalog.generation.id)
            && s' == s.(pointers := s'.pointers, checkpoints := s'.checkpoints)
            && AdvancesCheckpoints(s, s', ProjectionReplay.LatestOf(again))
  {
    var pointer := ReadPointer(catalog.generation.id, collection, operationId);
    assert pointer.(collectionName := collection) == pointer;
    ActivationSwitches(s, scope, Tables(catalog), pointer, ProjectionReplay.LatestOf(again));
  }

  /**
    What an attempt that was stopped leaves in the collection is the replay of what it got through, on top of what was
    there.
   */
  lemma StoppedCanResume(
    s: Store, s': Store, collection: string, catalog: Catalog, entries: seq<ArchiveEntry>, n: nat, now: int,
    already: set<Envelope>)
    requires HasStaged(s, s', collection, catalog, entries, n, now)
    requires ProjectionReplay.HoldsReplayOf(catalog.source, s, collection, already)
    ensures ProjectionReplay.HoldsReplayOf(
              catalog.source, s', collection, already + ProjectionReplay.EventSet(ProjectionReplay.Raws(entries[..n])))
  {
    ProjectionReplay.ReplayKeepsGreatest(
      catalog.source, s, collection, already, ProjectionReplay.Raws(entries[..n]), now);
  }

  /**
    A completed rebuild of a scope at rest is invisible: no document, checkpoint, inbox row or audit entry changes. It
    may be a retry whose collection readers use already; what is asked of the records holds in every allowed run.
   */
  lemma CompletedKeepsView(
    s: Store, s': Store, log: seq<ProjectionPipeline.Application>, scope: Scope, collection: string,
    operationId: string, catalog: Catalog, answers: Answers, now: int)
    requires ProjectionPipeline.StoreSafe(s, log) && ProjectionPipeline.StoreFollows(s, log)
    requires ProjectionRefinement.StoreRouted(catalog.source, s) && ProjectionRefinement.LogRouted(catalog.source, log)
    requires ProjectionRefinement.UniqueVersions(catalog.source)
    requires ProjectionReplay.RecordVersionsIncrease(catalog.source)
    requires ListedAtRest(s, scope, answers) && ProjectionRebuild.RecordsJustified(s, log)
    requires Completed(s, s', scope, collection, operationId, catalog, answers, now)
    ensures s' == s.(records := s'.records, pointers := s'.pointers)
    ensures forall d :: Content(Visible(s', d)) == Content(Visible(s, d))
    ensures ProjectionRebuild.RecordsJustified(s', log) && ProjectionRebuild.HoldsLive(s', log, scope, collection)
  {
    var entries := answers.listed.value;
    var staged :| HasStaged(s, staged, collection, catalog, entries, |entries|, now)
                  && s' == Switched(staged, scope, collection, operationId, catalog, answers.again.value);
    ReplayAtRestIsUnseen(s, staged, log, scope, collection, catalog, answers, now);
    RestIsKept(s, staged, scope, answers);
    SwitchAtRestKeepsView(staged, log, scope, collection, operationId, catalog, answers);
    ProjectionRebuild.JustifiedFrame(staged, s', log);
  }

  lemma RestIsKept(s: Store, s': Store, scope: Scope, answers: Answers)
    requires ListedAtRest(s, scope, answers) && s' == s.(records := s'.records)
    ensures ListedAtRest(s', scope, answers)
  {
  }

  lemma ReplayAtRestIsUnseen(
    s: Store, staged: Store, log: seq<ProjectionPipeline.Application>, scope: Scope, collection: string,
    catalog: Catalog, answers: Answers, now: int)
    requires ProjectionPipeline.StoreSafe(s, log) && ProjectionPipeline.StoreFollows(s, log)
    requires ProjectionRefinement.StoreRouted(catalog.source, s) && ProjectionRefinement.LogRouted(catalog.source, log)
    requires ProjectionRefinement.UniqueVersions(catalog.source)
    requires ProjectionReplay.RecordVersionsIncrease(catalog.source)
    requires ListedAtRest(s, scope, answers) && ProjectionRebuild.RecordsJustified(s, log)
    requires HasStaged(s, staged, collection, catalog, answers.listed.value, |answers.listed.value|, now)
    ensures staged == s.(records := staged.records) && forall d :: Visible(staged, d) == Visible(s, d)
    ensures ProjectionPipeline.StoreSafe(staged, log) && ProjectionPipeline.StoreFollows(staged, log)
    ensures ProjectionRefinement.StoreRouted(catalog.source, staged)
    ensures ProjectionRebuild.RecordsJustified(staged, log)
    ensures ProjectionRebuild.HoldsLive(staged, log, scope, collection)
  {
    var entries := answers.listed.value;
    assert entries[..|entries|] == entries;
    ProjectionRebuild.RestReplaysUnseen(catalog.source, s, log, scope, entries, collection, now);
    ProjectionRebuild.UnseenWritesKeepStore(catalog.source, s, staged, log);
  }

  lemma SwitchAtRestKeepsView(
    s: Store, log: seq<ProjectionPipeline.Application>, scope: Scope, collection: string, operationId: string,
    catalog: Catalog, answers: Answers)
    requires ProjectionPipeline.StoreSafe(s, log) && ProjectionPipeline.StoreFollows(s, log)
    requires ProjectionRefinement.StoreRouted(catalog.source, s) && ProjectionRefinement.LogRouted(catalog.source, log)
    requires ProjectionRefinement.UniqueVersions(catalog.source)
    requires ListedAtRest(s, scope, answers) && ProjectionRebuild.HoldsLive(s, log, scope, collection)
    ensures var s' := Switched(s, scope, collection, operationId, catalog, answers.again.value);
            && s' == s.(pointers := s'.pointers)
            && (forall d :: Content(Visible(s', d)) == Content(Visible(s, d)))
  {
    ProjectionReplay.LatestOfIsLatest(answers.again.value);
    ProjectionRebuild.QuiescentSwitchKeepsView(
      catalog.source, s, log, scope, answers.again.value, collection, Tables(catalog),
      ReadPointer(catalog.generation.id, collection, operationId), ProjectionReplay.LatestOf(answers.again.value));
  }

  // ----------------------------------------------------------- the third rebuild

  /**
    Every rebuild names the summary tables, and a table can be switched twice. In whatever run of the projection, once
    two rebuilds of a workspace have switched its pointers, every further attempt that nobody cancels ends as failed.
   */
  lemma ThirdRebuildFails(
    steps: seq<ProjectionPipeline.Step>, scope: Scope, built: Option<Catalog>, answers: Answers)
    ensures var s := ProjectionPipeline.Run(ProjectionPipeline.Genesis, steps).store;
            && (ProjectionSwitch.RebuildCount(steps, scope) == 2 ==> Verdict(true, s, scope, built, answers) == Failed)
            && (Verdict(true, s, scope, built, answers) == Succeeded ==>
                  ProjectionSwitch.RebuildCount(steps, scope) < 2)
  {
    if built.Some? {
      ProjectionSwitch.ThirdRebuildIsRefused(
        steps, scope, ProjectionDatabase.Elements(built.value.mapped), ReadPointer("", "", ""), map[]);
    }
  }

  // -------------------------------------------------------- a refused entry

  /** A replay of a complete listing needs every archived event of the scope to be accepted. */
  lemma ReplayNeedsEveryEntry(s: Store, scope: Scope, catalog: Catalog, answers: Answers, k: MessageKey)
    requires k in s.archive && ProjectionReplay.InScope(scope, s.archive[k]) && Replays(catalog, answers)
    requires ProjectionReplay.Lists(s, scope, answers.listed.value)
    ensures s.archive[k].raw in catalog.source.route
  {
    var i :| 0 <= i < |answers.listed.value| && answers.listed.value[i] == s.archive[k];
    assert Accepts(catalog, answers, i, answers.listed.value[i]);
  }

  /**
    The handler archives a message before its mapping accepts it, and the archive is append-only. So once an event of a
    workspace is archived that the generation does not accept, then after whatever further steps an attempt nobody
    cancels ends as failed: its listing fails, or is complete and names the event. Only another generation helps.
   */
  lemma RefusedEntryFailsRebuilds(
    w: ProjectionPipeline.World, steps: seq<ProjectionPipeline.Step>, k: MessageKey, scope: Scope,
    built: Option<Catalog>, answers: Answers)
    requires k in w.store.archive && ProjectionReplay.InScope(scope, w.store.archive[k])
    requires built.Some? ==> w.store.archive[k].raw !in built.value.source.route
    requires answers.listed.Some? ==>
               ProjectionReplay.Lists(ProjectionPipeline.Run(w, steps).store, scope, answers.listed.value)
    ensures Verdict(true, ProjectionPipeline.Run(w, steps).store, scope, built, answers) == Failed
  {
    var s := ProjectionPipeline.Run(w, steps).store;
    ProjectionPipeline.RunKeepsArchive(w, steps, k);
    if built.Some? && Replays(built.value, answers) {
      ReplayNeedsEveryEntry(s, scope, built.value, answers, k);
      assert false;
    }
  }

  /**
    A completed rebuild is what the actions of the interleaved machine do: a listing, the staging of every entry, and a
    switch.
   */
  lemma CompletedIsActions(
    actions: seq<ProjectionRebuild.Action>, s': Store, scope: Scope, collection: string, operationId: string,
    catalog: Catalog, answers: Answers, now: int, id: nat)
    requires id !in ProjectionRebuild.RunActions(catalog.source, actions).attempts
    requires Completed(ProjectionRebuild.RunActions(catalog.source, actions).world.store, s', scope, collection,
                       operationId, catalog, answers, now)
    ensures var entries, again := answers.listed.value, answers.again.value;
            var attempt := ProjectionRebuild.AttemptActions(id, scope, collection, entries, |entries|, now);
            var switch := ProjectionRebuild.Switch(
                            id, Tables(catalog), ReadPointer(catalog.generation.id, collection, operationId), again,
                            ProjectionReplay.LatestOf(again));
            && ProjectionRebuild.RunActions(catalog.source, actions + (attempt + [switch])).world.store == s'
            && ProjectionReplay.AreLatest(again, ProjectionReplay.LatestOf(again))
  {
    var entries, again := answers.listed.value, answers.again.value;
    assert entries[..|entries|] == entries;
    assert forall i :: 0 <= i < |entries| ==> Accepts(catalog, answers, i, entries[i]);
    ProjectionReplay.LatestOfIsLatest(again);
    ProjectionRebuild.AttemptSwitches(
      catalog.source, actions, scope, collection, entries, now,
      ProjectionRebuild.Switch(id, Tables(catalog), ReadPointer(catalog.generation.id, collection, operationId), again,
                               ProjectionReplay.LatestOf(again)));
  }
}
