/**
  The live projection refines an in-order fold of the source's history, whatever the deliveries.

  The source promises one event for each version of an aggregate; the mapping generation in force is a
  fixed routing of the events it publishes.
 */
module ProjectionRefinement {
  import opened Common
  import opened ProjectionStore
  import opened ProjectionPipeline

  /** The publishable events and where the mapping generation sends each; any other message is refused. */
  datatype Source = Source(route: map<Envelope, Target>)

  function AggregateIn(source: Source, e: Envelope): AggregateKey
    requires e in source.route
  {
    AggregateOf(e, source.route[e].workspaceId)
  }

  /** The source contract: one event for each version of an aggregate. */
  ghost predicate UniqueVersions(source: Source) {
    forall e, f ::
      (e in source.route && f in source.route && AggregateIn(source, e) == AggregateIn(source, f)
       && e.aggregateVersion == f.aggregateVersion)
      ==> e == f
  }

  /** A step in which the mapping lookup answers as the generation says. */
  predicate Admissible(source: Source, w: World, step: Step) {
    step.RouteAndArchive? && step.id in w.tasks ==>
      var e := w.tasks[step.id].delivery.message;
      if e in source.route then step.routing == RoutedTo(source.route[e]) else !step.routing.RoutedTo?
  }

  ghost predicate AdmissibleRun(source: Source, steps: seq<Step>)
    decreases |steps|
  {
    steps == []
    || (AdmissibleRun(source, steps[..|steps| - 1])
        && !IsRebuildStep(Last(steps))
        && Admissible(source, Run(Genesis, steps[..|steps| - 1]), Last(steps)))
  }

  // ------------------------------------ everything in the store is the source's

  predicate Routed(source: Source, e: Envelope, t: Target) {
    e in source.route && source.route[e] == t
  }

  predicate TaskRouted(source: Source, task: Task) {
    (task.stage.Archived? || task.stage.Claiming?) ==> Routed(source, task.delivery.message, task.stage.target)
  }

  predicate RowRouted(source: Source, row: InboxRow) {
    row.digest in source.route && row.workspaceId == source.route[row.digest].workspaceId
  }

  predicate EntryRouted(source: Source, entry: ArchiveEntry) {
    entry.raw in source.route ==> entry.workspaceId == source.route[entry.raw].workspaceId
  }

  ghost predicate LogRouted(source: Source, log: seq<Application>) {
    forall i :: 0 <= i < |log| ==> Routed(source, log[i].e, log[i].t)
  }

  ghost predicate StoreRouted(source: Source, s: Store) {
    && (forall k :: k in s.inbox ==> RowRouted(source, s.inbox[k]))
    && (forall k :: k in s.archive ==> EntryRouted(source, s.archive[k]))
  }

  ghost predicate FromSource(source: Source, w: World) {
    && (forall id :: id in w.tasks ==> TaskRouted(source, w.tasks[id]))
    && StoreRouted(source, w.store)
    && LogRouted(source, w.applied)
  }

  lemma RouteFromSource(source: Source, w: World, id: nat, routing: Routing, now: int)
    requires FromSource(source, w) && id in w.tasks && Admissible(source, w, RouteAndArchive(id, routing, now))
    ensures FromSource(source, Route(w, id, routing, now))
  {
    var w' := Route(w, id, routing, now);
    var workspaceId := match routing case RoutedTo(t) => t.workspaceId case _ => "";
    assert EntryRouted(source, ArchiveEntry(w.tasks[id].delivery.message, "", workspaceId, 0));
    forall other | other in w'.tasks ensures TaskRouted(source, w'.tasks[other]) {
      assert TaskRouted(source, w.tasks[other]);
    }
  }

  lemma ClaimFromSource(source: Source, w: World, id: nat, now: int)
    requires FromSource(source, w) && id in w.tasks && w.tasks[id].stage.Archived?
    ensures FromSource(source, Claim(w, id, now))
  {
    var w' := Claim(w, id, now);
    assert TaskRouted(source, w.tasks[id]);
    forall other | other in w'.tasks ensures TaskRouted(source, w'.tasks[other]) {
      assert TaskRouted(source, w.tasks[other]);
    }
  }

  lemma ApplyStoreRouted(source: Source, s: Store, row: InboxRow, e: Envelope, t: Target, now: int)
    requires StoreRouted(source, s)
    ensures StoreRouted(source, AfterApply(s, row, e, t, now))
  {
    ApplyShape(s, row, e, t, now);
  }

  lemma CommitFromSource(source: Source, w: World, id: nat, now: int, lost: bool)
    requires FromSource(source, w) && id in w.tasks && w.tasks[id].stage.Claiming?
    ensures FromSource(source, Commit(w, id, now, lost))
  {
    var w' := Commit(w, id, now, lost);
    var stage := w.tasks[id].stage;
    assert TaskRouted(source, w.tasks[id]);
    ApplyStoreRouted(source, w.store, stage.row, w.tasks[id].delivery.message, stage.target, now);
    forall other | other in w'.tasks ensures TaskRouted(source, w'.tasks[other]) {
      assert TaskRouted(source, w.tasks[other]);
    }
  }

  lemma NextFromSource(source: Source, w: World, step: Step)
    requires FromSource(source, w) && Admissible(source, w, step) && !IsRebuildStep(step)
    ensures FromSource(source, Next(w, step))
  {
    match step
    case RouteAndArchive(id, routing, now) =>
      if id in w.tasks && w.tasks[id].stage == Received { RouteFromSource(source, w, id, routing, now); }
    case ClaimInbox(id, now) =>
      if id in w.tasks && w.tasks[id].stage.Archived? { ClaimFromSource(source, w, id, now); }
    case CommitApply(id, now, lost) =>
      if id in w.tasks && w.tasks[id].stage.Claiming? { CommitFromSource(source, w, id, now, lost); }
    case _ => QueueStepFromSource(source, w, step);
  }

  lemma QueueStepFromSource(source: Source, w: World, step: Step)
    requires FromSource(source, w) && (step.Deliver? || step.Interrupt? || step.Crash? || step.Settle?)
    ensures FromSource(source, Next(w, step))
  {
    var w' := Next(w, step);
    forall id | id in w'.tasks ensures TaskRouted(source, w'.tasks[id]) {
      if id in w.tasks { assert TaskRouted(source, w.tasks[id]); }
    }
  }

  lemma {:induction false} AdmissibleRunIsSound(source: Source, steps: seq<Step>)
    requires AdmissibleRun(source, steps)
    ensures Sound(Run(Genesis, steps)) && FromSource(source, Run(Genesis, steps))
    decreases |steps|
  {
    if steps == [] {
      GenesisIsSound();
    } else {
      var before := Run(Genesis, steps[..|steps| - 1]);
      AdmissibleRunIsSound(source, steps[..|steps| - 1]);
      NextIsSafe(before, Last(steps));
      NextFromSource(source, before, Last(steps));
    }
  }

  // --------------------------------------------------- the in-order reference

  /** The aggregate a document belongs to. */
  function OwnerOf(d: DocumentKey): AggregateKey {
    AggregateKey(d.id.tenantId, d.id.workspaceId, ConsumerForSource(d.id.sourceSystem), d.id.sourceSystem,
                 d.id.aggregateType, d.id.aggregateId)
  }

  /** A history lists an aggregate's events by version, from version one. */
  ghost predicate IsHistory(source: Source, a: AggregateKey, history: seq<Envelope>) {
    forall i :: 0 <= i < |history| ==>
      history[i] in source.route && AggregateIn(source, history[i]) == a && history[i].aggregateVersion == i + 1
  }

  /** Applying a history one event after the other, each overwriting its document. */
  function FoldInOrder(source: Source, history: seq<Envelope>, d: DocumentKey): Option<Record>
    requires forall e :: e in history ==> e in source.route
    decreases |history|
  {
    if history == [] then None
    else
      var e := Last(history);
      if DocumentOf(e, source.route[e]) == d then Some(ImageOf(e, source.route[e], 0))
      else FoldInOrder(source, history[..|history| - 1], d)
  }

  function EventsOf(log: seq<Application>): seq<Envelope> {
    seq(|log|, i requires 0 <= i < |log| => log[i].e)
  }

  /** Only its owner's events ever write a document. */
  lemma {:induction false} OwnerWrites(log: seq<Application>, d: DocumentKey)
    ensures LastWrite(log, d) == LastWrite(OfAggregate(log, OwnerOf(d)), d)
    decreases |log|
  {
    if log != [] {
      OwnerWrites(log[..|log| - 1], d);
      var rest := OfAggregate(log[..|log| - 1], OwnerOf(d));
      if AggregateOf(Last(log).e, Last(log).t.workspaceId) == OwnerOf(d) {
        LastWriteAppend(rest, Last(log), d);
      }
    }
  }

  lemma {:induction false} OfAggregateSubset(log: seq<Application>, a: AggregateKey)
    ensures forall x :: x in OfAggregate(log, a) ==> x in log && AggregateOf(x.e, x.t.workspaceId) == a
    decreases |log|
  {
    if log != [] { OfAggregateSubset(log[..|log| - 1], a); }
  }

  lemma {:induction false} OfAggregateComplete(log: seq<Application>, x: Application)
    requires x in log
    ensures x in OfAggregate(log, AggregateOf(x.e, x.t.workspaceId))
    decreases |log|
  {
    if x != Last(log) {
      assert x in log[..|log| - 1];
      OfAggregateComplete(log[..|log| - 1], x);
    }
  }

  lemma {:induction false} LastWriteIsFold(source: Source, log: seq<Application>, d: DocumentKey)
    requires LogRouted(source, log)
    ensures forall e :: e in EventsOf(log) ==> e in source.route
    ensures Content(LastWrite(log, d)) == FoldInOrder(source, EventsOf(log), d)
    decreases |log|
  {
    if log != [] {
      LastWriteIsFold(source, log[..|log| - 1], d);
      assert EventsOf(log)[..|log| - 1] == EventsOf(log[..|log| - 1]);
    }
  }

  /** What has been applied of an aggregate is exactly the start of its history. */
  lemma AppliedIsHistory(source: Source, s: Store, log: seq<Application>, a: AggregateKey, history: seq<Envelope>)
    requires CheckpointsFollow(s, log) && LogRouted(source, log) && UniqueVersions(source)
    requires IsHistory(source, a, history) && VersionOf(s, a) <= |history|
    ensures VersionOf(s, a) >= 0 && EventsOf(OfAggregate(log, a)) == history[..VersionOf(s, a)]
    ensures LogRouted(source, OfAggregate(log, a))
  {
    assert AppliedInOrder(s, log, a);
    OfAggregateSubset(log, a);
    var own := OfAggregate(log, a);
    forall i | 0 <= i < |own| ensures Routed(source, own[i].e, own[i].t) && own[i].e == history[i] {
      assert own[i] in own;
    }
  }

  /** Of the events of the history the one at place i was the last to write the document. */
  ghost predicate IsNewestOf(source: Source, history: seq<Envelope>, i: int, d: DocumentKey) {
    && 0 <= i < |history| && history[i] in source.route && IsPlaceOf(d, history[i], source.route[history[i]])
    && forall j :: i < j < |history| && history[j] in source.route ==>
         !IsPlaceOf(d, history[j], source.route[history[j]])
  }

  /** No event of the history writes the document. */
  ghost predicate IsUnwritten(source: Source, history: seq<Envelope>, d: DocumentKey) {
    forall j :: 0 <= j < |history| && history[j] in source.route ==>
      !IsPlaceOf(d, history[j], source.route[history[j]])
  }

  /** Field by field, the fold holds what the newest event of a document says, and nothing where there is none. */
  lemma {:induction false} FoldSaysNewest(source: Source, history: seq<Envelope>, i: int, d: DocumentKey)
    requires forall e :: e in history ==> e in source.route
    ensures IsUnwritten(source, history, d) ==> FoldInOrder(source, history, d) == None
    ensures IsNewestOf(source, history, i, d) ==>
              && FoldInOrder(source, history, d).Some?
              && Says(FoldInOrder(source, history, d).value, history[i], source.route[history[i]])
    decreases |history|
  {
    if history != [] {
      var e := Last(history);
      PlaceIsDocument(d, e, source.route[e]);
      assert history[|history| - 1] == e;
      if DocumentOf(e, source.route[e]) != d { FoldSaysNewest(source, history[..|history| - 1], i, d); }
    }
  }

  /** What readers see of an aggregate's documents after the events of a history, field by field. */
  ghost predicate ShowsHistory(source: Source, s: Store, history: seq<Envelope>, a: AggregateKey) {
    && (forall d, i :: OwnerOf(d) == a && IsNewestOf(source, history, i, d) ==>
          Shows(s, d, history[i], source.route[history[i]]))
    && (forall d :: OwnerOf(d) == a && IsUnwritten(source, history, d) ==> Visible(s, d) == None)
  }

  lemma FoldShows(source: Source, s: Store, history: seq<Envelope>, a: AggregateKey)
    requires forall e :: e in history ==> e in source.route
    requires forall d :: OwnerOf(d) == a ==> Content(Visible(s, d)) == FoldInOrder(source, history, d)
    ensures ShowsHistory(source, s, history, a)
  {
    forall d, i | OwnerOf(d) == a && IsNewestOf(source, history, i, d)
      ensures Shows(s, d, history[i], source.route[history[i]])
    {
      FoldSaysNewest(source, history, i, d);
    }
    forall d | OwnerOf(d) == a && IsUnwritten(source, history, d) ensures Visible(s, d) == None {
      FoldSaysNewest(source, history, 0, d);
    }
  }

  /** The latest event of a history is the newest of its document. */
  lemma LatestIsShown(source: Source, s: Store, history: seq<Envelope>, a: AggregateKey, d: DocumentKey)
    requires ShowsHistory(source, s, history, a) && history != [] && Last(history) in source.route
    requires AggregateIn(source, Last(history)) == a && IsPlaceOf(d, Last(history), source.route[Last(history)])
    ensures Shows(s, d, Last(history), source.route[Last(history)])
  {
    assert IsNewestOf(source, history, |history| - 1, d);
  }

  /**
    The refinement. Take any run: deliveries in any order, duplicated, retried, interleaved between
    workers, crashed, with responses lost after the commit. If the checkpoint of an aggregate is at
    version v, events 1 to v of its history have been applied, once each and in that order, the
    checkpoint names event v, and each of its documents is what the in-order fold of those v events
    leaves: field by field what the newest of them that writes it says, and event v is shown.
   */
  lemma RunRefinesInOrderFold(source: Source, steps: seq<Step>, a: AggregateKey, history: seq<Envelope>)
    requires AdmissibleRun(source, steps) && UniqueVersions(source)
    requires IsHistory(source, a, history) && VersionOf(Run(Genesis, steps).store, a) <= |history|
    ensures var w := Run(Genesis, steps);
            var v := VersionOf(w.store, a);
            && 0 <= v && EventsOf(OfAggregate(w.applied, a)) == history[..v]
            && AuditFollows(w.store, w.applied)
            && (a in w.store.checkpoints ==> v > 0 && w.store.checkpoints[a].lastEventId == history[v - 1].eventId)
            && (forall d :: OwnerOf(d) == a ==> Content(Visible(w.store, d)) == FoldInOrder(source, history[..v], d))
            && ShowsHistory(source, w.store, history[..v], a)
            && (v > 0 ==> ShowsEvent(w.store, history[v - 1], source.route[history[v - 1]]))
  {
    var w := Run(Genesis, steps);
    AdmissibleRunIsSound(source, steps);
    StoreIsInOrderFold(source, w.store, w.applied, a, history);
    StoreShowsLatest(source, w.store, w.applied, a, history);
  }

  lemma StoreShowsLatest(source: Source, s: Store, log: seq<Application>, a: AggregateKey, history: seq<Envelope>)
    requires StoreFollows(s, log) && LogRouted(source, log) && UniqueVersions(source)
    requires IsHistory(source, a, history) && VersionOf(s, a) <= |history|
    ensures var v := VersionOf(s, a);
            && 0 <= v && ShowsHistory(source, s, history[..v], a)
            && (v > 0 ==> ShowsEvent(s, history[v - 1], source.route[history[v - 1]]))
  {
    StoreIsInOrderFold(source, s, log, a, history);
    var applied := history[..VersionOf(s, a)];
    FoldShows(source, s, applied, a);
    if applied != [] {
      forall d | IsPlaceOf(d, Last(applied), source.route[Last(applied)])
        ensures Shows(s, d, Last(applied), source.route[Last(applied)])
      {
        LatestIsShown(source, s, applied, a, d);
      }
    }
  }

  lemma StoreIsInOrderFold(source: Source, s: Store, log: seq<Application>, a: AggregateKey, history: seq<Envelope>)
    requires StoreFollows(s, log) && LogRouted(source, log) && UniqueVersions(source)
    requires IsHistory(source, a, history) && VersionOf(s, a) <= |history|
    ensures var v := VersionOf(s, a);
            && 0 <= v && EventsOf(OfAggregate(log, a)) == history[..v]
            && (a in s.checkpoints ==> v > 0 && s.checkpoints[a].lastEventId == history[v - 1].eventId)
            && (forall d :: OwnerOf(d) == a ==> Content(Visible(s, d)) == FoldInOrder(source, history[..v], d))
  {
    AppliedIsHistory(source, s, log, a, history);
    var v := VersionOf(s, a);
    var own := OfAggregate(log, a);
    assert AppliedInOrder(s, log, a);
    if a in s.checkpoints {
      assert EventsOf(own)[v - 1] == own[v - 1].e;
    }
    forall d | OwnerOf(d) == a ensures Content(Visible(s, d)) == FoldInOrder(source, history[..v], d) {
      assert Content(Visible(s, d)) == Content(LastWrite(log, d));
      OwnerWrites(log, d);
      LastWriteIsFold(source, own, d);
    }
  }

  /** Two runs that bring an aggregate to the same version leave its documents the same, whatever else differs. */
  lemma RunsAgree(source: Source, one: seq<Step>, two: seq<Step>, a: AggregateKey)
    requires AdmissibleRun(source, one) && AdmissibleRun(source, two) && UniqueVersions(source)
    requires VersionOf(Run(Genesis, one).store, a) == VersionOf(Run(Genesis, two).store, a)
    ensures forall d :: OwnerOf(d) == a ==>
              Content(Visible(Run(Genesis, one).store, d)) == Content(Visible(Run(Genesis, two).store, d))
  {
    var w := Run(Genesis, one);
    AdmissibleRunIsSound(source, one);
    var own := OfAggregate(w.applied, a);
    assert AppliedInOrder(w.store, w.applied, a);
    OfAggregateSubset(w.applied, a);
    var history := EventsOf(own);
    forall i | 0 <= i < |history|
      ensures history[i] in source.route && AggregateIn(source, history[i]) == a && history[i].aggregateVersion == i + 1
    {
      assert own[i] in w.applied;
    }
    RunRefinesInOrderFold(source, one, a, history);
    RunRefinesInOrderFold(source, two, a, history);
  }

  /**
    Acknowledgement is safe. Once a message is acknowledged its inbox row is applied, and from then on,
    whatever happens, pointer activations included, the row stays applied and the checkpoint of its
    aggregate stays at or above its version. A terminated message has a published dead letter.
   */
  lemma AcknowledgedStaysCovered(steps: seq<Step>, more: seq<Step>, e: Envelope)
    requires e in Run(Genesis, steps).acked
    ensures var later := Run(Genesis, steps + more).store;
            && RowIsApplied(later, e)
            && VersionOf(later, AggregateOf(e, later.inbox[KeyOf(e)].workspaceId)) >= e.aggregateVersion >= 1
    ensures Run(Genesis, steps + more).terminated <= Run(Genesis, steps + more).deadLetters
  {
    AckedOnlyGrows(steps, more);
    RunIsSafe(steps + more);
    assert RowJustified(Run(Genesis, steps + more).store, KeyOf(e));
  }

  lemma {:induction false} AckedOnlyGrows(steps: seq<Step>, more: seq<Step>)
    ensures Run(Genesis, steps).acked <= Run(Genesis, steps + more).acked
    decreases |more|
  {
    if more == [] {
      assert steps + more == steps;
    } else {
      AckedOnlyGrows(steps, more[..|more| - 1]);
      assert (steps + more)[..|steps + more| - 1] == steps + more[..|more| - 1];
      NextKeepsAcks(Run(Genesis, steps + more[..|more| - 1]), Last(more));
    }
  }

  lemma NextKeepsAcks(w: World, step: Step)
    ensures w.acked <= Next(w, step).acked
  {
  }

  // ------------------------------------------------- undisturbed deliveries

  /** The steps of an undisturbed delivery up to the claim. */
  function CleanClaim(w: World, id: nat, d: Delivery, t: Target, now: int): World {
    Next(Next(Next(w, Deliver(id, d)), RouteAndArchive(id, RoutedTo(t), now)), ClaimInbox(id, now))
  }

  /** All five steps of an undisturbed delivery, settled with a limit on the attempts. */
  function LimitedDelivery(
    w: World, id: nat, d: Delivery, t: Target, now: int, maxDeliver: int, reply: DeadLetterReply): World
  {
    Next(Next(CleanClaim(w, id, d, t, now), CommitApply(id, now, false)), Settle(id, maxDeliver, reply))
  }

  /** A delivery at its last attempt, without dead letters. */
  function CleanDelivery(w: World, id: nat, d: Delivery, t: Target, now: int): World {
    LimitedDelivery(w, id, d, t, now, 1, NoDeadLetters)
  }

  lemma CleanRouting(w: World, id: nat, d: Delivery, t: Target, now: int)
    requires id !in w.tasks && Deliverable(w.store, d.message, t)
    ensures Next(Next(w, Deliver(id, d)), RouteAndArchive(id, RoutedTo(t), now))
         == w.(store := AfterArchive(w.store, d.message, d.subject, t.workspaceId, now),
               tasks := w.tasks[id := Task(d, Archived(t))])
  {
    assert Next(w, Deliver(id, d)).tasks == w.tasks[id := Task(d, Received)];
  }

  /** An undisturbed delivery that reaches the transaction carries the row it claimed. */
  lemma CleanClaimIs(w: World, id: nat, d: Delivery, t: Target, now: int)
    requires id !in w.tasks && Deliverable(w.store, d.message, t)
    ensures var e := d.message;
            var s := AfterClaim(AfterArchive(w.store, e, d.subject, t.workspaceId, now), e, d.subject, t.workspaceId,
                                now);
            && KeyOf(e) in s.inbox
            && CleanClaim(w, id, d, t, now)
               == w.(store := s, tasks := w.tasks[id := Task(d, Claiming(t, s.inbox[KeyOf(e)]))])
  {
    var archived := w.(store := AfterArchive(w.store, d.message, d.subject, t.workspaceId, now),
                       tasks := w.tasks[id := Task(d, Archived(t))]);
    CleanRouting(w, id, d, t, now);
    ClaimOfDeliverable(w.store, d.message, t, d.subject, now);
    var c := Claim(archived, id, now);
    assert c.tasks == w.tasks[id := c.tasks[id]];
  }

  /** What an early delivery leaves: the message waits, and nothing is settled or written. */
  ghost predicate Waits(w: World, w': World, e: Envelope, t: Target) {
    w' == w.(store := w'.store) && StoreWaits(w.store, w'.store, e, t)
  }

  /** The store treats the message by its version. */
  lemma DeliveryTreats(w: World, id: nat, d: Delivery, t: Target, now: int, maxDeliver: int, reply: DeadLetterReply)
    requires id !in w.tasks && Deliverable(w.store, d.message, t)
    ensures Treated(w.store, LimitedDelivery(w, id, d, t, now, maxDeliver, reply).store, d.message, t, now)
  {
    var c := CleanClaim(w, id, d, t, now);
    CleanClaimIs(w, id, d, t, now);
    ClaimOfDeliverable(w.store, d.message, t, d.subject, now);
    ApplyTreats(w.store, c.store, c.tasks[id].stage.row, d.message, t, now);
  }

  lemma CleanCommitIs(w: World, id: nat, d: Delivery, t: Target, now: int)
    requires id !in w.tasks && Deliverable(w.store, d.message, t)
    ensures var e := d.message;
            var committed := Next(CleanClaim(w, id, d, t, now), CommitApply(id, now, false));
            var ends := ComesNext(w.store, e, t) || ComesLate(w.store, e, t);
            && committed == w.(store := committed.store, tasks := committed.tasks, applied := committed.applied)
            && committed.tasks.Keys == w.tasks.Keys + {id} && committed.tasks - {id} == w.tasks
            && committed.applied
               == (if ComesNext(w.store, e, t) then w.applied + [Application(e, t, now)] else w.applied)
            && (ends ==> committed.tasks[id] == Task(d, Returned(Success)))
            && (ComesEarly(w.store, e, t) ==> committed.tasks[id] == Task(d, Returned(Transient)))
  {
    var c := CleanClaim(w, id, d, t, now);
    CleanClaimIs(w, id, d, t, now);
    ClaimOfDeliverable(w.store, d.message, t, d.subject, now);
    EndIs(c.store, c.tasks[id].stage.row, d.message, t);
  }

  /** A returned delivery that succeeded is acknowledged, one that is to be tried again is handed back. */
  lemma SettlingIs(v: World, id: nat, d: Delivery, maxDeliver: int, reply: DeadLetterReply)
    requires id in v.tasks
    ensures var v' := Next(v, Settle(id, maxDeliver, reply));
            && (v.tasks[id] == Task(d, Returned(Success)) ==>
                  v' == v.(tasks := v.tasks - {id}, acked := v.acked + {d.message}))
            && (v.tasks[id] == Task(d, Returned(Transient)) && 1 < maxDeliver && d.attempts < maxDeliver ==>
                  v' == v.(tasks := v.tasks - {id}))
  {
  }

  /** And so do queue and history. */
  lemma DeliverySettles(w: World, id: nat, d: Delivery, t: Target, now: int, maxDeliver: int, reply: DeadLetterReply)
    requires id !in w.tasks && Deliverable(w.store, d.message, t)
    ensures var w', e := LimitedDelivery(w, id, d, t, now, maxDeliver, reply), d.message;
            && (ComesNext(w.store, e, t) ==>
                  w' == w.(store := w'.store, acked := w.acked + {e}, applied := w.applied + [Application(e, t, now)]))
            && (ComesLate(w.store, e, t) ==> w' == w.(store := w'.store, acked := w.acked + {e}))
            && (ComesEarly(w.store, e, t) && 1 < maxDeliver && d.attempts < maxDeliver ==>
                  w' == w.(store := w'.store))
  {
    CleanCommitIs(w, id, d, t, now);
    SettlingIs(Next(CleanClaim(w, id, d, t, now), CommitApply(id, now, false)), id, d, maxDeliver, reply);
  }

  /**
    Nothing gets stuck: from any world, one undisturbed delivery of the next version is acknowledged, moves
    the checkpoint to it, shows what the event says and audits it. An earlier attempt may have left the message
    archived or its inbox row claimed.
   */
  lemma CleanDeliveryAdvances(w: World, id: nat, d: Delivery, t: Target, now: int)
    requires id !in w.tasks && ComesNext(w.store, d.message, t)
    ensures var w' := CleanDelivery(w, id, d, t, now);
            && w' == w.(store := w'.store, acked := w.acked + {d.message},
                        applied := w.applied + [Application(d.message, t, now)])
            && StoreAdvances(w.store, w'.store, d.message, t, now)
  {
    DeliveryTreats(w, id, d, t, now, 1, NoDeadLetters);
    DeliverySettles(w, id, d, t, now, 1, NoDeadLetters);
  }

  /** An event that comes early is handed back: it waits, and is neither dead-lettered nor written. */
  lemma EarlyDeliveryWaits(
    w: World, id: nat, d: Delivery, t: Target, now: int, maxDeliver: int, reply: DeadLetterReply)
    requires id !in w.tasks && ComesEarly(w.store, d.message, t) && 1 < maxDeliver && d.attempts < maxDeliver
    ensures Waits(w, LimitedDelivery(w, id, d, t, now, maxDeliver, reply), d.message, t)
  {
    DeliveryTreats(w, id, d, t, now, maxDeliver, reply);
    DeliverySettles(w, id, d, t, now, maxDeliver, reply);
  }

  /** A store in which only another message was treated takes a message as before. */
  lemma StaysDeliverable(s: Store, s': Store, e: Envelope, other: Envelope, u: Target)
    requires OthersWait(s, s', e) && KeyOf(other) != KeyOf(e) && Deliverable(s, other, u)
    ensures Deliverable(s', other, u)
  {
    assert Lookup(s'.inbox, KeyOf(other)) == Lookup(s.inbox, KeyOf(other));
    assert Lookup(s'.archive, KeyOf(other)) == Lookup(s.archive, KeyOf(other));
  }

  /**
    Reordering heals. Of two consecutive events of an aggregate the later one is delivered first, then the earlier one,
    then the later one again: the checkpoint is at the later version, and readers see what the later event says.
   */
  lemma ReorderedDeliveriesConverge(
    w: World, id: nat, d: Delivery, later: Delivery, t: Target, u: Target, now: int, maxDeliver: int,
    reply: DeadLetterReply)
    requires id !in w.tasks && 1 < maxDeliver && later.attempts < maxDeliver
    requires ComesNext(w.store, d.message, t) && Deliverable(w.store, later.message, u)
    requires AggregateOf(d.message, t.workspaceId) == AggregateOf(later.message, u.workspaceId)
    requires later.message.aggregateVersion == d.message.aggregateVersion + 1
    requires KeyOf(d.message) != KeyOf(later.message)
    requires ActiveCollection(w.store, later.message.tenantId, u.workspaceId, u.tableId) != ""
    ensures var w1 := LimitedDelivery(w, id, later, u, now, maxDeliver, reply);
            var w2 := CleanDelivery(w1, id, d, t, now);
            var w3 := CleanDelivery(w2, id, later, u, now);
            && Waits(w, w1, later.message, u)
            && w3 == w.(store := w3.store, acked := w.acked + {d.message, later.message},
                        applied := w.applied + [Application(d.message, t, now), Application(later.message, u, now)])
            && VersionOf(w3.store, AggregateOf(d.message, t.workspaceId)) == later.message.aggregateVersion
            && ShowsEventSince(w3.store, later.message, u, now)
  {
    var w1 := LimitedDelivery(w, id, later, u, now, maxDeliver, reply);
    EarlyDeliveryWaits(w, id, later, u, now, maxDeliver, reply);
    StaysDeliverable(w.store, w1.store, later.message, d.message, t);
    var w2 := CleanDelivery(w1, id, d, t, now);
    CleanDeliveryAdvances(w1, id, d, t, now);
    StaysDeliverable(w1.store, w2.store, d.message, later.message, u);
    CleanDeliveryAdvances(w2, id, later, u, now);
  }

  /** The worker has claimed the message, whose row still waits. */
  predicate HasClaimed(w: World, id: nat, d: Delivery, t: Target, row: InboxRow) {
    && id in w.tasks && w.tasks[id] == Task(d, Claiming(t, row))
    && row.digest == d.message && MeetsRow(w.store, row, d.message, t, InboxProcessing)
  }

  /**
    Two workers race for the next event: the first commit applies it, whether or not its response is lost, and the
    second finds it applied, changes nothing and succeeds.
   */
  lemma RacingWorkersApplyOnce(
    w: World, i: nat, j: nat, d: Delivery, again: Delivery, t: Target, row: InboxRow, now: int, later: int, lost: bool)
    requires i != j && d.message == again.message && HasClaimed(w, i, d, t, row) && HasClaimed(w, j, again, t, row)
    requires d.message.aggregateVersion == VersionOf(w.store, AggregateOf(d.message, t.workspaceId)) + 1
    requires ActiveCollection(w.store, d.message.tenantId, t.workspaceId, t.tableId) != ""
    ensures var w1 := Next(w, CommitApply(i, now, lost));
            var w2 := Next(w1, CommitApply(j, later, false));
            && w2.store == w1.store && w2.applied == w.applied + [Application(d.message, t, now)]
            && ShowsEventSince(w2.store, d.message, t, now)
            && j in w2.tasks && w2.tasks[j] == Task(again, Returned(Success))
  {
    EndIs(w.store, row, d.message, t);
    ApplicationIs(w.store, row, d.message, t, now);
    EndIs(AfterApply(w.store, row, d.message, t, now), row, d.message, t);
  }
}
