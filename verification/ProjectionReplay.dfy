/**
  Rebuilding a projection: an archive is replayed into a staging collection under the "greatest record
  version wins" rule, and the read pointers are switched to it (rebuild.go, store.go, read_pointer.go).
 */
module ProjectionReplay {
  import opened Common
  import opened ProjectionStore
  import opened ProjectionPipeline
  import opened ProjectionRefinement

  // ------------------------------------------------------------ staged replay

  /** Replaying a list of routable events into a collection. */
  function Replay(source: Source, s: Store, collection: string, events: seq<Envelope>, now: int): Store
    requires forall e :: e in events ==> e in source.route
    decreases |events|
  {
    if events == [] then s
    else
      var e := Last(events);
      AfterStaging(Replay(source, s, collection, events[..|events| - 1], now), collection, e, source.route[e], now)
  }

  predicate Writes(source: Source, e: Envelope, d: DocumentKey) {
    e in source.route && DocumentOf(e, source.route[e]) == d
  }

  /** The staged document is the image of a greatest event written to it. */
  ghost predicate StagedIsGreatest(
    source: Source, s: Store, collection: string, events: set<Envelope>, d: DocumentKey)
  {
    var staged := Lookup(s.records, Address(collection, d));
    if staged == None then forall e :: e in events ==> !Writes(source, e, d)
    else exists e :: e in events && IsStagedImage(source, s, collection, events, d, e)
  }

  ghost predicate IsStagedImage(
    source: Source, s: Store, collection: string, events: set<Envelope>, d: DocumentKey, e: Envelope)
  {
    && Writes(source, e, d)
    && Content(Lookup(s.records, Address(collection, d))) == Some(ImageOf(e, source.route[e], 0))
    && forall f :: f in events && Writes(source, f, d) ==>
         source.route[f].recordVersion <= source.route[e].recordVersion
  }

  lemma StagingKeepsGreatest(
    source: Source, s: Store, collection: string, events: set<Envelope>, d: DocumentKey, e: Envelope, now: int)
    requires e in source.route && StagedIsGreatest(source, s, collection, events, d)
    ensures StagedIsGreatest(source, AfterStaging(s, collection, e, source.route[e], now), collection, events + {e}, d)
  {
    var s' := AfterStaging(s, collection, e, source.route[e], now);
    if Lookup(s.records, Address(collection, d)).Some? {
      var g :| g in events && IsStagedImage(source, s, collection, events, d, g);
      if Writes(source, e, d) && source.route[g].recordVersion < source.route[e].recordVersion {
        assert IsStagedImage(source, s', collection, events + {e}, d, e);
      } else {
        assert IsStagedImage(source, s', collection, events + {e}, d, g);
      }
    } else if Writes(source, e, d) {
      assert IsStagedImage(source, s', collection, events + {e}, d, e);
    }
  }

  function EventSet(events: seq<Envelope>): set<Envelope> {
    set e | e in events
  }

  /** The collection is what a replay of these events leaves, in whatever order and however often. */
  ghost predicate HoldsReplayOf(source: Source, s: Store, collection: string, events: set<Envelope>) {
    forall d :: StagedIsGreatest(source, s, collection, events, d)
  }

  ghost predicate IsEmpty(s: Store, collection: string) {
    forall a: Address :: a in s.records ==> a.collection != collection
  }

  lemma EmptyHoldsNothing(source: Source, s: Store, collection: string)
    requires IsEmpty(s, collection)
    ensures HoldsReplayOf(source, s, collection, {})
  {
  }

  lemma StagingExtends(
    source: Source, s: Store, collection: string, events: set<Envelope>, e: Envelope, now: int)
    requires e in source.route && HoldsReplayOf(source, s, collection, events)
    ensures HoldsReplayOf(source, AfterStaging(s, collection, e, source.route[e], now), collection, events + {e})
  {
    forall d
      ensures StagedIsGreatest(source, AfterStaging(s, collection, e, source.route[e], now), collection, events + {e},
                               d)
    {
      assert StagedIsGreatest(source, s, collection, events, d);
      StagingKeepsGreatest(source, s, collection, events, d, e, now);
    }
  }

  /**
    A replay adds its events to those the collection already holds; an earlier attempt may have staged some of them.
   */
  lemma {:induction false} ReplayKeepsGreatest(
    source: Source, s: Store, collection: string, already: set<Envelope>, events: seq<Envelope>, now: int)
    requires (forall e :: e in events ==> e in source.route) && HoldsReplayOf(source, s, collection, already)
    ensures HoldsReplayOf(source, Replay(source, s, collection, events, now), collection, already + EventSet(events))
    decreases |events|
  {
    if events == [] {
      assert already + EventSet(events) == already;
    } else {
      var init := events[..|events| - 1];
      assert events == init + [Last(events)];
      assert already + EventSet(events) == already + EventSet(init) + {Last(events)};
      ReplayKeepsGreatest(source, s, collection, already, init, now);
      StagingExtends(source, Replay(source, s, collection, init, now), collection, already + EventSet(init),
                     Last(events), now);
    }
  }

  /** A replay that is taken up again completes the collection: what it held of the same events does not matter. */
  lemma ReplayCompletes(
    source: Source, s: Store, collection: string, already: set<Envelope>, events: seq<Envelope>, now: int)
    requires (forall e :: e in events ==> e in source.route) && HoldsReplayOf(source, s, collection, already)
    requires already <= EventSet(events)
    ensures HoldsReplayOf(source, Replay(source, s, collection, events, now), collection, EventSet(events))
  {
    ReplayKeepsGreatest(source, s, collection, already, events, now);
    assert already + EventSet(events) == EventSet(events);
  }

  /** Replay touches its own collection and nothing else. */
  lemma {:induction false} ReplayFrame(source: Source, s: Store, collection: string, events: seq<Envelope>, now: int)
    requires forall e :: e in events ==> e in source.route
    ensures var s' := Replay(source, s, collection, events, now);
            && s' == s.(records := s'.records)
            && (forall a: Address :: a.collection != collection ==> Lookup(s'.records, a) == Lookup(s.records, a))
    decreases |events|
  {
    if events != [] { ReplayFrame(source, s, collection, events[..|events| - 1], now); }
  }

  // ------------------------------------------------- the order of the archive

  /** The event writes the document, and none of the events writes it with a greater record version. */
  ghost predicate Tops(source: Source, events: set<Envelope>, e: Envelope, d: DocumentKey) {
    && e in events && Writes(source, e, d)
    && forall f :: f in events && Writes(source, f, d) ==>
         source.route[f].recordVersion <= source.route[e].recordVersion
  }

  /** All events with the greatest record version have the same image. */
  ghost predicate TopsAgree(source: Source, events: set<Envelope>, d: DocumentKey) {
    forall e, f :: Tops(source, events, e, d) && Tops(source, events, f, d) ==>
      ImageOf(e, source.route[e], 0) == ImageOf(f, source.route[f], 0)
  }

  /** Where the tops agree, two collections that hold the replay of the same events hold the same document. */
  lemma ReplaysAgree(source: Source, s: Store, s': Store, collection: string, events: set<Envelope>, d: DocumentKey)
    requires HoldsReplayOf(source, s, collection, events) && HoldsReplayOf(source, s', collection, events)
    requires TopsAgree(source, events, d)
    ensures Content(Lookup(s.records, Address(collection, d))) == Content(Lookup(s'.records, Address(collection, d)))
  {
    assert StagedIsGreatest(source, s, collection, events, d) && StagedIsGreatest(source, s', collection, events, d);
    if Lookup(s.records, Address(collection, d)).Some? && Lookup(s'.records, Address(collection, d)).Some? {
      var e :| e in events && IsStagedImage(source, s, collection, events, d, e);
      var f :| f in events && IsStagedImage(source, s', collection, events, d, f);
      assert Tops(source, events, e, d) && Tops(source, events, f, d);
    }
  }

  /**
    Where the tops agree the staged document does not depend on the order of the archive, on how often an entry is
    replayed, on what earlier attempts at the same listing left behind, or on the clock.
   */
  lemma ReplayIgnoresOrder(
    source: Source, s: Store, s': Store, collection: string, already: set<Envelope>, already': set<Envelope>,
    one: seq<Envelope>, two: seq<Envelope>, now: int, later: int, d: DocumentKey)
    requires (forall e :: e in one ==> e in source.route) && EventSet(one) == EventSet(two)
    requires HoldsReplayOf(source, s, collection, already) && already <= EventSet(one)
    requires HoldsReplayOf(source, s', collection, already') && already' <= EventSet(two)
    requires TopsAgree(source, EventSet(one), d)
    ensures forall e :: e in two ==> e in source.route
    ensures Content(Lookup(Replay(source, s, collection, one, now).records, Address(collection, d)))
         == Content(Lookup(Replay(source, s', collection, two, later).records, Address(collection, d)))
  {
    forall e | e in two ensures e in source.route { assert e in EventSet(two); }
    ReplayCompletes(source, s, collection, already, one, now);
    ReplayCompletes(source, s', collection, already', two, later);
    ReplaysAgree(source, Replay(source, s, collection, one, now), Replay(source, s', collection, two, later),
                 collection, EventSet(one), d);
  }

  /** The first of the events that write the document with the greatest record version. */
  function FirstTop(source: Source, events: seq<Envelope>, d: DocumentKey): (x: Option<Envelope>)
    ensures x.Some? ==> Writes(source, x.value, d)
    decreases |events|
  {
    if events == [] then None
    else
      var before := FirstTop(source, events[..|events| - 1], d);
      var e := Last(events);
      if Writes(source, e, d)
         && (before.None? || source.route[before.value].recordVersion < source.route[e].recordVersion)
      then Some(e) else before
  }

  /**
    The event in this place writes the document, no event writes it with a greater record version, and none before it
    with as great a one.
   */
  predicate IsFirstTop(source: Source, events: seq<Envelope>, d: DocumentKey, i: int) {
    && 0 <= i < |events| && Writes(source, events[i], d)
    && (forall j :: 0 <= j < |events| && Writes(source, events[j], d) ==>
          source.route[events[j]].recordVersion <= source.route[events[i]].recordVersion)
    && (forall j :: 0 <= j < i && Writes(source, events[j], d) ==>
          source.route[events[j]].recordVersion < source.route[events[i]].recordVersion)
  }

  lemma {:induction false} FirstTopPlace(source: Source, events: seq<Envelope>, d: DocumentKey) returns (i: int)
    ensures if i < 0 then FirstTop(source, events, d) == None && forall e :: e in events ==> !Writes(source, e, d)
            else IsFirstTop(source, events, d, i) && FirstTop(source, events, d) == Some(events[i])
    decreases |events|
  {
    i := -1;
    if events != [] {
      i := FirstTopPlace(source, events[..|events| - 1], d);
      if FirstTop(source, events, d) != FirstTop(source, events[..|events| - 1], d) { i := |events| - 1; }
    }
  }

  /** The first top is what its place says. */
  lemma FirstTopIff(source: Source, events: seq<Envelope>, d: DocumentKey, i: int)
    requires IsFirstTop(source, events, d, i)
    ensures FirstTop(source, events, d) == Some(events[i])
  {
    var j := FirstTopPlace(source, events, d);
    assert j >= 0 && i == j;
  }

  /** The content the first top gives the document. */
  function FirstImage(source: Source, events: seq<Envelope>, d: DocumentKey): Option<Record> {
    var x := FirstTop(source, events, d);
    if x.Some? then Some(ImageOf(x.value, source.route[x.value], 0)) else None
  }

  lemma StagingShowsFirstTop(
    source: Source, s: Store, collection: string, before: seq<Envelope>, e: Envelope, now: int, d: DocumentKey)
    requires e in source.route
    requires Content(Lookup(s.records, Address(collection, d))) == FirstImage(source, before, d)
    ensures Content(Lookup(AfterStaging(s, collection, e, source.route[e], now).records, Address(collection, d)))
         == FirstImage(source, before + [e], d)
  {
    assert (before + [e])[..|before|] == before;
  }

  /** What a replay stages, whatever the record versions: of the events with the greatest one the first stays. */
  lemma {:induction false} ReplayShowsFirstTop(
    source: Source, s: Store, collection: string, before: seq<Envelope>, events: seq<Envelope>, now: int,
    d: DocumentKey)
    requires forall e :: e in events ==> e in source.route
    requires Content(Lookup(s.records, Address(collection, d))) == FirstImage(source, before, d)
    ensures Content(Lookup(Replay(source, s, collection, events, now).records, Address(collection, d)))
         == FirstImage(source, before + events, d)
    decreases |events|
  {
    if events == [] {
      assert before + events == before;
    } else {
      var init := events[..|events| - 1];
      ReplayShowsFirstTop(source, s, collection, before, init, now, d);
      StagingShowsFirstTop(source, Replay(source, s, collection, init, now), collection, before + init, Last(events),
                           now, d);
      assert before + events == (before + init) + [Last(events)];
    }
  }

  /** The listing holds exactly these events, each once, in some order. */
  ghost predicate IsOrderOf(events: set<Envelope>, listing: seq<Envelope>) {
    EventSet(listing) == events && forall i, j :: 0 <= i < j < |listing| ==> listing[i] != listing[j]
  }

  lemma SomeOrder(events: set<Envelope>) returns (listing: seq<Envelope>)
    ensures IsOrderOf(events, listing)
    decreases events
  {
    listing := [];
    if events != {} {
      var e :| e in events;
      var rest := SomeOrder(events - {e});
      assert e !in EventSet(rest);
      listing := [e] + rest;
      assert EventSet(listing) == {e} + EventSet(rest);
    }
  }

  /** A top that is replayed first stays. */
  lemma TopFirstStays(source: Source, s: Store, collection: string, listing: seq<Envelope>, now: int, d: DocumentKey)
    requires (forall e :: e in listing ==> e in source.route) && IsEmpty(s, collection)
    requires listing != [] && Tops(source, EventSet(listing), listing[0], d)
    ensures Content(Lookup(Replay(source, s, collection, listing, now).records, Address(collection, d)))
         == Some(ImageOf(listing[0], source.route[listing[0]], 0))
  {
    forall j | 0 <= j < |listing| ensures listing[j] in EventSet(listing) {}
    FirstTopIff(source, listing, d, 0);
    assert [] + listing == listing;
    ReplayShowsFirstTop(source, s, collection, [], listing, now, d);
  }

  ghost predicate StagedAlike(
    source: Source, s: Store, collection: string, one: seq<Envelope>, two: seq<Envelope>, now: int, d: DocumentKey)
    requires forall e :: e in EventSet(one) + EventSet(two) ==> e in source.route
  {
    Content(Lookup(Replay(source, s, collection, one, now).records, Address(collection, d)))
    == Content(Lookup(Replay(source, s, collection, two, now).records, Address(collection, d)))
  }

  /**
    All orders of an archive stage the same document exactly when the events that write it with the greatest record
    version have the same image. Ties below the greatest record version never show.
   */
  lemma OrderIsInvisibleIff(
    source: Source, s: Store, collection: string, events: set<Envelope>, now: int, d: DocumentKey)
    requires (forall e :: e in events ==> e in source.route) && IsEmpty(s, collection)
    ensures (forall one, two :: IsOrderOf(events, one) && IsOrderOf(events, two) ==>
               StagedAlike(source, s, collection, one, two, now, d))
            <==> TopsAgree(source, events, d)
  {
    EmptyHoldsNothing(source, s, collection);
    if TopsAgree(source, events, d) {
      forall one, two | IsOrderOf(events, one) && IsOrderOf(events, two)
        ensures StagedAlike(source, s, collection, one, two, now, d)
      {
        assert forall e :: e in one ==> e in EventSet(one);
        ReplayIgnoresOrder(source, s, s, collection, {}, {}, one, two, now, now, d);
      }
    } else {
      var e, f :| Tops(source, events, e, d) && Tops(source, events, f, d)
                  && ImageOf(e, source.route[e], 0) != ImageOf(f, source.route[f], 0);
      var one := TopFirst(source, s, collection, events, e, now, d);
      var two := TopFirst(source, s, collection, events, f, now, d);
      assert !StagedAlike(source, s, collection, one, two, now, d);
    }
  }

  /** Each top comes first in some order, and then the document shows it. */
  lemma TopFirst(
    source: Source, s: Store, collection: string, events: set<Envelope>, e: Envelope, now: int, d: DocumentKey)
    returns (listing: seq<Envelope>)
    requires (forall f :: f in events ==> f in source.route) && IsEmpty(s, collection) && Tops(source, events, e, d)
    ensures IsOrderOf(events, listing) && (forall f :: f in listing ==> f in source.route)
    ensures Content(Lookup(Replay(source, s, collection, listing, now).records, Address(collection, d)))
         == Some(ImageOf(e, source.route[e], 0))
  {
    var rest := SomeOrder(events - {e});
    listing := [e] + rest;
    assert e !in EventSet(rest);
    assert EventSet(listing) == {e} + EventSet(rest) == events;
    forall f | f in listing ensures f in source.route { assert f in EventSet(listing); }
    TopFirstStays(source, s, collection, listing, now, d);
  }

  // ----------------------------------------------- the checkpoints of a replay

  function EntryAggregate(entry: ArchiveEntry): AggregateKey {
    AggregateOf(entry.raw, entry.workspaceId)
  }

  function EntryCheckpoint(entry: ArchiveEntry): Checkpoint {
    Checkpoint(entry.raw.aggregateVersion, entry.raw.eventId, entry.receivedAt, CheckpointCurrent)
  }

  /** No earlier entry of the aggregate is as new: greater version, then later receipt. */
  predicate NotOlder(candidate: Checkpoint, other: Checkpoint) {
    candidate.sourceVersion > other.sourceVersion
    || (candidate.sourceVersion == other.sourceVersion && candidate.syncedAt >= other.syncedAt)
  }

  ghost predicate AreLatest(entries: seq<ArchiveEntry>, latest: map<AggregateKey, Checkpoint>) {
    && (forall i :: 0 <= i < |entries| ==>
          EntryAggregate(entries[i]) in latest
          && NotOlder(latest[EntryAggregate(entries[i])], EntryCheckpoint(entries[i])))
    && (forall a :: a in latest ==>
          exists i :: 0 <= i < |entries| && EntryAggregate(entries[i]) == a && latest[a] == EntryCheckpoint(entries[i]))
  }

  /** The checkpoint names the version, the event and the receipt of the entry, and is current. */
  predicate IsCheckpointOf(c: Checkpoint, entry: ArchiveEntry) {
    c.sourceVersion == entry.raw.aggregateVersion && c.lastEventId == entry.raw.eventId
    && c.syncedAt == entry.receivedAt && c.status == CheckpointCurrent
  }

  /** Each checkpoint is that of an entry of its aggregate, and no entry of its aggregate is newer. */
  ghost predicate NewestOfEach(entries: seq<ArchiveEntry>, latest: map<AggregateKey, Checkpoint>) {
    && (forall i, a :: 0 <= i < |entries| && IsAggregateOf(a, entries[i].raw, entries[i].workspaceId) ==>
          && a in latest && latest[a].sourceVersion >= entries[i].raw.aggregateVersion
          && (latest[a].sourceVersion == entries[i].raw.aggregateVersion ==>
                latest[a].syncedAt >= entries[i].receivedAt))
    && (forall a :: a in latest ==>
          exists i :: 0 <= i < |entries| && IsAggregateOf(a, entries[i].raw, entries[i].workspaceId)
                      && IsCheckpointOf(latest[a], entries[i]))
  }

  lemma LatestIsNewest(entries: seq<ArchiveEntry>, latest: map<AggregateKey, Checkpoint>)
    requires AreLatest(entries, latest)
    ensures NewestOfEach(entries, latest)
  {
    forall i, a | 0 <= i < |entries| && IsAggregateOf(a, entries[i].raw, entries[i].workspaceId)
      ensures a == EntryAggregate(entries[i])
    {
      AggregateIs(a, entries[i].raw, entries[i].workspaceId);
    }
    forall a | a in latest
      ensures exists i :: 0 <= i < |entries| && IsAggregateOf(a, entries[i].raw, entries[i].workspaceId)
                          && IsCheckpointOf(latest[a], entries[i])
    {
      var i :| 0 <= i < |entries| && EntryAggregate(entries[i]) == a && latest[a] == EntryCheckpoint(entries[i]);
      AggregateIs(a, entries[i].raw, entries[i].workspaceId);
    }
  }

  /** The loop of activateReadPointers over the archive listing. */
  method LatestCheckpoints(entries: seq<ArchiveEntry>) returns (latest: map<AggregateKey, Checkpoint>)
    ensures latest == LatestOf(entries) && AreLatest(entries, latest) && NewestOfEach(entries, latest)
  {
    latest := map[];
    for n := 0 to |entries|
      invariant latest == LatestOf(entries[..n])
    {
      var key := EntryAggregate(entries[n]);
      var candidate := EntryCheckpoint(entries[n]);
      if key !in latest || candidate.sourceVersion > latest[key].sourceVersion
         || (candidate.sourceVersion == latest[key].sourceVersion && candidate.syncedAt > latest[key].syncedAt) {
        latest := latest[key := candidate];
      }
      assert entries[..n + 1][..n] == entries[..n];
    }
    assert entries[..|entries|] == entries;
    LatestOfIsLatest(entries);
    LatestIsNewest(entries, latest);
  }

  /** The newest entry so far of each aggregate; of equally new ones the first. */
  function LatestOf(entries: seq<ArchiveEntry>): map<AggregateKey, Checkpoint>
    decreases |entries|
  {
    if entries == [] then map[] else WithEntry(LatestOf(entries[..|entries| - 1]), Last(entries))
  }

  function WithEntry(latest: map<AggregateKey, Checkpoint>, entry: ArchiveEntry): map<AggregateKey, Checkpoint> {
    var key := EntryAggregate(entry);
    var candidate := EntryCheckpoint(entry);
    if key !in latest || !NotOlder(latest[key], candidate) then latest[key := candidate] else latest
  }

  lemma {:induction false} LatestOfIsLatest(entries: seq<ArchiveEntry>)
    ensures AreLatest(entries, LatestOf(entries))
    decreases |entries|
  {
    if entries != [] {
      var init := entries[..|entries| - 1];
      LatestOfIsLatest(init);
      LatestExtends(init, Last(entries), LatestOf(init));
      assert entries == init + [Last(entries)];
    }
  }

  lemma LatestExtends(seen: seq<ArchiveEntry>, entry: ArchiveEntry, before: map<AggregateKey, Checkpoint>)
    requires AreLatest(seen, before)
    ensures AreLatest(seen + [entry], WithEntry(before, entry))
  {
    var all, after := seen + [entry], WithEntry(before, entry);
    forall i | 0 <= i < |all|
      ensures EntryAggregate(all[i]) in after && NotOlder(after[EntryAggregate(all[i])], EntryCheckpoint(all[i]))
    {
      if i < |seen| { assert all[i] == seen[i]; }
    }
    forall a | a in after
      ensures exists i :: 0 <= i < |all| && EntryAggregate(all[i]) == a && after[a] == EntryCheckpoint(all[i])
    {
      if a in before && after[a] == before[a] {
        var i :| 0 <= i < |seen| && EntryAggregate(seen[i]) == a && before[a] == EntryCheckpoint(seen[i]);
        assert all[i] == seen[i];
      } else {
        assert all[|seen|] == entry;
      }
    }
  }

  // -------------------------------------------------- switching at quiescence

  predicate InScope(scope: Scope, entry: ArchiveEntry) {
    entry.raw.tenantId == scope.tenantId && entry.workspaceId == scope.workspaceId
  }

  /** The listing holds the scope's archive entries, in whatever order. */
  ghost predicate Lists(s: Store, scope: Scope, entries: seq<ArchiveEntry>) {
    && (forall entry :: entry in entries ==>
          KeyOf(entry.raw) in s.archive && s.archive[KeyOf(entry.raw)] == entry && InScope(scope, entry))
    && (forall k :: k in s.archive && InScope(scope, s.archive[k]) ==> s.archive[k] in entries)
  }

  /** No archived event of the scope is still on its way into the live projection. */
  ghost predicate Quiescent(s: Store, scope: Scope) {
    forall k :: k in s.archive && InScope(scope, s.archive[k]) ==> RowIsApplied(s, s.archive[k].raw)
  }

  /** Within a document, a later event of the aggregate carries a greater record version. */
  ghost predicate RecordVersionsIncrease(source: Source) {
    forall e, f, d {:trigger Writes(source, e, d), Writes(source, f, d)} ::
      Writes(source, e, d) && Writes(source, f, d) && e.aggregateVersion < f.aggregateVersion
      ==> source.route[e].recordVersion < source.route[f].recordVersion
  }

  function Raws(entries: seq<ArchiveEntry>): seq<Envelope> {
    seq(|entries|, i requires 0 <= i < |entries| => entries[i].raw)
  }

  /** Every event of a quiescent listing has been applied. */
  lemma ListedIsApplied(
    source: Source, s: Store, log: seq<Application>, scope: Scope, entries: seq<ArchiveEntry>, entry: ArchiveEntry)
    requires StoreSafe(s, log) && StoreFollows(s, log) && StoreRouted(source, s) && LogRouted(source, log)
    requires UniqueVersions(source)
    requires Lists(s, scope, entries) && Quiescent(s, scope) && entry in entries
    ensures entry.raw in source.route && entry.workspaceId == source.route[entry.raw].workspaceId
    ensures exists x :: x in OfAggregate(log, AggregateIn(source, entry.raw)) && x.e == entry.raw
    ensures 1 <= entry.raw.aggregateVersion <= VersionOf(s, AggregateIn(source, entry.raw))
  {
    var e := entry.raw;
    assert RowIsApplied(s, e) && RowJustified(s, KeyOf(e)) && RowRouted(source, s.inbox[KeyOf(e)]);
    assert EntryRouted(source, s.archive[KeyOf(e)]);
    var a := AggregateIn(source, e);
    assert AppliedInOrder(s, log, a);
    OfAggregateSubset(log, a);
    var x := OfAggregate(log, a)[e.aggregateVersion - 1];
    assert x in OfAggregate(log, a) && x in log;
    assert Routed(source, x.e, x.t);
  }

  /** The last write to a document is its newest one, and it was archived. */
  lemma LastWriteIsNewest(source: Source, s: Store, log: seq<Application>, d: DocumentKey) returns (x: Application)
    requires StoreSafe(s, log) && StoreFollows(s, log) && LogRouted(source, log) && LastWrite(log, d).Some?
    ensures x in log && Writes(source, x.e, d) && Content(LastWrite(log, d)) == Some(ImageOf(x.e, source.route[x.e], 0))
    ensures forall y :: y in log && Writes(source, y.e, d) ==> y.e.aggregateVersion <= x.e.aggregateVersion
  {
    var own := OfAggregate(log, OwnerOf(d));
    OwnerWrites(log, d);
    OfAggregateSubset(log, OwnerOf(d));
    var n := NewestIndex(own, d);
    x := own[n];
    assert x in own;
    assert Routed(source, x.e, x.t);
    assert AppliedInOrder(s, log, OwnerOf(d));
    forall y | y in log && Writes(source, y.e, d) ensures y.e.aggregateVersion <= x.e.aggregateVersion {
      assert Routed(source, y.e, y.t);
      OfAggregateComplete(log, y);
      var m :| 0 <= m < |own| && own[m] == y;
    }
  }

  /** Where the last write of a log happened. */
  lemma {:induction false} NewestIndex(log: seq<Application>, d: DocumentKey) returns (n: nat)
    requires LastWrite(log, d).Some?
    ensures n < |log| && DocumentOf(log[n].e, log[n].t) == d
    ensures LastWrite(log, d) == Some(ImageOf(log[n].e, log[n].t, log[n].now))
    ensures forall m :: n < m < |log| ==> DocumentOf(log[m].e, log[m].t) != d
    decreases |log|
  {
    n := |log| - 1;
    if DocumentOf(Last(log).e, Last(log).t) != d {
      n := NewestIndex(log[..|log| - 1], d);
    }
  }

  /** An applied write to a document of the scope is in the listing. */
  lemma WriteIsListed(
    source: Source, s: Store, log: seq<Application>, scope: Scope, entries: seq<ArchiveEntry>, x: Application)
    requires StoreSafe(s, log) && StoreRouted(source, s) && LogRouted(source, log) && Lists(s, scope, entries)
    requires x in log
    requires x.e.tenantId == scope.tenantId && x.t.workspaceId == scope.workspaceId
    ensures x.e in EventSet(Raws(entries))
  {
    var k := KeyOf(x.e);
    assert Routed(source, x.e, x.t);
    assert InInbox(s, x.e, x.t.workspaceId, true);
    assert RowJustified(s, k);
    assert EntryRouted(source, s.archive[k]);
    var i :| 0 <= i < |entries| && entries[i] == s.archive[k];
    assert Raws(entries)[i] == x.e;
  }

  lemma RawsAreListed(entries: seq<ArchiveEntry>, e: Envelope) returns (entry: ArchiveEntry)
    requires e in Raws(entries)
    ensures entry in entries && entry.raw == e
  {
    var i :| 0 <= i < |entries| && Raws(entries)[i] == e;
    entry := entries[i];
  }

  /** Once the collection holds the replay of the listing, its documents of the scope equal the live ones. */
  lemma StagedEqualsLive(
    source: Source, s: Store, log: seq<Application>, scope: Scope, entries: seq<ArchiveEntry>, collection: string,
    d: DocumentKey)
    requires StoreSafe(s, log) && StoreFollows(s, log) && StoreRouted(source, s) && LogRouted(source, log)
    requires UniqueVersions(source) && RecordVersionsIncrease(source)
    requires Lists(s, scope, entries) && Quiescent(s, scope)
    requires HoldsReplayOf(source, s, collection, EventSet(Raws(entries)))
    requires d.tenantId == scope.tenantId && d.workspaceId == scope.workspaceId
    ensures Content(Lookup(s.records, Address(collection, d))) == Content(LastWrite(log, d))
  {
    var events := EventSet(Raws(entries));
    assert StagedIsGreatest(source, s, collection, events, d);
    if Lookup(s.records, Address(collection, d)).Some? {
      var g :| g in events && IsStagedImage(source, s, collection, events, d, g);
      var y := ListedWrite(source, s, log, scope, entries, g, d);
      var x := LastWriteIsNewest(source, s, log, d);
      WriteIsListed(source, s, log, scope, entries, x);
      assert x.e.aggregateVersion >= y.e.aggregateVersion;
      NewestIsGreatest(source, events, d, x.e, g);
    } else if LastWrite(log, d).Some? {
      var x := LastWriteIsNewest(source, s, log, d);
      WriteIsListed(source, s, log, scope, entries, x);
      assert false;
    }
  }

  lemma NewestIsGreatest(source: Source, events: set<Envelope>, d: DocumentKey, e: Envelope, g: Envelope)
    requires UniqueVersions(source) && RecordVersionsIncrease(source)
    requires e in events && Writes(source, e, d) && Writes(source, g, d) && g.aggregateVersion <= e.aggregateVersion
    requires source.route[e].recordVersion <= source.route[g].recordVersion
    ensures e == g
  {
    assert AggregateIn(source, e) == OwnerOf(d) == AggregateIn(source, g);
  }

  /** A listed event that writes a document was applied to it. */
  lemma ListedWrite(
    source: Source, s: Store, log: seq<Application>, scope: Scope, entries: seq<ArchiveEntry>, g: Envelope,
    d: DocumentKey)
    returns (y: Application)
    requires StoreSafe(s, log) && StoreFollows(s, log) && StoreRouted(source, s) && LogRouted(source, log)
    requires UniqueVersions(source)
    requires Lists(s, scope, entries) && Quiescent(s, scope) && g in EventSet(Raws(entries)) && Writes(source, g, d)
    ensures y in log && y.e == g && LastWrite(log, d).Some?
  {
    var entry := RawsAreListed(entries, g);
    ListedIsApplied(source, s, log, scope, entries, entry);
    y :| y in OfAggregate(log, AggregateIn(source, g)) && y.e == g;
    OfAggregateSubset(log, AggregateIn(source, g));
    assert Routed(source, y.e, y.t);
    WrittenIsVisible(log, y);
  }

  lemma {:induction false} WrittenIsVisible(log: seq<Application>, y: Application)
    requires y in log
    ensures LastWrite(log, DocumentOf(y.e, y.t)).Some?
    decreases |log|
  {
    if DocumentOf(Last(log).e, Last(log).t) != DocumentOf(y.e, y.t) {
      assert y in log[..|log| - 1];
      WrittenIsVisible(log[..|log| - 1], y);
    }
  }

  /** The live checkpoint of every listed entry's aggregate has reached the entry. */
  ghost predicate AllReached(checkpoints: map<AggregateKey, Checkpoint>, entries: seq<ArchiveEntry>) {
    forall entry :: entry in entries ==> Reached(checkpoints, entry)
  }

  predicate Reached(checkpoints: map<AggregateKey, Checkpoint>, entry: ArchiveEntry) {
    EntryAggregate(entry) in checkpoints
    && checkpoints[EntryAggregate(entry)].sourceVersion >= entry.raw.aggregateVersion
  }

  /** The checkpoints of a switch are no news to the live ones exactly when those have reached every listed entry. */
  lemma CheckpointsStayIff(
    checkpoints: map<AggregateKey, Checkpoint>, entries: seq<ArchiveEntry>, latest: map<AggregateKey, Checkpoint>)
    requires AreLatest(entries, latest)
    ensures Advanced(checkpoints, latest) == checkpoints <==> AllReached(checkpoints, entries)
  {
    if Advanced(checkpoints, latest) == checkpoints {
      forall entry | entry in entries ensures Reached(checkpoints, entry) {
        var i :| 0 <= i < |entries| && entries[i] == entry;
        var a := EntryAggregate(entry);
        assert a in Advanced(checkpoints, latest) && NotOlder(latest[a], EntryCheckpoint(entry));
      }
    }
    if AllReached(checkpoints, entries) {
      forall a | a in latest ensures a in checkpoints && checkpoints[a].sourceVersion >= latest[a].sourceVersion {
        var i :| 0 <= i < |entries| && EntryAggregate(entries[i]) == a && latest[a] == EntryCheckpoint(entries[i]);
        assert Reached(checkpoints, entries[i]);
      }
    }
  }

  /** At quiescence the replayed checkpoints are no news to the live ones. */
  lemma CheckpointsStay(
    source: Source, s: Store, log: seq<Application>, scope: Scope, entries: seq<ArchiveEntry>,
    latest: map<AggregateKey, Checkpoint>)
    requires StoreSafe(s, log) && StoreFollows(s, log) && StoreRouted(source, s) && LogRouted(source, log)
    requires UniqueVersions(source) && Lists(s, scope, entries) && Quiescent(s, scope) && AreLatest(entries, latest)
    ensures Advanced(s.checkpoints, latest) == s.checkpoints
  {
    forall entry | entry in entries ensures Reached(s.checkpoints, entry) {
      ListedIsApplied(source, s, log, scope, entries, entry);
    }
    CheckpointsStayIff(s.checkpoints, entries, latest);
  }

  /** Which collection a table reads after the switch. */
  lemma SwitchedView(
    s: Store, scope: Scope, tables: set<string>, pointer: ReadPointer, tenantId: string, workspaceId: string,
    tableId: string)
    ensures ActiveCollection(s.(pointers := SwitchedPointers(s.pointers, scope, tables, pointer)), tenantId,
                             workspaceId, tableId)
         == if tableId != "" && tenantId == scope.tenantId && workspaceId == scope.workspaceId && tableId in tables
            then pointer.collectionName else ActiveCollection(s, tenantId, workspaceId, tableId)
  {
    var k := PointerKey(tenantId, workspaceId, tableId, PointerActive);
    assert Lookup(SwitchedPointers(s.pointers, scope, tables, pointer), k)
           == SwitchedPointer(s.pointers, scope, tables, pointer, k);
  }
}
