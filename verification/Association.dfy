/**
  The association read models (projection/association.go, tender_association.go, settlement_association.go). Events of
  one aggregate arrive in any order and any number of times; the association moves one version at a time and marks gaps
  and conflicts.
 */
module Associations {
  import opened Common

  datatype Variant = Project | Tender | Settlement

  datatype State = Current | Gap | Conflict

  /** What an event says, field by field; the source's own types differ between the variants. */
  datatype Details =
    | ProjectDetails(workflowId: string, workflowRunId: string, approvalStatus: string, proposalHash: string,
                     dispatchGeneration: int, decisionVersion: int)
    | TenderDetails(workflowId: string, workflowRunId: string, approvalStatus: string, proposalHash: string,
                    approvalGeneration: int, decisionVersion: int)
    | SettlementDetails(organizationRef: string, approvalStatus: string, settlementStatus: string,
                        actionOutcome: string, snapshotHash: string, decisionVersion: int)

  /** An event as it is delivered, at a time of the projector's clock. */
  datatype Event = Event(version: int, eventId: string, payloadHash: string, details: Details, now: int)

  datatype Association = Association(
    details: Details, sourceVersion: int, observedVersion: int, lastEventId: string, lastPayloadHash: string,
    observedEventId: string, conflictVersion: int, conflictPayloadHash: string, state: State, updatedAt: int)

  datatype Outcome = Unchanged | Updated(association: Association) | Refused

  // -------------------------------------------------------------- one event

  /** A withdrawn project application is shown as cancelled. */
  function Shown(d: Details): Details {
    match d
    case ProjectDetails(id, run, status, hash, generation, decision) =>
      if status == "WITHDRAWN" then ProjectDetails(id, run, "CANCELLED", hash, generation, decision) else d
    case _ => d
  }

  function FromEvent(e: Event): Association {
    Association(Shown(e.details), e.version, e.version, e.eventId, e.payloadHash, "", 0, "", Current, e.now)
  }

  /** The first document: an event other than the first version is only observed. */
  function Inserted(e: Event): Association {
    if e.version > 1 then FromEvent(e).(state := Gap, sourceVersion := 0, lastEventId := "", lastPayloadHash := "",
                                        observedEventId := e.eventId)
    else FromEvent(e)
  }

  /** Another payload under another event ID for the version that is shown. */
  predicate Contradicts(c: Association, e: Event) {
    e.version == c.sourceVersion && e.payloadHash != c.lastPayloadHash && e.eventId != c.lastEventId
  }

  function Advanced(variant: Variant, c: Association, e: Event): Association {
    var next := FromEvent(e);
    var observed :=
      if variant == Project then next.(observedVersion := if e.version > c.observedVersion then e.version
                                       else c.observedVersion, observedEventId := c.observedEventId)
      else if c.observedVersion > next.observedVersion
      then next.(observedVersion := c.observedVersion, observedEventId := c.observedEventId) else next;
    if observed.observedVersion > observed.sourceVersion then observed.(state := Gap) else observed
  }

  /** The decision for an event on a stored association. */
  function Decide(variant: Variant, c: Association, e: Event): Outcome {
    if variant == Project && c.state == Conflict && e.version > c.sourceVersion then Refused
    else if e.version < c.sourceVersion then Unchanged
    else if e.version == c.sourceVersion then
      if Contradicts(c, e)
      then Updated(c.(state := Conflict, conflictVersion := e.version, conflictPayloadHash := e.payloadHash,
                      updatedAt := e.now))
      else Unchanged
    else if e.version > c.sourceVersion + 1 then
      if e.version <= c.observedVersion then Unchanged
      else Updated(c.(observedVersion := e.version, observedEventId := e.eventId, state := Gap, updatedAt := e.now))
    else Updated(Advanced(variant, c, e))
  }

  function Step(variant: Variant, c: Option<Association>, e: Event): Association {
    match c
    case None => Inserted(e)
    case Some(current) =>
      match Decide(variant, current, e)
      case Updated(a) => a
      case _ => current
  }

  /** The stored association after a sequence of deliveries, one at a time. */
  function After(variant: Variant, ds: seq<Event>): Option<Association> {
    if ds == [] then None else Some(Step(variant, After(variant, ds[..|ds| - 1]), Last(ds)))
  }

  // ------------------------------------------- the meaning of the versions

  /** Versions 1, 2, ..., |positions| are delivered in this order at these positions. */
  ghost predicate IsChain(ds: seq<Event>, positions: seq<nat>) {
    && (forall i :: 0 <= i < |positions| ==> positions[i] < |ds| && ds[positions[i]].version == i + 1)
    && (forall i, j :: 0 <= i < j < |positions| ==> positions[i] < positions[j])
  }

  /** 1, 2, ..., k is a subsequence of the delivered versions. */
  ghost predicate HasChain(ds: seq<Event>, k: nat) {
    exists positions: seq<nat> :: |positions| == k && IsChain(ds, positions)
  }

  ghost predicate IsGreatestVersion(ds: seq<Event>, m: int) {
    (forall e :: e in ds ==> e.version <= m) && (exists e :: e in ds && e.version == m)
  }

  /** What a delivery must have; the tender variant does not trim. */
  predicate Deliverable(variant: Variant, e: Event) {
    e.version >= 1
    && (if variant == Tender then e.eventId != "" && e.payloadHash != ""
        else TrimSpace(e.eventId) != "" && TrimSpace(e.payloadHash) != "")
  }

  /** Every version has one payload; redeliveries may have other event IDs. */
  ghost predicate OnePayloadPerVersion(ds: seq<Event>) {
    && (forall e :: e in ds ==> e.version >= 1)
    && (forall d, e :: d in ds && e in ds && d.version == e.version ==>
          d.payloadHash == e.payloadHash && d.details == e.details)
  }

  lemma ChainShrinks(ds: seq<Event>, e: Event, k: nat)
    requires HasChain(ds + [e], k)
    ensures HasChain(ds, k) || (k >= 1 && e.version == k && HasChain(ds, k - 1))
  {
    var p: seq<nat> :| |p| == k && IsChain(ds + [e], p);
    if k == 0 || p[k - 1] < |ds| {
      PositionsBelow(ds, e, p);
    } else {
      var shorter := p[..k - 1];
      PositionsBelow(ds, e, shorter);
      assert |shorter| == k - 1;
    }
  }

  lemma ChainStays(ds: seq<Event>, e: Event, k: nat)
    requires HasChain(ds, k)
    ensures HasChain(ds + [e], k)
  {
    var p: seq<nat> :| |p| == k && IsChain(ds, p);
    assert IsChain(ds + [e], p);
  }

  lemma ChainLengthens(ds: seq<Event>, e: Event, k: nat)
    requires HasChain(ds, k) && e.version == k + 1
    ensures HasChain(ds + [e], k + 1)
  {
    var p: seq<nat> :| |p| == k && IsChain(ds, p);
    var longer: seq<nat> := p + [|ds|];
    assert |longer| == k + 1 && IsChain(ds + [e], longer);
  }

  lemma ChainGrows(ds: seq<Event>, e: Event, k: nat)
    ensures HasChain(ds + [e], k) <==> HasChain(ds, k) || (k >= 1 && e.version == k && HasChain(ds, k - 1))
  {
    if HasChain(ds + [e], k) { ChainShrinks(ds, e, k); }
    if HasChain(ds, k) { ChainStays(ds, e, k); }
    if k >= 1 && e.version == k && HasChain(ds, k - 1) { ChainLengthens(ds, e, k - 1); }
  }

  lemma PositionsBelow(ds: seq<Event>, e: Event, p: seq<nat>)
    requires IsChain(ds + [e], p) && (p != [] ==> Last(p) < |ds|)
    ensures IsChain(ds, p)
  {
    forall i | 0 <= i < |p| ensures p[i] < |ds| && ds[p[i]].version == i + 1 {
      assert p[i] <= Last(p);
    }
  }

  /** n is the greatest k for which 1, ..., k is a subsequence of the delivered versions. */
  ghost predicate IsLongestChain(ds: seq<Event>, n: int) {
    n >= 0 && forall k: nat :: HasChain(ds, k) <==> k <= n
  }

  /**
    The content of a version is that of a delivered event of the version. Before the first version it is that of the
    first delivery, which is not named as the last event.
   */
  ghost predicate Shows(a: Association, ds: seq<Event>) {
    && (a.sourceVersion >= 1 ==> exists e :: e in ds && IsOf(a, e))
    && (a.sourceVersion == 0 ==>
          ds != [] && ShowsDetails(a.details, ds[0].details) && a.lastEventId == "" && a.lastPayloadHash == "")
  }

  /** The delivered details, field by field, but that a withdrawn project application is cancelled. */
  predicate ShowsDetails(shown: Details, given: Details) {
    match given
    case ProjectDetails(workflowId, workflowRunId, approvalStatus, proposalHash, dispatchGeneration, decisionVersion) =>
      && shown.ProjectDetails? && shown.workflowId == workflowId && shown.workflowRunId == workflowRunId
      && shown.proposalHash == proposalHash && shown.dispatchGeneration == dispatchGeneration
      && shown.decisionVersion == decisionVersion
      && (if approvalStatus == "WITHDRAWN" then shown.approvalStatus == "CANCELLED"
          else shown.approvalStatus == approvalStatus)
    case _ => shown == given
  }

  predicate IsOf(a: Association, e: Event) {
    e.version == a.sourceVersion && ShowsDetails(a.details, e.details) && a.lastEventId == e.eventId
    && a.lastPayloadHash == e.payloadHash
  }

  /** The stored association means what its deliveries say. */
  ghost predicate Means(a: Association, ds: seq<Event>) {
    && IsLongestChain(ds, a.sourceVersion) && IsGreatestVersion(ds, a.observedVersion)
    && a.state == (if a.sourceVersion < a.observedVersion then Gap else Current)
    && Shows(a, ds)
  }

  lemma ChainsAfterNext(ds: seq<Event>, e: Event, sv: nat)
    requires e.version >= 1 && IsLongestChain(ds, sv)
    ensures IsLongestChain(ds + [e], if e.version == sv + 1 then sv + 1 else sv)
  {
    forall k: nat ensures HasChain(ds + [e], k) <==> k <= (if e.version == sv + 1 then sv + 1 else sv) {
      ChainGrows(ds, e, k);
      if k >= 1 { assert HasChain(ds, k - 1) <==> k - 1 <= sv; }
    }
  }

  lemma ChainEndsInside(ds: seq<Event>, p: seq<nat>)
    requires IsChain(ds, p)
    ensures p == [] || Last(p) < |ds|
  {
  }

  lemma NoChainInNothing()
    ensures IsLongestChain([], 0)
  {
    forall k: nat ensures HasChain([], k) <==> k <= 0 {
      if k == 0 {
        var none: seq<nat> := [];
        assert |none| == k && IsChain([], none);
      } else if HasChain([], k) {
        var p: seq<nat> :| |p| == k && IsChain([], p);
        ChainEndsInside([], p);
      }
    }
  }

  lemma GreatestAfterNext(ds: seq<Event>, e: Event, m: int)
    requires ds == [] || IsGreatestVersion(ds, m)
    ensures IsGreatestVersion(ds + [e], if ds == [] || e.version > m then e.version else m)
  {
    assert e in ds + [e];
    if d :| d in ds && d.version == m { assert d in ds + [e]; }
  }

  lemma FirstMeans(e: Event)
    requires e.version >= 1
    ensures Means(Inserted(e), [e])
  {
    NoChainInNothing();
    ChainsAfterNext([], e, 0);
    GreatestAfterNext([], e, 0);
    assert [] + [e] == [e];
    assert e in [e];
  }

  /** With one payload per version nothing ever contradicts what is shown. */
  lemma NothingContradicts(a: Association, ds: seq<Event>, e: Event)
    requires Shows(a, ds) && OnePayloadPerVersion(ds + [e])
    ensures !Contradicts(a, e)
  {
    assert e in ds + [e];
    if e.version == a.sourceVersion {
      var d :| d in ds && IsOf(a, d);
      assert d in ds + [e];
    }
  }

  lemma ShownNext(variant: Variant, a: Association, ds: seq<Event>, e: Event)
    requires Shows(a, ds) && !Contradicts(a, e) && e.version >= 1 && a.sourceVersion >= 0
    ensures Shows(Step(variant, Some(a), e), ds + [e])
  {
    assert e in ds + [e];
    if ds != [] { assert (ds + [e])[0] == ds[0]; }
    if a.sourceVersion >= 1 {
      var d :| d in ds && IsOf(a, d);
      assert d in ds + [e];
      if e.version != a.sourceVersion + 1 { assert IsOf(Step(variant, Some(a), e), d); }
    }
    if e.version == a.sourceVersion + 1 && Step(variant, Some(a), e).sourceVersion == e.version {
      assert IsOf(Step(variant, Some(a), e), e);
    }
  }

  lemma VersionsNext(variant: Variant, a: Association, e: Event)
    requires a.sourceVersion <= a.observedVersion && !Contradicts(a, e)
    requires a.state == (if a.sourceVersion < a.observedVersion then Gap else Current)
    ensures var b := Step(variant, Some(a), e);
            && b.sourceVersion == (if e.version == a.sourceVersion + 1 then a.sourceVersion + 1 else a.sourceVersion)
            && b.observedVersion == (if e.version > a.observedVersion then e.version else a.observedVersion)
            && b.state == (if b.sourceVersion < b.observedVersion then Gap else Current)
  {
  }

  /** A chain ends with a delivered version. */
  lemma ChainWithinGreatest(ds: seq<Event>, n: int, m: int)
    requires IsLongestChain(ds, n) && IsGreatestVersion(ds, m) && m >= 0
    ensures n <= m
  {
    assert HasChain(ds, n);
    var p: seq<nat> :| |p| == n && IsChain(ds, p);
    if n >= 1 { assert ds[p[n - 1]] in ds; }
  }

  lemma StepMeans(variant: Variant, a: Association, ds: seq<Event>, e: Event)
    requires Means(a, ds) && OnePayloadPerVersion(ds + [e])
    ensures Means(Step(variant, Some(a), e), ds + [e])
  {
    assert e in ds + [e];
    assert a.observedVersion >= 1 by {
      var d :| d in ds && d.version == a.observedVersion;
      assert d in ds + [e];
    }
    NothingContradicts(a, ds, e);
    ChainWithinGreatest(ds, a.sourceVersion, a.observedVersion);
    ChainsAfterNext(ds, e, a.sourceVersion);
    GreatestAfterNext(ds, e, a.observedVersion);
    VersionsNext(variant, a, e);
    ShownNext(variant, a, ds, e);
  }

  /**
    In every variant, with one payload per version, whatever the order and repetition of the deliveries: the source
    version is the greatest k for which 1, ..., k is a subsequence of the delivered versions, the observed version is
    the greatest delivered, the state is GAP exactly when they differ, and what is shown is the event of the source
    version, or before version one the first delivery.
   */
  lemma {:induction false} VersionsMeanDeliveries(variant: Variant, ds: seq<Event>)
    requires ds != [] && OnePayloadPerVersion(ds)
    ensures After(variant, ds).Some? && Means(After(variant, ds).value, ds)
    decreases |ds|
  {
    var front, e := ds[..|ds| - 1], Last(ds);
    assert ds == front + [e];
    if front == [] {
      assert ds == [e];
      FirstMeans(e);
    } else {
      assert forall d :: d in front ==> d in ds;
      VersionsMeanDeliveries(variant, front);
      StepMeans(variant, After(variant, front).value, front, e);
    }
  }

  /** All three variants show the same versions, state and content. */
  lemma VariantsAgree(v: Variant, w: Variant, ds: seq<Event>)
    requires ds != [] && OnePayloadPerVersion(ds)
    ensures After(v, ds).Some? && After(w, ds).Some?
    ensures After(v, ds).value.sourceVersion == After(w, ds).value.sourceVersion
    ensures After(v, ds).value.observedVersion == After(w, ds).value.observedVersion
    ensures After(v, ds).value.state == After(w, ds).value.state
    ensures After(v, ds).value.sourceVersion >= 1 ==> After(v, ds).value.details == After(w, ds).value.details
  {
    VersionsMeanDeliveries(v, ds);
    VersionsMeanDeliveries(w, ds);
    var a, b := After(v, ds).value, After(w, ds).value;
    assert HasChain(ds, a.sourceVersion) && HasChain(ds, b.sourceVersion);
  }

  // -------------------------------------------------------------- conflicts

  /**
    In the project variant a conflict freezes the source version and the content, and stays, whatever is delivered next.
   */
  lemma {:induction false} ProjectConflictIsForEver(ds: seq<Event>, more: seq<Event>)
    requires After(Project, ds).Some? && After(Project, ds).value.state == Conflict
    ensures After(Project, ds + more).Some?
    ensures var a, b := After(Project, ds).value, After(Project, ds + more).value;
            && b.state == Conflict && b.sourceVersion == a.sourceVersion && b.details == a.details
            && b.lastEventId == a.lastEventId && b.lastPayloadHash == a.lastPayloadHash
            && b.observedVersion == a.observedVersion
    decreases |more|
  {
    if more == [] {
      assert ds + more == ds;
    } else {
      assert (ds + more)[..|ds + more| - 1] == ds + more[..|more| - 1];
      ProjectConflictIsForEver(ds, more[..|more| - 1]);
    }
  }

  /** A project association is in conflict exactly when some delivery contradicted what was shown at the time. */
  lemma {:induction false} ProjectConflictIff(ds: seq<Event>)
    requires forall e :: e in ds ==> e.version >= 1
    ensures InConflict(Project, ds) <==> exists i :: 0 <= i < |ds| && ContradictsAt(Project, ds, i)
    decreases |ds|
  {
    if ds != [] {
      var front := ds[..|ds| - 1];
      assert forall e :: e in front ==> e in ds;
      ProjectConflictIff(front);
      forall i | 0 <= i < |front| ensures ContradictsAt(Project, ds, i) <==> ContradictsAt(Project, front, i) {
        assert ds[..i] == front[..i];
      }
      assert ds[..|ds| - 1] == front;
      assert InConflict(Project, ds) <==> InConflict(Project, front) || ContradictsAt(Project, ds, |ds| - 1);
    }
  }

  predicate InConflict(variant: Variant, ds: seq<Event>) {
    After(variant, ds).Some? && After(variant, ds).value.state == Conflict
  }

  predicate ContradictsAt(variant: Variant, ds: seq<Event>, i: nat)
    requires i < |ds|
  {
    After(variant, ds[..i]).Some? && Contradicts(After(variant, ds[..i]).value, ds[i])
  }

  /** Moves past a conflict: the next version, or one beyond all that were observed. */
  predicate Escapes(c: Association, e: Event) {
    e.version == c.sourceVersion + 1 || (e.version > c.sourceVersion && e.version > c.observedVersion)
  }

  /** In the tender and settlement variants a conflict is left by exactly the events that move past it. */
  lemma OtherConflictsAreLeftIff(variant: Variant, c: Association, e: Event)
    requires variant != Project && c.state == Conflict
    ensures Step(variant, Some(c), e).state != Conflict <==> Escapes(c, e)
    ensures Step(variant, Some(c), e).state == Conflict ==>
              Step(variant, Some(c), e).sourceVersion == c.sourceVersion
              && Step(variant, Some(c), e).details == c.details
  {
  }

  /** The guarded write: it counts only if the stored source version is still the one that was read. */
  function Replaced(stored: Association, read: Association, written: Outcome): Association {
    if written.Updated? && stored.sourceVersion == read.sourceVersion then written.association else stored
  }

  /**
    Two workers read the same association; one marks a conflict, the other writes afterwards from its stale copy. The
    guard covers the source version alone, so the conflict is lost exactly when the other event moves past what was
    read.
   */
  lemma StaleWriteLosesConflictIff(variant: Variant, c: Association, a: Event, b: Event)
    requires c.state != Conflict && Contradicts(c, a)
    ensures Decide(variant, c, a).Updated?
    ensures var marked := Replaced(c, c, Decide(variant, c, a));
            marked.state == Conflict
            && (Replaced(marked, c, Decide(variant, c, b)).state != Conflict <==> Escapes(c, b))
  {
  }

  // --------------------------------------------------------- the repository

  lemma AfterNext(variant: Variant, ds: seq<Event>, e: Event)
    ensures After(variant, ds + [e]) == Some(Step(variant, After(variant, ds), e))
  {
    assert (ds + [e])[..|ds + [e]| - 1] == ds;
  }

  // ------------------------------------------ what one event does, field by field

  predicate NoConflictNoted(a: Association) {
    a.conflictVersion == 0 && a.conflictPayloadHash == ""
  }

  /** The first document shows its event, and has reached its version only if that is the first. */
  predicate IsFirst(a: Association, e: Event) {
    && ShowsDetails(a.details, e.details) && a.observedVersion == e.version && NoConflictNoted(a)
    && a.updatedAt == e.now
    && (if e.version > 1
        then a.sourceVersion == 0 && a.lastEventId == "" && a.lastPayloadHash == "" && a.state == Gap
             && a.observedEventId == e.eventId
        else a.sourceVersion == e.version && a.lastEventId == e.eventId && a.lastPayloadHash == e.payloadHash
             && a.state == Current && a.observedEventId == "")
  }

  /** The versions and the content stay as they are. */
  predicate KeepsContent(c: Association, a: Association) {
    && a.details == c.details && a.sourceVersion == c.sourceVersion && a.lastEventId == c.lastEventId
    && a.lastPayloadHash == c.lastPayloadHash
  }

  /** The conflict and the payload that caused it are noted, and no more. */
  predicate IsMarked(c: Association, e: Event, a: Association) {
    && KeepsContent(c, a) && a.observedVersion == c.observedVersion && a.observedEventId == c.observedEventId
    && a.state == Conflict && a.conflictVersion == e.version && a.conflictPayloadHash == e.payloadHash
    && a.updatedAt == e.now
  }

  /** The event is observed, and no more. */
  predicate IsObserved(c: Association, e: Event, a: Association) {
    && KeepsContent(c, a) && a.observedVersion == e.version && a.observedEventId == e.eventId && a.state == Gap
    && a.conflictVersion == c.conflictVersion && a.conflictPayloadHash == c.conflictPayloadHash
    && a.updatedAt == e.now
  }

  /** The next version is shown; what was observed beyond it keeps the gap. */
  predicate IsNext(variant: Variant, c: Association, e: Event, a: Association) {
    && ShowsDetails(a.details, e.details) && a.sourceVersion == e.version && a.lastEventId == e.eventId
    && a.lastPayloadHash == e.payloadHash && NoConflictNoted(a) && a.updatedAt == e.now
    && (if c.observedVersion > e.version
        then a.observedVersion == c.observedVersion && a.observedEventId == c.observedEventId && a.state == Gap
        else a.observedVersion == e.version && a.state == Current
             && a.observedEventId == if variant == Project then c.observedEventId else "")
  }

  /** What becomes of a stored association, by the version of the event. */
  predicate EventDid(variant: Variant, c: Association, e: Event, refused: bool, a: Association) {
    && (refused <==> variant == Project && c.state == Conflict && e.version > c.sourceVersion)
    && if refused || e.version < c.sourceVersion then a == c
       else if e.version == c.sourceVersion then
         if e.payloadHash == c.lastPayloadHash || e.eventId == c.lastEventId then a == c else IsMarked(c, e, a)
       else if e.version == c.sourceVersion + 1 then IsNext(variant, c, e, a)
       else if e.version <= c.observedVersion then a == c
       else IsObserved(c, e, a)
  }

  /** What becomes of the document of a key, if there is one. */
  predicate DocumentDid(variant: Variant, c: Option<Association>, e: Event, refused: bool, a: Association) {
    if c.None? then !refused && IsFirst(a, e) else EventDid(variant, c.value, e, refused, a)
  }

  lemma DocumentIs(variant: Variant, c: Option<Association>, e: Event)
    requires e.version >= 1
    ensures DocumentDid(variant, c, e, c.Some? && Decide(variant, c.value, e).Refused?, Step(variant, c, e))
  {
  }

  datatype Key = Key(tenantId: string, workspaceId: string, left: string, right: string)

  datatype ApplyResult = Done | Invalid | InConflictError

  class AssociationRepository {
    const variant: Variant
    var documents: map<Key, Association>
    ghost var deliveries: map<Key, seq<Event>>

    /** Every document is what its valid deliveries made of it. */
    ghost predicate Valid()
      reads this
    {
      && documents.Keys == deliveries.Keys
      && forall k :: k in documents ==> After(variant, deliveries[k]) == Some(documents[k])
    }

    /** Whatever was applied, a document means what was delivered for its key, if versions have one payload each. */
    lemma DocumentsMean(key: Key)
      requires Valid() && key in documents && OnePayloadPerVersion(deliveries[key])
      ensures deliveries[key] != [] && Means(documents[key], deliveries[key])
    {
      VersionsMeanDeliveries(variant, deliveries[key]);
    }

    constructor (variant: Variant)
      ensures Valid() && this.variant == variant && documents == map[]
    {
      this.variant := variant;
      documents, deliveries := map[], map[];
    }

    method Apply(key: Key, event: Event) returns (r: ApplyResult)
      requires Valid()
      modifies this
      ensures Valid()
      ensures r.Invalid? <==> !Deliverable(variant, event)
      ensures r.Invalid? ==> documents == old(documents) && deliveries == old(deliveries)
      ensures !r.Invalid? ==>
                deliveries
                == old(deliveries)[key := (if key in old(deliveries) then old(deliveries)[key] else []) + [event]]
      ensures !r.Invalid? ==> key in documents && documents == old(documents)[key := documents[key]]
      ensures !r.Invalid? ==>
                DocumentDid(variant, Lookup(old(documents), key), event, r.InConflictError?, documents[key])
    {
      if event.version < 1 { return Invalid; }
      if variant == Tender && (event.eventId == "" || event.payloadHash == "") { return Invalid; }
      if variant != Tender && (TrimSpace(event.eventId) == "" || TrimSpace(event.payloadHash) == "") {
        return Invalid;
      }
      ghost var before := if key in deliveries then deliveries[key] else [];
      AfterNext(variant, before, event);
      DocumentIs(variant, Lookup(documents, key), event);
      deliveries := deliveries[key := before + [event]];
      r := Write(key, event);
    }

    /** Insert the first document of the key, or replace the stored one by what the event makes of it. */
    method Write(key: Key, event: Event) returns (r: ApplyResult)
      modifies this`documents
      ensures documents == old(documents)[key := Step(variant, Lookup(old(documents), key), event)]
      ensures !r.Invalid?
      ensures r.InConflictError? <==> key in old(documents) && Decide(variant, old(documents)[key], event).Refused?
    {
      if key !in documents {
        var candidate := FromEvent(event);
        if event.version > 1 {
          candidate := candidate.(state := Gap, sourceVersion := 0, lastEventId := "", lastPayloadHash := "",
                                  observedEventId := event.eventId);
        }
        documents := documents[key := candidate];
        return Done;
      }
      match Decide(variant, documents[key], event)
      case Refused =>
        assert documents == documents[key := documents[key]];
        return InConflictError;
      case Unchanged =>
        assert documents == documents[key := documents[key]];
        return Done;
      case Updated(updated) =>
        documents := documents[key := updated];
        return Done;
    }
  }
}
