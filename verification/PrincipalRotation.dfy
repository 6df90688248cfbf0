/**
  Rotation of a workload principal (identity/rotation.go): candidate, dual acceptance, draining, revocation, with an
  audit entry for every transition. An event ID is modelled by the owner and the revision it is made of.
 */
module PrincipalRotations {
  import opened Common

  datatype PrincipalState = Active | Candidate | Draining | Revoked

  datatype Action = CreateCandidate | DualAccept | DrainOld | RevokeOld | EmergencyRevoke

  datatype Scope = Scope(tenantId: string, workspaceId: string, ownerSystem: string, resourceType: string)

  datatype Rotation = Rotation(
    owner: string, scope: Scope, audience: string, oldHash: string, newHash: string,
    oldState: PrincipalState, newState: PrincipalState, dualAccepted: bool, inFlight: int, revision: int,
    updatedAt: int)

  datatype AuditEntry = AuditEntry(
    owner: string, revision: int, action: Action, oldHash: string, newHash: string,
    oldState: PrincipalState, newState: PrincipalState, actor: string, reason: string, occurredAt: int)

  datatype RotationError =
    | NotFound | RevisionConflict | InvalidScope | InvalidInput | InvalidState | InFlightWork | AuditFailed
    | UnknownOwner

  datatype Result = Done(rotation: Rotation) | Refused(error: RotationError)

  datatype Request = Request(
    owner: string, scope: Scope, audience: string, oldHash: string, newHash: string, actor: string, reason: string)

  // ------------------------------------------------------------- validation

  const OWNERS := {"approver", "fluxion", "bids", "settlement"}

  predicate ExactText(s: string) {
    TrimSpace(s) != "" && '*' !in TrimSpace(s) && '?' !in TrimSpace(s)
  }

  predicate ValidScope(scope: Scope) {
    ExactText(scope.tenantId) && ExactText(scope.workspaceId) && ExactText(scope.ownerSystem)
    && ExactText(scope.resourceType)
    && scope.ownerSystem in OWNERS
  }

  predicate IsHex(c: char) {
    '0' <= c <= '9' || 'a' <= c <= 'f' || 'A' <= c <= 'F'
  }

  predicate ValidHash(value: string) {
    var text := TrimSpace(value);
    |text| == 71 && "sha256:" <= text && forall i :: 7 <= i < |text| ==> IsHex(text[i])
  }

  function Rejection(r: Request): Option<RotationError> {
    if TrimSpace(r.owner) !in OWNERS then Some(UnknownOwner)
    else if !ValidScope(r.scope) then Some(InvalidScope)
    else if TrimSpace(r.audience) == "" || !ValidHash(r.oldHash) || !ValidHash(r.newHash) || r.oldHash == r.newHash
            || TrimSpace(r.actor) == "" || TrimSpace(r.reason) == "" then Some(InvalidInput)
    else None
  }

  /** Some character is not a blank. */
  predicate IsGiven(s: string) {
    exists i :: 0 <= i < |s| && !IsSpace(s[i])
  }

  /** Given, and without wildcards between its outer blanks. */
  predicate IsExact(s: string) {
    IsGiven(s) && forall c :: c in TrimSpace(s) ==> c !in "*?"
  }

  /** The name of the hash and 64 hexadecimal digits. */
  predicate IsDigest(s: string) {
    var text := TrimSpace(s);
    |text| == 7 + 64 && text[..7] == "sha256:" && forall c :: c in text[7..] ==> c in "0123456789abcdefABCDEF"
  }

  predicate IsExactScope(scope: Scope) {
    && IsExact(scope.tenantId) && IsExact(scope.workspaceId) && IsExact(scope.resourceType)
    && scope.ownerSystem in {"approver", "fluxion", "bids", "settlement"}
  }

  lemma ScopesAreExact(scope: Scope)
    ensures ValidScope(scope) <==> IsExactScope(scope)
  {
    if scope.ownerSystem in OWNERS { KnownOwnersAreExact(scope.ownerSystem); }
  }

  /** A known owner, an exact scope, an audience, two different principals, and somebody who says why. */
  predicate Acceptable(r: Request) {
    && TrimSpace(r.owner) in {"approver", "fluxion", "bids", "settlement"} && IsGiven(r.audience)
    && IsExactScope(r.scope)
    && IsDigest(r.oldHash) && IsDigest(r.newHash) && r.oldHash != r.newHash && IsGiven(r.actor) && IsGiven(r.reason)
  }

  lemma HexDigits(c: char)
    ensures IsHex(c) <==> c in "0123456789abcdefABCDEF"
  {
    var digits := "0123456789abcdefABCDEF";
    assert digits[0] == '0' && digits[1] == '1' && digits[2] == '2' && digits[3] == '3' && digits[4] == '4';
    assert digits[5] == '5' && digits[6] == '6' && digits[7] == '7' && digits[8] == '8' && digits[9] == '9';
    assert digits[10] == 'a' && digits[11] == 'b' && digits[12] == 'c' && digits[13] == 'd' && digits[14] == 'e';
    assert digits[15] == 'f' && digits[16] == 'A' && digits[17] == 'B' && digits[18] == 'C' && digits[19] == 'D';
    assert digits[20] == 'E' && digits[21] == 'F';
  }

  lemma HashesAreDigests(s: string)
    ensures ValidHash(s) <==> IsDigest(s)
  {
    var text := TrimSpace(s);
    forall c ensures IsHex(c) <==> c in "0123456789abcdefABCDEF" { HexDigits(c); }
    if |text| == 71 {
      forall i | 7 <= i < |text| ensures text[i] == text[7..][i - 7] {}
    }
  }

  lemma KnownOwnersAreExact(s: string)
    requires s in OWNERS
    ensures ExactText(s)
  {
    assert !IsSpace(s[0]) && !IsSpace(s[|s| - 1]);
    assert TrimSpace(s) == s;
  }

  lemma RejectedUnlessAcceptable(r: Request)
    ensures Rejection(r) == None <==> Acceptable(r)
  {
    HashesAreDigests(r.oldHash);
    HashesAreDigests(r.newHash);
    ScopesAreExact(r.scope);
  }

  // ------------------------------------------------------------ transitions

  /** What a transition does to the states, or why it is refused. */
  function Moved(action: Action, r: Rotation): Result {
    match action
    case CreateCandidate => Refused(RevisionConflict)
    case DualAccept =>
      if r.oldState != Active || r.newState != Candidate then Refused(InvalidState) else Done(r.(dualAccepted := true))
    case DrainOld =>
      if !r.dualAccepted || r.oldState != Active || r.newState != Candidate then Refused(InvalidState)
         else Done(r.(oldState := Draining))
    case RevokeOld =>
      if r.oldState != Draining || r.newState != Candidate then Refused(InvalidState)
      else if r.inFlight != 0 then Refused(InFlightWork)
      else Done(r.(oldState := Revoked, newState := Active))
    case EmergencyRevoke => if r.oldState == Revoked then Refused(InvalidState) else Done(r.(oldState := Revoked))
  }

  function EntryOf(r: Rotation, action: Action, actor: string, reason: string): AuditEntry {
    AuditEntry(r.owner, r.revision, action, r.oldHash, r.newHash, r.oldState, r.newState, actor, reason, r.updatedAt)
  }

  // ----------------------------------------------- what is done, field by field

  /** The requested rotation: the old principal is active and the new one a candidate. */
  predicate IsCandidate(r: Rotation, request: Request, now: int) {
    && r.owner == request.owner && r.scope == request.scope && r.audience == request.audience
    && r.oldHash == request.oldHash && r.newHash == request.newHash
    && r.oldState == Active && r.newState == Candidate && !r.dualAccepted && r.inFlight == 0
    && r.revision == 1 && r.updatedAt == now
  }

  predicate IsAllowed(action: Action, r: Rotation) {
    match action
    case CreateCandidate => false
    case DualAccept => r.oldState == Active && r.newState == Candidate
    case DrainOld => r.oldState == Active && r.newState == Candidate && r.dualAccepted
    case RevokeOld => r.oldState == Draining && r.newState == Candidate && r.inFlight == 0
    case EmergencyRevoke => r.oldState != Revoked
  }

  /** The transition moves the states as its name says; who rotates what for whom, and the work in flight, stay. */
  predicate IsMove(action: Action, r: Rotation, r': Rotation, now: int) {
    && r'.owner == r.owner && r'.scope == r.scope && r'.audience == r.audience && r'.oldHash == r.oldHash
    && r'.newHash == r.newHash && r'.inFlight == r.inFlight && r'.revision == r.revision + 1 && r'.updatedAt == now
    && r'.dualAccepted == (r.dualAccepted || action == DualAccept)
    && r'.oldState == (match action case DualAccept => Active case DrainOld => Draining case _ => Revoked)
    && r'.newState == (if action == RevokeOld then Active else r.newState)
  }

  /** All that a drained principal waits for is the work in flight. */
  predicate IsInFlight(action: Action, r: Rotation) {
    action == RevokeOld && r.oldState == Draining && r.newState == Candidate && r.inFlight != 0
  }

  lemma MovedIs(action: Action, r: Rotation, now: int)
    ensures Moved(action, r).Done? <==> IsAllowed(action, r)
    ensures Moved(action, r).Done? ==>
              IsMove(action, r, Moved(action, r).rotation.(revision := r.revision + 1, updatedAt := now), now)
    ensures Moved(action, r) == Refused(InFlightWork) <==> IsInFlight(action, r)
  {
  }

  /** The audit entry says who did what to which principals and why, and how they stand now. */
  predicate Records(e: AuditEntry, r: Rotation, action: Action, actor: string, reason: string) {
    && e.owner == r.owner && e.revision == r.revision && e.action == action && e.oldHash == r.oldHash
    && e.newHash == r.newHash && e.oldState == r.oldState && e.newState == r.newState && e.actor == actor
    && e.reason == reason && e.occurredAt == r.updatedAt
  }

  predicate Appends(entries: seq<AuditEntry>, entries': seq<AuditEntry>, r: Rotation, action: Action, actor: string,
                    reason: string) {
    entries' != [] && entries'[..|entries'| - 1] == entries && Records(Last(entries'), r, action, actor, reason)
  }

  // ---------------------------------------------------------------- history

  /** Something that was committed: a transition with its audit entry, or a change of the in-flight count. */
  datatype Commit = Commit(rotation: Rotation, entry: Option<AuditEntry>)

  predicate IsCreation(owner: string, c: Commit) {
    && c.rotation.owner == owner && c.rotation.oldState == Active && c.rotation.newState == Candidate
    && !c.rotation.dualAccepted && c.rotation.inFlight == 0 && c.rotation.revision == 1
    && c.entry.Some? && c.entry.value == EntryOf(c.rotation, CreateCandidate, c.entry.value.actor, c.entry.value.reason)
  }

  predicate IsChange(before: Rotation, c: Commit) {
    if c.entry.None? then c.rotation.inFlight >= 0
                          && c.rotation == before.(inFlight := c.rotation.inFlight, revision := before.revision + 1,
                                                   updatedAt := c.rotation.updatedAt)
    else
      var e := c.entry.value;
      && Moved(e.action, before).Done?
      && c.rotation == Moved(e.action, before).rotation.(revision := before.revision + 1,
                                                         updatedAt := c.rotation.updatedAt)
      && e == EntryOf(c.rotation, e.action, e.actor, e.reason)
  }

  ghost predicate IsHistory(owner: string, commits: seq<Commit>) {
    && commits != [] && IsCreation(owner, commits[0])
    && forall i :: 0 < i < |commits| ==> IsChange(commits[i - 1].rotation, commits[i])
  }

  /** The states that can be reached. */
  predicate Reachable(r: Rotation) {
    && r.inFlight >= 0
    && ((r.oldState == Active && r.newState == Candidate)
        || (r.oldState == Draining && r.newState == Candidate && r.dualAccepted)
        || (r.oldState == Revoked && r.newState == Active && r.dualAccepted)
        || (r.oldState == Revoked && r.newState == Candidate))
  }

  /**
    Every committed rotation is in a reachable state, keeps its identity, and has its place in the history as its
    revision.
   */
  lemma {:induction false} HistoryIsReachable(owner: string, commits: seq<Commit>, i: nat)
    requires IsHistory(owner, commits) && i < |commits|
    ensures Reachable(commits[i].rotation) && commits[i].rotation.revision == i + 1
    ensures commits[i].rotation.owner == owner
    ensures commits[i].rotation.oldHash == commits[0].rotation.oldHash
    ensures commits[i].rotation.newHash == commits[0].rotation.newHash
    ensures commits[i].rotation.scope == commits[0].rotation.scope
    ensures commits[i].rotation.audience == commits[0].rotation.audience
    decreases i
  {
    if i > 0 {
      HistoryIsReachable(owner, commits, i - 1);
      assert IsChange(commits[i - 1].rotation, commits[i]);
    }
  }

  /** A history with one more transition, if it is legal. */
  function Then(commits: seq<Commit>, action: Action): seq<Commit>
    requires commits != []
  {
    var before := Last(commits).rotation;
    if Moved(action, before).Refused? then commits
    else
      var r := Moved(action, before).rotation.(revision := before.revision + 1);
      commits + [Commit(r, Some(EntryOf(r, action, "actor", "reason")))]
  }

  function ThenInFlight(commits: seq<Commit>, count: nat): seq<Commit>
    requires commits != []
  {
    var before := Last(commits).rotation;
    commits + [Commit(before.(inFlight := count, revision := before.revision + 1), None)]
  }

  lemma ThenIsHistory(owner: string, commits: seq<Commit>, action: Action) returns (longer: seq<Commit>)
    requires IsHistory(owner, commits)
    ensures longer == Then(commits, action) && IsHistory(owner, longer)
  {
    longer := Then(commits, action);
  }

  lemma ThenInFlightIsHistory(owner: string, commits: seq<Commit>, count: nat)
    requires IsHistory(owner, commits)
    ensures IsHistory(owner, ThenInFlight(commits, count))
  {
  }

  /** Nothing less is reachable: every such state, whatever the flag and the count, ends some history. */
  lemma ReachableStatesAreReached(r: Rotation) returns (commits: seq<Commit>)
    requires Reachable(r)
    ensures IsHistory(r.owner, commits)
    ensures Last(commits).rotation == r.(revision := |commits|)
  {
    var first := r.(oldState := Active, newState := Candidate, dualAccepted := false, inFlight := 0, revision := 1);
    commits := [Commit(first, Some(EntryOf(first, CreateCandidate, "actor", "reason")))];
    if r.dualAccepted { commits := ThenIsHistory(r.owner, commits, DualAccept); }
    if r.oldState == Draining || r.newState == Active {
      commits := ThenIsHistory(r.owner, commits, DrainOld);
    } else if r.oldState == Revoked {
      commits := ThenIsHistory(r.owner, commits, EmergencyRevoke);
    }
    if r.newState == Active { commits := ThenIsHistory(r.owner, commits, RevokeOld); }
    ThenInFlightIsHistory(r.owner, commits, r.inFlight);
    commits := ThenInFlight(commits, r.inFlight);
  }

  /** The new principal becomes active only by revoking a drained old one with nothing in flight. */
  lemma NewActiveOnlyWhenDrained(owner: string, commits: seq<Commit>, i: nat)
    requires IsHistory(owner, commits) && i < |commits| && commits[i].rotation.newState == Active
    ensures exists j :: 0 < j <= i && BecameActive(commits[j - 1].rotation, commits[j])
    decreases i
  {
    HistoryIsReachable(owner, commits, i);
    assert i > 0;
    assert IsChange(commits[i - 1].rotation, commits[i]);
    if commits[i - 1].rotation.newState == Active {
      NewActiveOnlyWhenDrained(owner, commits, i - 1);
    } else {
      assert BecameActive(commits[i - 1].rotation, commits[i]);
    }
  }

  predicate BecameActive(before: Rotation, c: Commit) {
    before.oldState == Draining && before.newState == Candidate && before.dualAccepted && before.inFlight == 0
    && c.entry.Some? && c.entry.value.action == RevokeOld && c.rotation.newState == Active
  }

  /** Once the old principal is revoked no transition is accepted any more, whether or not a new one took its place. */
  lemma RevokedIsFinal(r: Rotation)
    requires Reachable(r)
    ensures (forall a :: Moved(a, r).Refused?) <==> r.oldState == Revoked
  {
    if r.oldState != Revoked { assert Moved(EmergencyRevoke, r).Done?; }
  }

  // ------------------------------------------------------------------ audit

  function EntriesIn(commits: seq<Commit>): seq<AuditEntry> {
    if commits == [] then []
    else EntriesIn(commits[..|commits| - 1]) + (if Last(commits).entry.Some? then [Last(commits).entry.value] else [])
  }

  function EntriesFor(owner: string, entries: seq<AuditEntry>): seq<AuditEntry> {
    if entries == [] then []
    else EntriesFor(owner, entries[..|entries| - 1]) + (if Last(entries).owner == owner then [Last(entries)] else [])
  }

  lemma EntriesForNext(owner: string, entries: seq<AuditEntry>, e: AuditEntry)
    ensures EntriesFor(owner, entries + [e]) == EntriesFor(owner, entries) + (if e.owner == owner then [e] else [])
  {
    assert (entries + [e])[..|entries|] == entries;
  }

  lemma EntriesInNext(commits: seq<Commit>, c: Commit)
    ensures EntriesIn(commits + [c]) == EntriesIn(commits) + (if c.entry.Some? then [c.entry.value] else [])
  {
    assert (commits + [c])[..|commits|] == commits;
  }

  /** The audit revisions of an owner strictly increase, so no event ID repeats. */
  lemma {:induction false} AuditRevisionsIncrease(owner: string, commits: seq<Commit>)
    requires IsHistory(owner, commits)
    ensures var entries := EntriesIn(commits);
            && (forall i :: 0 <= i < |entries| ==> entries[i].owner == owner && entries[i].revision <= |commits|)
            && (forall i, j :: 0 <= i < j < |entries| ==> entries[i].revision < entries[j].revision)
    decreases |commits|
  {
    var front := commits[..|commits| - 1];
    HistoryIsReachable(owner, commits, |commits| - 1);
    if front == [] {
      assert EntriesIn(front) == [];
    } else {
      AuditRevisionsIncrease(owner, front);
      assert IsChange(commits[|commits| - 2].rotation, commits[|commits| - 1]);
    }
  }

  // ---------------------------------------------------------------- service

  /** The store, the audit and the histories fit together. */
  ghost predicate Coherent(
    values: map<string, Rotation>, entries: seq<AuditEntry>, histories: map<string, seq<Commit>>)
  {
    && values.Keys == histories.Keys
    && (forall o :: o in histories ==> OwnerCoherent(values, histories, o))
    && (forall o :: AuditCoherent(entries, histories, o))
  }

  ghost predicate OwnerCoherent(values: map<string, Rotation>, histories: map<string, seq<Commit>>, o: string)
    requires o in histories
  {
    IsHistory(o, histories[o]) && o in values && values[o] == Last(histories[o]).rotation
  }

  /** The audit entries of an owner are exactly those of its committed transitions, in order. */
  ghost predicate AuditCoherent(entries: seq<AuditEntry>, histories: map<string, seq<Commit>>, o: string) {
    EntriesFor(o, entries) == if o in histories then EntriesIn(histories[o]) else []
  }

  function Committed(histories: map<string, seq<Commit>>, owner: string, c: Commit): map<string, seq<Commit>> {
    histories[owner := (if owner in histories then histories[owner] else []) + [c]]
  }

  function Audited(entries: seq<AuditEntry>, c: Commit): seq<AuditEntry> {
    if c.entry.Some? then entries + [c.entry.value] else entries
  }

  lemma CommitKeepsAudit(
    entries: seq<AuditEntry>, histories: map<string, seq<Commit>>, owner: string, c: Commit, o: string)
    requires AuditCoherent(entries, histories, o) && (c.entry.Some? ==> c.entry.value.owner == owner)
    ensures AuditCoherent(Audited(entries, c), Committed(histories, owner, c), o)
  {
    EntriesInNext(if owner in histories then histories[owner] else [], c);
    if c.entry.Some? { EntriesForNext(o, entries, c.entry.value); }
  }

  lemma CommitKeepsOwners(
    values: map<string, Rotation>, histories: map<string, seq<Commit>>, owner: string, c: Commit, o: string)
    requires o in histories ==> OwnerCoherent(values, histories, o)
    requires o == owner ==> IsHistory(owner, Committed(histories, owner, c)[owner])
    ensures o in Committed(histories, owner, c) ==>
              OwnerCoherent(values[owner := c.rotation], Committed(histories, owner, c), o)
  {
  }

  lemma CommitKeepsCoherent(
    values: map<string, Rotation>, entries: seq<AuditEntry>, histories: map<string, seq<Commit>>, owner: string,
    c: Commit)
    requires Coherent(values, entries, histories) && c.rotation.owner == owner
    requires if owner in values then IsChange(values[owner], c) else IsCreation(owner, c)
    ensures Coherent(values[owner := c.rotation], Audited(entries, c), Committed(histories, owner, c))
  {
    var histories' := Committed(histories, owner, c);
    if owner in histories { assert OwnerCoherent(values, histories, owner); }
    HistoryGrows(owner, if owner in histories then histories[owner] else [], c);
    forall o | o in histories' ensures OwnerCoherent(values[owner := c.rotation], histories', o) {
      if o in histories { assert OwnerCoherent(values, histories, o); }
      CommitKeepsOwners(values, histories, owner, c, o);
    }
    var entries' := Audited(entries, c);
    forall o ensures AuditCoherent(entries', histories', o) {
      assert AuditCoherent(entries, histories, o);
      CommitKeepsAudit(entries, histories, owner, c, o);
    }
  }

  lemma HistoryGrows(owner: string, commits: seq<Commit>, c: Commit)
    requires if commits == [] then IsCreation(owner, c)
             else IsHistory(owner, commits) && IsChange(Last(commits).rotation, c)
    ensures IsHistory(owner, commits + [c])
  {
  }

  class PrincipalRotationService {
    var values: map<string, Rotation>
    var entries: seq<AuditEntry>
    ghost var histories: map<string, seq<Commit>>

    ghost predicate Valid()
      reads this
    {
      Coherent(values, entries, histories)
    }

    constructor ()
      ensures Valid() && values == map[] && entries == [] && histories == map[]
    {
      values, entries, histories := map[], [], map[];
    }

    /** The audit writer appends the entry, or fails and appends nothing. */
    method AppendAudit(entry: AuditEntry, auditFails: bool) returns (ok: bool)
      modifies this`entries
      ensures ok == !auditFails && entries == if ok then old(entries) + [entry] else old(entries)
    {
      if auditFails { return false; }
      entries := entries + [entry];
      return true;
    }

    method Create(request: Request, now: int, auditFails: bool) returns (r: Result)
      requires Valid()
      modifies this
      ensures Valid()
      ensures r.Done? <==> Acceptable(request) && request.owner !in old(values) && !auditFails
      ensures r.Done? ==>
                && IsCandidate(r.rotation, request, now) && values == old(values)[request.owner := r.rotation]
                && Appends(old(entries), entries, r.rotation, CreateCandidate, request.actor, request.reason)
      ensures r.Refused? ==> values == old(values) && entries == old(entries) && histories == old(histories)
    {
      RejectedUnlessAcceptable(request);
      if Rejection(request).Some? { return Refused(Rejection(request).value); }
      if request.owner in values { return Refused(RevisionConflict); }
      var rotation := Rotation(request.owner, request.scope, request.audience, request.oldHash, request.newHash, Active,
                               Candidate, false, 0, 1, now);
      ghost var c := Commit(rotation, Some(EntryOf(rotation, CreateCandidate, request.actor, request.reason)));
      CommitKeepsCoherent(values, entries, histories, request.owner, c);
      var ok := AppendAudit(EntryOf(rotation, CreateCandidate, request.actor, request.reason), auditFails);
      if !ok { return Refused(AuditFailed); }
      values := values[request.owner := rotation];
      histories := Committed(histories, request.owner, c);
      return Done(rotation);
    }

    /** A transition commits with its audit entry or not at all. */
    method Transition(
      owner: string, action: Action, actor: string, reason: string, now: int, auditFails: bool) returns (r: Result)
      requires Valid() && action != CreateCandidate
      modifies this
      ensures Valid()
      ensures r.Done? <==> TrimSpace(owner) != "" && TrimSpace(actor) != "" && TrimSpace(reason) != ""
                           && owner in old(values) && IsAllowed(action, old(values)[owner]) && !auditFails
      ensures r.Done? ==>
                && owner in old(values) && IsMove(action, old(values)[owner], r.rotation, now)
                && values == old(values)[owner := r.rotation]
                && Appends(old(entries), entries, r.rotation, action, actor, reason)
      ensures r == Refused(InFlightWork) <==>
                && TrimSpace(owner) != "" && TrimSpace(actor) != "" && TrimSpace(reason) != ""
                && owner in old(values) && IsInFlight(action, old(values)[owner])
      ensures r.Refused? ==> values == old(values) && entries == old(entries) && histories == old(histories)
    {
      if TrimSpace(owner) == "" || TrimSpace(actor) == "" || TrimSpace(reason) == "" { return Refused(InvalidInput); }
      if owner !in values { return Refused(NotFound); }
      MovedIs(action, values[owner], now);
      var moved := Moved(action, values[owner]);
      if moved.Refused? { return moved; }
      var updated := moved.rotation.(revision := moved.rotation.revision + 1, updatedAt := now);
      ghost var c := Commit(updated, Some(EntryOf(updated, action, actor, reason)));
      OwnerOf(values, entries, histories, owner);
      CommitKeepsCoherent(values, entries, histories, owner, c);
      var ok := AppendAudit(EntryOf(updated, action, actor, reason), auditFails);
      if !ok { return Refused(AuditFailed); }
      values := values[owner := updated];
      histories := Committed(histories, owner, c);
      return Done(updated);
    }

    /** The in-flight count changes without an audit entry. */
    method SetInFlight(owner: string, count: int, now: int) returns (r: Result)
      requires Valid()
      modifies this`values, this`histories
      ensures Valid()
      ensures r.Done? <==> count >= 0 && owner in old(values)
      ensures r.Done? ==>
                && r.rotation == old(values)[owner].(inFlight := count, revision := old(values)[owner].revision + 1,
                                                     updatedAt := now)
                && values == old(values)[owner := r.rotation]
      ensures r.Refused? ==> values == old(values) && histories == old(histories)
    {
      if count < 0 { return Refused(InvalidInput); }
      if owner !in values { return Refused(NotFound); }
      var updated := values[owner].(inFlight := count, revision := values[owner].revision + 1, updatedAt := now);
      OwnerOf(values, entries, histories, owner);
      CommitKeepsCoherent(values, entries, histories, owner, Commit(updated, None));
      values := values[owner := updated];
      histories := Committed(histories, owner, Commit(updated, None));
      return Done(updated);
    }
  }

  lemma OwnerOf(
    values: map<string, Rotation>, entries: seq<AuditEntry>, histories: map<string, seq<Commit>>, owner: string)
    requires Coherent(values, entries, histories) && owner in values
    ensures values[owner].owner == owner && Reachable(values[owner])
  {
    assert OwnerCoherent(values, histories, owner);
    HistoryIsReachable(owner, histories[owner], |histories[owner]| - 1);
  }

  /**
    After any sequence of operations: every rotation is in a reachable state, its audit entries are exactly those of its
    committed transitions, in order, and their revisions strictly increase.
   */
  lemma AuditedLifecycle(service: PrincipalRotationService, owner: string)
    requires service.Valid() && owner in service.values && owner in service.histories
    ensures Reachable(service.values[owner])
    ensures IsHistory(owner, service.histories[owner])
    ensures service.values[owner] == Last(service.histories[owner]).rotation
    ensures EntriesFor(owner, service.entries) == EntriesIn(service.histories[owner])
    ensures var entries := EntriesFor(owner, service.entries);
            forall i, j :: 0 <= i < j < |entries| ==> entries[i].revision < entries[j].revision
  {
    OwnerOf(service.values, service.entries, service.histories, owner);
    assert OwnerCoherent(service.values, service.histories, owner);
    assert AuditCoherent(service.entries, service.histories, owner);
    AuditRevisionsIncrease(owner, service.histories[owner]);
  }
}
