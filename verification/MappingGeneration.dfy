/**
  The compiled catalog of published mappings (projection/catalog_generation.go): built once from a list, indexed by
  event, and consulted for every event. The index must answer as a scan of all entries would.
 */
module MappingGeneration {
  import opened Common

  datatype Key = Key(tenantId: string, workspaceId: string, sourceId: string, eventType: string, eventVersion: int)

  datatype EventKey = EventKey(tenantId: string, sourceId: string, eventType: string, eventVersion: int)

  datatype Rule = Rule(tenantId: string, workspaceId: string)

  /**
    How the workspace of an event is found: a metadata field, a list of allowed scopes, or (never published) nothing.
   */
  datatype Resolution = Metadata(field: string) | Allowlist(rules: seq<Rule>) | NoResolution

  datatype Mapping = Mapping(
    key: Key, mappingId: string, revision: int, targetTableId: string, fieldMap: map<string, string>,
    resolution: Resolution)

  /** A published registration, compiled or not. */
  datatype Compiled = Compiled(mapping: Mapping) | Broken

  datatype BuildError = TooMany | NotCompiled | DuplicateKey

  datatype Generation = Generation(entries: map<Key, Mapping>, byEvent: map<EventKey, seq<Key>>)

  datatype BuildResult = Built(generation: Generation) | Failed(error: BuildError)

  datatype Resolved = Found(mapping: Mapping) | NotFound | Ambiguous

  function EventOf(k: Key): EventKey {
    EventKey(k.tenantId, k.sourceId, k.eventType, k.eventVersion)
  }

  function Listed(byEvent: map<EventKey, seq<Key>>, e: EventKey): seq<Key> {
    if e in byEvent then byEvent[e] else []
  }

  /** The index lists every entry once under its event, and nothing else. */
  ghost predicate IsIndex(entries: map<Key, Mapping>, byEvent: map<EventKey, seq<Key>>) {
    && (forall k :: k in entries ==> entries[k].key == k)
    && (forall e, k :: k in Listed(byEvent, e) <==> k in entries && EventOf(k) == e)
    && (forall e, i, j :: 0 <= i < j < |Listed(byEvent, e)| ==> Listed(byEvent, e)[i] != Listed(byEvent, e)[j])
  }

  // ------------------------------------------------------------------ build

  ghost predicate KeysDistinct(list: seq<Compiled>) {
    forall i, j :: 0 <= i < j < |list| && list[i].Compiled? && list[j].Compiled? ==>
      list[i].mapping.key != list[j].mapping.key
  }

  ghost predicate AllCompiled(list: seq<Compiled>) {
    forall c :: c in list ==> c.Compiled?
  }

  /** The entries are the mappings of the list under their keys. */
  ghost predicate Holds(entries: map<Key, Mapping>, list: seq<Compiled>) {
    && (forall c :: c in list && c.Compiled? ==> c.mapping.key in entries && entries[c.mapping.key] == c.mapping)
    && (forall k :: k in entries ==> exists c :: c in list && c.Compiled? && c.mapping.key == k)
  }

  lemma IndexGrows(entries: map<Key, Mapping>, byEvent: map<EventKey, seq<Key>>, m: Mapping)
    requires IsIndex(entries, byEvent) && m.key !in entries
    ensures IsIndex(entries[m.key := m], byEvent[EventOf(m.key) := Listed(byEvent, EventOf(m.key)) + [m.key]])
  {
    var e, byEvent' := EventOf(m.key), byEvent[EventOf(m.key) := Listed(byEvent, EventOf(m.key)) + [m.key]];
    assert Listed(byEvent', e) == Listed(byEvent, e) + [m.key];
    assert forall f :: f != e ==> Listed(byEvent', f) == Listed(byEvent, f);
    assert m.key !in Listed(byEvent, e);
  }

  /**
    Built exactly when the list is within the limit, compiles, and repeats no key; then entries and index are complete.
   */
  method Build(list: seq<Compiled>, limit: nat) returns (r: BuildResult)
    ensures r.Built? <==> |list| <= limit && AllCompiled(list) && KeysDistinct(list)
    ensures r.Built? ==> IsIndex(r.generation.entries, r.generation.byEvent) && Holds(r.generation.entries, list)
  {
    if |list| > limit { return Failed(TooMany); }
    var entries: map<Key, Mapping>, byEvent: map<EventKey, seq<Key>> := map[], map[];
    for i := 0 to |list|
      invariant AllCompiled(list[..i]) && KeysDistinct(list[..i])
      invariant IsIndex(entries, byEvent) && Holds(entries, list[..i])
    {
      assert list[i] in list;
      if list[i].Broken? { return Failed(NotCompiled); }
      var m := list[i].mapping;
      if m.key in entries {
        ghost var c :| c in list[..i] && c.Compiled? && c.mapping.key == m.key;
        return Failed(DuplicateKey);
      }
      IndexGrows(entries, byEvent, m);
      HoldsMore(entries, list, i);
      entries := entries[m.key := m];
      byEvent := byEvent[EventOf(m.key) := Listed(byEvent, EventOf(m.key)) + [m.key]];
    }
    assert list[..|list|] == list;
    return Built(Generation(entries, byEvent));
  }

  lemma HoldsMore(entries: map<Key, Mapping>, list: seq<Compiled>, i: nat)
    requires i < |list| && Holds(entries, list[..i]) && list[i].Compiled? && list[i].mapping.key !in entries
    requires AllCompiled(list[..i]) && KeysDistinct(list[..i])
    ensures Holds(entries[list[i].mapping.key := list[i].mapping], list[..i + 1])
    ensures AllCompiled(list[..i + 1]) && KeysDistinct(list[..i + 1])
  {
    assert list[..i + 1] == list[..i] + [list[i]];
    forall j, k | 0 <= j < k < i + 1 && list[j].Compiled? && list[k].Compiled?
      ensures list[j].mapping.key != list[k].mapping.key
    {
      assert list[j] == list[..i + 1][j] && list[j] in list[..i];
      if k < i { assert list[..i][j] == list[j] && list[..i][k] == list[k]; }
    }
    var entries' := entries[list[i].mapping.key := list[i].mapping];
    forall k | k in entries' ensures exists c :: c in list[..i + 1] && c.Compiled? && c.mapping.key == k {
      if k in entries {
        var c :| c in list[..i] && c.Compiled? && c.mapping.key == k;
        assert c in list[..i + 1];
      } else {
        assert list[i] in list[..i + 1];
      }
    }
  }

  // ---------------------------------------------------------------- resolve

  function MetadataValue(metadata: map<string, string>, field: string): string {
    if field in metadata then metadata[field] else ""
  }

  predicate ResolvesWorkspace(m: Mapping, tenantId: string, metadata: map<string, string>) {
    && m.key.tenantId == tenantId
    && match m.resolution
       case Metadata(field) => TrimSpace(MetadataValue(metadata, field)) == m.key.workspaceId
       case Allowlist(rules) => Rule(tenantId, m.key.workspaceId) in rules
       case NoResolution => false
  }

  /** What a scan of all entries looks for. */
  ghost predicate Matches(entries: map<Key, Mapping>, e: EventKey, metadata: map<string, string>, k: Key) {
    k in entries && EventOf(k) == e && ResolvesWorkspace(entries[k], e.tenantId, metadata)
  }

  ghost predicate TwoMatch(entries: map<Key, Mapping>, e: EventKey, metadata: map<string, string>) {
    exists k, l :: k != l && Matches(entries, e, metadata, k) && Matches(entries, e, metadata, l)
  }

  /** The answer of a scan: one match, none, or more than one. */
  ghost predicate IsScan(entries: map<Key, Mapping>, e: EventKey, metadata: map<string, string>, r: Resolved) {
    match r
    case Found(m) =>
      Matches(entries, e, metadata, m.key) && entries[m.key] == m
      && forall k :: Matches(entries, e, metadata, k) ==> k == m.key
    case NotFound => forall k :: !Matches(entries, e, metadata, k)
    case Ambiguous => TwoMatch(entries, e, metadata)
  }

  /** A scan has exactly one answer, so a found mapping is the only one and ambiguity means two or more. */
  lemma ScanDecides(entries: map<Key, Mapping>, e: EventKey, metadata: map<string, string>, r: Resolved, s: Resolved)
    requires IsScan(entries, e, metadata, r) && IsScan(entries, e, metadata, s)
    ensures r == s
  {
    if r.Ambiguous? || s.Ambiguous? {
      var k, l :| k != l && Matches(entries, e, metadata, k) && Matches(entries, e, metadata, l);
    }
  }

  /** The search through the event index gives the answer of the scan. */
  method Search(generation: Generation, e: EventKey, metadata: map<string, string>) returns (r: Resolved)
    requires IsIndex(generation.entries, generation.byEvent)
    ensures IsScan(generation.entries, e, metadata, r)
  {
    var keys := Listed(generation.byEvent, e);
    var found: Option<Mapping> := None;
    for i := 0 to |keys|
      invariant found.Some? ==> found.value.key in keys[..i] && found == Lookup(generation.entries, found.value.key)
                                 && ResolvesWorkspace(found.value, e.tenantId, metadata)
      invariant forall k :: k in keys[..i] && Matches(generation.entries, e, metadata, k) ==>
                  found.Some? && found.value.key == k
    {
      assert keys[i] in keys;
      var candidate := generation.entries[keys[i]];
      assert keys[..i + 1] == keys[..i] + [keys[i]];
      if ResolvesWorkspace(candidate, e.tenantId, metadata) {
        if found.Some? {
          assert Matches(generation.entries, e, metadata, keys[i])
                 && Matches(generation.entries, e, metadata, found.value.key);
          return Ambiguous;
        }
        found := Some(candidate);
      }
    }
    assert keys[..|keys|] == keys;
    return if found.None? then NotFound else Found(found.value);
  }

  /** When every candidate reads its workspace from the same metadata field, no event is ambiguous. */
  lemma OneFieldIsUnambiguous(entries: map<Key, Mapping>, e: EventKey, metadata: map<string, string>, field: string)
    requires forall k :: k in entries ==> entries[k].key == k
    requires forall k :: k in entries && EventOf(k) == e ==> entries[k].resolution == Metadata(field)
    ensures !TwoMatch(entries, e, metadata)
  {
    forall k, l | Matches(entries, e, metadata, k) && Matches(entries, e, metadata, l) ensures k == l {
      assert k.workspaceId == l.workspaceId;
    }
  }

  /**
    What registration admits (catalog.go): the metadata field is always workspaceId, an allowlist is not empty, and
    workspace identifiers are trimmed and not blank.
   */
  predicate Registered(m: Mapping) {
    && m.key.workspaceId != "" && TrimSpace(m.key.workspaceId) == m.key.workspaceId
    && match m.resolution
       case Metadata(field) => field == "workspaceId"
       case Allowlist(rules) => rules != []
       case NoResolution => false
  }

  ghost predicate AllRegistered(entries: map<Key, Mapping>) {
    forall k :: k in entries ==> entries[k].key == k && Registered(entries[k])
  }

  /**
    The allowlist of a candidate names the candidate's own scope, so the candidate matches whatever the metadata say.
   */
  predicate AllowsItself(m: Mapping) {
    m.resolution.Allowlist? && Rule(m.key.tenantId, m.key.workspaceId) in m.resolution.rules
  }

  ghost predicate Candidate(entries: map<Key, Mapping>, e: EventKey, k: Key) {
    k in entries && EventOf(k) == e
  }

  /** Two candidates of which one matches always and the other matches always or for its own workspace. */
  ghost predicate Overlap(entries: map<Key, Mapping>, e: EventKey, k: Key, l: Key) {
    && k != l && Candidate(entries, e, k) && Candidate(entries, e, l)
    && AllowsItself(entries[k]) && (AllowsItself(entries[l]) || entries[l].resolution.Metadata?)
  }

  lemma MatchesIff(entries: map<Key, Mapping>, e: EventKey, metadata: map<string, string>, k: Key)
    requires AllRegistered(entries)
    ensures Matches(entries, e, metadata, k) <==>
            && Candidate(entries, e, k)
            && (AllowsItself(entries[k])
                || (entries[k].resolution.Metadata? && "workspaceId" in metadata
                    && TrimSpace(metadata["workspaceId"]) == k.workspaceId))
  {
    assert TrimSpace("") == "";
  }

  /** An event is ambiguous exactly when two of its candidates overlap and it selects the second of them. */
  lemma EventIsAmbiguousIff(entries: map<Key, Mapping>, e: EventKey, metadata: map<string, string>)
    requires AllRegistered(entries)
    ensures TwoMatch(entries, e, metadata) <==>
            exists k, l :: Overlap(entries, e, k, l) && Matches(entries, e, metadata, l)
  {
    if TwoMatch(entries, e, metadata) {
      var k, l :| k != l && Matches(entries, e, metadata, k) && Matches(entries, e, metadata, l);
      MatchesIff(entries, e, metadata, k);
      MatchesIff(entries, e, metadata, l);
      assert Overlap(entries, e, k, l) || Overlap(entries, e, l, k) || k.workspaceId == l.workspaceId;
    }
    if k, l :| Overlap(entries, e, k, l) && Matches(entries, e, metadata, l) {
      MatchesIff(entries, e, metadata, k);
      assert k != l && Matches(entries, e, metadata, k);
    }
  }

  /** An event that names the workspace of the second of two overlapping candidates. */
  lemma OverlapIsSelected(entries: map<Key, Mapping>, e: EventKey, k: Key, l: Key)
    requires AllRegistered(entries) && Overlap(entries, e, k, l)
    ensures TwoMatch(entries, e, map["workspaceId" := l.workspaceId])
  {
    var metadata := map["workspaceId" := l.workspaceId];
    MatchesIff(entries, e, metadata, l);
    EventIsAmbiguousIff(entries, e, metadata);
  }

  /**
    Some event of a kind is ambiguous exactly when two of its candidates overlap: a mapping that resolves by allowlist
    and allows its own scope, beside another such mapping or one that reads the metadata.
   */
  lemma AmbiguousIffAllowlistsOverlap(entries: map<Key, Mapping>, e: EventKey)
    requires AllRegistered(entries)
    ensures (exists metadata :: TwoMatch(entries, e, metadata)) <==> exists k, l :: Overlap(entries, e, k, l)
  {
    if metadata :| TwoMatch(entries, e, metadata) {
      EventIsAmbiguousIff(entries, e, metadata);
    }
    if k, l :| Overlap(entries, e, k, l) {
      OverlapIsSelected(entries, e, k, l);
      assert TwoMatch(entries, e, map["workspaceId" := l.workspaceId]);
    }
  }

  /**
    Two workspaces of a tenant, each allowing itself: registered mappings under which every event of the kind is
    ambiguous.
   */
  lemma TwoAllowlistsAreAmbiguous(metadata: map<string, string>)
    ensures var k, l := Key("t", "a", "s", "e", 1), Key("t", "b", "s", "e", 1);
            var entries := map[k := Mapping(k, "m", 1, "x", map[], Allowlist([Rule("t", "a")])),
                               l := Mapping(l, "n", 1, "y", map[], Allowlist([Rule("t", "b")]))];
            AllRegistered(entries) && TwoMatch(entries, EventOf(k), metadata)
  {
    var k, l := Key("t", "a", "s", "e", 1), Key("t", "b", "s", "e", 1);
    var entries := map[k := Mapping(k, "m", 1, "x", map[], Allowlist([Rule("t", "a")])),
                       l := Mapping(l, "n", 1, "y", map[], Allowlist([Rule("t", "b")]))];
    assert TrimSpace("a") == "a" && TrimSpace("b") == "b";
    assert AllRegistered(entries);
    assert Overlap(entries, EventOf(k), k, l);
    MatchesIff(entries, EventOf(k), metadata, k);
    MatchesIff(entries, EventOf(k), metadata, l);
    assert k != l && Matches(entries, EventOf(k), metadata, k) && Matches(entries, EventOf(k), metadata, l);
  }

  /** The active generation is replaced as a whole, so every search sees one complete catalog. */
  class Registry {
    var active: Generation

    ghost predicate Valid()
      reads this
    {
      IsIndex(active.entries, active.byEvent)
    }

    constructor ()
      ensures Valid() && active.entries == map[]
    {
      active := Generation(map[], map[]);
    }

    method Activate(generation: Generation)
      requires IsIndex(generation.entries, generation.byEvent)
      modifies this
      ensures Valid() && active == generation
    {
      active := generation;
    }

    /** Texts are trimmed before the search. */
    method Resolve(
      tenantId: string, sourceId: string, eventType: string, eventVersion: int, metadata: map<string, string>)
      returns (r: Resolved)
      requires Valid()
      ensures IsScan(active.entries,
                     EventKey(TrimSpace(tenantId), TrimSpace(sourceId), TrimSpace(eventType), eventVersion), metadata,
                     r)
    {
      r := Search(active, EventKey(TrimSpace(tenantId), TrimSpace(sourceId), TrimSpace(eventType), eventVersion),
                  metadata);
    }
  }
}
