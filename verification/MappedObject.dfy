/**
  Building the mapped object of an event (projection/catalog_fixture.go setMappedFixtureValue, catalog_generation.go
  Map): each target path gets the value of its source path. The tree that is built is defined here independently of any
  insertion order.
 */
module MappedObject {
  import opened Common
  import opened FixturePath

  datatype MapError = DuplicateTarget | ConflictingTargets | SourceAbsent

  datatype Built<T> = Ok(value: T) | Err(error: MapError)

  type Path = seq<string>
  type Fields = map<string, Json>

  // ------------------------------------------------------------- one insert

  /** Set a value at a path, creating objects on the way; nothing that exists is replaced. */
  function SetPath(root: Fields, path: Path, value: Json): Built<Fields>
    requires path != []
    decreases |path|
  {
    var segment := path[0];
    if |path| == 1 then
      if segment in root then Err(DuplicateTarget) else Ok(root[segment := value])
    else if segment !in root then Inside(root, segment, SetPath(map[], path[1..], value))
    else
      match root[segment]
      case Object(fields) => Inside(root, segment, SetPath(fields, path[1..], value))
      case _ => Err(ConflictingTargets)
  }

  function Inside(root: Fields, segment: string, child: Built<Fields>): Built<Fields> {
    match child
    case Ok(fields) => Ok(root[segment := Object(fields)])
    case Err(e) => Err(e)
  }

  // --------------------------------------------------- the tree of the targets

  type Targets = map<Path, Json>

  ghost predicate WithinDepth(targets: Targets, depth: nat) {
    forall p :: p in targets ==> 1 <= |p| <= depth
  }

  /** The segments with which target paths go on after a prefix. */
  ghost function Heads(targets: Targets, prefix: Path): set<string> {
    set p | p in targets && prefix < p :: p[|prefix|]
  }

  /** The object in which every target path leads to its value: below a prefix, one field for each next segment. */
  ghost function TreeAt(targets: Targets, prefix: Path, depth: nat): Fields
    decreases depth - |prefix|, 0
  {
    if depth <= |prefix| then map[] else map h | h in Heads(targets, prefix) :: Field(targets, prefix + [h], depth)
  }

  ghost function Field(targets: Targets, path: Path, depth: nat): Json
    requires |path| <= depth
    decreases depth - |path|, 1
  {
    if path in targets then targets[path] else Object(TreeAt(targets, path, depth))
  }

  ghost function TreeOf(targets: Targets, depth: nat): Fields {
    TreeAt(targets, [], depth)
  }

  /** No target path is another one or leads through another one. */
  ghost predicate PrefixFree(targets: Targets) {
    forall p, q :: p in targets && q in targets && p <= q ==> p == q
  }

  ghost predicate Unrelated(targets: Targets, path: Path) {
    forall q :: q in targets ==> !(q <= path) && !(path <= q)
  }

  lemma HeadIn(targets: Targets, prefix: Path, p: Path)
    requires p in targets && prefix < p
    ensures p[|prefix|] in Heads(targets, prefix)
  {
  }

  lemma UnderHead(targets: Targets, prefix: Path, h: string) returns (p: Path)
    requires h in Heads(targets, prefix)
    ensures p in targets && prefix + [h] <= p
  {
    p :| p in targets && prefix < p && p[|prefix|] == h;
    assert p[..|prefix| + 1] == prefix + [h];
  }

  lemma HeadsGrow(targets: Targets, path: Path, value: Json, prefix: Path)
    ensures Heads(targets[path := value], prefix)
            == Heads(targets, prefix) + (if prefix < path then {path[|prefix|]} else {})
  {
    var targets' := targets[path := value];
    forall h
      ensures h in Heads(targets', prefix) <==> h in Heads(targets, prefix) || (prefix < path && h == path[|prefix|])
    {
      if h in Heads(targets', prefix) {
        var p :| p in targets' && prefix < p && p[|prefix|] == h;
        if p in targets { HeadIn(targets, prefix, p); }
      }
      if h in Heads(targets, prefix) {
        var p :| p in targets && prefix < p && p[|prefix|] == h;
        HeadIn(targets', prefix, p);
      }
      if prefix < path { HeadIn(targets', prefix, path); }
    }
  }

  /** A new target changes nothing where its path does not go. */
  lemma {:induction false} FieldKept(targets: Targets, path: Path, value: Json, place: Path, depth: nat)
    requires !(place <= path) && |place| <= depth
    ensures Field(targets[path := value], place, depth) == Field(targets, place, depth)
    decreases depth - |place|
  {
    var targets' := targets[path := value];
    if |place| < depth {
      HeadsGrow(targets, path, value, place);
      forall h | h in Heads(targets, place)
        ensures Field(targets', place + [h], depth) == Field(targets, place + [h], depth)
      {
        assert place <= place + [h];
        FieldKept(targets, path, value, place + [h], depth);
      }
      assert TreeAt(targets', place, depth) == TreeAt(targets, place, depth);
    }
  }

  lemma OneFieldChanges(targets: Targets, path: Path, value: Json, prefix: Path, depth: nat)
    requires prefix < path && |path| <= depth
    ensures TreeAt(targets[path := value], prefix, depth)
         == TreeAt(targets, prefix, depth)[path[|prefix|] := Field(targets[path := value], path[..|prefix| + 1], depth)]
  {
    var h, targets' := path[|prefix|], targets[path := value];
    HeadsGrow(targets, path, value, prefix);
    assert path[..|prefix| + 1] == prefix + [h];
    forall g | g in Heads(targets, prefix) && g != h
      ensures Field(targets', prefix + [g], depth) == Field(targets, prefix + [g], depth)
    {
      assert (prefix + [g])[|prefix|] == g;
      FieldKept(targets, path, value, prefix + [g], depth);
    }
  }

  /** What stands where an unrelated path goes on: nothing, or an object. */
  lemma StandsAt(targets: Targets, path: Path, prefix: Path, depth: nat)
    requires WithinDepth(targets, depth) && prefix < path && |path| <= depth && Unrelated(targets, path)
    ensures var h, next, tree := path[|prefix|], path[..|prefix| + 1], TreeAt(targets, prefix, depth);
            if h in tree then tree[h] == Object(TreeAt(targets, next, depth)) && next < path
               else TreeAt(targets, next, depth) == map[]
  {
    var h, next := path[|prefix|], path[..|prefix| + 1];
    assert next == prefix + [h] && next <= path;
    if h in Heads(targets, prefix) {
      var p := UnderHead(targets, prefix, h);
      assert !(path <= p);
    } else {
      forall g ensures g !in Heads(targets, next) { NoHeadBelow(targets, prefix, h, g); }
    }
  }

  lemma NoHeadBelow(targets: Targets, prefix: Path, h: string, g: string)
    ensures g in Heads(targets, prefix + [h]) ==> h in Heads(targets, prefix)
  {
    if g in Heads(targets, prefix + [h]) {
      var p := UnderHead(targets, prefix + [h], g);
      assert p[|prefix|] == (prefix + [h])[|prefix|];
      assert prefix <= prefix + [h];
      HeadIn(targets, prefix, p);
    }
  }

  /** Setting an unrelated path in the tree of some targets gives the tree of one more target. */
  lemma {:induction false} SetGrowsTree(targets: Targets, path: Path, value: Json, prefix: Path, depth: nat)
    requires WithinDepth(targets, depth) && prefix < path && |path| <= depth && Unrelated(targets, path)
    ensures SetPath(TreeAt(targets, prefix, depth), path[|prefix|..], value)
            == Ok(TreeAt(targets[path := value], prefix, depth))
    decreases |path| - |prefix|
  {
    var rest, next := path[|prefix|..], path[..|prefix| + 1];
    OneFieldChanges(targets, path, value, prefix, depth);
    StandsAt(targets, path, prefix, depth);
    assert rest[0] == path[|prefix|] && rest[1..] == path[|next|..];
    if |rest| == 1 {
      assert next == path;
    } else {
      assert next < path;
      SetGrowsTree(targets, path, value, next, depth);
      assert next !in targets[path := value];
    }
  }

  // ------------------------------------------------------- what the tree holds

  /** Every target path leads to exactly its value. */
  lemma {:induction false} TreeReadsBack(targets: Targets, path: Path, prefix: Path, depth: nat)
    requires WithinDepth(targets, depth) && PrefixFree(targets) && path in targets && prefix < path
    ensures Reached(Object(TreeAt(targets, prefix, depth)), path[|prefix|..]) == Some(targets[path])
    decreases |path| - |prefix|
  {
    var rest, next := path[|prefix|..], path[..|prefix| + 1];
    HeadIn(targets, prefix, path);
    assert next == prefix + [path[|prefix|]] && rest[0] == path[|prefix|] && rest[1..] == path[|next|..];
    if |rest| == 1 {
      assert next == path;
    } else {
      assert next < path;
      TreeReadsBack(targets, path, next, depth);
    }
  }

  /** The path is on the way to a target. */
  ghost predicate LeadsToTarget(targets: Targets, path: Path) {
    exists p :: p in targets && path <= p
  }

  /** The path goes through a target and then through that target's value. */
  ghost predicate InsideTarget(targets: Targets, path: Path, found: Json) {
    exists n :: 0 <= n <= |path| && path[..n] in targets && Reached(targets[path[..n]], path[n..]) == Some(found)
  }

  /**
    Nothing else is in the tree: whatever a path leads to is an object on the way to a target, or part of a target's
    value.
   */
  lemma {:induction false} TreeHoldsNothingElse(targets: Targets, path: Path, prefix: Path, depth: nat)
    requires prefix < path
    ensures var found := Reached(Object(TreeAt(targets, prefix, depth)), path[|prefix|..]);
            found.Some? ==>
              InsideTarget(targets, path, found.value) || (found.value.Object? && LeadsToTarget(targets, path))
    decreases |path| - |prefix|
  {
    var rest, next := path[|prefix|..], path[..|prefix| + 1];
    var found := Reached(Object(TreeAt(targets, prefix, depth)), rest);
    if found.Some? {
      var h := path[|prefix|];
      assert rest[0] == h && rest[1..] == path[|next|..];
      assert next == prefix + [h];
      var p := UnderHead(targets, prefix, h);
      if next in targets {
        assert path[..|next|] == next;
      } else if |rest| == 1 {
        assert next == path;
      } else {
        TreeHoldsNothingElse(targets, path, next, depth);
      }
    }
  }

  // --------------------------------------------------------- many insertions

  datatype Entry = Entry(path: Path, value: Json)

  function Then(built: Built<Fields>, e: Entry): Built<Fields>
    requires e.path != []
  {
    match built
    case Ok(root) => SetPath(root, e.path, e.value)
    case Err(error) => Err(error)
  }

  predicate WellFormed(entries: seq<Entry>) {
    forall e :: e in entries ==> e.path != []
  }

  /** The entries set one after the other; the first error ends it. */
  function Build(entries: seq<Entry>): Built<Fields>
    requires WellFormed(entries)
  {
    if entries == [] then Ok(map[]) else Then(Build(entries[..|entries| - 1]), Last(entries))
  }

  function TargetsOf(entries: seq<Entry>): Targets {
    if entries == [] then map[] else TargetsOf(entries[..|entries| - 1])[Last(entries).path := Last(entries).value]
  }

  function Depth(entries: seq<Entry>): nat {
    if entries == [] then 0
    else
      var d := Depth(entries[..|entries| - 1]);
      if |Last(entries).path| > d then |Last(entries).path| else d
  }

  /** No entry's path is another entry's path or leads through it. */
  ghost predicate Independent(entries: seq<Entry>) {
    forall i, j :: 0 <= i < |entries| && 0 <= j < |entries| && i != j ==> !(entries[i].path <= entries[j].path)
  }

  lemma {:induction false} TargetsOfMember(entries: seq<Entry>, p: Path)
    ensures p in TargetsOf(entries) <==> exists i :: 0 <= i < |entries| && entries[i].path == p
    decreases |entries|
  {
    if entries != [] {
      var front := entries[..|entries| - 1];
      TargetsOfMember(front, p);
      if i :| 0 <= i < |front| && front[i].path == p { assert entries[i].path == p; }
      if i :| 0 <= i < |entries| && entries[i].path == p {
        if i < |front| { assert front[i].path == p; }
      }
    }
  }

  lemma {:induction false} TargetsWithinDepth(entries: seq<Entry>, depth: nat)
    requires WellFormed(entries) && Depth(entries) <= depth
    ensures WithinDepth(TargetsOf(entries), depth)
    decreases |entries|
  {
    if entries != [] {
      assert Last(entries) in entries;
      TargetsWithinDepth(entries[..|entries| - 1], depth);
    }
  }

  /** Independent entries build, in whatever order they come, the tree of their targets. */
  lemma {:induction false} IndependentEntriesBuild(entries: seq<Entry>, depth: nat)
    requires WellFormed(entries) && Independent(entries) && Depth(entries) <= depth
    ensures Build(entries) == Ok(TreeOf(TargetsOf(entries), depth))
    decreases |entries|
  {
    if entries == [] {
      assert Heads(map[], []) == {};
    } else {
      var front, e := entries[..|entries| - 1], Last(entries);
      assert e in entries;
      IndependentEntriesBuild(front, depth);
      TargetsWithinDepth(front, depth);
      forall q | q in TargetsOf(front) ensures !(q <= e.path) && !(e.path <= q) {
        TargetsOfMember(front, q);
        var i :| 0 <= i < |front| && front[i].path == q;
        assert entries[i].path == q && entries[|entries| - 1].path == e.path;
      }
      SetGrowsTree(TargetsOf(front), e.path, e.value, [], depth);
      assert e.path[0..] == e.path;
    }
  }

  // ------------------------------------------------------------- every order

  ghost predicate Reorders(entries': seq<Entry>, entries: seq<Entry>) {
    multiset(entries') == multiset(entries)
  }

  predicate Builds(entries: seq<Entry>) {
    WellFormed(entries) && Build(entries).Ok?
  }

  lemma {:induction false} TwiceInSequence(entries: seq<Entry>, e: Entry)
    ensures multiset(entries)[e] >= 2 ==> exists i, j :: 0 <= i < j < |entries| && entries[i] == e && entries[j] == e
    decreases |entries|
  {
    if entries != [] && multiset(entries)[e] >= 2 {
      var front := entries[..|entries| - 1];
      assert entries == front + [Last(entries)];
      if Last(entries) == e {
        assert e in multiset(front);
        var i :| 0 <= i < |front| && front[i] == e;
        assert entries[i] == e && entries[|entries| - 1] == e;
      } else {
        TwiceInSequence(front, e);
        var i, j :| 0 <= i < j < |front| && front[i] == e && front[j] == e;
        assert entries[i] == e && entries[j] == e;
      }
    }
  }

  lemma TwicePlaced(entries: seq<Entry>, i: nat, j: nat)
    requires i < j < |entries| && entries[i] == entries[j]
    ensures multiset(entries)[entries[i]] >= 2
  {
    assert entries == entries[..i] + [entries[i]] + entries[i + 1..j] + [entries[j]] + entries[j + 1..];
  }

  lemma IndependenceIsOrderless(entries: seq<Entry>, entries': seq<Entry>)
    requires Independent(entries) && Reorders(entries', entries)
    ensures Independent(entries')
  {
    forall i, j | 0 <= i < |entries'| && 0 <= j < |entries'| && i != j ensures !(entries'[i].path <= entries'[j].path) {
      var e, f := entries'[i], entries'[j];
      if e == f {
        TwicePlaced(entries', if i < j then i else j, if i < j then j else i);
        TwiceInSequence(entries, e);
        assert false;
      } else {
        assert e in multiset(entries') && f in multiset(entries');
        var k :| 0 <= k < |entries| && entries[k] == e;
        var l :| 0 <= l < |entries| && entries[l] == f;
      }
    }
  }

  lemma {:induction false} TargetsOfValue(entries: seq<Entry>, i: nat)
    requires Independent(entries) && i < |entries|
    ensures entries[i].path in TargetsOf(entries) && TargetsOf(entries)[entries[i].path] == entries[i].value
    decreases |entries|
  {
    var front := entries[..|entries| - 1];
    if i < |front| { TargetsOfValue(front, i); }
  }

  lemma SameTargets(entries: seq<Entry>, entries': seq<Entry>)
    requires Independent(entries) && Reorders(entries', entries)
    ensures TargetsOf(entries') == TargetsOf(entries)
  {
    IndependenceIsOrderless(entries, entries');
    forall p ensures p in TargetsOf(entries') <==> p in TargetsOf(entries)
      ensures p in TargetsOf(entries) && p in TargetsOf(entries') ==> TargetsOf(entries')[p] == TargetsOf(entries)[p]
    {
      SameTarget(entries, entries', p);
      SameTarget(entries', entries, p);
    }
  }

  lemma SameTarget(entries: seq<Entry>, entries': seq<Entry>, p: Path)
    requires Independent(entries) && Independent(entries') && Reorders(entries', entries)
    ensures p in TargetsOf(entries) ==> p in TargetsOf(entries') && TargetsOf(entries')[p] == TargetsOf(entries)[p]
  {
    TargetsOfMember(entries, p);
    if i :| 0 <= i < |entries| && entries[i].path == p {
      assert entries[i] in multiset(entries');
      var j :| 0 <= j < |entries'| && entries'[j] == entries[i];
      TargetsOfValue(entries, i);
      TargetsOfValue(entries', j);
    }
  }

  lemma WellFormedIsOrderless(entries: seq<Entry>, entries': seq<Entry>)
    requires WellFormed(entries) && Reorders(entries', entries)
    ensures WellFormed(entries')
  {
    forall e | e in entries' ensures e.path != [] {
      assert e in multiset(entries');
    }
  }

  /** Independent entries build the same object in every order. */
  lemma EveryOrderBuildsTheSame(entries: seq<Entry>, entries': seq<Entry>)
    requires WellFormed(entries) && Independent(entries) && Reorders(entries', entries)
    ensures Builds(entries) && Builds(entries') && Build(entries') == Build(entries)
  {
    var depth := Depth(entries) + Depth(entries');
    WellFormedIsOrderless(entries, entries');
    IndependenceIsOrderless(entries, entries');
    SameTargets(entries, entries');
    IndependentEntriesBuild(entries, depth);
    IndependentEntriesBuild(entries', depth);
  }

  /** A path that was just set, and every path on the way to it, can not be set again. */
  lemma {:induction false} SetAgainFails(root: Fields, path: Path, value: Json, shorter: Path, other: Json)
    requires path != [] && SetPath(root, path, value).Ok? && shorter != [] && shorter <= path
    ensures SetPath(SetPath(root, path, value).value, shorter, other) == Err(DuplicateTarget)
    decreases |path|
  {
    if |shorter| > 1 {
      var inner := if path[0] in root then root[path[0]].fields else map[];
      assert shorter[1..] <= path[1..];
      SetAgainFails(inner, path[1..], value, shorter[1..], other);
    }
  }

  lemma {:induction false} ErrorsStick(entries: seq<Entry>, more: seq<Entry>)
    requires WellFormed(entries + more) && WellFormed(entries) && Build(entries).Err?
    ensures Build(entries + more).Err?
    decreases |more|
  {
    if more == [] {
      assert entries + more == entries;
    } else {
      assert (entries + more)[..|entries + more| - 1] == entries + more[..|more| - 1];
      ErrorsStick(entries, more[..|more| - 1]);
    }
  }

  lemma LongerFirstFails(e: Entry, f: Entry)
    requires e.path != [] && f.path != [] && e.path <= f.path
    ensures Build([f, e]).Err?
  {
    assert [f, e][..1] == [f] && [f][..0] == [];
    assert Build([f]) == Then(Build([]), f);
    if Build([f]).Ok? { SetAgainFails(map[], f.path, f.value, e.path, e.value); }
  }

  lemma TwoMovedToFront(entries: seq<Entry>, lo: nat, hi: nat)
    requires lo < hi < |entries|
    ensures multiset(entries)
            == multiset([entries[lo], entries[hi]]) + multiset(entries[..lo] + entries[lo + 1..hi] + entries[hi + 1..])
  {
    var a, b, c := entries[..lo], entries[lo + 1..hi], entries[hi + 1..];
    assert entries == a + [entries[lo]] + b + [entries[hi]] + c;
    assert multiset(entries) == multiset(a) + multiset([entries[lo]]) + multiset(b) + multiset([entries[hi]])
           + multiset(c);
  }

  lemma SomeOrderFails(entries: seq<Entry>, i: nat, j: nat) returns (entries': seq<Entry>)
    requires WellFormed(entries) && i < |entries| && j < |entries| && i != j && entries[i].path <= entries[j].path
    ensures Reorders(entries', entries) && !Builds(entries')
  {
    var lo, hi := if i < j then i else j, if i < j then j else i;
    var rest := entries[..lo] + entries[lo + 1..hi] + entries[hi + 1..];
    entries' := [entries[j], entries[i]] + rest;
    TwoMovedToFront(entries, lo, hi);
    assert multiset([entries[j], entries[i]]) == multiset([entries[lo], entries[hi]]);
    assert multiset(entries') == multiset([entries[j], entries[i]]) + multiset(rest);
    WellFormedIsOrderless(entries, entries');
    assert WellFormed([entries[j], entries[i]]);
    LongerFirstFails(entries[i], entries[j]);
    ErrorsStick([entries[j], entries[i]], rest);
  }

  /**
    Building succeeds in every order exactly when no target is another one or leads through another one. Only the
    published order is sorted; the check of a fixture ranges over a Go map, so for any other field map its outcome can
    depend on chance.
   */
  lemma EveryOrderBuildsIffIndependent(entries: seq<Entry>)
    requires WellFormed(entries)
    ensures (forall entries' :: Reorders(entries', entries) ==> Builds(entries')) <==> Independent(entries)
  {
    if Independent(entries) {
      forall entries' | Reorders(entries', entries) ensures Builds(entries') {
        EveryOrderBuildsTheSame(entries, entries');
      }
    } else {
      var i, j :| 0 <= i < |entries| && 0 <= j < |entries| && i != j && entries[i].path <= entries[j].path;
      var failing := SomeOrderFails(entries, i, j);
    }
  }

  // ------------------------------------------------------------ mapping events

  /** The entries for some target names in this order, when every source resolves. */
  function EntriesOf(root: Json, fieldMap: map<string, string>, targets: seq<string>): (r: Option<seq<Entry>>)
    requires forall t :: t in targets ==> t in fieldMap
    ensures r.Some? ==> |r.value| == |targets| && WellFormed(r.value)
  {
    if targets == [] then Some([])
    else
      var front := EntriesOf(root, fieldMap, targets[..|targets| - 1]);
      var value := Resolved(root, fieldMap[Last(targets)]);
      if front.Some? && value.Some? then Some(front.value + [Entry(Split(Last(targets), '.'), value.value)]) else None
  }

  lemma {:induction false} EntryAt(root: Json, fieldMap: map<string, string>, targets: seq<string>, i: nat)
    requires (forall t :: t in targets ==> t in fieldMap) && i < |targets| && EntriesOf(root, fieldMap, targets).Some?
    ensures Resolved(root, fieldMap[targets[i]]).Some?
    ensures EntriesOf(root, fieldMap, targets).value[i]
            == Entry(Split(targets[i], '.'), Resolved(root, fieldMap[targets[i]]).value)
    decreases |targets|
  {
    if i < |targets| - 1 { EntryAt(root, fieldMap, targets[..|targets| - 1], i); }
  }

  /** Resolve each source and set its target, in the order of the names; an absent source or a failed set ends it. */
  function MappedBy(root: Json, fieldMap: map<string, string>, targets: seq<string>): Built<Fields>
    requires forall t :: t in targets ==> t in fieldMap
  {
    if targets == [] then Ok(map[])
    else
      match MappedBy(root, fieldMap, targets[..|targets| - 1])
      case Err(e) => Err(e)
      case Ok(fields) =>
        match Resolved(root, fieldMap[Last(targets)])
        case None => Err(SourceAbsent)
        case Some(value) => SetPath(fields, Split(Last(targets), '.'), value)
  }

  lemma {:induction false} MappingStops(root: Json, fieldMap: map<string, string>, targets: seq<string>, n: nat)
    requires (forall t :: t in targets ==> t in fieldMap) && n <= |targets|
    requires MappedBy(root, fieldMap, targets[..n]).Err?
    ensures MappedBy(root, fieldMap, targets) == MappedBy(root, fieldMap, targets[..n])
    decreases |targets|
  {
    if n == |targets| {
      assert targets[..n] == targets;
    } else {
      assert targets[..|targets| - 1][..n] == targets[..n];
      MappingStops(root, fieldMap, targets[..|targets| - 1], n);
    }
  }

  method Map(root: Json, fieldMap: map<string, string>, targets: seq<string>) returns (r: Built<Fields>)
    requires forall t :: t in targets ==> t in fieldMap
    ensures r == MappedBy(root, fieldMap, targets)
  {
    var mapped: Fields := map[];
    for i := 0 to |targets|
      invariant MappedBy(root, fieldMap, targets[..i]) == Ok(mapped)
    {
      assert targets[..i + 1][..i] == targets[..i];
      if MappedBy(root, fieldMap, targets[..i + 1]).Err? { MappingStops(root, fieldMap, targets, i + 1); }
      var found := Resolve(root, fieldMap[targets[i]]);
      if found.None? { return Err(SourceAbsent); }
      var next := SetPath(mapped, Split(targets[i], '.'), found.value);
      if next.Err? { return next; }
      mapped := next.value;
    }
    assert targets[..|targets|] == targets;
    return Ok(mapped);
  }

  lemma {:induction false} MappingIsBuilding(root: Json, fieldMap: map<string, string>, targets: seq<string>)
    requires forall t :: t in targets ==> t in fieldMap
    ensures var entries := EntriesOf(root, fieldMap, targets);
            if entries.Some? then MappedBy(root, fieldMap, targets) == Build(entries.value)
               else MappedBy(root, fieldMap, targets).Err?
    decreases |targets|
  {
    if targets != [] {
      var front := targets[..|targets| - 1];
      MappingIsBuilding(root, fieldMap, front);
      if EntriesOf(root, fieldMap, targets).Some? {
        var entries := EntriesOf(root, fieldMap, targets).value;
        assert entries[..|entries| - 1] == EntriesOf(root, fieldMap, front).value;
      }
    }
  }

  lemma {:induction false} AllResolve(root: Json, fieldMap: map<string, string>, targets: seq<string>)
    requires forall t :: t in targets ==> t in fieldMap
    ensures EntriesOf(root, fieldMap, targets).Some? <==> forall t :: t in targets ==> Resolved(root, fieldMap[t]).Some?
    decreases |targets|
  {
    if targets != [] {
      assert targets == targets[..|targets| - 1] + [Last(targets)];
      AllResolve(root, fieldMap, targets[..|targets| - 1]);
    }
  }

  /** Every name once, in some order. */
  ghost predicate IsOrder(targets: seq<string>, names: set<string>) {
    && (forall t :: t in targets <==> t in names)
    && (forall i, j :: 0 <= i < j < |targets| ==> targets[i] != targets[j])
  }

  /** No target name is another one or leads through another one. */
  ghost predicate NamesIndependent(names: set<string>) {
    forall t, u :: t in names && u in names && t != u ==> !(Split(t, '.') <= Split(u, '.'))
  }

  lemma NamedEntriesAreIndependent(root: Json, fieldMap: map<string, string>, targets: seq<string>)
    requires IsOrder(targets, fieldMap.Keys) && NamesIndependent(fieldMap.Keys)
    requires EntriesOf(root, fieldMap, targets).Some?
    ensures Independent(EntriesOf(root, fieldMap, targets).value)
  {
    var entries := EntriesOf(root, fieldMap, targets).value;
    forall i, j | 0 <= i < |entries| && 0 <= j < |entries| && i != j ensures !(entries[i].path <= entries[j].path) {
      EntryAt(root, fieldMap, targets, i);
      EntryAt(root, fieldMap, targets, j);
      assert targets[i] in fieldMap && targets[j] in fieldMap;
    }
  }

  /** What a path of the mapped object may lead to. */
  ghost predicate Explained(root: Json, fieldMap: map<string, string>, path: Path, found: Json) {
    || (found.Object? && exists t :: t in fieldMap && path <= Split(t, '.'))
    || (exists t :: t in fieldMap && WithinTarget(root, fieldMap[t], Split(t, '.'), path, found))
  }

  predicate WithinTarget(root: Json, source: string, target: Path, path: Path, found: Json) {
    target <= path && Resolved(root, source).Some?
    && Reached(Resolved(root, source).value, path[|target|..]) == Some(found)
  }

  /**
    When every source resolves and the target names are independent, mapping succeeds whatever the order of the names:
    each target reads back exactly its source, and every other path leads to an object on the way to a target or into a
    target's value.
   */
  lemma MappingIsExact(root: Json, fieldMap: map<string, string>, targets: seq<string>)
    requires IsOrder(targets, fieldMap.Keys) && NamesIndependent(fieldMap.Keys)
    requires forall t :: t in fieldMap ==> Resolved(root, fieldMap[t]).Some?
    ensures MappedBy(root, fieldMap, targets).Ok?
    ensures var tree := Object(MappedBy(root, fieldMap, targets).value);
            && (forall t :: t in fieldMap ==> Reached(tree, Split(t, '.')) == Resolved(root, fieldMap[t]))
            && (forall path: Path :: path != [] && Reached(tree, path).Some? ==>
                  Explained(root, fieldMap, path, Reached(tree, path).value))
  {
    AllResolve(root, fieldMap, targets);
    MappingIsBuilding(root, fieldMap, targets);
    NamedEntriesAreIndependent(root, fieldMap, targets);
    var entries := EntriesOf(root, fieldMap, targets).value;
    var depth := Depth(entries);
    IndependentEntriesBuild(entries, depth);
    TargetsWithinDepth(entries, depth);
    TargetsArePrefixFree(entries);
    forall t | t in fieldMap
      ensures Reached(Object(TreeOf(TargetsOf(entries), depth)), Split(t, '.')) == Resolved(root, fieldMap[t])
    {
      var i :| 0 <= i < |targets| && targets[i] == t;
      EntryAt(root, fieldMap, targets, i);
      TargetsOfValue(entries, i);
      TreeReadsBack(TargetsOf(entries), Split(t, '.'), [], depth);
      assert Split(t, '.')[0..] == Split(t, '.');
    }
    forall path: Path | path != [] && Reached(Object(TreeOf(TargetsOf(entries), depth)), path).Some?
      ensures Explained(root, fieldMap, path, Reached(Object(TreeOf(TargetsOf(entries), depth)), path).value)
    {
      assert path[0..] == path;
      TreeHoldsNothingElse(TargetsOf(entries), path, [], depth);
      TargetExplains(root, fieldMap, targets, path, Reached(Object(TreeOf(TargetsOf(entries), depth)), path).value);
    }
  }

  lemma TargetsArePrefixFree(entries: seq<Entry>)
    requires Independent(entries)
    ensures PrefixFree(TargetsOf(entries))
  {
    forall p, q | p in TargetsOf(entries) && q in TargetsOf(entries) && p <= q ensures p == q {
      TargetsOfMember(entries, p);
      TargetsOfMember(entries, q);
      var i :| 0 <= i < |entries| && entries[i].path == p;
      var j :| 0 <= j < |entries| && entries[j].path == q;
    }
  }

  lemma TargetIsNamed(root: Json, fieldMap: map<string, string>, targets: seq<string>, p: Path) returns (t: string)
    requires IsOrder(targets, fieldMap.Keys) && EntriesOf(root, fieldMap, targets).Some?
    requires Independent(EntriesOf(root, fieldMap, targets).value)
    requires p in TargetsOf(EntriesOf(root, fieldMap, targets).value)
    ensures t in fieldMap && p == Split(t, '.')
    ensures Resolved(root, fieldMap[t]) == Some(TargetsOf(EntriesOf(root, fieldMap, targets).value)[p])
  {
    var entries := EntriesOf(root, fieldMap, targets).value;
    TargetsOfMember(entries, p);
    var i :| 0 <= i < |entries| && entries[i].path == p;
    EntryAt(root, fieldMap, targets, i);
    TargetsOfValue(entries, i);
    t := targets[i];
    assert t in targets;
  }

  lemma TargetExplains(root: Json, fieldMap: map<string, string>, targets: seq<string>, path: Path, found: Json)
    requires IsOrder(targets, fieldMap.Keys) && EntriesOf(root, fieldMap, targets).Some?
    requires Independent(EntriesOf(root, fieldMap, targets).value)
    requires var all := TargetsOf(EntriesOf(root, fieldMap, targets).value);
             InsideTarget(all, path, found) || (found.Object? && LeadsToTarget(all, path))
    ensures Explained(root, fieldMap, path, found)
  {
    var all := TargetsOf(EntriesOf(root, fieldMap, targets).value);
    if InsideTarget(all, path, found) {
      var n :| 0 <= n <= |path| && path[..n] in all && Reached(all[path[..n]], path[n..]) == Some(found);
      var t := TargetIsNamed(root, fieldMap, targets, path[..n]);
      assert WithinTarget(root, fieldMap[t], Split(t, '.'), path, found);
    } else {
      var p :| p in all && path <= p;
      var t := TargetIsNamed(root, fieldMap, targets, p);
    }
  }
}
