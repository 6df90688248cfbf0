/**
  Signing keys of the workload issuer (tools/workload-issuer/main.go): a reload puts a new key at the head and retires
  the old head after an overlap; retired keys are pruned whenever the list is published. Times are nanoseconds of a
  clock that does not run backwards. A token request reads the signer first and the clock later, so the two are separate
  steps here.
 */
module IssuerKeys {
  import opened Common

  const SECOND := 1_000_000_000
  const TOKEN_TTL := 300 * SECOND

  datatype SigningKey = SigningKey(id: string, retireAt: Option<int>)

  /** A token: who signed it, and its expiry in whole seconds. */
  datatype Token = Token(keyId: string, expiry: int)

  /** A request that has read its signer but not yet signed. */
  datatype Pending = Pending(keyId: string, readAt: int)

  datatype Issuer = Issuer(keys: seq<SigningKey>, tokens: set<Token>, pending: map<nat, Pending>, clock: int)

  datatype Step =
    | Rotate(now: int, newId: string)
    | Publish(now: int)
    | ReadSigner(now: int, request: nat)
    | Sign(now: int, request: nat)

  /** The overlap between keys, and a bound on the time between reading the signer and reading the clock. */
  datatype Config = Config(overlap: int, delay: nat)

  // ------------------------------------------------------------ the machine

  predicate Retired(key: SigningKey, now: int) {
    key.retireAt.Some? && key.retireAt.value <= now
  }

  function Pruned(keys: seq<SigningKey>, now: int): seq<SigningKey> {
    if keys == [] then []
    else
      var front := Pruned(keys[..|keys| - 1], now);
      if Retired(Last(keys), now) then front else front + [Last(keys)]
  }

  function Rotated(keys: seq<SigningKey>, newId: string, retireAt: int): seq<SigningKey> {
    [SigningKey(newId, None)] + (if keys == [] then [] else keys[0 := keys[0].(retireAt := Some(retireAt))])
  }

  /** The expiry claim counts whole seconds. */
  function NumericDate(t: int): int {
    t / SECOND * SECOND
  }

  function Next(config: Config, s: Issuer, step: Step): Issuer {
    if step.now < s.clock then s
    else
      var s' := s.(clock := step.now);
      match step
      case Rotate(now, newId) => s'.(keys := Pruned(Rotated(s.keys, newId, now + config.overlap), now))
      case Publish(now) => s'.(keys := Pruned(s.keys, now))
      case ReadSigner(now, request) =>
        if s.keys == [] then s' else s'.(pending := s.pending[request := Pending(s.keys[0].id, now)])
      case Sign(now, request) =>
        if request in s.pending && now - s.pending[request].readAt <= config.delay
        then s'.(tokens := s.tokens + {Token(s.pending[request].keyId, NumericDate(now + TOKEN_TTL))},
                 pending := s.pending - {request})
        else s'
  }

  function Start(firstId: string): Issuer {
    Issuer([SigningKey(firstId, None)], {}, map[], 0)
  }

  function Run(config: Config, firstId: string, steps: seq<Step>): Issuer {
    if steps == [] then Start(firstId) else Next(config, Run(config, firstId, steps[..|steps| - 1]), Last(steps))
  }

  // ---------------------------------------------------------- the invariant

  /** The head alone has no retirement time, and retirement times do not increase along the list. */
  ghost predicate InOrder(keys: seq<SigningKey>, latest: int) {
    && keys != [] && keys[0].retireAt == None
    && (forall i :: 1 <= i < |keys| ==> keys[i].retireAt.Some? && keys[i].retireAt.value <= latest)
    && (forall i, j :: 1 <= i < j < |keys| ==> keys[i].retireAt.value >= keys[j].retireAt.value)
  }

  /** The key stays on the list until then, or then is past. */
  ghost predicate KeptUntil(keys: seq<SigningKey>, clock: int, id: string, until: int) {
    until <= clock || exists key :: key in keys && key.id == id && (key.retireAt.Some? ==> key.retireAt.value >= until)
  }

  ghost predicate TokensKept(keys: seq<SigningKey>, clock: int, tokens: set<Token>) {
    forall t :: t in tokens ==> t.expiry <= clock + TOKEN_TTL && KeptUntil(keys, clock, t.keyId, t.expiry)
  }

  ghost predicate PendingKept(config: Config, keys: seq<SigningKey>, clock: int, pending: map<nat, Pending>) {
    forall r :: r in pending ==>
      pending[r].readAt <= clock && KeptUntil(keys, clock, pending[r].keyId, pending[r].readAt + config.overlap)
  }

  ghost predicate Inv(config: Config, s: Issuer) {
    InOrder(s.keys, s.clock + config.overlap) && TokensKept(s.keys, s.clock, s.tokens)
    && PendingKept(config, s.keys, s.clock, s.pending)
  }

  lemma {:induction false} PrunedMembers(keys: seq<SigningKey>, now: int, key: SigningKey)
    ensures key in Pruned(keys, now) <==> key in keys && !Retired(key, now)
    decreases |keys|
  {
    if keys != [] {
      PrunedMembers(keys[..|keys| - 1], now, key);
      assert keys == keys[..|keys| - 1] + [Last(keys)];
    }
  }

  lemma {:induction false} PrunedInOrder(keys: seq<SigningKey>, now: int, latest: int)
    requires InOrder(keys, latest)
    ensures InOrder(Pruned(keys, now), latest)
    ensures Pruned(keys, now)[0] == keys[0]
    ensures |Pruned(keys, now)| > 1 ==>
              |keys| > 1 && Last(Pruned(keys, now)).retireAt.value >= Last(keys).retireAt.value
    decreases |keys|
  {
    if |keys| > 1 {
      PrunedInOrder(keys[..|keys| - 1], now, latest);
    } else {
      assert keys[..0] == [];
    }
  }

  lemma PruningKeeps(keys: seq<SigningKey>, clock: int, now: int, id: string, until: int)
    requires KeptUntil(keys, clock, id, until) && clock <= now
    ensures KeptUntil(Pruned(keys, now), now, id, until)
  {
    if until > now {
      var key :| key in keys && key.id == id && (key.retireAt.Some? ==> key.retireAt.value >= until);
      PrunedMembers(keys, now, key);
    }
  }

  lemma RotatingKeeps(keys: seq<SigningKey>, clock: int, id: string, until: int, newId: string, retireAt: int)
    requires KeptUntil(keys, clock, id, until) && until <= retireAt
    ensures KeptUntil(Rotated(keys, newId, retireAt), clock, id, until)
  {
    if until > clock {
      var key :| key in keys && key.id == id && (key.retireAt.Some? ==> key.retireAt.value >= until);
      var i :| 0 <= i < |keys| && keys[i] == key;
      var rotated := Rotated(keys, newId, retireAt);
      assert rotated[i + 1].id == id && rotated[i + 1] in rotated;
      assert rotated[i + 1].retireAt.Some? ==> rotated[i + 1].retireAt.value >= until;
    }
  }

  lemma PublishKeepsInv(config: Config, s: Issuer, now: int)
    requires Inv(config, s) && s.clock <= now
    ensures Inv(config, s.(clock := now, keys := Pruned(s.keys, now)))
  {
    PrunedInOrder(s.keys, now, now + config.overlap);
    forall t | t in s.tokens ensures KeptUntil(Pruned(s.keys, now), now, t.keyId, t.expiry) {
      PruningKeeps(s.keys, s.clock, now, t.keyId, t.expiry);
    }
    forall r | r in s.pending
      ensures KeptUntil(Pruned(s.keys, now), now, s.pending[r].keyId, s.pending[r].readAt + config.overlap)
    {
      PruningKeeps(s.keys, s.clock, now, s.pending[r].keyId, s.pending[r].readAt + config.overlap);
    }
  }

  lemma RotateKeepsInv(config: Config, s: Issuer, newId: string, now: int)
    requires Inv(config, s) && s.clock <= now && config.overlap >= TOKEN_TTL
    ensures Inv(config, s.(clock := now, keys := Rotated(s.keys, newId, now + config.overlap)))
  {
    var keys := Rotated(s.keys, newId, now + config.overlap);
    forall t | t in s.tokens ensures KeptUntil(keys, now, t.keyId, t.expiry) {
      RotatingKeeps(s.keys, s.clock, t.keyId, t.expiry, newId, now + config.overlap);
    }
    forall r | r in s.pending ensures KeptUntil(keys, now, s.pending[r].keyId, s.pending[r].readAt + config.overlap) {
      RotatingKeeps(s.keys, s.clock, s.pending[r].keyId, s.pending[r].readAt + config.overlap, newId,
                    now + config.overlap);
    }
  }

  lemma SignKeepsInv(config: Config, s: Issuer, now: int, request: nat)
    requires Inv(config, s) && s.clock <= now && config.overlap >= TOKEN_TTL + config.delay
    ensures Inv(config, Next(config, s, Sign(now, request)))
  {
    if request in s.pending && now - s.pending[request].readAt <= config.delay {
      var p := s.pending[request];
      assert p.readAt + config.overlap > now;
      assert KeptUntil(s.keys, s.clock, p.keyId, p.readAt + config.overlap);
      assert KeptUntil(s.keys, now, p.keyId, NumericDate(now + TOKEN_TTL));
    }
  }

  lemma NextKeepsInv(config: Config, s: Issuer, step: Step)
    requires Inv(config, s) && config.overlap >= TOKEN_TTL + config.delay
    ensures Inv(config, Next(config, s, step))
  {
    if step.now >= s.clock {
      match step
      case Rotate(now, newId) =>
        RotateKeepsInv(config, s, newId, now);
        PublishKeepsInv(config, s.(clock := now, keys := Rotated(s.keys, newId, now + config.overlap)), now);
      case Publish(now) => PublishKeepsInv(config, s, now);
      case ReadSigner(now, request) => assert KeptUntil(s.keys, now, s.keys[0].id, now + config.overlap);
      case Sign(now, request) => SignKeepsInv(config, s, now, request);
    }
  }

  lemma {:induction false} RunKeepsInv(config: Config, firstId: string, steps: seq<Step>)
    requires config.overlap >= TOKEN_TTL + config.delay
    ensures Inv(config, Run(config, firstId, steps))
    decreases |steps|
  {
    if steps != [] {
      RunKeepsInv(config, firstId, steps[..|steps| - 1]);
      NextKeepsInv(config, Run(config, firstId, steps[..|steps| - 1]), Last(steps));
    }
  }

  /**
    Whatever the overlap: only the head, which signs, has no retirement time, and retirement times do not increase along
    the list.
   */
  lemma {:induction false} KeysStayInOrder(config: Config, firstId: string, steps: seq<Step>)
    ensures InOrder(Run(config, firstId, steps).keys, Run(config, firstId, steps).clock + config.overlap)
    decreases |steps|
  {
    if steps != [] {
      var s := Run(config, firstId, steps[..|steps| - 1]);
      KeysStayInOrder(config, firstId, steps[..|steps| - 1]);
      if Last(steps).now >= s.clock {
        match Last(steps)
        case Rotate(now, newId) =>
          PrunedInOrder(Rotated(s.keys, newId, now + config.overlap), now, now + config.overlap);
        case Publish(now) => PrunedInOrder(s.keys, now, now + config.overlap);
        case ReadSigner(_, _) =>
        case Sign(_, _) =>
      }
    }
  }

  // ----------------------------------------------------------- the guarantee

  /** The keys published at an instant verify every token that has not expired by then. */
  ghost predicate Verifiable(s: Issuer, now: int) {
    forall t :: t in s.tokens && now < t.expiry ==> Published(s.keys, now, t.keyId)
  }

  ghost predicate Published(keys: seq<SigningKey>, now: int, id: string) {
    exists key :: key in Pruned(keys, now) && key.id == id
  }

  lemma InvIsVerifiable(config: Config, s: Issuer, now: int)
    requires Inv(config, s) && s.clock <= now
    ensures Verifiable(s, now)
  {
    forall t | t in s.tokens && now < t.expiry ensures Published(s.keys, now, t.keyId) {
      var key :| key in s.keys && key.id == t.keyId && (key.retireAt.Some? ==> key.retireAt.value >= t.expiry);
      PrunedMembers(s.keys, now, key);
    }
  }

  /** In every run, at every later instant. */
  ghost predicate AlwaysVerifiable(config: Config, firstId: string) {
    forall steps, now :: now >= Run(config, firstId, steps).clock ==> Verifiable(Run(config, firstId, steps), now)
  }

  /** A moment from which a token signed after the delay expires on a whole second. */
  function UnluckyMoment(delay: nat): int {
    SECOND * (delay / SECOND + 1) - delay
  }

  lemma WholeSeconds(n: int)
    ensures NumericDate(SECOND * n) == SECOND * n
  {
    assert SECOND * n / SECOND == n;
  }

  /**
    The unlucky run: read the signer, rotate at once, sign after the delay, ask for the keys when the old one has
    retired.
   */
  function UnluckyRun(config: Config, firstId: string): seq<Step> {
    var t := UnluckyMoment(config.delay);
    [ReadSigner(t, 0), Rotate(t, firstId + "'"), Sign(t + config.delay, 0)]
  }

  lemma RunOf3(config: Config, firstId: string, a: Step, b: Step, c: Step)
    ensures Run(config, firstId, [a, b, c]) == Next(config, Next(config, Next(config, Start(firstId), a), b), c)
  {
    assert [a, b, c] == ([] + [a]) + [b] + [c];
    StepTaken(config, firstId, [] + [a] + [b], c);
    StepTaken(config, firstId, [] + [a], b);
    StepTaken(config, firstId, [], a);
  }

  lemma AfterReadAndRotate(config: Config, firstId: string, t: int)
    requires t >= 0 && config.overlap > 0
    ensures var s := Next(config, Next(config, Start(firstId), ReadSigner(t, 0)), Rotate(t, firstId + "'"));
            && s.keys == [SigningKey(firstId + "'", None), SigningKey(firstId, Some(t + config.overlap))]
            && s.tokens == {} && s.pending == map[0 := Pending(firstId, t)] && s.clock == t
  {
    var keys := [SigningKey(firstId + "'", None), SigningKey(firstId, Some(t + config.overlap))];
    assert Rotated([SigningKey(firstId, None)], firstId + "'", t + config.overlap) == keys;
    assert keys[..1] == [keys[0]] && [keys[0]][..0] == [];
    assert Pruned([keys[0]], t) == [keys[0]];
    assert Pruned(keys, t) == [keys[0]] + [keys[1]];
  }

  lemma UnluckyRunFails(config: Config, firstId: string)
    requires 0 < config.overlap < TOKEN_TTL + config.delay
    ensures !AlwaysVerifiable(config, firstId)
  {
    var t := UnluckyMoment(config.delay);
    var s := Run(config, firstId, UnluckyRun(config, firstId));
    RunOf3(config, firstId, ReadSigner(t, 0), Rotate(t, firstId + "'"), Sign(t + config.delay, 0));
    AfterReadAndRotate(config, firstId, t);
    WholeSeconds(config.delay / SECOND + 1 + 300);
    var token := Token(firstId, t + config.delay + TOKEN_TTL);
    assert token in s.tokens;
    var now := if config.overlap > config.delay then t + config.overlap else t + config.delay;
    forall key ensures key in Pruned(s.keys, now) ==> key.id != firstId {
      PrunedMembers(s.keys, now, key);
      assert |firstId + "'"| != |firstId|;
    }
    assert !Published(s.keys, now, token.keyId);
    assert !Verifiable(s, now);
  }

  /**
    The key that signed a token is published until the token expires, in every run, exactly when the overlap covers the
    token lifetime and the longest delay between reading the signer and reading the clock. The default overlap is the
    lifetime alone, which is enough only if nothing can come between the two.
   */
  lemma VerifiableIffOverlapCovers(config: Config, firstId: string)
    requires config.overlap > 0
    ensures AlwaysVerifiable(config, firstId) <==> config.overlap >= TOKEN_TTL + config.delay
  {
    if config.overlap >= TOKEN_TTL + config.delay {
      forall steps, now | now >= Run(config, firstId, steps).clock
        ensures Verifiable(Run(config, firstId, steps), now)
      {
        RunKeepsInv(config, firstId, steps);
        InvIsVerifiable(config, Run(config, firstId, steps), now);
      }
    } else {
      UnluckyRunFails(config, firstId);
    }
  }

  // -------------------------------------------------------------- the server

  lemma RotatedHead(keys: seq<SigningKey>, newId: string, now: int, latest: int, retireAt: int)
    requires InOrder(keys, latest) && latest <= retireAt
    ensures InOrder(Rotated(keys, newId, retireAt), retireAt)
    ensures Pruned(Rotated(keys, newId, retireAt), now) != []
    ensures Pruned(Rotated(keys, newId, retireAt), now)[0].id == newId
  {
    PrunedInOrder(Rotated(keys, newId, retireAt), now, retireAt);
  }

  class IssuerServer {
    const config: Config
    const firstId: string
    const rotates: bool
    var signer: string
    var keys: seq<SigningKey>
    ghost var steps: seq<Step>

    /** The keys are those of the run so far, and its head is the signer. */
    ghost predicate Valid()
      reads this
    {
      keys == State().keys && keys != [] && signer == keys[0].id
    }

    ghost function State(): Issuer
      reads this
    {
      Run(config, firstId, steps)
    }

    constructor (config: Config, firstId: string, rotates: bool)
      ensures Valid() && this.config == config && this.firstId == firstId && steps == []
    {
      this.config, this.firstId, this.rotates := config, firstId, rotates;
      signer, keys, steps := firstId, [SigningKey(firstId, None)], [];
    }

    method Prune(now: int)
      modifies this`keys
      ensures keys == Pruned(old(keys), now)
    {
      var active: seq<SigningKey> := [];
      for i := 0 to |keys|
        invariant active == Pruned(keys[..i], now)
      {
        assert keys[..i + 1][..i] == keys[..i];
        if keys[i].retireAt == None || now < keys[i].retireAt.value { active := active + [keys[i]]; }
      }
      assert keys[..|keys|] == keys;
      keys := active;
    }

    /** A key that could not be generated, or rotation switched off, leaves the keys alone. */
    method Reload(now: int, generated: Option<string>)
      requires Valid() && State().clock <= now
      modifies this
      ensures Valid()
      ensures steps == if rotates && generated.Some? then old(steps) + [Rotate(now, generated.value)] else old(steps)
    {
      if !rotates || generated.None? { return; }
      StepTaken(config, firstId, steps, Rotate(now, generated.value));
      KeysStayInOrder(config, firstId, steps);
      RotatedHead(keys, generated.value, now, State().clock + config.overlap, now + config.overlap);
      if |keys| > 0 { keys := keys[0 := keys[0].(retireAt := Some(now + config.overlap))]; }
      keys := [SigningKey(generated.value, None)] + keys;
      signer := generated.value;
      Prune(now);
      steps := steps + [Rotate(now, generated.value)];
    }

    /** What is published now verifies every token that is still good, if the overlap covers lifetime and delay. */
    method Keys(now: int) returns (published: seq<string>)
      requires Valid() && State().clock <= now
      modifies this
      ensures Valid() && steps == old(steps) + [Publish(now)]
      ensures |published| == |keys| && forall j :: 0 <= j < |keys| ==> published[j] == keys[j].id
      ensures config.overlap >= TOKEN_TTL + config.delay ==>
                forall t :: t in State().tokens && now < t.expiry ==> t.keyId in published
    {
      ghost var before := State();
      StepTaken(config, firstId, steps, Publish(now));
      KeysStayInOrder(config, firstId, steps);
      PrunedInOrder(keys, now, State().clock + config.overlap);
      Prune(now);
      steps := steps + [Publish(now)];
      published := [];
      for i := 0 to |keys|
        invariant |published| == i && forall j :: 0 <= j < i ==> published[j] == keys[j].id
      {
        published := published + [keys[i].id];
      }
      if config.overlap >= TOKEN_TTL + config.delay {
        RunKeepsInv(config, firstId, old(steps));
        InvIsVerifiable(config, before, now);
        forall t | t in State().tokens && now < t.expiry ensures t.keyId in published {
          var key :| key in Pruned(before.keys, now) && key.id == t.keyId;
          var i :| 0 <= i < |keys| && keys[i] == key;
          assert published[i] == t.keyId;
        }
      }
    }

    /** Issue a token: the signer is read at one time, the clock at another. */
    method IssueToken(readAt: int, now: int, request: nat) returns (token: Token)
      requires Valid() && State().clock <= readAt <= now <= readAt + config.delay
      modifies this
      ensures Valid() && steps == old(steps) + [ReadSigner(readAt, request)] + [Sign(now, request)]
      ensures token == Token(signer, NumericDate(now + TOKEN_TTL)) && keys == old(keys)
      ensures State().tokens == old(State()).tokens + {token} && request !in State().pending
    {
      var reader := signer;
      StepTaken(config, firstId, steps, ReadSigner(readAt, request));
      StepTaken(config, firstId, steps + [ReadSigner(readAt, request)], Sign(now, request));
      steps := steps + [ReadSigner(readAt, request)] + [Sign(now, request)];
      token := Token(reader, NumericDate(now + TOKEN_TTL));
    }
  }

  lemma StepTaken(config: Config, firstId: string, steps: seq<Step>, step: Step)
    ensures Run(config, firstId, steps + [step]) == Next(config, Run(config, firstId, steps), step)
  {
    assert (steps + [step])[..|steps + [step]| - 1] == steps;
  }
}
