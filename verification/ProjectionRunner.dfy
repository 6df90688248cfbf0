/**
  The pull loop (projection/nats.go): a batch of messages is handled one after the other, and each is acknowledged,
  dead-lettered and terminated, or handed back for redelivery.
 */
module ProjectionRunner {
  import opened Common
  import opened ProjectionStore
  import opened ProjectionPipeline
  import opened ProjectionDatabase

  /** A message of the batch, and how the world answers while it is handled. */
  datatype Incoming = Incoming(
    delivery: Delivery, routing: Routing, now: int, responseLost: bool, publishes: bool, settles: bool)

  /** How a message was settled; a delay says when it may come again. */
  datatype Settlement = Acknowledged | HandedBack(delay: int) | Terminated | NotSettled

  function Attempts(d: Delivery): int {
    if d.attempts > 0 then d.attempts else 1
  }

  /** The backoff list indexed by the attempt, its last entry for all further attempts. */
  function RetryDelay(backoff: seq<int>, otherwise: int, attempts: int): int
    requires attempts >= 1
  {
    if backoff == [] then otherwise
    else if attempts - 1 >= |backoff| then backoff[|backoff| - 1]
    else backoff[attempts - 1]
  }

  /** The delay is the backoff of the attempt, or the last one there is; without a list it is the fixed one. */
  predicate IsDelay(delay: int, backoff: seq<int>, otherwise: int, attempts: int) {
    && (backoff == [] ==> delay == otherwise)
    && (0 < attempts <= |backoff| ==> delay == backoff[attempts - 1])
    && (0 < |backoff| < attempts ==> delay == Last(backoff))
  }

  /** What the runner leaves behind: the database and the messages it settled. */
  datatype Books = Books(store: Store, acked: set<Envelope>, deadLetters: set<Delivery>, terminated: set<Delivery>)

  datatype Settings = Settings(maxDeliver: int, backoff: seq<int>, retryDelay: int, hasDeadLetters: bool)

  /** The message was applied before, or it is applied or passed now and the answer arrives. */
  predicate Succeeds(s: Store, m: Incoming) {
    m.routing.RoutedTo?
    && (ComesAgain(s, m.delivery.message)
        || ((ComesNext(s, m.delivery.message, m.routing.target) || ComesLate(s, m.delivery.message, m.routing.target))
            && !m.responseLost))
  }

  /** A message that failed is given up when trying again cannot help or it is out of attempts. */
  predicate IsGivenUp(s: Store, m: Incoming, settings: Settings) {
    settings.hasDeadLetters && !Succeeds(s, m)
    && (IsHopeless(s, m.delivery.message, m.routing)
        || (if m.delivery.attempts > 0 then m.delivery.attempts else 1) >= settings.maxDeliver)
  }

  /**
    How a message is settled. Success is acknowledged, a message that is given up goes to the dead letters and is then
    terminated, and any other, above all an event that comes early, is handed back and touches no settlement.
   */
  predicate IsSettled(b: Books, m: Incoming, settings: Settings, r: Settlement, b': Books) {
    var d := m.delivery;
    if Succeeds(b.store, m) then
      && b'.acked == (if m.settles then b.acked + {d.message} else b.acked)
      && b'.deadLetters == b.deadLetters && b'.terminated == b.terminated
      && r == (if m.settles then Acknowledged else NotSettled)
    else if IsGivenUp(b.store, m, settings) then
      && b'.acked == b.acked && b'.deadLetters == (if m.publishes then b.deadLetters + {d} else b.deadLetters)
      && b'.terminated == (if m.publishes && m.settles then b.terminated + {d} else b.terminated)
      && r == (if m.publishes && m.settles then Terminated else NotSettled)
    else
      && b'.acked == b.acked && b'.deadLetters == b.deadLetters && b'.terminated == b.terminated
      && (if m.settles
          then r.HandedBack? && IsDelay(r.delay, settings.backoff, settings.retryDelay,
                                        if d.attempts > 0 then d.attempts else 1)
          else r == NotSettled)
  }

  /** How a message is treated by the store and settled by the runner. */
  ghost predicate IsRun(b: Books, m: Incoming, settings: Settings, r: Settlement, b': Books) {
    HandlingDid(b.store, b'.store, m.delivery.message, m.routing, m.now) && IsSettled(b, m, settings, r, b')
  }

  /** A batch is run message by message. */
  ghost predicate AreRun(passed: seq<Books>, batch: seq<Incoming>, settings: Settings, settlements: seq<Settlement>) {
    && |passed| == |settlements| + 1 && |settlements| <= |batch|
    && forall i :: 0 <= i < |settlements| ==> IsRun(passed[i], batch[i], settings, settlements[i], passed[i + 1])
  }

  lemma AreRunAppend(
    passed: seq<Books>, batch: seq<Incoming>, settings: Settings, settlements: seq<Settlement>, r: Settlement, b: Books)
    requires AreRun(passed, batch, settings, settlements) && |settlements| < |batch|
    requires IsRun(Last(passed), batch[|settlements|], settings, r, b)
    ensures AreRun(passed + [b], batch, settings, settlements + [r])
  {
  }

  /** The message is an early event that is not at its last attempt. */
  predicate IsEarly(s: Store, m: Incoming, maxDeliver: int) {
    && m.routing.RoutedTo? && ComesEarly(s, m.delivery.message, m.routing.target)
    && 1 < maxDeliver && m.delivery.attempts < maxDeliver
  }

  /** How the handler's answer settles a message. */
  predicate IsAnswered(b: Books, m: Incoming, settings: Settings, outcome: Outcome, r: Settlement, b': Books) {
    var d := m.delivery;
    var attempts := if d.attempts > 0 then d.attempts else 1;
    var givenUp := settings.hasDeadLetters && outcome != Success
                   && (outcome == Deterministic || attempts >= settings.maxDeliver);
    && b'.acked == (if outcome == Success && m.settles then b.acked + {d.message} else b.acked)
    && b'.deadLetters == (if givenUp && m.publishes then b.deadLetters + {d} else b.deadLetters)
    && b'.terminated == (if givenUp && m.publishes && m.settles then b.terminated + {d} else b.terminated)
    && (r == NotSettled <==> !m.settles || (givenUp && !m.publishes))
    && (r == Acknowledged <==> outcome == Success && m.settles)
    && (r == Terminated <==> givenUp && m.publishes && m.settles)
    && (r.HandedBack? ==> IsDelay(r.delay, settings.backoff, settings.retryDelay, attempts))
  }

  lemma SettlingIs(b: Books, m: Incoming, settings: Settings, outcome: Outcome, r: Settlement, b': Books)
    requires HandlingEnds(b.store, m.delivery.message, m.routing, m.responseLost, outcome)
    requires IsAnswered(b, m, settings, outcome, r, b')
    ensures IsSettled(b, m, settings, r, b')
  {
  }

  lemma EarlyIsHandedBack(b: Books, m: Incoming, settings: Settings, r: Settlement, b': Books)
    requires IsRun(b, m, settings, r, b')
    ensures IsEarly(b.store, m, settings.maxDeliver) ==>
              && StoreWaits(b.store, b'.store, m.delivery.message, m.routing.target) && b' == b.(store := b'.store)
              && (if m.settles then r.HandedBack? else r == NotSettled)
  {
  }

  /** What the machine does until the handler returns. */
  function Handling(w: World, m: Incoming): World {
    Run(Next(w, Deliver(0, m.delivery)), HandlingSteps(m.routing, m.now, m.responseLost))
  }

  /** Two worlds whose workers do the same, whatever was settled before. */
  predicate SameCourse(w: World, v: World) {
    w.store == v.store && w.tasks == v.tasks
  }

  predicate SameSettlements(w: World, v: World) {
    w.acked == v.acked && w.deadLetters == v.deadLetters && w.terminated == v.terminated
  }

  predicate WorkingStep(step: Step) {
    step.RouteAndArchive? || step.ClaimInbox? || step.CommitApply?
  }

  lemma StepKeepsCourse(w: World, v: World, step: Step)
    requires SameCourse(w, v) && WorkingStep(step)
    ensures SameCourse(Next(w, step), Next(v, step)) && SameSettlements(Next(w, step), w)
  {
  }

  lemma {:induction false} RunKeepsCourse(w: World, v: World, steps: seq<Step>)
    requires SameCourse(w, v) && forall step :: step in steps ==> WorkingStep(step)
    ensures SameCourse(Run(w, steps), Run(v, steps)) && SameSettlements(Run(w, steps), w)
    decreases |steps|
  {
    if steps != [] {
      RunKeepsCourse(w, v, steps[..|steps| - 1]);
      StepKeepsCourse(Run(w, steps[..|steps| - 1]), Run(v, steps[..|steps| - 1]), Last(steps));
    }
  }

  lemma {:induction false} RunIsReachable(w: World, steps: seq<Step>)
    requires Reachable(w)
    ensures Reachable(Run(w, steps))
    decreases |steps|
  {
    if steps != [] {
      RunIsReachable(w, steps[..|steps| - 1]);
      NextIsReachable(Run(w, steps[..|steps| - 1]), Last(steps));
    }
  }

  lemma HandlingIsAlone(w: World, m: Incoming)
    requires Reachable(w) && w.tasks == map[]
    ensures SameCourse(Handling(w, m), Run(Alone(w.store, m.delivery), HandlingSteps(m.routing, m.now, m.responseLost)))
    ensures SameSettlements(Handling(w, m), w) && Reachable(Handling(w, m))
  {
    var received := Next(w, Deliver(0, m.delivery));
    RunKeepsCourse(received, Alone(w.store, m.delivery), HandlingSteps(m.routing, m.now, m.responseLost));
    NextIsReachable(w, Deliver(0, m.delivery));
    RunIsReachable(received, HandlingSteps(m.routing, m.now, m.responseLost));
  }

  /** The end of one message's task: settled as the machine settles it, or left to be redelivered. */
  lemma SettlingOf(w: World, d: Delivery, outcome: Outcome, maxDeliver: int, reply: DeadLetterReply)
    requires w.tasks == map[0 := Task(d, Returned(outcome))]
    ensures var s := Next(w, Settle(0, maxDeliver, reply));
            var ends := outcome == Deterministic || Attempts(d) >= maxDeliver;
            && s.store == w.store && s.terminated == w.terminated
            && s.acked == (if outcome == Success then w.acked + {d.message} else w.acked)
            && s.deadLetters == (if outcome != Success && ends && reply == Published then w.deadLetters + {d}
                                 else w.deadLetters)
            && s.tasks == (if outcome != Success && ends && reply == Published then map[0 := Task(d, DeadLettered)]
                           else map[])
  {
    assert map[0 := Task(d, Returned(outcome))] - {0} == map[];
  }

  lemma TerminatingOf(w: World, d: Delivery, maxDeliver: int, reply: DeadLetterReply)
    requires w.tasks == map[0 := Task(d, DeadLettered)]
    ensures Next(w, Settle(0, maxDeliver, reply)) == w.(tasks := map[], terminated := w.terminated + {d})
    ensures Next(w, Crash(0)) == w.(tasks := map[])
  {
    assert map[0 := Task(d, DeadLettered)] - {0} == map[];
  }

  lemma CrashOf(w: World, task: Task)
    requires w.tasks == map[0 := task]
    ensures Next(w, Crash(0)) == w.(tasks := map[])
  {
    assert map[0 := task] - {0} == map[];
  }

  class PullRunner {
    const database: Database
    const maxDeliver: int
    const backoff: seq<int>
    const retryDelay: int
    const hasDeadLetters: bool
    var acked: set<Envelope>
    var deadLetters: set<Delivery>
    var terminated: set<Delivery>
    ghost var world: World

    /** Between messages the database and the settlements are those of a run of the machine with no task open. */
    ghost predicate Valid()
      reads this, database
    {
      Reachable(world) && world.tasks == map[] && Presents()
    }

    ghost predicate Presents()
      reads this, database
    {
      database.State() == world.store && acked == world.acked && deadLetters == world.deadLetters
      && terminated == world.terminated
    }

    /** One message is in hand, and its handler has returned. */
    ghost predicate Holding(d: Delivery, outcome: Outcome)
      reads this, database
    {
      Reachable(world) && world.tasks == map[0 := Task(d, Returned(outcome))] && Presents()
    }

    constructor (database: Database, maxDeliver: int, backoff: seq<int>, retryDelay: int, hasDeadLetters: bool)
      requires database.State() == EmptyStore
      ensures Valid() && this.database == database && acked == {} && terminated == {}
    {
      this.database, this.maxDeliver, this.backoff, this.retryDelay, this.hasDeadLetters :=
        database, maxDeliver, backoff, retryDelay, hasDeadLetters;
      acked, deadLetters, terminated := {}, {}, {};
      world := Genesis;
      GenesisIsReachable();
    }

    /** The database and the settlements. */
    function Keeps(): Books
      reads this, database
    {
      Books(database.State(), acked, deadLetters, terminated)
    }

    function Configured(): Settings {
      Settings(maxDeliver, backoff, retryDelay, hasDeadLetters)
    }

    ghost method Took(step: Step)
      requires Reachable(world)
      modifies this`world
      ensures Reachable(world) && world == Next(old(world), step)
    {
      NextIsReachable(world, step);
      world := Next(world, step);
    }

    method HandleMessage(m: Incoming) returns (outcome: Outcome)
      requires Valid()
      modifies this`world, database
      ensures Holding(m.delivery, outcome) && world == Handling(old(world), m)
      ensures acked == old(acked) && deadLetters == old(deadLetters) && terminated == old(terminated)
      ensures HandlingEnds(old(database.State()), m.delivery.message, m.routing, m.responseLost, outcome)
      ensures HandlingDid(old(database.State()), database.State(), m.delivery.message, m.routing, m.now)
    {
      HandlingIsAlone(world, m);
      outcome := HandleRun(database, m.delivery, m.routing, m.now, m.responseLost);
      world := Handling(world, m);
    }

    /**
      A failed message: dead-lettered and then terminated when it is hopeless or out of attempts, and handed back
      otherwise.
     */
    method RetryMessage(d: Delivery, outcome: Outcome, publishes: bool, settles: bool) returns (r: Settlement)
      requires Holding(d, outcome) && outcome != Success
      modifies this
      ensures Valid() && acked == old(acked) && old(deadLetters) <= deadLetters && r != Acknowledged
      ensures var hopeless := (outcome == Deterministic || Attempts(d) >= maxDeliver) && hasDeadLetters;
              && (r == Terminated <==> hopeless && publishes && settles)
              && (r == NotSettled <==> !settles || (hopeless && !publishes))
              && deadLetters == (if hopeless && publishes then old(deadLetters) + {d} else old(deadLetters))
      ensures r == Terminated ==> terminated == old(terminated) + {d}
      ensures r != Terminated ==> terminated == old(terminated)
      ensures r.HandedBack? ==> settles && ((outcome == Transient && Attempts(d) < maxDeliver) || !hasDeadLetters)
      ensures r.HandedBack? ==> IsDelay(r.delay, backoff, retryDelay, if d.attempts > 0 then d.attempts else 1)
    {
      ghost var reply := if !hasDeadLetters then NoDeadLetters else if publishes then Published else PublishFailed;
      SettlingOf(world, d, outcome, maxDeliver, reply);
      Took(Settle(0, maxDeliver, reply));
      var attempts := if d.attempts > 0 then d.attempts else 1;
      if outcome == Deterministic || attempts >= maxDeliver {
        if !hasDeadLetters {
          return if settles then HandedBack(RetryDelay(backoff, retryDelay, attempts)) else NotSettled;
        }
        if !publishes { return NotSettled; }
        deadLetters := deadLetters + {d};
        TerminatingOf(world, d, maxDeliver, reply);
        if !settles {
          Took(Crash(0));
          return NotSettled;
        }
        Took(Settle(0, maxDeliver, reply));
        terminated := terminated + {d};
        return Terminated;
      }
      return if settles then HandedBack(RetryDelay(backoff, retryDelay, attempts)) else NotSettled;
    }

    /**
      Acknowledge only what the handler finished; an acknowledgement that fails leaves the message to be redelivered.
     */
    method Acknowledge(d: Delivery, settles: bool) returns (r: Settlement)
      requires Holding(d, Success)
      modifies this
      ensures Valid() && RowIsApplied(database.State(), d.message) && deadLetters == old(deadLetters)
      ensures terminated == old(terminated)
      ensures r == (if settles then Acknowledged else NotSettled)
      ensures acked == (if settles then old(acked) + {d.message} else old(acked))
    {
      ReachableIsSafe(world);
      assert TaskSound(world, world.tasks[0]);
      SettlingOf(world, d, Success, maxDeliver, NoDeadLetters);
      CrashOf(world, Task(d, Returned(Success)));
      if !settles {
        Took(Crash(0));
        return NotSettled;
      }
      acked := acked + {d.message};
      Took(Settle(0, maxDeliver, NoDeadLetters));
      return Acknowledged;
    }

    /** The loop over a batch: a settlement that fails makes the runner reconnect and leaves the rest for later. */
    method RunBatch(batch: seq<Incoming>)
      returns (settlements: seq<Settlement>, reconnect: bool, ghost passed: seq<Books>)
      requires Valid()
      modifies this, database
      ensures AreRun(passed, batch, Configured(), settlements) && passed[0] == old(Keeps()) && Last(passed) == Keeps()
      ensures Valid() && |settlements| <= |batch|
      ensures reconnect <==> NotSettled in settlements
      ensures !reconnect ==> |settlements| == |batch|
      ensures forall i :: 0 <= i < |settlements| && settlements[i] == Acknowledged ==>
                batch[i].delivery.message in acked
      ensures forall i :: 0 <= i < |settlements| && settlements[i] == Terminated ==>
                batch[i].delivery in terminated && batch[i].delivery in deadLetters
    {
      settlements, reconnect, passed := [], false, [Keeps()];
      for i := 0 to |batch|
        invariant Valid() && |settlements| == i && NotSettled !in settlements
        invariant AreRun(passed, batch, Configured(), settlements) && passed[0] == old(Keeps())
        invariant Last(passed) == Keeps()
        invariant forall j :: 0 <= j < i && settlements[j] == Acknowledged ==> batch[j].delivery.message in acked
        invariant forall j :: 0 <= j < i && settlements[j] == Terminated ==>
                    batch[j].delivery in terminated && batch[j].delivery in deadLetters
      {
        var r := RunOne(batch[i]);
        AreRunAppend(passed, batch, Configured(), settlements, r, Keeps());
        settlements, passed := settlements + [r], passed + [Keeps()];
        if r == NotSettled {
          assert settlements[i] == NotSettled;
          return settlements, true, passed;
        }
      }
    }

    /** One message of the batch; an early one is handed back to wait, and nothing is written or settled. */
    method RunOne(m: Incoming) returns (r: Settlement)
      requires Valid()
      modifies this, database
      ensures Valid() && old(acked) <= acked && old(terminated) <= terminated && old(deadLetters) <= deadLetters
      ensures r == Acknowledged ==> m.delivery.message in acked
      ensures r == Terminated ==> m.delivery in terminated && m.delivery in deadLetters
      ensures IsRun(old(Keeps()), m, Configured(), r, Keeps())
      ensures IsEarly(old(database.State()), m, maxDeliver) ==>
                && StoreWaits(old(database.State()), database.State(), m.delivery.message, m.routing.target)
                && acked == old(acked) && deadLetters == old(deadLetters) && terminated == old(terminated)
                && (if m.settles then r.HandedBack? else r == NotSettled)
    {
      var outcome := HandleMessage(m);
      if outcome == Success {
        r := Acknowledge(m.delivery, m.settles);
      } else {
        r := RetryMessage(m.delivery, outcome, m.publishes, m.settles);
      }
      SettlingIs(old(Keeps()), m, Configured(), outcome, r, Keeps());
      EarlyIsHandedBack(old(Keeps()), m, Configured(), r, Keeps());
    }

    /** Between messages, whatever was acknowledged is applied, and whatever was terminated has a dead letter. */
    lemma SettledIsSafe()
      requires Valid()
      ensures forall e :: e in acked ==> RowIsApplied(database.State(), e)
      ensures terminated <= deadLetters
    {
      ReachableIsSafe(world);
    }
  }
}
