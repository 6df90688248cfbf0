/** What the command protocol promises over whole runs: agreement, at most one execution, absorbing results. */
module CommandGuarantees {
  import opened Common
  import opened CommandModel
  import opened CommandProtocol

  lemma {:induction false} RunFromKeepsInv(w: World, more: seq<Step>)
    requires Inv(w)
    ensures Inv(Run(w, more))
    decreases |more|
  {
    if more != [] {
      RunFromKeepsInv(w, more[..|more| - 1]);
      NextKeepsInv(Run(w, more[..|more| - 1]), Last(more));
    }
  }

  // --------------------------------------------- nothing saved is ever lost

  /** Every saved state of every operation stays, in place. */
  ghost predicate Preserves(versions: Versions, versions': Versions) {
    forall k :: k in versions ==> k in versions' && versions[k] <= versions'[k]
  }

  /** Committed entries stay as they are, and what ran has run. */
  ghost predicate Permanent(inbox: Inbox, inbox': Inbox) {
    forall k :: k in inbox && inbox[k].status == Committed ==> k in inbox' && inbox'[k] == inbox[k]
  }

  lemma SavePreserves(w: World, id: nat, op: Operation, expected: int)
    ensures Preserves(w.versions, SaveIn(w, id, op, expected).versions)
  {
  }

  lemma CreatePreserves(w: World, id: nat, op: Operation, auditFails: bool)
    requires HistoriesSound(w.versions, w.inbox)
    ensures Preserves(w.versions, CreateIn(w, id, op, auditFails).versions)
  {
    if CanCreate(Stored(w), op) { StoredOthers(w, op); }
  }

  lemma OthersKeepVersions(w: World, step: Step)
    requires !step.Create? && !step.SaveDispatch? && !step.SaveResult?
    ensures Next(w, step).versions == w.versions
  {
    if step.Submit? || step.Publish? || step.ReadForResult? {
    } else if step.OwnerClaim? || step.Crash? {
    } else {
    }
  }

  lemma StepPreserves(w: World, step: Step)
    requires HistoriesSound(w.versions, w.inbox)
    ensures Preserves(w.versions, Next(w, step).versions)
  {
    match step
    case Create(id, auditFails) =>
      if id in w.tasks && w.tasks[id].Creating? { CreatePreserves(w, id, w.tasks[id].op, auditFails); }
    case SaveDispatch(id, now) =>
      if id in w.tasks && w.tasks[id].SavingDispatch? {
        SavePreserves(w, id, DispatchedOf(w.tasks[id].op, now), w.tasks[id].op.revision);
      }
    case SaveResult(id, now) =>
      if id in w.tasks && w.tasks[id].SavingResult? {
        SavePreserves(w, id, WithResult(w.tasks[id].op, w.tasks[id].result, now), w.tasks[id].op.revision);
      }
    case _ => OthersKeepVersions(w, step);
  }

  /** Only a claim, an execution or a commit touches the owner's side. */
  predicate OwnerStep(step: Step) {
    step.OwnerClaim? || step.OwnerExecute? || step.OwnerCommit?
  }

  lemma GatewayLeavesOwner(w: World, step: Step)
    requires !OwnerStep(step)
    ensures Next(w, step).inbox == w.inbox && Next(w, step).executions == w.executions
  {
    if step.Submit? || step.Publish? || step.ReadForResult? {
    } else if step.Create? || step.Crash? {
    } else {
    }
  }

  lemma StepIsPermanent(w: World, step: Step)
    ensures Permanent(w.inbox, Next(w, step).inbox)
    ensures w.executions <= Next(w, step).executions
  {
    if !OwnerStep(step) { GatewayLeavesOwner(w, step); }
  }

  lemma {:induction false} RunPreserves(w: World, more: seq<Step>)
    requires Inv(w)
    ensures Preserves(w.versions, Run(w, more).versions) && Permanent(w.inbox, Run(w, more).inbox)
    ensures w.executions <= Run(w, more).executions
    decreases |more|
  {
    if more != [] {
      var before := Run(w, more[..|more| - 1]);
      RunPreserves(w, more[..|more| - 1]);
      RunFromKeepsInv(w, more[..|more| - 1]);
      StepPreserves(before, Last(more));
      StepIsPermanent(before, Last(more));
    }
  }

  // ------------------------------------------------------------ the gateway

  lemma EdgesEnd(a: Status, b: Status, c: Status, d: Status)
    ensures Terminal(c) ==> !Edge(c, d)
    ensures !(Edge(a, b) && Edge(b, c) && Edge(c, d))
  {
  }

  /** After any run the saved states of an operation number their revisions and only move forward. */
  lemma StatusOnlyMovesForward(steps: seq<Step>, k: OperationKey)
    requires k in Run(Start, steps).versions
    ensures IsHistory(k, Run(Start, steps).versions[k])
    ensures |Run(Start, steps).versions[k]| <= 3
  {
    RunKeepsInv(steps);
    var versions := Run(Start, steps).versions[k];
    if |versions| > 3 {
      EdgesEnd(versions[0].status, versions[1].status, versions[2].status, versions[3].status);
    }
  }

  /** Once a result is stored nothing that happens later changes the operation: no late dispatch, no second result. */
  lemma TerminalAbsorbs(steps: seq<Step>, more: seq<Step>, k: OperationKey)
    requires k in Run(Start, steps).versions && Run(Start, steps).versions[k] != []
    requires Terminal(Last(Run(Start, steps).versions[k]).status)
    ensures var later := Run(Run(Start, steps), more).versions;
            k in later && later[k] == Run(Start, steps).versions[k]
  {
    var w := Run(Start, steps);
    var w' := Run(w, more);
    RunKeepsInv(steps);
    RunFromKeepsInv(w, more);
    RunPreserves(w, more);
    var n := |w.versions[k]|;
    assert IsHistory(k, w'.versions[k]);
    if n < |w'.versions[k]| {
      assert w'.versions[k][n - 1] == Last(w.versions[k]);
      EdgesEnd(Accepted, Dispatched, w'.versions[k][n - 1].status, w'.versions[k][n].status);
    }
  }

  /** The operation is stored under the idempotency key. */
  predicate HasKey(w: World, k: OperationKey, key: IdempotencyKey) {
    k in Stored(w) && Stored(w)[k].request.idempotency == key
  }

  /** At most one operation has an idempotency key, and every successful answer for the key names it and its payload. */
  lemma OneOperationPerIdempotencyKey(steps: seq<Step>, key: IdempotencyKey)
    ensures var w := Run(Start, steps);
            && (forall k, l :: HasKey(w, k, key) && HasKey(w, l, key) ==> k == l)
            && (forall a, b ::
                  a in w.answers && a.request.idempotency == key && b in w.answers && b.request.idempotency == key ==>
                  a.key == b.key && a.request.payload == b.request.payload)
            && (forall a :: a in w.answers && a.request.idempotency == key ==>
                  HasKey(w, a.key, key) && Stored(w)[a.key].request.payload == a.request.payload)
  {
    var w := Run(Start, steps);
    RunKeepsInv(steps);
    forall k, l | HasKey(w, k, key) && HasKey(w, l, key) ensures k == l {
      StoredRequest(w, k);
      StoredRequest(w, l);
      assert SameRequester(w.versions, k, l);
    }
    forall a, b | a in w.answers && a.request.idempotency == key && b in w.answers && b.request.idempotency == key
      ensures a.key == b.key && a.request.payload == b.request.payload
    {
      assert Answered(w.versions, a) && Answered(w.versions, b);
      assert SameRequester(w.versions, a.key, b.key);
    }
    forall a | a in w.answers && a.request.idempotency == key
      ensures HasKey(w, a.key, key) && Stored(w)[a.key].request.payload == a.request.payload
    {
      assert Answered(w.versions, a);
      StoredRequest(w, a.key);
    }
  }

  lemma StoredRequest(w: World, k: OperationKey)
    requires HistoriesSound(w.versions, w.inbox) && k in w.versions
    ensures w.versions[k] != [] && k in Stored(w) && Stored(w)[k].request == w.versions[k][0].request
  {
    assert IsHistory(k, w.versions[k]);
  }

  // -------------------------------------------------------------- the owner

  /** How often the callback ran for an operation. */
  ghost function Runs(w: World, k: OperationKey): nat {
    multiset(w.executions)[k]
  }

  lemma {:induction false} DistinctCountOnce(s: seq<OperationKey>, k: OperationKey)
    requires forall i, j :: 0 <= i < j < |s| ==> s[i] != s[j]
    ensures multiset(s)[k] == if k in s then 1 else 0
    decreases |s|
  {
    if s != [] {
      var front := s[..|s| - 1];
      assert s == front + [Last(s)];
      DistinctCountOnce(front, k);
    }
  }

  /**
    However messages are repeated and workers race or crash, the callback runs at most once, and ran before any commit.
   */
  lemma CallbackRunsAtMostOnce(steps: seq<Step>, k: OperationKey)
    ensures var w := Run(Start, steps);
            Runs(w, k) <= 1 && (k in w.inbox && w.inbox[k].status == Committed ==> Runs(w, k) == 1)
  {
    RunKeepsInv(steps);
    DistinctCountOnce(Run(Start, steps).executions, k);
  }

  /** A committed entry and its result never change, and the callback does not run for it again. */
  lemma CommittedResultIsFinal(steps: seq<Step>, more: seq<Step>, k: OperationKey)
    requires k in Run(Start, steps).inbox && Run(Start, steps).inbox[k].status == Committed
    ensures var w := Run(Start, steps);
            var later := Run(w, more);
            k in later.inbox && later.inbox[k] == w.inbox[k] && Runs(later, k) == Runs(w, k)
  {
    var w := Run(Start, steps);
    RunKeepsInv(steps);
    RunFromKeepsInv(w, more);
    RunPreserves(w, more);
    DistinctCountOnce(w.executions, k);
    DistinctCountOnce(Run(w, more).executions, k);
  }

  /**
    Both ends agree: an operation the gateway holds as finished was executed exactly once by its owner, for the request
    that was submitted, and carries exactly the event, status, hash, version and error the owner committed.
   */
  lemma EndsAgree(steps: seq<Step>, k: OperationKey)
    requires k in Stored(Run(Start, steps)) && Terminal(Stored(Run(Start, steps))[k].status)
    ensures var w := Run(Start, steps);
            var op := Stored(w)[k];
            && k in w.inbox && w.inbox[k].status == Committed && w.inbox[k].result.Some?
            && w.inbox[k].command == Command(k, op.request)
            && Carries(op, w.inbox[k].result.value)
            && Runs(w, k) == 1
  {
    var w := Run(Start, steps);
    RunKeepsInv(steps);
    StoredRequest(w, k);
    assert IsHistory(k, w.versions[k]);
    assert Agrees(Last(w.versions[k]), w.inbox);
    assert EntrySound(k, w.inbox[k]);
    assert Known(w.versions, w.inbox[k].command);
    CallbackRunsAtMostOnce(steps, k);
  }

  // -------------------------------------- a claim whose worker has gone away

  /** Some worker still holds the claim. */
  ghost predicate HasWorker(w: World, k: OperationKey) {
    exists id :: id in w.tasks && WorksOn(w.tasks[id], k)
  }

  predicate WorksOn(task: Task, k: OperationKey) {
    (task.Executing? || task.Committing?) && task.entry.command.key == k
  }

  predicate CommittedAt(w: World, k: OperationKey) {
    k in w.inbox && w.inbox[k].status == Committed
  }

  predicate OthersStay(w: World, w': World, id: nat) {
    w'.tasks - {id} == w.tasks - {id}
  }

  lemma StillUnworked(w: World, w': World, id: nat, k: OperationKey)
    requires !HasWorker(w, k) && OthersStay(w, w', id) && (id in w'.tasks ==> !WorksOn(w'.tasks[id], k))
    ensures !HasWorker(w', k)
  {
    forall other | other in w'.tasks ensures !WorksOn(w'.tasks[other], k) {
      if other != id {
        assert other in w'.tasks - {id};
        assert (w'.tasks - {id})[other] == (w.tasks - {id})[other];
      }
    }
  }

  predicate Uncommitted(w: World, k: OperationKey) {
    k in w.inbox && !CommittedAt(w, k)
  }

  lemma GatewayMovesItself(w: World, step: Step)
    requires !OwnerStep(step)
    ensures OthersStay(w, Next(w, step), step.id)
    ensures step.id in Next(w, step).tasks ==>
              var task := Next(w, step).tasks[step.id];
              (!task.Executing? && !task.Committing?) || (step.id in w.tasks && task == w.tasks[step.id])
  {
  }

  lemma GatewayLeavesAbandoned(w: World, step: Step, k: OperationKey)
    requires Uncommitted(w, k) && !HasWorker(w, k) && !OwnerStep(step)
    ensures Uncommitted(Next(w, step), k) && !HasWorker(Next(w, step), k)
  {
    GatewayLeavesOwner(w, step);
    GatewayMovesItself(w, step);
    StillUnworked(w, Next(w, step), step.id, k);
  }

  lemma ClaimLeavesAbandoned(w: World, id: nat, c: Command, k: OperationKey)
    requires InboxSound(w.inbox, w.published, w.results, w.executions) && id !in w.tasks
    requires Uncommitted(w, k) && !HasWorker(w, k)
    ensures Uncommitted(ClaimIn(w, id, c), k) && !HasWorker(ClaimIn(w, id, c), k)
  {
    if c.key in w.inbox { assert EntrySound(c.key, w.inbox[c.key]); }
    StillUnworked(w, ClaimIn(w, id, c), id, k);
  }

  lemma ExecuteLeavesAbandoned(
    w: World, id: nat, entry: InboxEntry, outcome: CallbackOutcome, now: int, k: OperationKey)
    requires id in w.tasks && w.tasks[id] == Executing(entry) && Uncommitted(w, k) && !HasWorker(w, k)
    ensures Uncommitted(ExecuteIn(w, id, entry, outcome, now), k)
    ensures !HasWorker(ExecuteIn(w, id, entry, outcome, now), k)
  {
    assert !WorksOn(w.tasks[id], k);
    StillUnworked(w, ExecuteIn(w, id, entry, outcome, now), id, k);
  }

  lemma CommitLeavesAbandoned(w: World, id: nat, entry: InboxEntry, r: ResultEnvelope, k: OperationKey)
    requires id in w.tasks && w.tasks[id] == Committing(entry, r) && Uncommitted(w, k) && !HasWorker(w, k)
    ensures Uncommitted(CommitIn(w, id, entry, r), k) && !HasWorker(CommitIn(w, id, entry, r), k)
  {
    assert !WorksOn(w.tasks[id], k);
    StillUnworked(w, CommitIn(w, id, entry, r), id, k);
  }

  lemma AbandonedStays(w: World, step: Step, k: OperationKey)
    requires InboxSound(w.inbox, w.published, w.results, w.executions) && Uncommitted(w, k) && !HasWorker(w, k)
    ensures Uncommitted(Next(w, step), k) && !HasWorker(Next(w, step), k)
  {
    match step
    case OwnerClaim(id, c) => if id !in w.tasks { ClaimLeavesAbandoned(w, id, c, k); }
    case OwnerExecute(id, outcome, now) =>
      if id in w.tasks && w.tasks[id].Executing? { ExecuteLeavesAbandoned(w, id, w.tasks[id].entry, outcome, now, k); }
    case OwnerCommit(id) =>
      if id in w.tasks && w.tasks[id].Committing? {
        CommitLeavesAbandoned(w, id, w.tasks[id].entry, w.tasks[id].result, k);
      }
    case _ => GatewayLeavesAbandoned(w, step, k);
  }

  lemma {:induction false} AbandonedForEver(w: World, more: seq<Step>, k: OperationKey)
    requires Inv(w) && Uncommitted(w, k) && !HasWorker(w, k)
    ensures Uncommitted(Run(w, more), k) && !HasWorker(Run(w, more), k)
    decreases |more|
  {
    if more != [] {
      AbandonedForEver(w, more[..|more| - 1], k);
      RunFromKeepsInv(w, more[..|more| - 1]);
      AbandonedStays(Run(w, more[..|more| - 1]), Last(more), k);
    }
  }

  lemma CommitSucceeds(w: World, id: nat, entry: InboxEntry, r: ResultEnvelope)
    requires id in w.tasks && w.tasks[id] == Committing(entry, r) && Working(w, id, entry)
    ensures CommittedAt(Next(w, OwnerCommit(id)), entry.command.key)
  {
  }

  lemma ExecuteSucceeds(w: World, id: nat, entry: InboxEntry)
    requires id in w.tasks && w.tasks[id] == Executing(entry) && Working(w, id, entry)
    ensures var w' := Next(w, OwnerExecute(id, Raised, 0));
            Working(w', id, entry) && w'.tasks == w.tasks[id := Committing(entry, Completed(entry.command, Raised, 0))]
  {
    assert Acceptable(entry.command, Completed(entry.command, Raised, 0));
  }

  lemma WorkerCanFinish(w: World, id: nat, k: OperationKey)
    requires TasksSound(w) && id in w.tasks && WorksOn(w.tasks[id], k)
    ensures exists more :: CommittedAt(Run(w, more), k)
  {
    var entry := w.tasks[id].entry;
    assert TaskSound(w, id, w.tasks[id]);
    if w.tasks[id].Committing? {
      CommitSucceeds(w, id, entry, w.tasks[id].result);
      RunOne(w, OwnerCommit(id));
      assert CommittedAt(Run(w, [OwnerCommit(id)]), k);
    } else {
      ExecuteSucceeds(w, id, entry);
      CommitSucceeds(Next(w, OwnerExecute(id, Raised, 0)), id, entry, Completed(entry.command, Raised, 0));
      RunTwo(w, OwnerExecute(id, Raised, 0), OwnerCommit(id));
      assert CommittedAt(Run(w, [OwnerExecute(id, Raised, 0), OwnerCommit(id)]), k);
    }
  }

  lemma RunOne(w: World, a: Step)
    ensures Run(w, [a]) == Next(w, a)
  {
    assert [a][..0] == [];
  }

  lemma RunTwo(w: World, a: Step, b: Step)
    ensures Run(w, [a, b]) == Next(Next(w, a), b)
  {
    assert [a, b][..1] == [a];
    RunOne(w, a);
  }

  /**
    A claimed command can still be committed exactly when the worker that claimed it is still at work. The claim has no
    expiry: once that worker is gone every redelivery is refused, and the operation never finishes.
   */
  lemma ClaimNeedsItsWorker(steps: seq<Step>, k: OperationKey)
    requires Uncommitted(Run(Start, steps), k)
    ensures var w := Run(Start, steps); (exists more :: CommittedAt(Run(w, more), k)) <==> HasWorker(w, k)
  {
    var w := Run(Start, steps);
    RunKeepsInv(steps);
    if HasWorker(w, k) {
      var id :| id in w.tasks && WorksOn(w.tasks[id], k);
      WorkerCanFinish(w, id, k);
    } else {
      forall more ensures !CommittedAt(Run(w, more), k) { AbandonedForEver(w, more, k); }
    }
  }
}
