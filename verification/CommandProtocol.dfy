/**
  The command gateway and the owner inbox as one protocol (commands/service.go, repository.go, inbox.go):
  any number of submitters, dispatchers, owner workers and result consumers, with stale reads, lost replies,
  duplicated and reordered messages, and crashes between any two steps.
 */
module CommandProtocol {
  import opened Common
  import opened CommandModel

  /** A participant between two steps. A copy of an operation may be stale by the time it is used. */
  datatype Task =
    | Creating(op: Operation)
    | Publishing(op: Operation)
    | SavingDispatch(op: Operation)
    | SavingResult(op: Operation, result: ResultEnvelope)
    | Executing(entry: InboxEntry)
    | Committing(entry: InboxEntry, result: ResultEnvelope)

  /** A successful answer to a submit. */
  datatype Answer = Answer(request: Request, key: OperationKey)

  /**
    versions holds every saved state of each operation, oldest first; the last is the stored one.
    published is the command stream and results the result stream: a message stays deliverable for ever.
    executions records the callback runs, and claimants which worker inserted an inbox entry.
   */
  datatype World = World(
    versions: map<OperationKey, seq<Operation>>, published: set<Command>, inbox: map<OperationKey, InboxEntry>,
    results: set<ResultEnvelope>, tasks: map<nat, Task>, executions: seq<OperationKey>,
    claimants: map<OperationKey, nat>, answers: set<Answer>)

  const Start := World(map[], {}, map[], {}, map[], [], map[], {})

  datatype Step =
    | Submit(id: nat, request: Request, newKey: OperationKey, now: int)
    | Create(id: nat, auditFails: bool)
    | Publish(id: nat, ok: bool)
    | SaveDispatch(id: nat, now: int)
    | ReadForResult(id: nat, result: ResultEnvelope)
    | SaveResult(id: nat, now: int)
    | OwnerClaim(id: nat, command: Command)
    | OwnerExecute(id: nat, outcome: CallbackOutcome, now: int)
    | OwnerCommit(id: nat)
    | Crash(id: nat)

  // ------------------------------------------------------------ the machine

  /** What the operation store holds. */
  function Stored(w: World): map<OperationKey, Operation> {
    map k | k in w.versions && w.versions[k] != [] :: Last(w.versions[k])
  }

  /** The operation found under an idempotency key. */
  ghost function FindByIdempotency(w: World, key: IdempotencyKey): Option<OperationKey> {
    if exists k :: k in Stored(w) && Stored(w)[k].request.idempotency == key
    then Some(var k :| k in Stored(w) && Stored(w)[k].request.idempotency == key; k)
    else None
  }

  function Done(w: World, id: nat): World {
    w.(tasks := w.tasks - {id})
  }

  function At(w: World, id: nat, task: Task): World {
    w.(tasks := w.tasks[id := task])
  }

  function Save(w: World, op: Operation): World {
    w.(versions := w.versions[op.key := (if op.key in w.versions then w.versions[op.key] else []) + [op]])
  }

  ghost function SubmitTo(w: World, id: nat, request: Request, newKey: OperationKey, now: int): World {
    match FindByIdempotency(w, request.idempotency)
    case None => At(w, id, Creating(Operation(newKey, request, Accepted, 1, NoResult, now)))
    case Some(k) =>
      if Stored(w)[k].request.payload != request.payload then w
      else
        var answered := w.(answers := w.answers + {Answer(request, k)});
        if Stored(w)[k].status == Accepted then At(answered, id, Publishing(Stored(w)[k])) else answered
  }

  ghost function CreateIn(w: World, id: nat, op: Operation, auditFails: bool): World {
    if CanCreate(Stored(w), op) then
      var copy := if auditFails then op.(result := op.result.(safeError := "audit unavailable")) else op;
      At(Save(w, op).(answers := w.answers + {Answer(op.request, op.key)}), id, Publishing(copy))
    else match FindByIdempotency(w, op.request.idempotency)
      case None => Done(w, id)
      case Some(k) =>
        if Stored(w)[k].request.payload == op.request.payload
        then Done(w, id).(answers := w.answers + {Answer(op.request, k)}) else Done(w, id)
  }

  function SaveIn(w: World, id: nat, op: Operation, expected: int): World {
    if CanSave(Stored(w), op, expected) then Done(Save(w, op), id) else Done(w, id)
  }

  function ReadIn(w: World, id: nat, r: ResultEnvelope): World {
    if r.key !in Stored(w) || !ValidResult(r) then w
    else if DecideResult(Stored(w)[r.key], r) == ApplyNow then At(w, id, SavingResult(Stored(w)[r.key], r))
    else w
  }

  function ClaimIn(w: World, id: nat, c: Command): World {
    match ClaimOutcome(w.inbox, c)
    case Fresh(entry) =>
      At(w.(inbox := AfterClaim(w.inbox, c), claimants := w.claimants[c.key := id]), id, Executing(entry))
    case Replayed(entry) =>
      if entry.result.Some? then w.(results := w.results + {entry.result.value}) else At(w, id, Executing(entry))
    case AlreadyClaimed => w
    case InboxConflict => w
  }

  function ExecuteIn(w: World, id: nat, entry: InboxEntry, outcome: CallbackOutcome, now: int): World {
    var r := Completed(entry.command, outcome, now);
    var ran := w.(executions := w.executions + [entry.command.key]);
    if Acceptable(entry.command, r) then At(ran, id, Committing(entry, r)) else Done(ran, id)
  }

  function CommitIn(w: World, id: nat, entry: InboxEntry, r: ResultEnvelope): World {
    var k := entry.command.key;
    if CanCommit(w.inbox, entry)
    then Done(w, id).(inbox := w.inbox[k := CommittedEntry(w.inbox[k], r)], results := w.results + {r})
    else if k in w.inbox && w.inbox[k].status == Committed && w.inbox[k].result.Some?
            && w.inbox[k].result.value.eventId == r.eventId
    then Done(w, id).(results := w.results + {r})
    else Done(w, id)
  }

  /** One step; a step that is not enabled changes nothing. */
  ghost function Next(w: World, step: Step): World {
    match step
    case Submit(id, request, newKey, now) => if id in w.tasks then w else SubmitTo(w, id, request, newKey, now)
    case Create(id, auditFails) =>
      if id in w.tasks && w.tasks[id].Creating? then CreateIn(w, id, w.tasks[id].op, auditFails) else w
    case Publish(id, ok) =>
      if id in w.tasks && w.tasks[id].Publishing? then
        var op := w.tasks[id].op;
        if ok then At(w, id, SavingDispatch(op)).(published := w.published + {Command(op.key, op.request)})
           else Done(w, id)
      else w
    case SaveDispatch(id, now) =>
      if id in w.tasks && w.tasks[id].SavingDispatch?
      then SaveIn(w, id, DispatchedOf(w.tasks[id].op, now), w.tasks[id].op.revision) else w
    case ReadForResult(id, r) => if id !in w.tasks && r in w.results then ReadIn(w, id, r) else w
    case SaveResult(id, now) =>
      if id in w.tasks && w.tasks[id].SavingResult?
      then SaveIn(w, id, WithResult(w.tasks[id].op, w.tasks[id].result, now), w.tasks[id].op.revision) else w
    case OwnerClaim(id, command) => if id !in w.tasks && command in w.published then ClaimIn(w, id, command) else w
    case OwnerExecute(id, outcome, now) =>
      if id in w.tasks && w.tasks[id].Executing? then ExecuteIn(w, id, w.tasks[id].entry, outcome, now) else w
    case OwnerCommit(id) =>
      if id in w.tasks && w.tasks[id].Committing? then CommitIn(w, id, w.tasks[id].entry, w.tasks[id].result) else w
    case Crash(id) => Done(w, id)
  }

  ghost function Run(w: World, steps: seq<Step>): World
    decreases |steps|
  {
    if steps == [] then w else Next(Run(w, steps[..|steps| - 1]), Last(steps))
  }

  // ---------------------------------------------------------- the invariant

  predicate Edge(from: Status, to: Status) {
    match from
    case Accepted => to != Accepted
    case Dispatched => Terminal(to)
    case _ => false
  }

  /** An operation's saved states: the status moves forward, the revision counts, the request stays. */
  ghost predicate IsHistory(k: OperationKey, versions: seq<Operation>) {
    && versions != [] && versions[0].status == Accepted
    && (forall i :: 0 <= i < |versions| ==>
          versions[i].key == k && versions[i].revision == i + 1 && versions[i].request == versions[0].request)
    && (forall i :: 0 < i < |versions| ==> Edge(versions[i - 1].status, versions[i].status))
  }

  /** The gateway's terminal state repeats the owner's committed result. */
  predicate Agrees(op: Operation, inbox: map<OperationKey, InboxEntry>) {
    Terminal(op.status) ==>
      op.key in inbox && inbox[op.key].result.Some?
      && op.status == inbox[op.key].result.value.status && op.result == FieldsOf(inbox[op.key].result.value)
  }

  type Versions = map<OperationKey, seq<Operation>>
  type Inbox = map<OperationKey, InboxEntry>

  ghost predicate HistoriesSound(versions: Versions, inbox: Inbox) {
    forall k :: k in versions ==> IsHistory(k, versions[k]) && Agrees(Last(versions[k]), inbox)
  }

  predicate SameRequester(versions: Versions, k: OperationKey, l: OperationKey) {
    && k in versions && versions[k] != [] && l in versions && versions[l] != []
    && versions[k][0].request.idempotency == versions[l][0].request.idempotency
  }

  ghost predicate IdempotencyUnique(versions: Versions) {
    forall k, l :: SameRequester(versions, k, l) ==> k == l
  }

  /** A command speaks of a stored operation and of what was asked for. */
  predicate Known(versions: Versions, c: Command) {
    c.key in versions && versions[c.key] != [] && versions[c.key][0].request == c.request
  }

  /** An answer names the operation stored for the same idempotency key and payload. */
  predicate Answered(versions: Versions, a: Answer) {
    && a.key in versions && versions[a.key] != []
    && versions[a.key][0].request.idempotency == a.request.idempotency
    && versions[a.key][0].request.payload == a.request.payload
  }

  ghost predicate MessagesKnown(versions: Versions, published: set<Command>, answers: set<Answer>) {
    (forall c :: c in published ==> Known(versions, c)) && (forall a :: a in answers ==> Answered(versions, a))
  }

  predicate EntrySound(k: OperationKey, entry: InboxEntry) {
    && entry.command.key == k
    && (if entry.status == Claimed then entry.result == None && entry.revision == 1
        else entry.result.Some? && Acceptable(entry.command, entry.result.value) && entry.revision == 2)
  }

  ghost predicate InboxSound(
    inbox: Inbox, published: set<Command>, results: set<ResultEnvelope>, executions: seq<OperationKey>)
  {
    && (forall k :: k in inbox ==> EntrySound(k, inbox[k]) && inbox[k].command in published)
    && (forall r :: r in results ==> r.key in inbox && inbox[r.key].result == Some(r))
    && (forall i, j :: 0 <= i < j < |executions| ==> executions[i] != executions[j])
    && (forall k :: k in executions ==> k in inbox)
    && (forall k :: k in inbox && inbox[k].status == Committed ==> k in executions)
  }

  /** A copy of an operation was once its stored state, but for the note that the audit failed. */
  predicate Held(versions: Versions, op: Operation) {
    && op.key in versions && 1 <= op.revision <= |versions[op.key]|
    && versions[op.key][op.revision - 1].(result := op.result) == op
  }

  /** The worker holds the claim it inserted itself, and the claim still stands. */
  predicate Working(w: World, id: nat, entry: InboxEntry) {
    var k := entry.command.key;
    k in w.inbox && w.inbox[k] == entry && entry.status == Claimed && k in w.claimants && w.claimants[k] == id
  }

  predicate TaskSound(w: World, id: nat, task: Task) {
    match task
    case Creating(op) => op.status == Accepted && op.revision == 1 && op.result == NoResult
    case Publishing(op) => Held(w.versions, op) && op.status == Accepted
    case SavingDispatch(op) => Held(w.versions, op) && op.status == Accepted
    case SavingResult(op, r) =>
      Held(w.versions, op) && !Terminal(op.status) && r in w.results && r.key == op.key && ValidResult(r)
    case Executing(entry) => Working(w, id, entry) && entry.command.key !in w.executions
    case Committing(entry, r) =>
      Working(w, id, entry) && entry.command.key in w.executions && Acceptable(entry.command, r)
  }

  ghost predicate TasksSound(w: World) {
    forall id :: id in w.tasks ==> TaskSound(w, id, w.tasks[id])
  }

  ghost predicate Inv(w: World) {
    && HistoriesSound(w.versions, w.inbox) && IdempotencyUnique(w.versions)
    && MessagesKnown(w.versions, w.published, w.answers)
    && InboxSound(w.inbox, w.published, w.results, w.executions)
    && TasksSound(w)
  }

  // ---------------------------------------------- frames for the other parts

  /** What other participants rely on: histories and streams only grow, and other workers' claims stand. */
  ghost predicate Kept(w: World, w': World, id: nat) {
    && (forall k :: k in w.versions ==> k in w'.versions && w.versions[k] <= w'.versions[k])
    && w.results <= w'.results
    && (forall k :: k in w.inbox && k in w.claimants && w.claimants[k] != id ==> ClaimKept(w, w', k))
  }

  predicate ClaimKept(w: World, w': World, k: OperationKey)
    requires k in w.inbox && k in w.claimants
  {
    k in w'.inbox && w'.inbox[k] == w.inbox[k] && k in w'.claimants && w'.claimants[k] == w.claimants[k]
    && (k in w'.executions <==> k in w.executions)
  }

  lemma OtherStaysSound(w: World, w': World, id: nat, other: nat, task: Task)
    requires Kept(w, w', id) && other != id && TaskSound(w, other, task)
    ensures TaskSound(w', other, task)
  {
  }

  /** Participants other than the one that moved stay sound. */
  lemma TasksStaySound(w: World, w': World, id: nat)
    requires TasksSound(w) && Kept(w, w', id) && w'.tasks - {id} == w.tasks - {id}
    requires id in w'.tasks ==> TaskSound(w', id, w'.tasks[id])
    ensures TasksSound(w')
  {
    forall other | other in w'.tasks && other != id ensures TaskSound(w', other, w'.tasks[other]) {
      assert other in w'.tasks - {id};
      assert (w'.tasks - {id})[other] == (w.tasks - {id})[other];
      OtherStaysSound(w, w', id, other, w.tasks[other]);
    }
  }

  /** A step that leaves the stores alone and moves its own task. */
  lemma TaskMoves(w: World, w': World, id: nat)
    requires Inv(w) && w' == w.(tasks := w'.tasks, answers := w'.answers) && w'.tasks - {id} == w.tasks - {id}
    requires forall a :: a in w'.answers ==> Answered(w.versions, a)
    requires id in w'.tasks ==> TaskSound(w', id, w'.tasks[id])
    ensures Inv(w')
  {
    TasksStaySound(w, w', id);
  }

  // -------------------------------------------------------- gateway steps

  lemma HistoryExtends(k: OperationKey, versions: seq<Operation>, op: Operation)
    requires IsHistory(k, versions) && op.key == k && op.request == Last(versions).request
    requires op.revision == Last(versions).revision + 1 && Edge(Last(versions).status, op.status)
    ensures IsHistory(k, versions + [op])
  {
  }

  /** Saving the next state from a copy that is still the stored one. */
  lemma SaveExtendsHistory(versions: Versions, inbox: Inbox, op: Operation, saved: Operation)
    requires HistoriesSound(versions, inbox) && Held(versions, op) && Last(versions[op.key]).revision == op.revision
    requires saved.key == op.key && saved.request == op.request && saved.revision == op.revision + 1
    requires Edge(op.status, saved.status)
    requires Agrees(saved, inbox)
    ensures HistoriesSound(versions[op.key := versions[op.key] + [saved]], inbox)
  {
    assert IsHistory(op.key, versions[op.key]);
    HistoryExtends(op.key, versions[op.key], saved);
  }

  /** Longer histories that start as before. */
  ghost predicate SameStarts(versions: Versions, versions': Versions) {
    versions'.Keys == versions.Keys
    && forall k :: k in versions ==> versions[k] != [] && versions'[k] != [] && versions'[k][0] == versions[k][0]
  }

  lemma LongerHistories(versions: Versions, versions': Versions, published: set<Command>, answers: set<Answer>)
    requires IdempotencyUnique(versions) && MessagesKnown(versions, published, answers)
    requires SameStarts(versions, versions')
    ensures IdempotencyUnique(versions') && MessagesKnown(versions', published, answers)
  {
    forall k, l | SameRequester(versions', k, l) ensures k == l { assert SameRequester(versions, k, l); }
    forall c | c in published ensures Known(versions', c) { assert Known(versions, c); }
    forall a | a in answers ensures Answered(versions', a) { assert Answered(versions, a); }
  }

  lemma SavedVersions(w: World, op: Operation, saved: Operation)
    requires Inv(w) && Held(w.versions, op) && CanSave(Stored(w), saved, op.revision) && Agrees(saved, w.inbox)
    requires saved.key == op.key && saved.request == op.request && saved.revision == op.revision + 1
    requires Edge(op.status, saved.status)
    ensures var versions := Save(w, saved).versions;
            && versions == w.versions[op.key := w.versions[op.key] + [saved]]
            && HistoriesSound(versions, w.inbox) && IdempotencyUnique(versions)
            && MessagesKnown(versions, w.published, w.answers)
  {
    var versions := w.versions[op.key := w.versions[op.key] + [saved]];
    SaveExtendsHistory(w.versions, w.inbox, op, saved);
    forall k | k in w.versions ensures w.versions[k] != [] && versions[k] != [] && versions[k][0] == w.versions[k][0] {
      assert IsHistory(k, w.versions[k]);
    }
    LongerHistories(w.versions, versions, w.published, w.answers);
  }

  lemma SavedTasks(w: World, id: nat, saved: Operation)
    requires TasksSound(w)
    ensures TasksSound(Done(Save(w, saved), id))
  {
    TasksStaySound(w, Done(Save(w, saved), id), id);
  }

  lemma SaveKeepsInv(w: World, id: nat, op: Operation, saved: Operation)
    requires Inv(w) && Held(w.versions, op) && Agrees(saved, w.inbox)
    requires saved.key == op.key && saved.request == op.request && saved.revision == op.revision + 1
    requires Edge(op.status, saved.status)
    ensures Inv(SaveIn(w, id, saved, op.revision))
  {
    if CanSave(Stored(w), saved, op.revision) {
      SavedVersions(w, op, saved);
      SavedTasks(w, id, saved);
    } else {
      TaskMoves(w, Done(w, id), id);
    }
  }

  /** An operation found under an idempotency key is the one asked for before. */
  lemma FoundIsStored(w: World, key: IdempotencyKey)
    requires HistoriesSound(w.versions, w.inbox)
    ensures FindByIdempotency(w, key).Some? ==>
              var k := FindByIdempotency(w, key).value;
              && k in w.versions && w.versions[k] != [] && k in Stored(w) && Held(w.versions, Stored(w)[k])
              && Stored(w)[k].request == w.versions[k][0].request && w.versions[k][0].request.idempotency == key
  {
    if FindByIdempotency(w, key).Some? {
      assert IsHistory(FindByIdempotency(w, key).value, w.versions[FindByIdempotency(w, key).value]);
    }
  }

  lemma StartedTask(w: World, id: nat, task: Task, answers: set<Answer>)
    requires Inv(w) && id !in w.tasks && TaskSound(w, id, task)
    requires forall a :: a in answers ==> Answered(w.versions, a)
    ensures Inv(At(w.(answers := answers), id, task))
  {
    TaskMoves(w, At(w.(answers := answers), id, task), id);
  }

  lemma AnsweredSubmit(w: World, id: nat, request: Request, k: OperationKey)
    requires Inv(w) && id !in w.tasks && k in Stored(w) && Held(w.versions, Stored(w)[k])
    requires Answered(w.versions, Answer(request, k))
    ensures var answered := w.(answers := w.answers + {Answer(request, k)});
            && Inv(answered)
            && (Stored(w)[k].status == Accepted ==> Inv(At(answered, id, Publishing(Stored(w)[k]))))
  {
    var answers := w.answers + {Answer(request, k)};
    assert forall a :: a in answers ==> Answered(w.versions, a);
    if Stored(w)[k].status == Accepted { StartedTask(w, id, Publishing(Stored(w)[k]), answers); }
    TaskMoves(w, w.(answers := answers), id);
  }

  lemma SubmitKeepsInv(w: World, id: nat, request: Request, newKey: OperationKey, now: int)
    requires Inv(w) && id !in w.tasks
    ensures Inv(SubmitTo(w, id, request, newKey, now))
  {
    FoundIsStored(w, request.idempotency);
    match FindByIdempotency(w, request.idempotency)
    case None => StartedTask(w, id, Creating(Operation(newKey, request, Accepted, 1, NoResult, now)), w.answers);
    case Some(k) =>
      if Stored(w)[k].request.payload == request.payload {
        AnsweredSubmit(w, id, request, k);
      }
  }

  lemma StoredOthers(w: World, op: Operation)
    requires HistoriesSound(w.versions, w.inbox) && CanCreate(Stored(w), op)
    ensures op.key !in w.versions
    ensures forall k :: k in w.versions ==>
              w.versions[k] != [] && w.versions[k][0].request.idempotency != op.request.idempotency
  {
    forall k | k in w.versions
      ensures k != op.key && w.versions[k] != [] && w.versions[k][0].request.idempotency != op.request.idempotency
    {
      assert IsHistory(k, w.versions[k]);
      assert k in Stored(w) && Stored(w)[k].request == w.versions[k][0].request;
    }
  }

  lemma CreatedVersions(w: World, op: Operation)
    requires Inv(w) && CanCreate(Stored(w), op) && op.status == Accepted && op.revision == 1
    ensures var versions := Save(w, op).versions;
            && versions == w.versions[op.key := [op]] && op.key !in w.versions
            && HistoriesSound(versions, w.inbox) && IdempotencyUnique(versions)
            && MessagesKnown(versions, w.published, w.answers)
  {
    StoredOthers(w, op);
    var versions := w.versions[op.key := [op]];
    assert [] + [op] == [op];
    forall k, l | SameRequester(versions, k, l) ensures k == l {
      if k in w.versions && l in w.versions { assert SameRequester(w.versions, k, l); }
    }
    forall c | c in w.published ensures Known(versions, c) { assert Known(w.versions, c); }
    forall a | a in w.answers ensures Answered(versions, a) { assert Answered(w.versions, a); }
  }

  lemma CreatedTasks(w: World, id: nat, op: Operation, copy: Operation, answers: set<Answer>)
    requires TasksSound(w) && op.key !in w.versions && op.status == Accepted && op.revision == 1
    requires copy == op.(result := copy.result)
    ensures TasksSound(At(Save(w, op).(answers := answers), id, Publishing(copy)))
  {
    TasksStaySound(w, At(Save(w, op).(answers := answers), id, Publishing(copy)), id);
  }

  lemma CreatedKeepsInv(w: World, id: nat, op: Operation, copy: Operation)
    requires Inv(w) && CanCreate(Stored(w), op) && op.status == Accepted && op.revision == 1
    requires copy == op.(result := copy.result)
    ensures Inv(At(Save(w, op).(answers := w.answers + {Answer(op.request, op.key)}), id, Publishing(copy)))
  {
    CreatedVersions(w, op);
    assert Answered(Save(w, op).versions, Answer(op.request, op.key));
    CreatedTasks(w, id, op, copy, w.answers + {Answer(op.request, op.key)});
  }

  lemma CreateKeepsInv(w: World, id: nat, auditFails: bool)
    requires Inv(w) && id in w.tasks && w.tasks[id].Creating?
    ensures Inv(CreateIn(w, id, w.tasks[id].op, auditFails))
  {
    var op := w.tasks[id].op;
    assert TaskSound(w, id, w.tasks[id]);
    if CanCreate(Stored(w), op) {
      var copy := if auditFails then op.(result := op.result.(safeError := "audit unavailable")) else op;
      CreatedKeepsInv(w, id, op, copy);
    } else {
      FoundIsStored(w, op.request.idempotency);
      TaskMoves(w, CreateIn(w, id, op, auditFails), id);
    }
  }

  lemma PublishKeepsInv(w: World, id: nat, ok: bool)
    requires Inv(w) && id in w.tasks && w.tasks[id].Publishing?
    ensures Inv(Next(w, Publish(id, ok)))
  {
    var op := w.tasks[id].op;
    assert TaskSound(w, id, w.tasks[id]);
    assert IsHistory(op.key, w.versions[op.key]);
    assert Known(w.versions, Command(op.key, op.request));
    TasksStaySound(w, Next(w, Publish(id, ok)), id);
  }

  lemma DispatchKeepsInv(w: World, id: nat, now: int)
    requires Inv(w) && id in w.tasks && w.tasks[id].SavingDispatch?
    ensures Inv(Next(w, SaveDispatch(id, now)))
  {
    assert TaskSound(w, id, w.tasks[id]);
    SaveKeepsInv(w, id, w.tasks[id].op, DispatchedOf(w.tasks[id].op, now));
  }

  lemma ReadKeepsInv(w: World, id: nat, r: ResultEnvelope)
    requires Inv(w) && id !in w.tasks && r in w.results
    ensures Inv(ReadIn(w, id, r))
  {
    if r.key in Stored(w) { assert IsHistory(r.key, w.versions[r.key]); }
    TaskMoves(w, ReadIn(w, id, r), id);
  }

  lemma SavedResultAgrees(
    inbox: Inbox, published: set<Command>, results: set<ResultEnvelope>, executions: seq<OperationKey>, op: Operation,
    r: ResultEnvelope, now: int)
    requires InboxSound(inbox, published, results, executions) && r in results && r.key == op.key
    ensures Agrees(WithResult(op, r, now), inbox)
  {
  }

  /** A result from the stream is the committed one, so the saved operation agrees with the owner. */
  lemma SavedResultKeepsInv(w: World, id: nat, op: Operation, r: ResultEnvelope, now: int)
    requires Inv(w) && Held(w.versions, op) && !Terminal(op.status) && r in w.results && r.key == op.key
    requires ValidResult(r)
    ensures Inv(SaveIn(w, id, WithResult(op, r, now), op.revision))
  {
    SavedResultAgrees(w.inbox, w.published, w.results, w.executions, op, r, now);
    SaveKeepsInv(w, id, op, WithResult(op, r, now));
  }

  lemma SavingResultIsSound(w: World, id: nat)
    requires TasksSound(w) && id in w.tasks && w.tasks[id].SavingResult?
    ensures Held(w.versions, w.tasks[id].op) && !Terminal(w.tasks[id].op.status)
    ensures w.tasks[id].result in w.results && w.tasks[id].result.key == w.tasks[id].op.key
    ensures ValidResult(w.tasks[id].result)
  {
    assert TaskSound(w, id, w.tasks[id]);
  }

  // ------------------------------------------------------------ owner steps

  /** The owner's side may move as long as no committed result changes. */
  lemma HistoriesStaySound(versions: Versions, inbox: Inbox, inbox': Inbox)
    requires HistoriesSound(versions, inbox)
    requires forall k :: k in inbox && inbox[k].result.Some? ==> k in inbox' && inbox'[k].result == inbox[k].result
    ensures HistoriesSound(versions, inbox')
  {
  }

  lemma ClaimedInbox(
    inbox: Inbox, published: set<Command>, results: set<ResultEnvelope>, executions: seq<OperationKey>, c: Command)
    requires InboxSound(inbox, published, results, executions) && c in published && c.key !in inbox
    ensures InboxSound(AfterClaim(inbox, c), published, results, executions)
  {
  }

  lemma ClaimedTasks(w: World, id: nat, c: Command)
    requires TasksSound(w) && id !in w.tasks && c.key !in w.inbox && c.key !in w.executions
    ensures TasksSound(ClaimIn(w, id, c))
  {
    TasksStaySound(w, ClaimIn(w, id, c), id);
  }

  lemma ExecutedInbox(
    inbox: Inbox, published: set<Command>, results: set<ResultEnvelope>, executions: seq<OperationKey>, k: OperationKey)
    requires InboxSound(inbox, published, results, executions) && k in inbox && k !in executions
    ensures InboxSound(inbox, published, results, executions + [k])
  {
  }

  lemma ExecutedTasks(w: World, id: nat, outcome: CallbackOutcome, now: int)
    requires TasksSound(w) && id in w.tasks && w.tasks[id].Executing?
    ensures TasksSound(ExecuteIn(w, id, w.tasks[id].entry, outcome, now))
  {
    assert TaskSound(w, id, w.tasks[id]);
    TasksStaySound(w, ExecuteIn(w, id, w.tasks[id].entry, outcome, now), id);
  }

  lemma CommittedInbox(
    inbox: Inbox, published: set<Command>, results: set<ResultEnvelope>, executions: seq<OperationKey>, k: OperationKey,
    r: ResultEnvelope)
    requires InboxSound(inbox, published, results, executions) && k in inbox && inbox[k].status == Claimed
    requires k in executions
    requires Acceptable(inbox[k].command, r)
    ensures InboxSound(inbox[k := CommittedEntry(inbox[k], r)], published, results + {r}, executions)
  {
    var inbox' := inbox[k := CommittedEntry(inbox[k], r)];
    assert EntrySound(k, inbox[k]);
    forall q | q in results + {r} ensures q.key in inbox' && inbox'[q.key].result == Some(q) {
      if q in results { assert inbox[q.key].result == Some(q); }
    }
  }

  lemma CommittedTasks(w: World, id: nat)
    requires TasksSound(w) && id in w.tasks && w.tasks[id].Committing?
    ensures TasksSound(CommitIn(w, id, w.tasks[id].entry, w.tasks[id].result))
  {
    assert TaskSound(w, id, w.tasks[id]);
    TasksStaySound(w, CommitIn(w, id, w.tasks[id].entry, w.tasks[id].result), id);
  }

  lemma FreshClaimKeepsInv(w: World, id: nat, c: Command)
    requires Inv(w) && id !in w.tasks && c in w.published && c.key !in w.inbox
    ensures Inv(ClaimIn(w, id, c))
  {
    ClaimedInbox(w.inbox, w.published, w.results, w.executions, c);
    HistoriesStaySound(w.versions, w.inbox, AfterClaim(w.inbox, c));
    ClaimedTasks(w, id, c);
  }

  lemma ReplayKeepsInv(w: World, id: nat, c: Command)
    requires Inv(w) && id !in w.tasks && c in w.published && c.key in w.inbox
    ensures Inv(ClaimIn(w, id, c))
  {
    assert EntrySound(c.key, w.inbox[c.key]);
    TasksStaySound(w, ClaimIn(w, id, c), id);
  }

  lemma ExecuteKeepsInv(w: World, id: nat, outcome: CallbackOutcome, now: int)
    requires Inv(w) && id in w.tasks && w.tasks[id].Executing?
    ensures Inv(ExecuteIn(w, id, w.tasks[id].entry, outcome, now))
  {
    assert TaskSound(w, id, w.tasks[id]);
    ExecutedInbox(w.inbox, w.published, w.results, w.executions, w.tasks[id].entry.command.key);
    ExecutedTasks(w, id, outcome, now);
  }

  lemma CommitKeepsInv(w: World, id: nat)
    requires Inv(w) && id in w.tasks && w.tasks[id].Committing?
    ensures Inv(CommitIn(w, id, w.tasks[id].entry, w.tasks[id].result))
  {
    var k, r := w.tasks[id].entry.command.key, w.tasks[id].result;
    assert TaskSound(w, id, w.tasks[id]);
    CommittedInbox(w.inbox, w.published, w.results, w.executions, k, r);
    HistoriesStaySound(w.versions, w.inbox, w.inbox[k := CommittedEntry(w.inbox[k], r)]);
    CommittedTasks(w, id);
  }

  lemma NextKeepsInv(w: World, step: Step)
    requires Inv(w)
    ensures Inv(Next(w, step))
  {
    match step
    case Submit(id, request, newKey, now) => if id !in w.tasks { SubmitKeepsInv(w, id, request, newKey, now); }
    case Create(id, auditFails) => if id in w.tasks && w.tasks[id].Creating? { CreateKeepsInv(w, id, auditFails); }
    case Publish(id, ok) => if id in w.tasks && w.tasks[id].Publishing? { PublishKeepsInv(w, id, ok); }
    case SaveDispatch(id, now) => if id in w.tasks && w.tasks[id].SavingDispatch? { DispatchKeepsInv(w, id, now); }
    case ReadForResult(id, r) => if id !in w.tasks && r in w.results { ReadKeepsInv(w, id, r); }
    case SaveResult(id, now) =>
      if id in w.tasks && w.tasks[id].SavingResult? {
        SavingResultIsSound(w, id);
        SavedResultKeepsInv(w, id, w.tasks[id].op, w.tasks[id].result, now);
      }
    case OwnerClaim(id, c) =>
      if id !in w.tasks && c in w.published {
        if c.key in w.inbox { ReplayKeepsInv(w, id, c); } else { FreshClaimKeepsInv(w, id, c); }
      }
    case OwnerExecute(id, outcome, now) =>
      if id in w.tasks && w.tasks[id].Executing? { ExecuteKeepsInv(w, id, outcome, now); }
    case OwnerCommit(id) => if id in w.tasks && w.tasks[id].Committing? { CommitKeepsInv(w, id); }
    case Crash(id) => TaskMoves(w, Done(w, id), id);
  }

  lemma {:induction false} RunKeepsInv(steps: seq<Step>)
    ensures Inv(Run(Start, steps))
    decreases |steps|
  {
    if steps != [] {
      RunKeepsInv(steps[..|steps| - 1]);
      NextKeepsInv(Run(Start, steps[..|steps| - 1]), Last(steps));
    }
  }

  ghost predicate ReachedBy(w: World, steps: seq<Step>) {
    w == Run(Start, steps)
  }

  ghost predicate Reachable(w: World) {
    exists steps :: ReachedBy(w, steps)
  }

  lemma StartIsReachable()
    ensures Reachable(Start)
  {
    assert ReachedBy(Start, []);
  }

  lemma ReachableIsSound(w: World)
    requires Reachable(w)
    ensures Inv(w)
  {
    var steps :| ReachedBy(w, steps);
    RunKeepsInv(steps);
  }

  lemma NextIsReachable(w: World, step: Step)
    requires Reachable(w)
    ensures Reachable(Next(w, step))
  {
    var steps :| ReachedBy(w, steps);
    assert (steps + [step])[..|steps + [step]| - 1] == steps;
    assert ReachedBy(Next(w, step), steps + [step]);
  }
}
