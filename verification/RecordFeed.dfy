/**
  The in-process record feed (records/feed.go): a bounded history with replay cursors, a dedup map, and bounded
  subscriber channels. It is a window on the unbounded log of everything that was ever published, which the class keeps
  as ghost state.
 */
module RecordFeeds {
  import opened Common

  const DEFAULT_HISTORY_LIMIT := 2048
  const DEFAULT_BUFFER_SIZE := 64

  datatype Scope = Scope(tenantId: string, workspaceId: string, tableId: string)

  datatype Change = Change(scope: Scope, recordId: string, recordVersion: int, kind: string, dedupKey: string)

  datatype Event = Event(id: nat, change: Change)

  datatype FeedError = CursorExpired | CursorInvalid | SlowConsumer | ScopeRequired

  /** A subscriber's channel, and why it was closed if it was not closed by the client. */
  datatype Channel = Channel(scope: Scope, capacity: nat, buffer: seq<Event>, closed: bool, reason: Option<FeedError>)

  /**
    The history of one subscription: the cursor it asked for, the number of events published when it joined, what it was
    replayed, everything ever put in its channel, how far in the log it was served, and how many events the channel held
    when it was closed for a slow consumer.
   */
  datatype Session = Session(
    cursor: nat, joined: nat, replay: seq<Event>, sent: seq<Event>, until: nat, held: Option<nat>)

  predicate Blank(s: string) {
    forall c :: c in s ==> IsSpace(c)
  }

  lemma BlankIsTrimmed(s: string)
    ensures TrimSpace(s) == "" <==> Blank(s)
  {
  }

  predicate ScopeGiven(scope: Scope) {
    !Blank(scope.tenantId) && !Blank(scope.workspaceId) && !Blank(scope.tableId)
  }

  /** The events of one scope, in order. */
  function InScope(log: seq<Event>, scope: Scope): seq<Event> {
    if log == [] then []
    else InScope(log[..|log| - 1], scope) + (if Last(log).change.scope == scope then [Last(log)] else [])
  }

  lemma {:induction false} InScopeConcat(a: seq<Event>, b: seq<Event>, scope: Scope)
    ensures InScope(a + b, scope) == InScope(a, scope) + InScope(b, scope)
    decreases |b|
  {
    if b == [] {
      assert a + b == a;
    } else {
      var front := b[..|b| - 1];
      assert (a + b)[..|a + b| - 1] == a + front;
      InScopeConcat(a, front, scope);
    }
  }

  lemma InScopeSplit(log: seq<Event>, i: nat, j: nat, k: nat, scope: Scope)
    requires i <= j <= k <= |log|
    ensures InScope(log[i..k], scope) == InScope(log[i..j], scope) + InScope(log[j..k], scope)
  {
    assert log[i..k] == log[i..j] + log[j..k];
    InScopeConcat(log[i..j], log[j..k], scope);
  }

  lemma {:induction false} InScopeMembers(log: seq<Event>, scope: Scope, e: Event)
    ensures e in InScope(log, scope) <==> e in log && e.change.scope == scope
    decreases |log|
  {
    if log != [] {
      InScopeMembers(log[..|log| - 1], scope, e);
      assert log == log[..|log| - 1] + [Last(log)];
    }
  }

  // ---------------------------------------------------------- the invariant

  ghost predicate Ascends(events: seq<Event>, above: nat, upTo: nat) {
    && (forall i :: 0 <= i < |events| ==> above < events[i].id <= upTo)
    && (forall i, j :: 0 <= i < j < |events| ==> events[i].id < events[j].id)
  }

  lemma AscendsFurther(events: seq<Event>, e: Event, above: nat, upTo: nat)
    requires Ascends(events, above, upTo) && above <= upTo && e.id == upTo + 1
    ensures Ascends(events + [e], above, upTo + 1) && Ascends(events + [], above, upTo + 1)
  {
    assert events + [] == events;
  }

  lemma InScopeNext(log: seq<Event>, c: nat, u: nat, scope: Scope)
    requires c < u <= |log|
    ensures InScope(log[c..u], scope)
            == InScope(log[c..u - 1], scope) + (if log[u - 1].change.scope == scope then [log[u - 1]] else [])
  {
    assert log[c..u][..u - c - 1] == log[c..u - 1];
    assert Last(log[c..u]) == log[u - 1];
  }

  lemma {:induction false} InScopeAscends(log: seq<Event>, c: nat, u: nat, scope: Scope)
    requires Numbered(log) && c <= u <= |log|
    ensures Ascends(InScope(log[c..u], scope), c, u)
    decreases u - c
  {
    if c < u {
      InScopeAscends(log, c, u - 1, scope);
      InScopeNext(log, c, u, scope);
      AscendsFurther(InScope(log[c..u - 1], scope), log[u - 1], c, u - 1);
    }
  }

  /** Events are numbered from one without gaps. */
  ghost predicate Numbered(log: seq<Event>) {
    forall i :: 0 <= i < |log| ==> log[i].id == i + 1
  }

  function Evicted(log: seq<Event>, history: seq<Event>): int {
    |log| - |history|
  }

  /** The history is the end of the log, as much of it as the limit allows. */
  ghost predicate IsWindow(history: seq<Event>, log: seq<Event>, limit: nat) {
    && Numbered(log) && limit >= 1
    && |history| == (if |log| <= limit then |log| else limit)
    && history == log[Evicted(log, history)..]
  }

  /** The dedup map is exactly the nonempty keys of the retained events, each once. */
  ghost predicate IsDedup(dedup: map<string, nat>, history: seq<Event>) {
    && (forall i :: 0 <= i < |history| && history[i].change.dedupKey != "" ==>
          history[i].change.dedupKey in dedup && dedup[history[i].change.dedupKey] == history[i].id)
    && (forall key :: key in dedup ==> Retains(history, key))
  }

  ghost predicate Retains(history: seq<Event>, key: string) {
    key != "" && exists i :: 0 <= i < |history| && history[i].change.dedupKey == key
  }

  /**
    The replay is what the log held after the cursor; what was sent is what it gained since, up to where it was served.
   */
  ghost predicate Faithful(s: Session, scope: Scope, log: seq<Event>) {
    && s.joined <= s.until <= |log|
    && s.replay == (if 0 < s.cursor <= s.joined then InScope(log[s.cursor..s.joined], scope) else [])
    && s.sent == InScope(log[s.joined..s.until], scope)
  }

  /** The channel holds the last events that were sent. */
  predicate HoldsLast(buffer: seq<Event>, sent: seq<Event>) {
    |buffer| <= |sent| && buffer == sent[|sent| - |buffer|..]
  }

  predicate Bounded(ch: Channel, s: Session, limit: nat, buf: nat) {
    |s.replay| + 1 <= ch.capacity <= limit + buf && |ch.buffer| <= ch.capacity
  }

  /** Registered exactly while open; a slow consumer was closed, full, by the first event that did not fit. */
  ghost predicate Standing(ch: Channel, s: Session, log: seq<Event>, registered: bool) {
    && registered == !ch.closed
    && (registered ==> s.until == |log| && ch.reason == None)
    && (ch.reason.Some? ==>
          && ch.reason.value == SlowConsumer && s.held == Some(ch.capacity)
          && s.until < |log| && log[s.until].change.scope == ch.scope)
  }

  /** A subscription got what the log holds for it, up to where it was served. */
  ghost predicate Served(ch: Channel, s: Session, log: seq<Event>, registered: bool, limit: nat, buf: nat) {
    Faithful(s, ch.scope, log) && HoldsLast(ch.buffer, s.sent) && Bounded(ch, s, limit, buf)
    && Standing(ch, s, log, registered)
  }

  ghost predicate AllServed(
    channels: map<nat, Channel>, sessions: map<nat, Session>, subscribers: set<nat>, log: seq<Event>, limit: nat,
    buf: nat)
  {
    && sessions.Keys == channels.Keys && subscribers <= channels.Keys
    && forall k :: ServedAt(channels, sessions, subscribers, log, limit, buf, k)
  }

  ghost predicate ServedAt(
    channels: map<nat, Channel>, sessions: map<nat, Session>, subscribers: set<nat>, log: seq<Event>, limit: nat,
    buf: nat, k: nat)
  {
    k in channels && k in sessions ==> Served(channels[k], sessions[k], log, k in subscribers, limit, buf)
  }

  /** No event is ever sent on a closed channel. */
  lemma RegisteredAreOpen(
    channels: map<nat, Channel>, sessions: map<nat, Session>, subscribers: set<nat>, log: seq<Event>, limit: nat,
    buf: nat)
    requires AllServed(channels, sessions, subscribers, log, limit, buf)
    ensures forall k :: k in channels ==> (k in subscribers <==> !channels[k].closed)
  {
    forall k | k in channels ensures k in subscribers <==> !channels[k].closed {
      assert ServedAt(channels, sessions, subscribers, log, limit, buf, k);
    }
  }

  lemma SubscribeServes(
    channels: map<nat, Channel>, sessions: map<nat, Session>, subscribers: set<nat>, log: seq<Event>, limit: nat,
    buf: nat, k: nat, scope: Scope, cursor: nat, replay: seq<Event>, capacity: nat)
    requires AllServed(channels, sessions, subscribers, log, limit, buf) && k !in channels
    requires replay == (if 0 < cursor <= |log| then InScope(log[cursor..], scope) else [])
    requires |replay| + 1 <= capacity <= limit + buf
    ensures AllServed(channels[k := Channel(scope, capacity, [], false, None)],
                      sessions[k := Session(cursor, |log|, replay, [], |log|, None)], subscribers + {k}, log, limit,
                      buf)
  {
    var channels' := channels[k := Channel(scope, capacity, [], false, None)];
    var sessions' := sessions[k := Session(cursor, |log|, replay, [], |log|, None)];
    forall j ensures ServedAt(channels', sessions', subscribers + {k}, log, limit, buf, j) {
      assert ServedAt(channels, sessions, subscribers, log, limit, buf, j);
      if j == k && 0 < cursor <= |log| { assert log[cursor..] == log[cursor..|log|]; }
    }
  }

  /** A channel may lose its oldest event to its reader, and may be closed by its client. */
  lemma ReadAndCloseServe(
    channels: map<nat, Channel>, sessions: map<nat, Session>, subscribers: set<nat>, log: seq<Event>, limit: nat,
    buf: nat, k: nat)
    requires AllServed(channels, sessions, subscribers, log, limit, buf) && k in channels
    ensures channels[k].buffer != [] ==>
              AllServed(channels[k := channels[k].(buffer := channels[k].buffer[1..])], sessions, subscribers, log,
                        limit, buf)
    ensures AllServed(if channels[k].closed then channels
                      else channels[k := channels[k].(closed := true, reason := None)], sessions, subscribers - {k},
                      log, limit, buf)
  {
    assert ServedAt(channels, sessions, subscribers, log, limit, buf, k);
    var closed := if channels[k].closed then channels else channels[k := channels[k].(closed := true, reason := None)];
    forall j ensures ServedAt(closed, sessions, subscribers - {k}, log, limit, buf, j) {
      assert ServedAt(channels, sessions, subscribers, log, limit, buf, j);
    }
    if channels[k].buffer != [] {
      var read := channels[k := channels[k].(buffer := channels[k].buffer[1..])];
      forall j ensures ServedAt(read, sessions, subscribers, log, limit, buf, j) {
        assert ServedAt(channels, sessions, subscribers, log, limit, buf, j);
      }
    }
  }

  /** What a subscription got is the log after its cursor, in scope, in order, without gap or duplicate. */
  lemma ServedFromCursor(ch: Channel, s: Session, log: seq<Event>, registered: bool, limit: nat, buf: nat)
    requires Served(ch, s, log, registered, limit, buf) && 0 < s.cursor <= s.joined
    ensures s.replay + s.sent == InScope(log[s.cursor..s.until], ch.scope)
  {
    InScopeSplit(log, s.cursor, s.joined, s.until, ch.scope);
  }

  /** The events from a cursor up to one of them are the events of the scope up to it. */
  lemma {:induction false} PrefixUpTo(log: seq<Event>, c: nat, u: nat, scope: Scope, n: nat)
    requires Numbered(log) && c <= u <= |log| && n < |InScope(log[c..u], scope)|
    ensures c < InScope(log[c..u], scope)[n].id <= u
    ensures InScope(log[c..u], scope)[..n + 1] == InScope(log[c..InScope(log[c..u], scope)[n].id], scope)
    decreases u - c
  {
    var all := InScope(log[c..u], scope);
    InScopeNext(log, c, u, scope);
    var shorter := InScope(log[c..u - 1], scope);
    if n < |shorter| {
      PrefixUpTo(log, c, u - 1, scope, n);
      assert all[..n + 1] == shorter[..n + 1];
    } else {
      assert all[n] == log[u - 1];
      assert all[..n + 1] == all;
    }
  }

  /**
    A client that reads some of a subscription and resumes from the last event it read misses nothing and repeats
    nothing: both readings together are the log from the first cursor on.
   */
  lemma ResumingLosesNothing(log: seq<Event>, scope: Scope, c: nat, u: nat, n: nat, x: nat, u': nat)
    requires Numbered(log) && c <= u <= |log| && c <= x <= u' <= |log|
    requires n < |InScope(log[c..u], scope)| && InScope(log[c..u], scope)[n].id == x
    ensures InScope(log[c..u], scope)[..n + 1] + InScope(log[x..u'], scope) == InScope(log[c..u'], scope)
  {
    PrefixUpTo(log, c, u, scope, n);
    InScopeSplit(log, c, x, u', scope);
  }

  /** The dedup map has one entry for each retained event with a key, so retained keys do not repeat. */
  lemma RetainedKeysAreDistinct(
    dedup: map<string, nat>, history: seq<Event>, log: seq<Event>, limit: nat, i: nat, j: nat)
    requires IsWindow(history, log, limit) && IsDedup(dedup, history)
    requires i < j < |history| && history[i].change.dedupKey != ""
    ensures history[i].change.dedupKey != history[j].change.dedupKey
  {
    assert history[i].id == log[Evicted(log, history) + i].id && history[j].id == log[Evicted(log, history) + j].id;
  }

  /** A cursor is too old exactly when an event after it has been evicted. */
  predicate TooOld(cursor: nat, history: seq<Event>) {
    cursor > 0 && history != [] && cursor < history[0].id - 1
  }

  lemma TooOldIffEvicted(cursor: nat, history: seq<Event>, log: seq<Event>, limit: nat)
    requires IsWindow(history, log, limit)
    ensures TooOld(cursor, history) <==> cursor > 0 && exists e :: e in log[..Evicted(log, history)] && e.id > cursor
  {
    var gone := Evicted(log, history);
    if TooOld(cursor, history) {
      assert log[..gone][gone - 1] == log[gone - 1] && log[gone - 1].id == gone;
    }
    if e :| e in log[..gone] && e.id > cursor {
      assert history[0] == log[gone];
    }
  }

  // --------------------------------------------------------------- delivery

  /** Put an event of its scope in a channel, or close the channel when it is full. */
  function Offered(ch: Channel, e: Event): Channel {
    if ch.scope != e.change.scope then ch
    else if |ch.buffer| < ch.capacity then ch.(buffer := ch.buffer + [e])
    else ch.(closed := true, reason := Some(SlowConsumer))
  }

  /** The history of a subscription after an event was offered to it. */
  function Noted(s: Session, ch: Channel, e: Event): Session {
    if ch.scope != e.change.scope then s.(until := s.until + 1)
    else if |ch.buffer| < ch.capacity then s.(sent := s.sent + [e], until := s.until + 1)
    else s.(held := Some(|ch.buffer|))
  }

  /**
    What an event does to an open channel: of another scope, nothing; of its scope, it is the last one buffered, or, if
    there is no room, the channel is closed as it is and its subscriber does not stay.
   */
  predicate OfferDid(ch: Channel, e: Event, ch': Channel, stays: bool) {
    && ch'.scope == ch.scope && ch'.capacity == ch.capacity
    && (stays <==> ch.scope != e.change.scope || |ch.buffer| < ch.capacity)
    && ch'.closed == !stays && ch'.reason == (if stays then ch.reason else Some(SlowConsumer))
    && ch'.buffer == if stays && ch.scope == e.change.scope then ch.buffer + [e] else ch.buffer
  }

  /** Every registered subscriber is offered the event; the others' channels are left alone. */
  ghost predicate DeliveryDid(
    channels: map<nat, Channel>, subscribers: set<nat>, e: Event, channels': map<nat, Channel>, subscribers': set<nat>)
  {
    && channels'.Keys == channels.Keys && subscribers' <= subscribers
    && (forall k :: k in subscribers && k in channels ==> OfferDid(channels[k], e, channels'[k], k in subscribers'))
    && (forall k :: k in channels && k !in subscribers ==> channels'[k] == channels[k])
  }

  lemma DeliveryIs(channels: map<nat, Channel>, subscribers: set<nat>, e: Event, subscribers': set<nat>)
    requires subscribers' <= subscribers && forall k :: k in subscribers && k in channels ==> !channels[k].closed
    requires forall k :: k in subscribers && k in channels ==>
               (k in subscribers' <==> !Offered(channels[k], e).closed)
    ensures DeliveryDid(channels, subscribers, e, OfferedTo(channels, subscribers, e), subscribers')
  {
  }

  /** A subscriber is dropped by an event of its scope, and with a full channel. */
  predicate DroppedFull(ch: Channel, s': Session, e: Event) {
    ch.scope == e.change.scope && |ch.buffer| == ch.capacity && s'.held == Some(ch.capacity)
  }

  ghost predicate AllDroppedFull(
    channels: map<nat, Channel>, subscribers: set<nat>, e: Event, sessions': map<nat, Session>, subscribers': set<nat>)
  {
    forall k :: k in subscribers && k !in subscribers' ==>
      k in channels && k in sessions' && DroppedFull(channels[k], sessions'[k], e)
  }

  lemma DroppedAreFull(
    channels: map<nat, Channel>, sessions: map<nat, Session>, subscribers: set<nat>, subscribers': set<nat>,
    log: seq<Event>, limit: nat, buf: nat, e: Event)
    requires AllServed(channels, sessions, subscribers, log, limit, buf)
    requires forall k :: k in subscribers && k !in subscribers' ==> Offered(channels[k], e).closed
    ensures AllDroppedFull(channels, subscribers, e, NotedBy(sessions, channels, subscribers, e), subscribers')
  {
    forall k | k in subscribers && k !in subscribers'
      ensures DroppedFull(channels[k], NotedBy(sessions, channels, subscribers, e)[k], e)
    {
      assert ServedAt(channels, sessions, subscribers, log, limit, buf, k);
    }
  }

  lemma ServedFurther(log: seq<Event>, e: Event, from: nat, scope: Scope)
    requires from <= |log|
    ensures InScope((log + [e])[from..|log| + 1], scope)
         == InScope(log[from..|log|], scope) + (if e.change.scope == scope then [e] else [])
  {
    assert (log + [e])[from..|log| + 1] == log[from..|log|] + [e];
    InScopeConcat(log[from..|log|], [e], scope);
    assert [e][..0] == [];
  }

  lemma LongerLog(log: seq<Event>, e: Event, from: nat, to: nat)
    requires from <= to <= |log|
    ensures (log + [e])[from..to] == log[from..to]
  {
  }

  lemma FaithfulInLongerLog(s: Session, scope: Scope, log: seq<Event>, e: Event)
    requires Faithful(s, scope, log)
    ensures Faithful(s, scope, log + [e])
  {
    LongerLog(log, e, s.joined, s.until);
    if 0 < s.cursor <= s.joined { LongerLog(log, e, s.cursor, s.joined); }
  }

  lemma FaithfulFurther(s: Session, scope: Scope, log: seq<Event>, e: Event)
    requires Faithful(s, scope, log) && s.until == |log|
    ensures Faithful(s.(sent := s.sent + (if e.change.scope == scope then [e] else []), until := s.until + 1), scope,
                     log + [e])
  {
    ServedFurther(log, e, s.joined, scope);
    if 0 < s.cursor <= s.joined { LongerLog(log, e, s.cursor, s.joined); }
  }

  lemma HoldsLastFurther(buffer: seq<Event>, sent: seq<Event>, e: Event)
    requires HoldsLast(buffer, sent)
    ensures HoldsLast(buffer + [e], sent + [e])
  {
  }

  lemma OfferServes(ch: Channel, s: Session, log: seq<Event>, e: Event, limit: nat, buf: nat)
    requires Served(ch, s, log, true, limit, buf)
    ensures Served(Offered(ch, e), Noted(s, ch, e), log + [e], !Offered(ch, e).closed, limit, buf)
  {
    FaithfulFurther(s, ch.scope, log, e);
    FaithfulInLongerLog(s, ch.scope, log, e);
    HoldsLastFurther(ch.buffer, s.sent, e);
    if ch.scope != e.change.scope { assert s.sent + [] == s.sent; }
  }

  /** A closed subscription is not touched by later events. */
  lemma ClosedStaysServed(ch: Channel, s: Session, log: seq<Event>, e: Event, limit: nat, buf: nat)
    requires Served(ch, s, log, false, limit, buf)
    ensures Served(ch, s, log + [e], false, limit, buf)
  {
    FaithfulInLongerLog(s, ch.scope, log, e);
  }

  function OfferedTo(channels: map<nat, Channel>, subscribers: set<nat>, e: Event): map<nat, Channel> {
    map k | k in channels :: if k in subscribers then Offered(channels[k], e) else channels[k]
  }

  function NotedBy(
    sessions: map<nat, Session>, channels: map<nat, Channel>, subscribers: set<nat>, e: Event): map<nat, Session>
  {
    map k | k in sessions ::
      if k in subscribers && k in channels then Noted(sessions[k], channels[k], e) else sessions[k]
  }

  lemma PublishServes(
    channels: map<nat, Channel>, sessions: map<nat, Session>, subscribers: set<nat>, subscribers': set<nat>,
    log: seq<Event>, e: Event, limit: nat, buf: nat)
    requires AllServed(channels, sessions, subscribers, log, limit, buf) && subscribers' <= subscribers
    requires forall k :: k in subscribers ==> (k in subscribers' <==> !Offered(channels[k], e).closed)
    ensures AllServed(OfferedTo(channels, subscribers, e), NotedBy(sessions, channels, subscribers, e), subscribers',
                      log + [e], limit, buf)
  {
    var channels', sessions' := OfferedTo(channels, subscribers, e), NotedBy(sessions, channels, subscribers, e);
    forall k ensures ServedAt(channels', sessions', subscribers', log + [e], limit, buf, k) {
      assert ServedAt(channels, sessions, subscribers, log, limit, buf, k);
      if k in subscribers {
        OfferServes(channels[k], sessions[k], log, e, limit, buf);
      } else if k in channels {
        ClosedStaysServed(channels[k], sessions[k], log, e, limit, buf);
      }
    }
  }

  // ------------------------------------------------------- the retained part

  /** The history with one more event, without its oldest when it would exceed the limit. */
  function Slid(history: seq<Event>, e: Event, limit: nat): seq<Event> {
    if |history| + 1 > limit then (history + [e])[1..] else history + [e]
  }

  lemma WindowSlides(history: seq<Event>, log: seq<Event>, limit: nat, e: Event)
    requires IsWindow(history, log, limit) && e.id == |log| + 1
    ensures IsWindow(Slid(history, e, limit), log + [e], limit)
  {
    var gone := Evicted(log, history);
    assert log + [e] == log[..gone] + (history + [e]);
  }

  /** The dedup map loses the key of the evicted event and gains the new one. */
  function DedupSlid(dedup: map<string, nat>, history: seq<Event>, e: Event, limit: nat): map<string, nat> {
    var kept := if history != [] && |history| + 1 > limit && history[0].change.dedupKey != ""
                then dedup - {history[0].change.dedupKey} else dedup;
    if e.change.dedupKey != "" then kept[e.change.dedupKey := e.id] else kept
  }

  lemma DedupSlides(dedup: map<string, nat>, history: seq<Event>, log: seq<Event>, limit: nat, e: Event)
    requires IsWindow(history, log, limit) && IsDedup(dedup, history) && !Retains(history, e.change.dedupKey)
    ensures IsDedup(DedupSlid(dedup, history, e, limit), Slid(history, e, limit))
  {
    var history', dedup' := Slid(history, e, limit), DedupSlid(dedup, history, e, limit);
    var shift := |history| + 1 - |history'|;
    forall i | 0 <= i < |history'| && history'[i].change.dedupKey != ""
      ensures history'[i].change.dedupKey in dedup' && dedup'[history'[i].change.dedupKey] == history'[i].id
    {
      if i + shift < |history| {
        assert history'[i] == history[i + shift];
        if shift == 1 && history[0].change.dedupKey != "" {
          RetainedKeysAreDistinct(dedup, history, log, limit, 0, i + 1);
        }
      }
    }
    forall key | key in dedup' ensures Retains(history', key) {
      if key == e.change.dedupKey {
        assert history'[|history'| - 1] == e;
      } else {
        var i :| 0 <= i < |history| && history[i].change.dedupKey == key;
        assert i >= shift;
        assert history'[i - shift] == history[i];
      }
    }
  }

  // --------------------------------------------------------------- the feed

  function Between(log: seq<Event>, from: nat, to: nat, scope: Scope): seq<Event>
    requires to <= |log|
  {
    if from <= to then InScope(log[from..to], scope) else []
  }

  lemma BetweenNext(log: seq<Event>, from: nat, to: nat, scope: Scope)
    requires Numbered(log) && to < |log|
    ensures Between(log, from, to + 1, scope)
         == Between(log, from, to, scope)
            + (if log[to].id > from && log[to].change.scope == scope then [log[to]] else [])
  {
    if from <= to {
      assert log[from..to + 1][..to - from] == log[from..to];
    } else if from == to + 1 {
      assert log[from..from] == [];
    }
  }

  lemma NothingBefore(cursor: nat, history: seq<Event>, log: seq<Event>, limit: nat, scope: Scope)
    requires IsWindow(history, log, limit) && !TooOld(cursor, history) && cursor > 0
    ensures Between(log, cursor, Evicted(log, history), scope) == []
  {
    if history != [] { assert history[0] == log[Evicted(log, history)]; }
  }

  method IsGiven(scope: Scope) returns (given: bool)
    ensures given == ScopeGiven(scope)
  {
    BlankIsTrimmed(scope.tenantId);
    BlankIsTrimmed(scope.workspaceId);
    BlankIsTrimmed(scope.tableId);
    return TrimSpace(scope.tenantId) != "" && TrimSpace(scope.workspaceId) != "" && TrimSpace(scope.tableId) != "";
  }

  /** The asked capacity, unless it cannot hold one event more than was replayed, or exceeds the bound. */
  predicate IsCapacity(capacity: nat, asked: nat, replayed: nat, bound: nat) {
    && (replayed + 1 <= asked <= bound ==> capacity == asked)
    && (asked <= replayed + 1 <= bound ==> capacity == replayed + 1)
    && (asked > bound || replayed + 1 > bound ==> capacity == bound)
  }

  predicate ValidChange(change: Change) {
    ScopeGiven(change.scope) && !Blank(change.recordId) && change.recordVersion >= 0
    && change.kind in ["upsert", "delete"]
  }

  datatype PublishResult = Published(event: Event) | Duplicate | Invalid(error: FeedError)

  datatype SubscribeResult = Subscribed(key: nat, replay: seq<Event>) | Refused(error: FeedError)

  class RecordFeed {
    const historyLimit: nat
    const subscriberBuf: nat
    var history: seq<Event>
    var nextId: nat
    var nextSubscriber: nat
    var subscribers: set<nat>
    var channels: map<nat, Channel>
    var dedup: map<string, nat>
    var dropped: int
    ghost var log: seq<Event>
    ghost var sessions: map<nat, Session>

    ghost predicate Valid()
      reads this
    {
      && IsWindow(history, log, historyLimit) && subscriberBuf >= 1
      && nextId == |log|
      && IsDedup(dedup, history)
      && AllServed(channels, sessions, subscribers, log, historyLimit, subscriberBuf)
      && forall k :: k in channels ==> k <= nextSubscriber
    }

    /**
      Room for the asked number of events, or the default, and for one more than the replay, within the bound of the
      feed.
     */
    function Capacity(buffer: int, replayed: nat): nat
      requires subscriberBuf >= 1
    {
      var asked: nat := if buffer <= 0 then subscriberBuf else buffer;
      var enough := if asked < replayed + 1 then replayed + 1 else asked;
      if enough > historyLimit + subscriberBuf then historyLimit + subscriberBuf else enough
    }

    /**
      What always holds: retained events are numbered without gap up to the last, no more than the limit; the dedup map
      holds exactly their keys; every channel can hold one event more than was replayed, within the bound; registered
      means open.
     */
    lemma AlwaysHolds()
      requires Valid()
      ensures |history| <= historyLimit && (history != [] ==> Last(history).id == nextId)
      ensures forall i :: 0 <= i < |history| ==> history[i].id == nextId - |history| + 1 + i
      ensures forall key :: key in dedup <==> Retains(history, key)
      ensures forall k :: k in channels ==>
                k in sessions && |sessions[k].replay| + 1 <= channels[k].capacity <= historyLimit + subscriberBuf
                && |channels[k].buffer| <= channels[k].capacity && (k in subscribers <==> !channels[k].closed)
    {
      forall i | 0 <= i < |history| ensures history[i].id == nextId - |history| + 1 + i {
        assert history[i] == log[Evicted(log, history) + i];
      }
      forall k | k in channels
        ensures k in sessions && |sessions[k].replay| + 1 <= channels[k].capacity <= historyLimit + subscriberBuf
        ensures |channels[k].buffer| <= channels[k].capacity && (k in subscribers <==> !channels[k].closed)
      {
        assert ServedAt(channels, sessions, subscribers, log, historyLimit, subscriberBuf, k);
      }
    }

    /**
      A subscription at a cursor that named an event gets exactly the events of its scope after that cursor, ascending,
      up to now while it is open, and otherwise up to its close; a slow consumer up to the first event that did not fit,
      when its channel held as many events as it can.
     */
    lemma SubscriptionIsExact(k: nat)
      requires Valid() && k in channels && k in sessions && 0 < sessions[k].cursor <= sessions[k].joined
      ensures var s := sessions[k];
              && s.cursor <= s.until <= |log| && s.replay + s.sent == InScope(log[s.cursor..s.until], channels[k].scope)
              && Ascends(s.replay + s.sent, s.cursor, s.until)
              && (forall e :: e in s.replay + s.sent <==>
                    e in log[s.cursor..s.until] && e.change.scope == channels[k].scope)
              && (!channels[k].closed ==> s.until == |log|)
              && (channels[k].reason.Some? ==>
                    && channels[k].reason.value == SlowConsumer && s.held == Some(channels[k].capacity)
                    && s.until < |log| && log[s.until].change.scope == channels[k].scope)
    {
      assert ServedAt(channels, sessions, subscribers, log, historyLimit, subscriberBuf, k);
      ServedFromCursor(channels[k], sessions[k], log, k in subscribers, historyLimit, subscriberBuf);
      InScopeAscends(log, sessions[k].cursor, sessions[k].until, channels[k].scope);
      forall e ensures e in sessions[k].replay + sessions[k].sent
                       <==> e in log[sessions[k].cursor..sessions[k].until] && e.change.scope == channels[k].scope
      {
        InScopeMembers(log[sessions[k].cursor..sessions[k].until], channels[k].scope, e);
      }
    }

    constructor (limit: int, buffer: int)
      ensures Valid() && log == [] && channels == map[]
      ensures historyLimit == (if limit <= 0 then DEFAULT_HISTORY_LIMIT else limit)
      ensures subscriberBuf == (if buffer <= 0 then DEFAULT_BUFFER_SIZE else buffer)
    {
      historyLimit := if limit <= 0 then DEFAULT_HISTORY_LIMIT else limit;
      subscriberBuf := if buffer <= 0 then DEFAULT_BUFFER_SIZE else buffer;
      history, nextId, nextSubscriber, subscribers, channels, dedup, dropped := [], 0, 0, {}, map[], map[], 0;
      log, sessions := [], map[];
    }

    /** Sending on a closed channel would be a panic: callers must know that it is open. */
    method Send(k: nat, e: Event) returns (sent: bool)
      requires k in channels && !channels[k].closed
      modifies this`channels
      ensures sent == (|old(channels)[k].buffer| < old(channels)[k].capacity)
      ensures channels == if sent then old(channels)[k := old(channels)[k].(buffer := old(channels)[k].buffer + [e])]
              else old(channels)
    {
      var ch := channels[k];
      sent := |ch.buffer| < ch.capacity;
      if sent { channels := channels[k := ch.(buffer := ch.buffer + [e])]; }
    }

    /** Closing again does nothing. */
    method CloseChannel(k: nat, reason: Option<FeedError>)
      requires k in channels
      modifies this`channels
      ensures channels == if old(channels)[k].closed then old(channels)
                          else old(channels)[k := old(channels)[k].(closed := true, reason := reason)]
    {
      if !channels[k].closed { channels := channels[k := channels[k].(closed := true, reason := reason)]; }
    }

    method Retain(e: Event)
      requires historyLimit >= 1
      modifies this`history, this`dedup
      ensures history == Slid(old(history), e, historyLimit)
      ensures dedup == DedupSlid(old(dedup), old(history), e, historyLimit)
    {
      history := history + [e];
      if |history| > historyLimit {
        var expired := history[0];
        history := history[1..];
        if expired.change.dedupKey != "" { dedup := dedup - {expired.change.dedupKey}; }
      }
      if e.change.dedupKey != "" { dedup := dedup[e.change.dedupKey := e.id]; }
    }

    /** Send an event to a subscriber of its scope, or drop the subscriber. */
    method Offer(k: nat, e: Event)
      requires k in subscribers && k in channels && !channels[k].closed
      modifies this`channels, this`subscribers, this`dropped
      ensures channels == old(channels)[k := Offered(old(channels)[k], e)]
      ensures subscribers == (if Offered(old(channels)[k], e).closed then old(subscribers) - {k} else old(subscribers))
      ensures OfferDid(old(channels)[k], e, channels[k], k in subscribers)
      ensures dropped == old(dropped) + |old(subscribers)| - |subscribers|
    {
      if channels[k].scope == e.change.scope {
        var sent := Send(k, e);
        if !sent {
          subscribers := subscribers - {k};
          dropped := dropped + 1;
          CloseChannel(k, Some(SlowConsumer));
        }
      }
    }

    /** Offer the event to every registered subscriber; one that cannot take it is dropped. */
    method FanOut(e: Event)
      requires subscribers <= channels.Keys && forall k :: k in subscribers ==> !channels[k].closed
      modifies this`channels, this`subscribers, this`dropped
      ensures channels == OfferedTo(old(channels), old(subscribers), e) && subscribers <= old(subscribers)
      ensures DeliveryDid(old(channels), old(subscribers), e, channels, subscribers)
      ensures forall k :: k in old(subscribers) ==> (k in subscribers <==> !Offered(old(channels)[k], e).closed)
      ensures dropped == old(dropped) + |old(subscribers)| - |subscribers|
    {
      var todo := subscribers;
      while todo != {}
        invariant todo <= subscribers <= old(subscribers) && channels.Keys == old(channels).Keys
        invariant forall k :: k in channels ==>
                    channels[k] == if k in old(subscribers) && k !in todo then Offered(old(channels)[k], e)
                    else old(channels)[k]
        invariant forall k :: k in old(subscribers) && k !in todo ==>
                    (k in subscribers <==> !Offered(old(channels)[k], e).closed)
        invariant dropped == old(dropped) + |old(subscribers)| - |subscribers|
        decreases |todo|
      {
        var k :| k in todo;
        todo := todo - {k};
        Offer(k, e);
      }
      DeliveryIs(old(channels), old(subscribers), e, subscribers);
    }

    /** The log and the sessions take note of an event that was offered to all. */
    ghost method Note(was: map<nat, Channel>, registered: set<nat>, e: Event)
      requires IsWindow(history, log + [e], historyLimit) && IsDedup(dedup, history) && nextId == |log| + 1
      requires AllServed(was, sessions, registered, log, historyLimit, subscriberBuf) && subscriberBuf >= 1
      requires channels == OfferedTo(was, registered, e) && subscribers <= registered
      requires forall k :: k in registered ==> (k in subscribers <==> !Offered(was[k], e).closed)
      requires forall k :: k in channels ==> k <= nextSubscriber
      modifies this`log, this`sessions
      ensures Valid() && log == old(log) + [e] && sessions == NotedBy(old(sessions), was, registered, e)
      ensures AllDroppedFull(was, registered, e, sessions, subscribers)
    {
      PublishServes(was, sessions, registered, subscribers, log, e, historyLimit, subscriberBuf);
      DroppedAreFull(was, sessions, registered, subscribers, log, historyLimit, subscriberBuf, e);
      sessions := NotedBy(sessions, was, registered, e);
      log := log + [e];
    }

    /** Number a change, retain it, and offer it. */
    method Append(change: Change) returns (e: Event)
      requires Valid() && !Retains(history, change.dedupKey)
      modifies this
      ensures Valid()
      ensures e == Event(|old(log)| + 1, change) && log == old(log) + [e]
      ensures DeliveryDid(old(channels), old(subscribers), e, channels, subscribers)
      ensures AllDroppedFull(old(channels), old(subscribers), e, sessions, subscribers)
      ensures sessions == NotedBy(old(sessions), old(channels), old(subscribers), e)
      ensures dropped == old(dropped) + |old(subscribers)| - |subscribers|
    {
      nextId := nextId + 1;
      e := Event(nextId, change);
      WindowSlides(history, log, historyLimit, e);
      DedupSlides(dedup, history, log, historyLimit, e);
      RegisteredAreOpen(channels, sessions, subscribers, log, historyLimit, subscriberBuf);
      Retain(e);
      FanOut(e);
      Note(old(channels), old(subscribers), e);
    }

    /**
      A change is refused if malformed and ignored if its key is still retained; any other is the next event of the log.
     */
    method Publish(change: Change) returns (r: PublishResult)
      requires Valid()
      modifies this
      ensures Valid()
      ensures r.Invalid? <==> !ValidChange(change)
      ensures r.Invalid? ==>
                r.error == if ScopeGiven(change.scope) && !Blank(change.recordId) then CursorInvalid else ScopeRequired
      ensures r.Duplicate? <==> ValidChange(change) && Retains(old(history), change.dedupKey)
      ensures r.Published? ==>
                && r.event == Event(|old(log)| + 1, change) && log == old(log) + [r.event]
                && DeliveryDid(old(channels), old(subscribers), r.event, channels, subscribers)
                && AllDroppedFull(old(channels), old(subscribers), r.event, sessions, subscribers)
                && sessions == NotedBy(old(sessions), old(channels), old(subscribers), r.event)
                && dropped == old(dropped) + |old(subscribers)| - |subscribers|
      ensures !r.Published? ==> log == old(log) && channels == old(channels) && sessions == old(sessions)
                                && history == old(history) && subscribers == old(subscribers) && dropped == old(dropped)
    {
      var given := IsGiven(change.scope);
      BlankIsTrimmed(change.recordId);
      if !given || TrimSpace(change.recordId) == "" { return Invalid(ScopeRequired); }
      if change.recordVersion < 0 || (change.kind != "upsert" && change.kind != "delete") {
        return Invalid(CursorInvalid);
      }
      if change.dedupKey != "" && change.dedupKey in dedup { return Duplicate; }
      var e := Append(change);
      return Published(e);
    }

    /** The retained events of a scope after a cursor. */
    method Replayed(scope: Scope, cursor: nat) returns (replay: seq<Event>)
      requires IsWindow(history, log, historyLimit) && !TooOld(cursor, history)
      ensures replay == (if cursor == 0 then [] else Between(log, cursor, |log|, scope)) && |replay| <= |history|
    {
      replay := [];
      if cursor == 0 { return; }
      ghost var gone := Evicted(log, history);
      NothingBefore(cursor, history, log, historyLimit, scope);
      for i := 0 to |history|
        invariant replay == Between(log, cursor, gone + i, scope) && |replay| <= i
      {
        BetweenNext(log, cursor, gone + i, scope);
        assert history[i] == log[gone + i];
        if history[i].id > cursor && history[i].change.scope == scope { replay := replay + [history[i]]; }
      }
    }

    /** Open a channel under the next number and register it. */
    method Register(scope: Scope, cursor: nat, replay: seq<Event>, size: nat)
      requires Valid() && |replay| + 1 <= size <= historyLimit + subscriberBuf
      requires replay == if 0 < cursor <= |log| then InScope(log[cursor..], scope) else []
      modifies this`nextSubscriber, this`subscribers, this`channels, this`sessions
      ensures Valid() && nextSubscriber == old(nextSubscriber) + 1 && nextSubscriber !in old(channels)
      ensures subscribers == old(subscribers) + {nextSubscriber}
      ensures channels == old(channels)[nextSubscriber := Channel(scope, size, [], false, None)]
      ensures sessions == old(sessions)[nextSubscriber := Session(cursor, |log|, replay, [], |log|, None)]
    {
      nextSubscriber := nextSubscriber + 1;
      SubscribeServes(channels, sessions, subscribers, log, historyLimit, subscriberBuf, nextSubscriber, scope, cursor,
                      replay, size);
      subscribers := subscribers + {nextSubscriber};
      channels := channels[nextSubscriber := Channel(scope, size, [], false, None)];
      sessions := sessions[nextSubscriber := Session(cursor, |log|, replay, [], |log|, None)];
    }

    /** Collect the replay, size the channel, and register it. */
    method Open(scope: Scope, cursor: nat, buffer: int) returns (replay: seq<Event>)
      requires Valid() && !TooOld(cursor, history)
      modifies this`nextSubscriber, this`subscribers, this`channels, this`sessions
      ensures Valid() && nextSubscriber !in old(channels)
      ensures replay == if 0 < cursor <= |log| then InScope(log[cursor..], scope) else []
      ensures subscribers == old(subscribers) + {nextSubscriber}
      ensures channels == old(channels)[nextSubscriber := Channel(scope, Capacity(buffer, |replay|), [], false, None)]
      ensures sessions == old(sessions)[nextSubscriber := Session(cursor, |log|, replay, [], |log|, None)]
    {
      replay := Replayed(scope, cursor);
      if cursor <= |log| { assert log[cursor..|log|] == log[cursor..]; }
      var size: int := if buffer <= 0 then subscriberBuf else buffer;
      if size < |replay| + 1 { size := |replay| + 1; }
      if size > historyLimit + subscriberBuf { size := historyLimit + subscriberBuf; }
      Register(scope, cursor, replay, size);
    }

    /**
      Refused when the scope is blank or, by TooOldIffEvicted, an event after the cursor is gone; otherwise replay, then
      what comes.
     */
    method Subscribe(scope: Scope, cursor: nat, buffer: int) returns (r: SubscribeResult)
      requires Valid()
      modifies this
      ensures Valid() && log == old(log) && history == old(history)
      ensures r == Refused(ScopeRequired) <==> !ScopeGiven(scope)
      ensures r == Refused(CursorExpired) <==> ScopeGiven(scope) && TooOld(cursor, history)
      ensures r.Refused? ==>
                && r.error in {ScopeRequired, CursorExpired}
                && channels == old(channels) && subscribers == old(subscribers)
      ensures r.Subscribed? ==>
                && r.key !in old(channels) && subscribers == old(subscribers) + {r.key}
                && r.replay == (if 0 < cursor <= |log| then InScope(log[cursor..], scope) else [])
                && sessions == old(sessions)[r.key := Session(cursor, |log|, r.replay, [], |log|, None)]
                && channels == old(channels)[r.key := Channel(scope, channels[r.key].capacity, [], false, None)]
                && IsCapacity(channels[r.key].capacity, if buffer <= 0 then subscriberBuf else buffer, |r.replay|,
                              historyLimit + subscriberBuf)
    {
      var given := IsGiven(scope);
      if !given { return Refused(ScopeRequired); }
      if cursor > 0 && history != [] && cursor < history[0].id - 1 { return Refused(CursorExpired); }
      var replay := Open(scope, cursor, buffer);
      return Subscribed(nextSubscriber, replay);
    }

    /** The client closes its subscription; what was sent can still be read. */
    method Close(k: nat)
      requires Valid() && k in channels
      modifies this
      ensures Valid() && log == old(log) && sessions == old(sessions) && subscribers == old(subscribers) - {k}
      ensures channels == if old(channels)[k].closed then old(channels)
              else old(channels)[k := old(channels)[k].(closed := true, reason := None)]
    {
      ReadAndCloseServe(channels, sessions, subscribers, log, historyLimit, subscriberBuf, k);
      subscribers := subscribers - {k};
      CloseChannel(k, None);
    }

    /** The client reads from its channel; a closed channel still yields what it holds. */
    method Receive(k: nat) returns (r: Option<Event>)
      requires Valid() && k in channels
      modifies this`channels
      ensures Valid()
      ensures r == if old(channels)[k].buffer == [] then None else Some(old(channels)[k].buffer[0])
      ensures channels == if r.None? then old(channels)
              else old(channels)[k := old(channels)[k].(buffer := old(channels)[k].buffer[1..])]
    {
      var ch := channels[k];
      if ch.buffer == [] { return None; }
      ReadAndCloseServe(channels, sessions, subscribers, log, historyLimit, subscriberBuf, k);
      channels := channels[k := ch.(buffer := ch.buffer[1..])];
      return Some(ch.buffer[0]);
    }
  }
}
