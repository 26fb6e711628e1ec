/** The queue of events waiting for an MCP session, and the stream that polls it. */
module McpQueue {
  import opened Text

  type Session = string

  const EVENT_TTL_MS := 600_000
  const PULL_LIMIT := 50

  /** A row of the event table. Ids number the events in the order in which they were enqueued,
      which is the order of their creation times. */
  datatype Event = Event(
    id: nat, session: Session, kind: Option<string>, payload: string,
    deliveredAt: Option<int>, expiresAt: int)

  predicate IsPending(e: Event, session: Session, now: int) {
    e.session == session && e.deliveredAt.None? && e.expiresAt > now
  }

  function Pending(table: seq<Event>, session: Session, now: int): seq<Event> {
    if table == [] then []
    else
      var rest := Pending(table[..|table| - 1], session, now);
      var e := table[|table| - 1];
      if IsPending(e, session, now) then rest + [e] else rest
  }

  function FirstOf(events: seq<Event>): seq<Event> {
    if |events| <= PULL_LIMIT then events else events[..PULL_LIMIT]
  }

  function Ids(events: seq<Event>): set<nat> {
    set e <- events :: e.id
  }

  function Marked(table: seq<Event>, ids: set<nat>, now: int): (r: seq<Event>)
    ensures |r| == |table|
    ensures forall i | 0 <= i < |table| ::
              r[i] == if table[i].id in ids then table[i].(deliveredAt := Some(now)) else table[i]
  {
    if table == [] then []
    else
      var e := table[|table| - 1];
      Marked(table[..|table| - 1], ids, now) + [if e.id in ids then e.(deliveredAt := Some(now)) else e]
  }

  predicate IsStale(e: Event, now: int) {
    e.expiresAt < now || (e.deliveredAt.Some? && e.deliveredAt.value < now - EVENT_TTL_MS)
  }

  function Kept(table: seq<Event>, now: int): seq<Event> {
    if table == [] then []
    else
      var rest := Kept(table[..|table| - 1], now);
      var e := table[|table| - 1];
      if IsStale(e, now) then rest else rest + [e]
  }

  class McpSessionService {
    var events: seq<Event>
    var nextId: nat

    constructor ()
      ensures events == [] && nextId == 0
    {
      events, nextId := [], 0;
    }

    method EnqueueEvent(session: Session, payload: string, kind: Option<string>, now: int)
      modifies this
      ensures events == old(events) + [Event(old(nextId), session, kind, payload, None, now + EVENT_TTL_MS)]
      ensures nextId == old(nextId) + 1
    {
      events := events + [Event(nextId, session, kind, payload, None, now + EVENT_TTL_MS)];
      nextId := nextId + 1;
    }

    method FindPending(session: Session, now: int) returns (found: seq<Event>)
      ensures found == FirstOf(Pending(events, session, now))
    {
      found := [];
      var i := 0;
      while i < |events|
        invariant 0 <= i <= |events|
        invariant found == Pending(events[..i], session, now)
      {
        assert events[..i + 1][..i] == events[..i];
        if IsPending(events[i], session, now) {
          found := found + [events[i]];
        }
        i := i + 1;
      }
      assert events[..i] == events;
      if |found| > PULL_LIMIT {
        found := found[..PULL_LIMIT];
      }
    }

    method MarkDelivered(ids: set<nat>, now: int)
      modifies this
      ensures events == Marked(old(events), ids, now) && nextId == old(nextId)
    {
      var marked := [];
      for i := 0 to |events|
        invariant |marked| == i
        invariant forall j | 0 <= j < i ::
                    marked[j] == if events[j].id in ids then events[j].(deliveredAt := Some(now)) else events[j]
        invariant events == old(events) && nextId == old(nextId)
      {
        var e := events[i];
        marked := marked + [if e.id in ids then e.(deliveredAt := Some(now)) else e];
      }
      assert marked == Marked(events, ids, now);
      events := marked;
    }

    /** The two database calls of one pull, with nothing in between; the state machine below lets
        other steps come between them. */
    method PullPendingEvents(session: Session, findAt: int, markAt: int) returns (found: seq<Event>)
      modifies this
      ensures found == FirstOf(Pending(old(events), session, findAt))
      ensures events == if found == [] then old(events) else Marked(old(events), Ids(found), markAt)
      ensures nextId == old(nextId)
    {
      found := FindPending(session, findAt);
      if |found| == 0 {
        return;
      }
      MarkDelivered(set e <- found :: e.id, markAt);
    }

    method CleanupExpiredRecords(now: int)
      modifies this
      ensures events == Kept(old(events), now) && nextId == old(nextId)
    {
      var kept := [];
      var i := 0;
      while i < |events|
        invariant 0 <= i <= |events|
        invariant kept == Kept(events[..i], now)
        invariant events == old(events) && nextId == old(nextId)
      {
        assert events[..i + 1][..i] == events[..i];
        if !IsStale(events[i], now) {
          kept := kept + [events[i]];
        }
        i := i + 1;
      }
      assert events[..i] == events;
      events := kept;
    }
  }

  // ---- The stream of one session, step by step ----

  /** Between its polls a stream is idle; during one it has read a batch, or has handed it out and
      is touching its session. A poll that is not idle makes the next one return at once. */
  datatype Stream = Idle | Found(events: seq<Event>, at: int) | Touching

  datatype Delivery = Delivery(event: Event, foundAt: int)

  /** `log` has every event ever enqueued and `sent` everything handed to a subscriber, in order. */
  datatype State = State(
    table: seq<Event>, streams: map<Session, Stream>, log: seq<Event>, sent: seq<Delivery>)

  function Start(): State { State([], map[], [], []) }

  datatype Step =
    | Enqueue(session: Session, kind: Option<string>, payload: string)
    | Cleanup
    | Find(session: Session)
    | Mark(session: Session, ok: bool)
    | Touch(session: Session)

  function StreamOf(s: State, session: Session): Stream {
    if session in s.streams then s.streams[session] else Idle
  }

  function Deliveries(events: seq<Event>, at: int): (r: seq<Delivery>)
    ensures |r| == |events| && forall i | 0 <= i < |r| :: r[i] == Delivery(events[i], at)
  {
    seq(|events|, i requires 0 <= i < |events| => Delivery(events[i], at))
  }

  function Next(s: State, step: Step, now: int): State {
    match step
    case Enqueue(session, kind, payload) =>
      var e := Event(|s.log|, session, kind, payload, None, now + EVENT_TTL_MS);
      s.(table := s.table + [e], log := s.log + [e])
    case Cleanup => s.(table := Kept(s.table, now))
    case Find(session) =>
      if StreamOf(s, session).Idle? then
        s.(streams := s.streams[session := Found(FirstOf(Pending(s.table, session, now)), now)])
      else s
    case Mark(session, ok) =>
      (match StreamOf(s, session)
       case Found(events, at) =>
         if events == [] then s.(streams := s.streams[session := Touching])
         else if ok then
           s.(table := Marked(s.table, Ids(events), now),
              streams := s.streams[session := Touching],
              sent := s.sent + Deliveries(events, at))
         else s.(streams := s.streams[session := Idle])
       case _ => s)
    case Touch(session) =>
      if StreamOf(s, session).Touching? then s.(streams := s.streams[session := Idle]) else s
  }

  datatype Timed = Timed(step: Step, now: int)

  function Run(s: State, steps: seq<Timed>): State
    decreases |steps|
  {
    if steps == [] then s else Run(Next(s, steps[0].step, steps[0].now), steps[1..])
  }

  /** The clock never goes back. */
  predicate Monotone(steps: seq<Timed>, clock: int) {
    steps == [] || (steps[0].now >= clock && Monotone(steps[1..], steps[0].now))
  }

  // ---- Cleaning up changes nothing anyone receives ----

  ghost predicate SamePending(a: seq<Event>, b: seq<Event>, clock: int) {
    forall session, now | now >= clock :: Pending(a, session, now) == Pending(b, session, now)
  }

  lemma {:induction false} PendingOfKept(table: seq<Event>, cleanAt: int, session: Session, now: int)
    requires now >= cleanAt
    ensures Pending(Kept(table, cleanAt), session, now) == Pending(table, session, now)
  {
    if table != [] {
      var init, e := table[..|table| - 1], table[|table| - 1];
      PendingOfKept(init, cleanAt, session, now);
      if !IsStale(e, cleanAt) {
        var kept := Kept(init, cleanAt) + [e];
        assert Kept(table, cleanAt) == kept && kept[..|kept| - 1] == Kept(init, cleanAt);
      }
    }
  }

  function Without(events: seq<Event>, ids: set<nat>): seq<Event> {
    if events == [] then []
    else
      var rest := Without(events[..|events| - 1], ids);
      var e := events[|events| - 1];
      if e.id in ids then rest else rest + [e]
  }

  lemma {:induction false} PendingOfMarked(table: seq<Event>, ids: set<nat>, markAt: int, session: Session, now: int)
    ensures Pending(Marked(table, ids, markAt), session, now) == Without(Pending(table, session, now), ids)
  {
    if table != [] {
      var init, e := table[..|table| - 1], table[|table| - 1];
      PendingOfMarked(init, ids, markAt, session, now);
      var marked := Marked(table, ids, markAt);
      assert marked[..|marked| - 1] == Marked(init, ids, markAt);
      if IsPending(e, session, now) {
        var pending := Pending(table, session, now);
        assert pending[..|pending| - 1] == Pending(init, session, now);
      }
    }
  }

  lemma PendingOfEnqueued(table: seq<Event>, e: Event, session: Session, now: int)
    ensures Pending(table + [e], session, now)
            == Pending(table, session, now) + if IsPending(e, session, now) then [e] else []
  {
    assert (table + [e])[..|table|] == table;
  }

  ghost predicate Agree(s: State, t: State, clock: int) {
    s.streams == t.streams && s.log == t.log && s.sent == t.sent && SamePending(s.table, t.table, clock)
  }

  lemma NextKeepsAgreement(s: State, t: State, step: Step, now: int, clock: int)
    requires Agree(s, t, clock) && now >= clock
    ensures Agree(Next(s, step, now), Next(t, step, now), now)
    ensures step.Cleanup? ==> Agree(Next(s, step, now), t, now)
  {
    hide Pending, Kept, Marked;
    var s', t' := Next(s, step, now), Next(t, step, now);
    forall session, at | at >= now ensures Pending(s'.table, session, at) == Pending(t'.table, session, at) {
      assert Pending(s.table, session, at) == Pending(t.table, session, at);
      match step {
        case Enqueue(_, _, _) =>
          PendingOfEnqueued(s.table, s'.log[|s.log|], session, at);
          PendingOfEnqueued(t.table, s'.log[|s.log|], session, at);
        case Cleanup =>
          PendingOfKept(s.table, now, session, at);
          PendingOfKept(t.table, now, session, at);
        case Mark(puller, _) =>
          var stream := StreamOf(s, puller);
          if stream.Found? {
            PendingOfMarked(s.table, Ids(stream.events), now, session, at);
            PendingOfMarked(t.table, Ids(stream.events), now, session, at);
          }
        case _ =>
      }
    }
    if step.Cleanup? {
      forall session, at | at >= now ensures Pending(s'.table, session, at) == Pending(t.table, session, at) {
        PendingOfKept(s.table, now, session, at);
      }
    }
  }

  function WithoutCleanups(steps: seq<Timed>): seq<Timed> {
    if steps == [] then []
    else (if steps[0].step.Cleanup? then [] else [steps[0]]) + WithoutCleanups(steps[1..])
  }

  lemma {:induction false} RunsAgree(s: State, t: State, steps: seq<Timed>, clock: int) returns (last: int)
    requires Agree(s, t, clock) && Monotone(steps, clock)
    ensures Agree(Run(s, steps), Run(t, WithoutCleanups(steps)), last)
    decreases |steps|
  {
    hide Next, Agree;
    last := clock;
    if steps != [] {
      var step, now := steps[0].step, steps[0].now;
      NextKeepsAgreement(s, t, step, now, clock);
      var s' := Next(s, step, now);
      if step.Cleanup? {
        last := RunsAgree(s', t, steps[1..], now);
        assert WithoutCleanups(steps) == WithoutCleanups(steps[1..]);
      } else {
        last := RunsAgree(s', Next(t, step, now), steps[1..], now);
        var fewer := WithoutCleanups(steps);
        assert fewer[0] == steps[0] && fewer[1..] == WithoutCleanups(steps[1..]);
      }
    }
  }

  /** However often and whenever the table is cleaned, every stream reads and hands out exactly what
      it would have without any cleaning. */
  lemma CleanupIsInvisible(s: State, steps: seq<Timed>, clock: int)
    requires Monotone(steps, clock)
    ensures Run(s, steps).sent == Run(s, WithoutCleanups(steps)).sent
    ensures Run(s, steps).streams == Run(s, WithoutCleanups(steps)).streams
  {
    var _ := RunsAgree(s, s, steps, clock);
  }

  // ---- Every event at most once, in order, and overtaken only when expired ----

  predicate Increasing(events: seq<Event>) {
    forall i, j | 0 <= i < j < |events| :: events[i].id < events[j].id
  }

  function SentIds(sent: seq<Delivery>): set<nat> {
    set d <- sent :: d.event.id
  }

  predicate Logged(e: Event, log: seq<Event>) {
    e.id < |log| && log[e.id] == e.(deliveredAt := None)
  }

  /** A delivery was live and in the log, and comes after every earlier delivery of its session. */
  ghost predicate InOrder(s: State) {
    && (forall d <- s.sent :: Logged(d.event, s.log) && d.event.expiresAt > d.foundAt)
    && (forall i, j | 0 <= i < j < |s.sent| && s.sent[i].event.session == s.sent[j].event.session ::
          s.sent[i].event.id < s.sent[j].event.id)
  }

  /** An older event of the same session was handed out before, or had expired when the batch was
      read. */
  ghost predicate OvertakesOnlyExpired(s: State) {
    forall d <- s.sent, k: nat |
        d.event.id < |s.log| && k < d.event.id && s.log[k].session == d.event.session ::
      k in SentIds(s.sent) || s.log[k].expiresAt <= d.foundAt
  }

  ghost predicate TableOk(s: State, clock: int) {
    && Increasing(s.table)
    && (forall e <- s.table :: Logged(e, s.log))
    && (forall e <- s.table :: e.deliveredAt.Some? <==> e.id in SentIds(s.sent))
    && (forall k: nat | k < |s.log| :: k in Ids(s.table) || k in SentIds(s.sent) || s.log[k].expiresAt < clock)
    && (forall i | 0 <= i < |s.log| :: s.log[i].id == i && s.log[i].deliveredAt.None?)
    && (forall d <- s.sent :: d.foundAt <= clock)
  }

  /** What a stream that has read a batch knows about it, until it has handed it out. */
  ghost predicate BatchOk(s: State, session: Session, events: seq<Event>, at: int) {
    && Increasing(events)
    && (forall e <- events :: Logged(e, s.log) && e.session == session && e.expiresAt > at)
    && (forall e <- events :: e.id !in SentIds(s.sent))
    && (forall e <- events, d <- s.sent | d.event.session == session :: d.event.id < e.id)
    && (forall e <- events, k: nat | k < e.id && e.id < |s.log| && s.log[k].session == session ::
          k in Ids(events) || k in SentIds(s.sent) || s.log[k].expiresAt <= at)
  }

  ghost predicate Inv(s: State, clock: int) {
    && InOrder(s)
    && OvertakesOnlyExpired(s)
    && TableOk(s, clock)
    && StreamsOk(s, clock)
  }

  ghost predicate StreamsOk(s: State, clock: int) {
    forall session <- s.streams | s.streams[session].Found? ::
      s.streams[session].at <= clock && BatchOk(s, session, s.streams[session].events, s.streams[session].at)
  }

  lemma {:induction false} PendingIs(table: seq<Event>, session: Session, now: int)
    requires Increasing(table)
    ensures Increasing(Pending(table, session, now))
    ensures forall e :: e in Pending(table, session, now) <==> e in table && IsPending(e, session, now)
  {
    if table != [] {
      var init, e := table[..|table| - 1], table[|table| - 1];
      PendingIs(init, session, now);
      assert table == init + [e];
      assert forall f <- Pending(init, session, now) :: f.id < e.id;
    }
  }

  /** A cleanup keeps the events that have not expired and were not handed out more than ten minutes ago. */
  lemma {:induction false} KeptIs(table: seq<Event>, now: int)
    requires Increasing(table)
    ensures Increasing(Kept(table, now))
    ensures forall e :: e in Kept(table, now) <==>
              e in table && e.expiresAt >= now && (e.deliveredAt.Some? ==> e.deliveredAt.value >= now - 600_000)
  {
    if table != [] {
      var init, e := table[..|table| - 1], table[|table| - 1];
      KeptIs(init, now);
      assert table == init + [e];
      assert forall f <- Kept(init, now) :: f.id < e.id;
    }
  }

  /** What a poll reads: the pending events of the session, all of them or the oldest fifty. */
  lemma FindsTheOldest(table: seq<Event>, session: Session, now: int)
    requires Increasing(table)
    ensures var found := FirstOf(Pending(table, session, now));
            && Increasing(found) && |found| <= 50
            && (forall e <- found :: e in table && IsPending(e, session, now))
            && forall e <- table | IsPending(e, session, now) && e !in found ::
                 |found| == 50 && forall f <- found :: f.id < e.id
  {
    PendingIs(table, session, now);
    var pending := Pending(table, session, now);
    var found := FirstOf(pending);
    forall e | e in table && IsPending(e, session, now) && e !in found
      ensures |found| == PULL_LIMIT && forall f <- found :: f.id < e.id
    {
      var i :| 0 <= i < |pending| && pending[i] == e;
      assert forall j | 0 <= j < |found| :: found[j] == pending[j];
    }
  }

  lemma LiveIsNotOvertaken(s: State, d: Delivery, k: nat)
    requires OvertakesOnlyExpired(s) && d in s.sent
    requires Logged(d.event, s.log) && k < |s.log| && s.log[k].session == d.event.session
    requires k !in SentIds(s.sent) && s.log[k].expiresAt > d.foundAt
    ensures k >= d.event.id
  {
  }

  lemma FindGivesBatch(s: State, session: Session, now: int, clock: int)
    requires OvertakesOnlyExpired(s) && InOrder(s) && TableOk(s, clock) && now >= clock
    ensures BatchOk(s, session, FirstOf(Pending(s.table, session, now)), now)
  {
    hide FirstOf, Pending, OvertakesOnlyExpired;
    var found := FirstOf(Pending(s.table, session, now));
    FindsTheOldest(s.table, session, now);
    forall e, d | e in found && d in s.sent && d.event.session == session ensures d.event.id < e.id {
      assert Logged(e, s.log) && Logged(d.event, s.log);
      assert d.event.id != e.id by {
        assert e.id !in SentIds(s.sent);
      }
      LiveIsNotOvertaken(s, d, e.id);
    }
    forall e, k: nat | e in found && k < e.id && e.id < |s.log| && s.log[k].session == session
      ensures k in Ids(found) || k in SentIds(s.sent) || s.log[k].expiresAt <= now
    {
      if k in Ids(s.table) && k !in SentIds(s.sent) {
        var f :| f in s.table && f.id == k;
        assert Logged(f, s.log) && f.deliveredAt.None?;
      }
    }
  }

  lemma BatchStays(s: State, t: State, session: Session, events: seq<Event>, at: int)
    requires BatchOk(s, session, events, at)
    requires s.log <= t.log
    requires forall d <- s.sent :: d in t.sent
    requires forall d <- t.sent :: d in s.sent || (d.event.session != session && Logged(d.event, t.log))
    ensures BatchOk(t, session, events, at)
  {
    forall e | e in events ensures Logged(e, t.log) && e.id !in SentIds(t.sent) {
      assert Logged(e, s.log) && t.log[e.id] == s.log[e.id];
    }
    forall e, k: nat | e in events && k < e.id && e.id < |t.log| && t.log[k].session == session
      ensures k in Ids(events) || k in SentIds(t.sent) || t.log[k].expiresAt <= at
    {
      assert Logged(e, s.log) && t.log[k] == s.log[k];
    }
  }

  /** Every stream but `session` keeps its batch. */
  lemma StreamsStay(s: State, t: State, session: Session, clock: int, now: int)
    requires StreamsOk(s, clock) && now >= clock
    requires s.log <= t.log
    requires forall d <- s.sent :: d in t.sent
    requires forall d <- t.sent :: d in s.sent || (d.event.session == session && Logged(d.event, t.log))
    requires forall other <- t.streams | other != session :: other in s.streams && t.streams[other] == s.streams[other]
    requires session in t.streams && t.streams[session].Found? ==>
               t.streams[session].at <= now && BatchOk(t, session, t.streams[session].events, t.streams[session].at)
    ensures StreamsOk(t, now)
  {
    hide BatchOk;
    forall other | other in t.streams && t.streams[other].Found?
      ensures t.streams[other].at <= now && BatchOk(t, other, t.streams[other].events, t.streams[other].at)
    {
      if other != session {
        BatchStays(s, t, other, t.streams[other].events, t.streams[other].at);
      }
    }
  }

  lemma EnqueueKeepsOrder(s: State, t: State, e: Event)
    requires InOrder(s) && OvertakesOnlyExpired(s) && t.sent == s.sent && t.log == s.log + [e]
    ensures InOrder(t) && OvertakesOnlyExpired(t)
  {
    hide SentIds;
    forall d | d in t.sent ensures Logged(d.event, t.log) && d.event.expiresAt > d.foundAt {
      assert Logged(d.event, s.log) && t.log[d.event.id] == s.log[d.event.id];
    }
    forall d, k: nat | d in t.sent && d.event.id < |t.log| && k < d.event.id && t.log[k].session == d.event.session
      ensures k in SentIds(t.sent) || t.log[k].expiresAt <= d.foundAt
    {
      assert Logged(d.event, s.log) && t.log[k] == s.log[k];
    }
  }

  lemma EnqueueKeepsTable(s: State, t: State, e: Event, now: int, clock: int)
    requires InOrder(s) && TableOk(s, clock) && now >= clock
    requires e.id == |s.log| && e.deliveredAt.None?
    requires t.sent == s.sent && t.log == s.log + [e] && t.table == s.table + [e]
    ensures TableOk(t, now)
  {
    assert e.id !in SentIds(s.sent) by {
      forall d | d in s.sent ensures d.event.id != e.id {
        assert Logged(d.event, s.log);
      }
    }
    hide SentIds, InOrder;
    forall f | f in t.table ensures Logged(f, t.log) && (f.deliveredAt.Some? <==> f.id in SentIds(t.sent)) {
      if f in s.table {
        assert Logged(f, s.log) && t.log[f.id] == s.log[f.id];
      }
    }
    IdsPush(s.table, e);
    assert Increasing(t.table) by {
      forall i | 0 <= i < |s.table| ensures t.table[i].id < e.id {
        assert t.table[i] == s.table[i] && s.table[i] in s.table && Logged(s.table[i], s.log);
      }
    }
  }

  lemma IdsPush(events: seq<Event>, e: Event)
    ensures Ids(events + [e]) == Ids(events) + {e.id}
  {
    forall id | id in Ids(events) + {e.id} ensures id in Ids(events + [e]) {
      if id in Ids(events) {
        var f :| f in events && f.id == id;
        assert f in events + [e];
      } else {
        assert (events + [e])[|events|] == e;
      }
    }
  }

  lemma EnqueueKeepsInv(s: State, session: Session, kind: Option<string>, payload: string, now: int, clock: int)
    requires Inv(s, clock) && now >= clock
    ensures Inv(Next(s, Enqueue(session, kind, payload), now), now)
  {
    hide BatchOk, StreamsOk, InOrder, OvertakesOnlyExpired, TableOk;
    var t := Next(s, Enqueue(session, kind, payload), now);
    var e := t.log[|s.log|];
    EnqueueKeepsOrder(s, t, e);
    EnqueueKeepsTable(s, t, e, now, clock);
    if session in s.streams && s.streams[session].Found? {
      StreamMeans(s, session, clock);
      BatchStays(s, t, session, s.streams[session].events, s.streams[session].at);
    }
    StreamsStay(s, t, session, clock, now);
  }

  lemma StreamMeans(s: State, session: Session, clock: int)
    requires StreamsOk(s, clock)
    ensures StreamOf(s, session).Found? ==>
              StreamOf(s, session).at <= clock && BatchOk(s, session, StreamOf(s, session).events, StreamOf(s, session).at)
  {
  }

  lemma CleanupKeepsInv(s: State, now: int, clock: int)
    requires Inv(s, clock) && now >= clock
    ensures Inv(Next(s, Cleanup, now), now)
  {
    hide Kept;
    var t := Next(s, Cleanup, now);
    KeptIs(s.table, now);
    forall k: nat | k < |s.log| ensures k in Ids(t.table) || k in SentIds(t.sent) || s.log[k].expiresAt < now {
      if k in Ids(s.table) {
        var e :| e in s.table && e.id == k;
        assert Logged(e, s.log);
        if !IsStale(e, now) {
          assert e in t.table;
        }
      }
    }
    forall session | session in t.streams && t.streams[session].Found?
      ensures BatchOk(t, session, t.streams[session].events, t.streams[session].at)
    {
      assert BatchOk(s, session, t.streams[session].events, t.streams[session].at);
    }
  }

  lemma SentIdsGrow(sent: seq<Delivery>, events: seq<Event>, at: int)
    ensures SentIds(sent + Deliveries(events, at)) == SentIds(sent) + Ids(events)
  {
    var more := Deliveries(events, at);
    forall id | id in Ids(events) ensures id in SentIds(sent + more) {
      var i :| 0 <= i < |events| && events[i].id == id;
      assert more[i] in sent + more;
    }
  }

  lemma MarkKeepsOrder(s: State, t: State, session: Session, events: seq<Event>, at: int)
    requires InOrder(s) && BatchOk(s, session, events, at)
    requires t.log == s.log && t.sent == s.sent + Deliveries(events, at)
    ensures InOrder(t)
  {
    hide Deliveries;
    var n, more := |s.sent|, Deliveries(events, at);
    forall d | d in t.sent ensures Logged(d.event, t.log) && d.event.expiresAt > d.foundAt {
      if d !in s.sent {
        var i :| 0 <= i < |more| && more[i] == d;
        assert events[i] in events;
      }
    }
    forall i, j | 0 <= i < j < |t.sent| && t.sent[i].event.session == t.sent[j].event.session
      ensures t.sent[i].event.id < t.sent[j].event.id
    {
      SentAt(s, t, session, events, at, i, j);
    }
  }

  lemma SentAt(s: State, t: State, session: Session, events: seq<Event>, at: int, i: nat, j: nat)
    requires InOrder(s) && BatchOk(s, session, events, at)
    requires t.sent == s.sent + Deliveries(events, at)
    requires i < j < |t.sent| && t.sent[i].event.session == t.sent[j].event.session
    ensures t.sent[i].event.id < t.sent[j].event.id
  {
    hide Deliveries, Logged;
    var n := |s.sent|;
    if j < n {
      assert t.sent[i] == s.sent[i] && t.sent[j] == s.sent[j];
    } else {
      assert t.sent[j].event == events[j - n] && events[j - n] in events;
      if i < n {
        assert t.sent[i] == s.sent[i] && s.sent[i] in s.sent;
      } else {
        assert t.sent[i].event == events[i - n];
      }
    }
  }

  lemma MarkOvertakesOnlyExpired(s: State, t: State, session: Session, events: seq<Event>, at: int)
    requires OvertakesOnlyExpired(s) && BatchOk(s, session, events, at)
    requires t.log == s.log && t.sent == s.sent + Deliveries(events, at)
    ensures OvertakesOnlyExpired(t)
  {
    hide Deliveries, Logged, Increasing, SentIds, Ids;
    SentIdsGrow(s.sent, events, at);
    var more := Deliveries(events, at);
    forall d, k: nat | d in t.sent && d.event.id < |t.log| && k < d.event.id && t.log[k].session == d.event.session
      ensures k in SentIds(t.sent) || t.log[k].expiresAt <= d.foundAt
    {
      if d !in s.sent {
        var i :| 0 <= i < |more| && more[i] == d;
        assert events[i] in events && events[i].session == session;
      }
    }
  }

  lemma MarkKeepsTable(s: State, t: State, session: Session, events: seq<Event>, at: int, now: int, clock: int)
    requires TableOk(s, clock) && BatchOk(s, session, events, at) && at <= clock <= now
    requires t.log == s.log && t.sent == s.sent + Deliveries(events, at) && t.table == Marked(s.table, Ids(events), now)
    ensures TableOk(t, now)
  {
    hide Deliveries, BatchOk, Marked, SentIds, Increasing, Ids, Logged;
    SentIdsGrow(s.sent, events, at);
    MarkedIs(s.table, Ids(events), now);
    forall e | e in t.table ensures Logged(e, t.log) && (e.deliveredAt.Some? <==> e.id in SentIds(t.sent)) {
      var i :| 0 <= i < |t.table| && t.table[i] == e;
      var was := s.table[i];
      assert was in s.table && e == if was.id in Ids(events) then was.(deliveredAt := Some(now)) else was;
      LoggedStays(was, t.log, now);
    }
    assert forall d <- t.sent :: d in s.sent || d.foundAt == at;
  }

  lemma LoggedStays(e: Event, log: seq<Event>, now: int)
    requires Logged(e, log)
    ensures Logged(e.(deliveredAt := Some(now)), log)
  {
  }

  lemma MarkedIs(table: seq<Event>, ids: set<nat>, now: int)
    requires Increasing(table)
    ensures Increasing(Marked(table, ids, now))
    ensures Ids(Marked(table, ids, now)) == Ids(table)
  {
    var marked := Marked(table, ids, now);
    forall k | k in Ids(table) ensures k in Ids(marked) {
      var i :| 0 <= i < |table| && table[i].id == k;
      assert marked[i] in marked;
    }
  }

  lemma MarkKeepsInv(s: State, session: Session, ok: bool, now: int, clock: int)
    requires Inv(s, clock) && now >= clock
    ensures Inv(Next(s, Mark(session, ok), now), now)
  {
    hide BatchOk, StreamsOk, TableOk, InOrder, OvertakesOnlyExpired, Marked;
    var t := Next(s, Mark(session, ok), now);
    var stream := StreamOf(s, session);
    StreamMeans(s, session, clock);
    TableOkLater(s, t, clock, now);
    if stream.Found? && stream.events != [] && ok {
      BatchIsLogged(s, session, stream.events, stream.at);
      MarkKeepsOrder(s, t, session, stream.events, stream.at);
      MarkOvertakesOnlyExpired(s, t, session, stream.events, stream.at);
      MarkKeepsTable(s, t, session, stream.events, stream.at, now, clock);
      StreamsStay(s, t, session, clock, now);
    } else {
      OrderStays(s, t);
      StreamsStay(s, t, session, clock, now);
    }
  }

  lemma BatchIsLogged(s: State, session: Session, events: seq<Event>, at: int)
    requires BatchOk(s, session, events, at)
    ensures forall d <- Deliveries(events, at) :: d.event.session == session && Logged(d.event, s.log)
  {
  }

  lemma OrderStays(s: State, t: State)
    requires t.log == s.log && t.sent == s.sent
    ensures InOrder(s) ==> InOrder(t)
    ensures OvertakesOnlyExpired(s) ==> OvertakesOnlyExpired(t)
  {
  }

  lemma TableOkLater(s: State, t: State, clock: int, now: int)
    requires TableOk(s, clock) && now >= clock
    ensures t.table == s.table && t.log == s.log && t.sent == s.sent ==> TableOk(t, now)
  {
  }

  lemma PollKeepsInv(s: State, step: Step, now: int, clock: int)
    requires Inv(s, clock) && now >= clock && (step.Find? || step.Touch?)
    ensures Inv(Next(s, step, now), now)
  {
    hide BatchOk, StreamsOk, TableOk, InOrder, OvertakesOnlyExpired, Pending, FirstOf;
    var t := Next(s, step, now);
    OrderStays(s, t);
    TableOkLater(s, t, clock, now);
    StreamMeans(s, step.session, clock);
    if step.Find? && StreamOf(s, step.session).Idle? {
      FindGivesBatch(t, step.session, now, now);
    } else if StreamOf(s, step.session).Found? {
      BatchStays(s, t, step.session, StreamOf(s, step.session).events, StreamOf(s, step.session).at);
    }
    StreamsStay(s, t, step.session, clock, now);
  }

  lemma NextKeepsInv(s: State, step: Step, now: int, clock: int)
    requires Inv(s, clock) && now >= clock
    ensures Inv(Next(s, step, now), now)
  {
    hide *;
    match step
    case Enqueue(session, kind, payload) => EnqueueKeepsInv(s, session, kind, payload, now, clock);
    case Cleanup => CleanupKeepsInv(s, now, clock);
    case Mark(session, ok) => MarkKeepsInv(s, session, ok, now, clock);
    case _ => PollKeepsInv(s, step, now, clock);
  }

  /** Over every run, with enqueuing, polling, marking and cleaning of any sessions interleaved in
      any way: each session is handed its events in the order in which they were enqueued, none of
      them twice, none expired when it was read, and none overtaken by a younger one unless it had
      expired by then. */
  lemma {:induction false} RunDeliversInOrder(s: State, steps: seq<Timed>, clock: int)
    requires Inv(s, clock) && Monotone(steps, clock)
    ensures InOrder(Run(s, steps)) && OvertakesOnlyExpired(Run(s, steps))
    decreases |steps|
  {
    hide *;
    RunMeans(s, steps, clock);
    InvMeans(s, clock);
    if steps != [] {
      NextKeepsInv(s, steps[0].step, steps[0].now, clock);
      RunDeliversInOrder(Next(s, steps[0].step, steps[0].now), steps[1..], steps[0].now);
    }
  }

  lemma RunMeans(s: State, steps: seq<Timed>, clock: int)
    requires Monotone(steps, clock)
    ensures steps == [] ==> Run(s, steps) == s
    ensures steps != [] ==>
              && Run(s, steps) == Run(Next(s, steps[0].step, steps[0].now), steps[1..])
              && steps[0].now >= clock && Monotone(steps[1..], steps[0].now)
  {
  }

  lemma InvMeans(s: State, clock: int)
    requires Inv(s, clock)
    ensures InOrder(s) && OvertakesOnlyExpired(s)
  {
  }

  lemma StartKeepsInv(clock: int)
    ensures Inv(Start(), clock)
  {
  }

  /** Every run from the empty queue delivers in order. */
  lemma RunFromStartDeliversInOrder(steps: seq<Timed>, clock: int)
    requires Monotone(steps, clock)
    ensures InOrder(Run(Start(), steps)) && OvertakesOnlyExpired(Run(Start(), steps))
  {
    hide *;
    StartKeepsInv(clock);
    RunDeliversInOrder(Start(), steps, clock);
  }

  // ---- Every live event is handed out ----

  /** Nothing here ends a poll of the session: polls that are begun while one is under way, and
      whatever else happens. */
  predicate EndsNoPoll(steps: seq<Timed>, session: Session) {
    forall t <- steps :: !((t.step.Mark? || t.step.Touch?) && t.step.session == session)
  }

  /** No step of the session's stream at all. */
  predicate IsElsewhere(steps: seq<Timed>, session: Session) {
    EndsNoPoll(steps, session) && forall t <- steps :: !(t.step.Find? && t.step.session == session)
  }

  function LastNow(steps: seq<Timed>, clock: int): int {
    if steps == [] then clock else LastNow(steps[1..], steps[0].now)
  }

  /** One poll of a session, with what happens during it and after it. */
  datatype Round = Round(
    found: int, reading: seq<Timed>, ok: bool, marked: int, touching: seq<Timed>, touched: int, resting: seq<Timed>)

  predicate IsRound(r: Round, session: Session) {
    EndsNoPoll(r.reading, session) && EndsNoPoll(r.touching, session) && IsElsewhere(r.resting, session)
    && (!r.ok ==> IsElsewhere(r.touching, session))
  }

  function StepsOf(r: Round, session: Session): seq<Timed> {
    [Timed(Find(session), r.found)] + r.reading + [Timed(Mark(session, r.ok), r.marked)] + r.touching
    + [Timed(Touch(session), r.touched)] + r.resting
  }

  function AllSteps(rounds: seq<Round>, session: Session): seq<Timed> {
    if rounds == [] then [] else StepsOf(rounds[0], session) + AllSteps(rounds[1..], session)
  }

  function Successes(rounds: seq<Round>): nat {
    if rounds == [] then 0 else (if rounds[0].ok then 1 else 0) + Successes(rounds[1..])
  }

  /** The live events of a session, older than event k, that have not been handed out. */
  ghost function Ahead(s: State, session: Session, k: nat, now: int): set<nat> {
    set j: nat | j < k && j < |s.log| && s.log[j].session == session && s.log[j].expiresAt > now
                 && j !in SentIds(s.sent)
  }

  /** What every run keeps. */
  ghost predicate Continues(s: State, t: State) {
    s.log <= t.log && SentIds(s.sent) <= SentIds(t.sent)
  }

  lemma {:induction false} RunConcat(s: State, a: seq<Timed>, b: seq<Timed>, clock: int)
    ensures Run(s, a + b) == Run(Run(s, a), b)
    ensures Monotone(a + b, clock) <==> Monotone(a, clock) && Monotone(b, LastNow(a, clock))
    ensures LastNow(a + b, clock) == LastNow(b, LastNow(a, clock))
    decreases |a|
  {
    hide Next;
    if a == [] {
      assert a + b == b;
    } else {
      assert (a + b)[1..] == a[1..] + b;
      RunConcat(Next(s, a[0].step, a[0].now), a[1..], b, a[0].now);
    }
  }

  lemma RunOne(s: State, t: Timed, clock: int)
    ensures Run(s, [t]) == Next(s, t.step, t.now)
    ensures Monotone([t], clock) <==> t.now >= clock
    ensures LastNow([t], clock) == t.now
  {
    hide Next;
    assert [t][1..] == [];
  }

  lemma NextContinues(s: State, step: Step, now: int)
    ensures Continues(s, Next(s, step, now))
  {
    hide Pending, FirstOf, Marked, Kept;
  }

  lemma NextElsewhere(s: State, step: Step, now: int, session: Session)
    requires !((step.Mark? || step.Touch?) && step.session == session)
    requires StreamOf(s, session).Idle? ==> !(step.Find? && step.session == session)
    ensures StreamOf(Next(s, step, now), session) == StreamOf(s, session)
  {
    hide Pending, FirstOf, Marked, Kept;
  }

  /** While the steps of other streams, of producers and of the cleanup go on, and while polls are
      begun that find one under way, a stream stays as it is. */
  lemma {:induction false} RunElsewhere(s: State, steps: seq<Timed>, session: Session, clock: int)
    requires Inv(s, clock) && Monotone(steps, clock) && EndsNoPoll(steps, session)
    requires StreamOf(s, session).Idle? ==> IsElsewhere(steps, session)
    ensures var t := Run(s, steps);
            Inv(t, LastNow(steps, clock)) && Continues(s, t) && StreamOf(t, session) == StreamOf(s, session)
    ensures LastNow(steps, clock) >= clock
    decreases |steps|
  {
    if steps != [] {
      hide Next, Inv, StreamOf, SentIds;
      var step, now := steps[0].step, steps[0].now;
      assert steps[0] in steps && forall t <- steps[1..] :: t in steps;
      NextKeepsInv(s, step, now, clock);
      NextContinues(s, step, now);
      NextElsewhere(s, step, now, session);
      RunElsewhere(Next(s, step, now), steps[1..], session, now);
    }
  }

  /** A live event that was not handed out is in the batch of the next poll, unless that has fifty
      older ones. */
  lemma WaitingIsFound(s: State, session: Session, k: nat, now: int, clock: int)
    requires Inv(s, clock) && now >= clock
    requires k < |s.log| && s.log[k].session == session && s.log[k].expiresAt > now && k !in SentIds(s.sent)
    ensures var found := FirstOf(Pending(s.table, session, now));
            k in Ids(found) || (|Ids(found)| == PULL_LIMIT && Ids(found) <= Ahead(s, session, k, now))
  {
    hide Pending, FirstOf, InOrder, OvertakesOnlyExpired, StreamsOk, SentIds;
    var found := FirstOf(Pending(s.table, session, now));
    FindsTheOldest(s.table, session, now);
    var e :| e in s.table && e.id == k;
    assert Logged(e, s.log) && IsPending(e, session, now);
    if e !in found {
      IdsCount(found);
      forall j | j in Ids(found) ensures j in Ahead(s, session, k, now) {
        var f :| f in found && f.id == j;
        assert Logged(f, s.log) && IsPending(f, session, now);
      }
    }
  }

  lemma {:induction false} IdsCount(events: seq<Event>)
    requires Increasing(events)
    ensures |Ids(events)| == |events|
  {
    if events != [] {
      var init, e := events[..|events| - 1], events[|events| - 1];
      IdsCount(init);
      assert events == init + [e];
      IdsPush(init, e);
      assert forall f <- init :: f.id < e.id;
    }
  }

  /** One poll leaves the stream ready for the next. If its batch was marked, every event that was
      live and waiting when it was read has been handed out, unless fifty older ones of its session
      were. */
  lemma RoundProgress(s: State, session: Session, r: Round, k: nat, clock: int)
    requires Inv(s, clock) && StreamOf(s, session).Idle?
    requires IsRound(r, session) && Monotone(StepsOf(r, session), clock)
    ensures var t, last := Run(s, StepsOf(r, session)), LastNow(StepsOf(r, session), clock);
            && Inv(t, last) && Continues(s, t) && StreamOf(t, session).Idle? && r.found >= clock && last >= r.found
            && (r.ok && k < |s.log| && s.log[k].session == session && s.log[k].expiresAt > r.found ==>
                  || k in SentIds(t.sent)
                  || exists handed: set<nat> ::
                       |handed| == PULL_LIMIT && handed <= Ahead(s, session, k, r.found) && handed <= SentIds(t.sent))
  {
    hide Inv, Run, Next, Pending, FirstOf, SentIds, Ids, StreamOf, EndsNoPoll, IsElsewhere, Ahead, Monotone, LastNow;
    var find, mark, touch := Timed(Find(session), r.found), Timed(Mark(session, r.ok), r.marked),
                             Timed(Touch(session), r.touched);
    SplitRound(s, session, r, clock);
    var s1 := Next(s, find.step, find.now);
    var s2 := Run(s1, r.reading);
    var at := LastNow(r.reading, r.found);
    var s3 := Next(s2, mark.step, mark.now);
    var s4 := Run(s3, r.touching);
    var s5 := Next(s4, touch.step, touch.now);
    NextKeepsInv(s, find.step, find.now, clock);
    FindStarts(s, session, r.found);
    RunElsewhere(s1, r.reading, session, r.found);
    NextKeepsInv(s2, mark.step, mark.now, at);
    MarkEnds(s2, session, r.ok, r.marked);
    IsElsewhereEndsNoPoll(r, session);
    RunElsewhere(s3, r.touching, session, r.marked);
    NextKeepsInv(s4, touch.step, touch.now, LastNow(r.touching, r.marked));
    TouchEnds(s4, session, r.touched);
    RunElsewhere(s5, r.resting, session, r.touched);
    NextContinues(s, find.step, find.now);
    NextContinues(s2, mark.step, mark.now);
    NextContinues(s4, touch.step, touch.now);
    if r.ok && k < |s.log| && s.log[k].session == session && s.log[k].expiresAt > r.found && k !in SentIds(s.sent) {
      WaitingIsFound(s, session, k, r.found, clock);
    }
  }

  lemma IsElsewhereEndsNoPoll(r: Round, session: Session)
    requires IsRound(r, session)
    ensures EndsNoPoll(r.reading, session) && EndsNoPoll(r.touching, session) && EndsNoPoll(r.resting, session)
  {
  }

  lemma FindStarts(s: State, session: Session, now: int)
    requires StreamOf(s, session).Idle?
    ensures var t := Next(s, Find(session), now);
            StreamOf(t, session) == Found(FirstOf(Pending(s.table, session, now)), now)
  {
    hide Pending, FirstOf;
  }

  /** A poll that marks its batch hands it out; one that does not touches nothing but its stream, which
      can poll again. */
  lemma MarkEnds(s: State, session: Session, ok: bool, now: int)
    requires StreamOf(s, session).Found?
    ensures var t, events := Next(s, Mark(session, ok), now), StreamOf(s, session).events;
            && StreamOf(t, session) == (if ok || events == [] then Touching else Idle)
            && (ok ==> SentIds(t.sent) == SentIds(s.sent) + Ids(events))
            && (!ok ==> t.table == s.table && t.log == s.log && t.sent == s.sent)
  {
    hide Marked, Deliveries, SentIds, Ids;
    var events, at := StreamOf(s, session).events, StreamOf(s, session).at;
    SentIdsGrow(s.sent, events, at);
    if events == [] {
      assert Ids(events) == {} by { NoIds(); }
    }
  }

  lemma NoIds()
    ensures Ids([]) == {}
  {
  }

  lemma TouchEnds(s: State, session: Session, now: int)
    requires !StreamOf(s, session).Found?
    ensures StreamOf(Next(s, Touch(session), now), session).Idle?
  {
  }

  lemma SplitRound(s: State, session: Session, r: Round, clock: int)
    requires Monotone(StepsOf(r, session), clock)
    ensures var s2 := Run(Next(s, Find(session), r.found), r.reading);
            var s4 := Run(Next(s2, Mark(session, r.ok), r.marked), r.touching);
            Run(s, StepsOf(r, session)) == Run(Next(s4, Touch(session), r.touched), r.resting)
    ensures r.found >= clock && Monotone(r.reading, r.found)
    ensures r.marked >= LastNow(r.reading, r.found) && Monotone(r.touching, r.marked)
    ensures r.touched >= LastNow(r.touching, r.marked) && Monotone(r.resting, r.touched)
    ensures LastNow(StepsOf(r, session), clock) == LastNow(r.resting, r.touched)
  {
    hide Run, Next, Monotone, LastNow;
    var a, m, b, u, c := [Timed(Find(session), r.found)], [Timed(Mark(session, r.ok), r.marked)], r.touching,
                         [Timed(Touch(session), r.touched)], r.resting;
    RunOne(s, a[0], clock);
    RunConcat(s, a + r.reading + m + b + u, c, clock);
    RunConcat(s, a + r.reading + m + b, u, clock);
    RunConcat(s, a + r.reading + m, b, clock);
    RunConcat(s, a + r.reading, m, clock);
    RunConcat(s, a, r.reading, clock);
    RunOne(Run(s, a + r.reading), m[0], LastNow(a + r.reading, clock));
    RunOne(Run(s, a + r.reading + m + b), u[0], LastNow(a + r.reading + m + b, clock));
  }

  lemma SetShrinks(a: set<nat>, b: set<nat>, handed: set<nat>)
    requires b <= a && handed <= a && b !! handed
    ensures |b| <= |a| - |handed|
  {
    assert b <= a - handed;
    SubsetCount(b, a - handed);
  }

  lemma {:induction false} SubsetCount(a: set<nat>, b: set<nat>)
    requires a <= b
    ensures |a| <= |b|
  {
    if a != {} {
      var x :| x in a;
      SubsetCount(a - {x}, b - {x});
    }
  }

  lemma AheadShrinks(s: State, t: State, session: Session, k: nat, now: int, later: int)
    requires Continues(s, t) && k < |s.log| && later >= now
    ensures Ahead(t, session, k, later) <= Ahead(s, session, k, now)
    ensures Ahead(t, session, k, later) !! SentIds(t.sent)
  {
    hide SentIds;
  }

  /** When the last of some polls has read its batch; `clock` without any poll. */
  function LastFound(rounds: seq<Round>, clock: int): int {
    if rounds == [] then clock else rounds[|rounds| - 1].found
  }

  lemma {:induction false} RunContinues(s: State, steps: seq<Timed>)
    ensures Continues(s, Run(s, steps))
    decreases |steps|
  {
    if steps != [] {
      hide Next, SentIds;
      NextContinues(s, steps[0].step, steps[0].now);
      RunContinues(Next(s, steps[0].step, steps[0].now), steps[1..]);
    }
  }

  lemma {:induction false} LastNowIsLater(steps: seq<Timed>, clock: int)
    requires Monotone(steps, clock)
    ensures LastNow(steps, clock) >= clock
  {
    if steps != [] {
      LastNowIsLater(steps[1..], steps[0].now);
    }
  }

  lemma {:induction false} PollsGoOn(s: State, rounds: seq<Round>, session: Session, clock: int)
    requires Monotone(AllSteps(rounds, session), clock)
    ensures clock <= LastFound(rounds, clock)
    ensures rounds != [] ==> clock <= rounds[0].found <= LastFound(rounds, clock)
  {
    hide Run, Next, StepsOf, Monotone, LastNow;
    if rounds != [] {
      var r, rest := rounds[0], rounds[1..];
      var last := LastNow(StepsOf(r, session), clock);
      RunConcat(s, StepsOf(r, session), AllSteps(rest, session), clock);
      SplitRound(s, session, r, clock);
      var at := LastNow(r.reading, r.found);
      LastNowIsLater(r.reading, r.found);
      LastNowIsLater(r.touching, r.marked);
      LastNowIsLater(r.resting, r.touched);
      PollsGoOn(s, rest, session, last);
    }
  }

  /** Every event is handed out within the polls it takes to hand out those before it, fifty at a
      time, if it has not expired by then: whatever else goes on in the meantime, and however many polls
      fail to mark their batch in between. */
  lemma {:induction false} RoundsDeliver(s: State, session: Session, rounds: seq<Round>, k: nat, clock: int)
    requires Inv(s, clock) && StreamOf(s, session).Idle?
    requires (forall r <- rounds :: IsRound(r, session)) && Monotone(AllSteps(rounds, session), clock)
    requires k < |s.log| && s.log[k].session == session
    requires |Ahead(s, session, k, clock)| < 50 * Successes(rounds)
    requires s.log[k].expiresAt > LastFound(rounds, clock)
    ensures k in SentIds(Run(s, AllSteps(rounds, session)).sent)
    decreases |rounds|
  {
    hide Inv, Run, Next, SentIds, StreamOf, IsRound, Ahead, Monotone, LastNow, StepsOf;
    if rounds != [] {
      var r, rest := rounds[0], rounds[1..];
      var first := StepsOf(r, session);
      RunConcat(s, first, AllSteps(rest, session), clock);
      RoundProgress(s, session, r, k, clock);
      PollsGoOn(s, rounds, session, clock);
      var t, last := Run(s, first), LastNow(first, clock);
      AheadShrinks(s, t, session, k, clock, last);
      AheadShrinks(s, s, session, k, clock, r.found);
      if k in SentIds(t.sent) {
        RunContinues(t, AllSteps(rest, session));
      } else {
        SubsetCount(Ahead(t, session, k, last), Ahead(s, session, k, clock));
        if r.ok {
          var handed: set<nat> :| |handed| == PULL_LIMIT && handed <= Ahead(s, session, k, r.found)
                                  && handed <= SentIds(t.sent);
          SetShrinks(Ahead(s, session, k, clock), Ahead(t, session, k, last), handed);
        }
        assert rest != [];
        RoundsDeliver(t, session, rest, k, last);
      }
    }
  }

  /** An event that is enqueued reaches a subscriber of its session, with its kind and its payload, if
      there are polls enough within ten minutes. */
  lemma EnqueuedIsDelivered(s: State, session: Session, kind: Option<string>, payload: string, now: int,
                            rounds: seq<Round>, clock: int)
    requires Inv(s, clock) && now >= clock && StreamOf(s, session).Idle?
    requires (forall r <- rounds :: IsRound(r, session)) && Monotone(AllSteps(rounds, session), now)
    requires |Ahead(s, session, |s.log|, now)| < 50 * Successes(rounds)
    requires LastFound(rounds, now) < now + 600_000
    ensures exists d <- Run(s, [Timed(Enqueue(session, kind, payload), now)] + AllSteps(rounds, session)).sent ::
              d.event.id == |s.log| && d.event.session == session && d.event.kind == kind && d.event.payload == payload
  {
    hide Inv, Run, SentIds, IsRound, Monotone, AllSteps, LastFound, Successes, Ahead;
    var step := Timed(Enqueue(session, kind, payload), now);
    var steps, t := AllSteps(rounds, session), Next(s, step.step, now);
    RunConcat(s, [step], steps, clock);
    RunOne(s, step, clock);
    NextKeepsInv(s, step.step, now, clock);
    SameAhead(s, t, session, |s.log|, now);
    RoundsDeliver(t, session, rounds, |s.log|, now);
    SentIsLogged(t, steps, |s.log|, now);
  }

  lemma SameAhead(s: State, t: State, session: Session, k: nat, now: int)
    requires s.log <= t.log && k <= |s.log| && t.sent == s.sent
    ensures Ahead(t, session, k, now) == Ahead(s, session, k, now)
  {
    hide SentIds;
  }

  lemma SentIsLogged(s: State, steps: seq<Timed>, k: nat, clock: int)
    requires Inv(s, clock) && Monotone(steps, clock) && k < |s.log| && s.log[k].id == k
    requires k in SentIds(Run(s, steps).sent)
    ensures exists d <- Run(s, steps).sent ::
              d.event.id == k && d.event.session == s.log[k].session && d.event.kind == s.log[k].kind
              && d.event.payload == s.log[k].payload
  {
    hide Inv, Run, OvertakesOnlyExpired;
    RunDeliversInOrder(s, steps, clock);
    RunContinues(s, steps);
    var t := Run(s, steps);
    var d :| d in t.sent && d.event.id == k;
    assert Logged(d.event, t.log) && t.log[k] == s.log[k];
  }
}
