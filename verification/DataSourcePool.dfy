/** The pool of one data source per tenant: created once however many callers ask for it, and
    dropped when it has been idle for too long. */
module DataSourcePool {
  import opened Text

  type Tenant = string
  type Source = nat

  // ---- The service, one method for each stretch that runs without awaiting ----

  /** What a caller finds: a live data source, somebody else's initialisation, or neither. */
  datatype Found = Live(source: Source) | Joined(source: Source) | Started

  function Without<V>(m: map<Tenant, V>, tenant: Tenant): map<Tenant, V> { m - {tenant} }

  datatype Maps = Maps(pool: map<Tenant, Source>, lastUsedAt: map<Tenant, int>, pending: map<Tenant, Source>)

  /** The start of a request: `created` is the data source it creates if it has to. */
  function Asked(m: Maps, tenant: Tenant, created: Source, alive: set<Source>, now: int): (Maps, Found) {
    if tenant in m.pool && m.pool[tenant] in alive then
      (m.(lastUsedAt := m.lastUsedAt[tenant := now]), Live(m.pool[tenant]))
    else
      var m' := if tenant in m.pool then Maps(Without(m.pool, tenant), Without(m.lastUsedAt, tenant), m.pending) else m;
      if tenant in m.pending then (m', Joined(m.pending[tenant]))
      else (m'.(pending := m.pending[tenant := created]), Started)
  }

  predicate IsIdle(m: Maps, tenant: Tenant, now: int, maxIdleMs: int) {
    now - (if tenant in m.lastUsedAt then m.lastUsedAt[tenant] else 0) >= maxIdleMs
  }

  class DynamicDataSourceService {
    var pool: map<Tenant, Source>
    var lastUsedAt: map<Tenant, int>
    var pendingInitializations: map<Tenant, Source>

    constructor ()
      ensures MapsNow() == Maps(map[], map[], map[])
    {
      pool, lastUsedAt, pendingInitializations := map[], map[], map[];
    }

    ghost function MapsNow(): Maps
      reads this
    {
      Maps(pool, lastUsedAt, pendingInitializations)
    }

    method GetTenantDataSource(tenant: Tenant, created: Source, alive: set<Source>, now: int) returns (found: Found)
      modifies this
      ensures (MapsNow(), found) == Asked(old(MapsNow()), tenant, created, alive, now)
    {
      if tenant in pool {
        var source := pool[tenant];
        if source in alive {
          lastUsedAt := lastUsedAt[tenant := now];
          return Live(source);
        }
        pool := pool - {tenant};
        lastUsedAt := lastUsedAt - {tenant};
      }
      if tenant in pendingInitializations {
        return Joined(pendingInitializations[tenant]);
      }
      pendingInitializations := pendingInitializations[tenant := created];
      found := Started;
    }

    /** One whole round of eviction, with nothing in between. */
    method EvictIdleTenants(maxIdleMs: int, now: int) returns (evicted: nat)
      modifies this
      ensures maxIdleMs <= 0 ==> MapsNow() == old(MapsNow()) && evicted == 0
      ensures maxIdleMs > 0 ==>
                && (forall t :: t in pool <==> t in old(pool) && !IsIdle(old(MapsNow()), t, now, maxIdleMs))
                && (forall t <- pool :: pool[t] == old(pool)[t])
                && (forall t :: t in lastUsedAt <==> t in old(lastUsedAt) && (t in old(pool) ==> t in pool))
                && (forall t <- lastUsedAt :: lastUsedAt[t] == old(lastUsedAt)[t])
                && pendingInitializations == old(pendingInitializations)
                && evicted == |old(pool)| - |pool|
    {
      evicted := 0;
      if maxIdleMs <= 0 {
        return;
      }
      var left := pool.Keys;
      while left != {}
        invariant left <= pool.Keys <= old(pool).Keys
        invariant forall t :: t in pool <==> t in old(pool) && (t in left || !IsIdle(old(MapsNow()), t, now, maxIdleMs))
        invariant forall t <- pool :: pool[t] == old(pool)[t]
        invariant forall t :: t in lastUsedAt <==> t in old(lastUsedAt) && (t in old(pool) ==> t in pool)
        invariant forall t <- lastUsedAt :: lastUsedAt[t] == old(lastUsedAt)[t]
        invariant pendingInitializations == old(pendingInitializations)
        invariant evicted == |old(pool)| - |pool|
        decreases |left|
      {
        var tenant :| tenant in left;
        left := left - {tenant};
        var last := if tenant in lastUsedAt then lastUsedAt[tenant] else 0;
        if now - last < maxIdleMs {
          continue;
        }
        assert pool.Keys == (pool - {tenant}).Keys + {tenant};
        pool := pool - {tenant};
        lastUsedAt := lastUsedAt - {tenant};
        evicted := evicted + 1;
      }
    }
  }

  // ---- All interleavings at the awaits ----

  /** One run of initializeTenantDataSource. `settled` says whether it has ended and how;
      `resumed` that the caller that started it has gone on and cleared the pending entry. */
  datatype Init = Init(tenant: Tenant, owner: nat, settled: Option<bool>, resumed: bool)

  datatype Outcome = Got(source: Source) | Failed

  datatype Caller = Waiting(tenant: Tenant, source: Source) | Done(tenant: Tenant, outcome: Outcome)

  /** A pooled data source was handed out or put into the pool. */
  datatype Serving = Serving(tenant: Tenant, at: int)

  datatype Eviction = Eviction(tenant: Tenant, startedAt: int, limit: int, servingsBefore: nat)

  /** Initialisation number n creates data source n. `alive` has the initialised data sources. */
  datatype State = State(
    maps: Maps, alive: set<Source>, inits: seq<Init>, callers: map<nat, Caller>,
    served: seq<Serving>, evictions: seq<Eviction>)

  function Start(): State { State(Maps(map[], map[], map[]), {}, [], map[], [], []) }

  /** `Evict` is the visit of one tenant by a round of eviction that looked at the clock at
      `startedAt`; `Lost` ends a data source, be it by the round that evicted it or otherwise. */
  datatype Step =
    | Begin(caller: nat, tenant: Tenant)
    | Settle(source: Source, ok: bool)
    | Resume(caller: nat)
    | Evict(tenant: Tenant, startedAt: int, limit: int)
    | Lost(source: Source)

  function Begun(s: State, caller: nat, tenant: Tenant, now: int): State {
    var (maps, found) := Asked(s.maps, tenant, |s.inits|, s.alive, now);
    match found
    case Live(source) =>
      s.(maps := maps, callers := s.callers[caller := Done(tenant, Got(source))],
         served := s.served + [Serving(tenant, now)])
    case Joined(source) => s.(maps := maps, callers := s.callers[caller := Waiting(tenant, source)])
    case Started =>
      s.(maps := maps, callers := s.callers[caller := Waiting(tenant, |s.inits|)],
         inits := s.inits + [Init(tenant, caller, None, false)])
  }

  function Settled(s: State, source: Source, ok: bool, now: int): State
    requires source < |s.inits|
  {
    var init := s.inits[source];
    var s' := s.(inits := s.inits[source := init.(settled := Some(ok))]);
    if !ok then s'
    else
      s'.(alive := s.alive + {source},
          maps := s.maps.(pool := s.maps.pool[init.tenant := source], lastUsedAt := s.maps.lastUsedAt[init.tenant := now]),
          served := s.served + [Serving(init.tenant, now)])
  }

  function OutcomeOf(init: Init, source: Source): Outcome {
    if init.settled == Some(true) then Got(source) else Failed
  }

  function Resumed(s: State, caller: nat): State
    requires caller in s.callers && s.callers[caller].Waiting? && s.callers[caller].source < |s.inits|
  {
    var tenant, source := s.callers[caller].tenant, s.callers[caller].source;
    var init := s.inits[source];
    var s' := s.(callers := s.callers[caller := Done(tenant, OutcomeOf(init, source))]);
    if init.owner != caller then s'
    else
      s'.(maps := s.maps.(pending := Without(s.maps.pending, init.tenant)),
          inits := s.inits[source := init.(resumed := true)])
  }

  function Evicted(s: State, tenant: Tenant, startedAt: int, limit: int): State {
    if limit <= 0 || tenant !in s.maps.pool || !IsIdle(s.maps, tenant, startedAt, limit) then s
    else
      s.(maps := s.maps.(pool := Without(s.maps.pool, tenant), lastUsedAt := Without(s.maps.lastUsedAt, tenant)),
         evictions := s.evictions + [Eviction(tenant, startedAt, limit, |s.served|)])
  }

  /** A step that is not possible in a state changes nothing. */
  function Next(s: State, step: Step, now: int): State {
    match step
    case Begin(caller, tenant) => if caller in s.callers then s else Begun(s, caller, tenant, now)
    case Settle(source, ok) =>
      if source < |s.inits| && s.inits[source].settled.None? then Settled(s, source, ok, now) else s
    case Resume(caller) =>
      if caller in s.callers && s.callers[caller].Waiting? && s.callers[caller].source < |s.inits|
         && s.inits[s.callers[caller].source].settled.Some?
      then Resumed(s, caller) else s
    case Evict(tenant, startedAt, limit) => if startedAt <= now then Evicted(s, tenant, startedAt, limit) else s
    case Lost(source) => s.(alive := s.alive - {source})
  }

  datatype Timed = Timed(step: Step, now: int)

  function Run(s: State, steps: seq<Timed>): State
    decreases |steps|
  {
    if steps == [] then s else Run(Next(s, steps[0].step, steps[0].now), steps[1..])
  }

  predicate Monotone(steps: seq<Timed>, clock: int) {
    steps == [] || (steps[0].now >= clock && Monotone(steps[1..], steps[0].now))
  }

  // ---- Invariants ----

  /** The pool and the times of last use are about the same tenants, and a tenant's data source was
      made for that tenant. */
  ghost predicate PoolOk(s: State) {
    && s.maps.pool.Keys == s.maps.lastUsedAt.Keys
    && forall t <- s.maps.pool :: MadeFor(s, s.maps.pool[t], t)
  }

  ghost predicate MadeFor(s: State, source: Source, tenant: Tenant) {
    source < |s.inits| && s.inits[source].tenant == tenant && s.inits[source].settled == Some(true)
  }

  /** The pending entries are exactly the initialisations whose starters have not gone on, and while
      one is in flight its tenant is not in the pool. */
  ghost predicate PendingOk(s: State) {
    EntriesAreInits(s) && InitsAreEntries(s) && FlightsAreUnpooled(s)
  }

  ghost predicate EntriesAreInits(s: State) {
    forall t <- s.maps.pending ::
      var p := s.maps.pending[t]; p < |s.inits| && s.inits[p].tenant == t && !s.inits[p].resumed
  }

  ghost predicate InitsAreEntries(s: State) {
    forall p: Source | p < |s.inits| && !s.inits[p].resumed :: IsPending(s, p)
  }

  ghost predicate FlightsAreUnpooled(s: State) {
    forall p: Source | p < |s.inits| && s.inits[p].settled.None? ::
      !s.inits[p].resumed && s.inits[p].tenant !in s.maps.pool
  }

  ghost predicate IsPending(s: State, p: Source)
    requires p < |s.inits|
  {
    && s.inits[p].tenant in s.maps.pending && s.maps.pending[s.inits[p].tenant] == p
    && s.inits[p].owner in s.callers
    && s.callers[s.inits[p].owner] == Waiting(s.inits[p].tenant, p)
  }

  ghost predicate CallersOk(s: State) {
    forall c <- s.callers ::
      match s.callers[c]
      case Waiting(tenant, source) =>
        && source < |s.inits| && s.inits[source].tenant == tenant
        && (s.inits[source].owner == c ==> !s.inits[source].resumed)
      case Done(tenant, outcome) => outcome.Got? ==> MadeFor(s, outcome.source, tenant)
  }

  /** No serving of a pooled tenant is later than its recorded last use; and when a tenant was
      evicted, every serving before lay at least the limit before the round of eviction started. */
  ghost predicate TimesOk(s: State, clock: int) {
    && (forall v <- s.served :: v.at <= clock)
    && (forall t <- s.maps.lastUsedAt :: s.maps.lastUsedAt[t] <= clock)
    && (forall v <- s.served | v.tenant in s.maps.lastUsedAt :: v.at <= s.maps.lastUsedAt[v.tenant])
    && (forall e <- s.evictions :: EvictedOnlyIdle(s, e))
  }

  ghost predicate EvictedOnlyIdle(s: State, e: Eviction) {
    && e.limit > 0 && e.servingsBefore <= |s.served|
    && forall i | 0 <= i < e.servingsBefore && s.served[i].tenant == e.tenant ::
         s.served[i].at <= e.startedAt - e.limit
  }

  ghost predicate Inv(s: State, clock: int) {
    PoolOk(s) && PendingOk(s) && CallersOk(s) && TimesOk(s, clock)
  }

  /** At most one initialisation per tenant is in flight. */
  ghost predicate SingleFlight(s: State) {
    forall p: Source, q: Source | p < |s.inits| && q < |s.inits| && s.inits[p].settled.None? && s.inits[q].settled.None?
                                   && s.inits[p].tenant == s.inits[q].tenant :: p == q
  }

  lemma InvIsSingleFlight(s: State, clock: int)
    requires Inv(s, clock)
    ensures SingleFlight(s)
  {
    forall p: Source | p < |s.inits| && s.inits[p].settled.None? ensures s.maps.pending[s.inits[p].tenant] == p {
      assert IsPending(s, p);
    }
  }

  lemma LaterIsOk(s: State, clock: int, now: int)
    requires TimesOk(s, clock) && now >= clock
    ensures TimesOk(s, now)
  {
  }

  lemma ServedStaysOk(s: State, t: State, v: Serving, clock: int)
    requires TimesOk(s, clock) && v.at >= clock
    requires t.served == s.served + [v] && t.evictions == s.evictions
    requires t.maps.lastUsedAt == s.maps.lastUsedAt[v.tenant := v.at]
    ensures TimesOk(t, v.at)
  {
    forall e | e in t.evictions ensures EvictedOnlyIdle(t, e) {
      assert EvictedOnlyIdle(s, e);
    }
  }

  lemma BeginKeepsInv(s: State, caller: nat, tenant: Tenant, now: int, clock: int)
    requires Inv(s, clock) && now >= clock && caller !in s.callers
    ensures Inv(Begun(s, caller, tenant, now), now)
  {
    var t := Begun(s, caller, tenant, now);
    BeginKeepsPending(s, caller, tenant, now);
    var (maps, found) := Asked(s.maps, tenant, |s.inits|, s.alive, now);
    if found.Live? {
      ServedStaysOk(s, t, Serving(tenant, now), clock);
    } else {
      LaterIsOk(s, clock, now);
      forall e | e in t.evictions ensures EvictedOnlyIdle(t, e) {
        assert EvictedOnlyIdle(s, e);
      }
    }
  }

  lemma AskedIs(m: Maps, tenant: Tenant, created: Source, alive: set<Source>, now: int)
    requires m.pool.Keys == m.lastUsedAt.Keys
    ensures var (m', found) := Asked(m, tenant, created, alive, now);
            && m'.pool.Keys == m'.lastUsedAt.Keys
            && (forall t <- m'.pool :: t in m.pool && m'.pool[t] == m.pool[t])
            && m'.pending == (if found.Started? then m.pending[tenant := created] else m.pending)
            && (found.Live? ==> tenant in m.pool && found.source == m.pool[tenant])
            && (found.Joined? ==> tenant in m.pending && found.source == m.pending[tenant])
            && (found.Started? ==> tenant !in m.pending && tenant !in m'.pool)
  {
  }

  ghost predicate PoolShrinks(m: Maps, m': Maps) {
    m'.pool.Keys == m'.lastUsedAt.Keys && forall t <- m'.pool :: t in m.pool && m'.pool[t] == m.pool[t]
  }

  lemma NoStartKeepsPending(s: State, t: State, caller: nat)
    requires PoolOk(s) && PendingOk(s) && CallersOk(s) && caller !in s.callers
    requires PoolShrinks(s.maps, t.maps) && t.maps.pending == s.maps.pending && t.inits == s.inits
    requires caller in t.callers && t.callers == s.callers[caller := t.callers[caller]]
    requires match t.callers[caller]
             case Waiting(tenant, source) => tenant in s.maps.pending && source == s.maps.pending[tenant]
             case Done(tenant, outcome) => outcome.Got? && tenant in s.maps.pool && outcome.source == s.maps.pool[tenant]
    ensures PoolOk(t) && PendingOk(t) && CallersOk(t)
  {
    forall p: Source | p < |t.inits| && !t.inits[p].resumed ensures IsPending(t, p) {
      assert IsPending(s, p);
    }
    if t.callers[caller].Waiting? {
      assert IsPending(s, t.callers[caller].source);
    }
  }

  lemma StartKeepsPending(s: State, t: State, caller: nat, tenant: Tenant)
    requires PoolOk(s) && PendingOk(s) && CallersOk(s) && caller !in s.callers
    requires PoolShrinks(s.maps, t.maps) && tenant !in t.maps.pool && tenant !in s.maps.pending
    requires t.maps.pending == s.maps.pending[tenant := |s.inits|]
    requires t.inits == s.inits + [Init(tenant, caller, None, false)]
    requires t.callers == s.callers[caller := Waiting(tenant, |s.inits|)]
    ensures PoolOk(t) && PendingOk(t) && CallersOk(t)
  {
    forall p: Source | p < |t.inits| && !t.inits[p].resumed ensures IsPending(t, p) {
      if p < |s.inits| {
        assert IsPending(s, p);
      }
    }
    assert EntriesAreInits(t) && FlightsAreUnpooled(t) by {
      hide InitsAreEntries, CallersOk;
    }
  }

  lemma BeginKeepsPending(s: State, caller: nat, tenant: Tenant, now: int)
    requires PoolOk(s) && PendingOk(s) && CallersOk(s) && caller !in s.callers
    ensures var t := Begun(s, caller, tenant, now); PoolOk(t) && PendingOk(t) && CallersOk(t)
  {
    hide Asked, PendingOk, CallersOk;
    var t := Begun(s, caller, tenant, now);
    AskedIs(s.maps, tenant, |s.inits|, s.alive, now);
    if Asked(s.maps, tenant, |s.inits|, s.alive, now).1.Started? {
      StartKeepsPending(s, t, caller, tenant);
    } else {
      NoStartKeepsPending(s, t, caller);
    }
  }

  lemma SettleKeepsInv(s: State, source: Source, ok: bool, now: int, clock: int)
    requires Inv(s, clock) && now >= clock && source < |s.inits| && s.inits[source].settled.None?
    ensures Inv(Settled(s, source, ok, now), now)
  {
    hide PoolOk, PendingOk, CallersOk, TimesOk;
    var t := Settled(s, source, ok, now);
    SettleKeepsPending(s, source, ok, now, clock);
    if ok {
      ServedStaysOk(s, t, Serving(s.inits[source].tenant, now), clock);
    } else {
      UntouchedTimesStay(s, t, clock, now);
    }
  }

  lemma SettleKeepsPending(s: State, source: Source, ok: bool, now: int, clock: int)
    requires Inv(s, clock) && source < |s.inits| && s.inits[source].settled.None?
    ensures var t := Settled(s, source, ok, now); PoolOk(t) && PendingOk(t) && CallersOk(t)
  {
    hide TimesOk;
    var t := Settled(s, source, ok, now);
    InvIsSingleFlight(s, clock);
    assert InitsAreEntries(t) by {
      hide PoolOk, CallersOk, EntriesAreInits, FlightsAreUnpooled, SingleFlight;
      forall p: Source | p < |t.inits| && !t.inits[p].resumed ensures IsPending(t, p) {
        assert IsPending(s, p);
      }
    }
    assert PoolOk(t) && CallersOk(t) by {
      hide PendingOk, SingleFlight;
    }
    hide PoolOk, CallersOk, InitsAreEntries;
  }

  lemma UntouchedTimesStay(s: State, t: State, clock: int, now: int)
    requires TimesOk(s, clock) && now >= clock
    requires t.served == s.served && t.evictions == s.evictions && t.maps.lastUsedAt == s.maps.lastUsedAt
    ensures TimesOk(t, now)
  {
    forall e | e in t.evictions ensures EvictedOnlyIdle(t, e) {
      assert EvictedOnlyIdle(s, e);
    }
  }

  lemma ResumeKeepsInv(s: State, caller: nat, now: int, clock: int)
    requires Inv(s, clock) && now >= clock
    requires caller in s.callers && s.callers[caller].Waiting? && s.callers[caller].source < |s.inits|
    requires s.inits[s.callers[caller].source].settled.Some?
    ensures Inv(Resumed(s, caller), now)
  {
    hide PoolOk, PendingOk, CallersOk, TimesOk;
    UntouchedTimesStay(s, Resumed(s, caller), clock, now);
    ResumeKeepsPending(s, caller);
  }

  lemma ResumeKeepsPending(s: State, caller: nat)
    requires PoolOk(s) && PendingOk(s) && CallersOk(s)
    requires caller in s.callers && s.callers[caller].Waiting? && s.callers[caller].source < |s.inits|
    requires s.inits[s.callers[caller].source].settled.Some?
    ensures var t := Resumed(s, caller); PoolOk(t) && PendingOk(t) && CallersOk(t)
  {
    var t := Resumed(s, caller);
    var source := s.callers[caller].source;
    forall p: Source | p < |t.inits| && !t.inits[p].resumed ensures IsPending(t, p) {
      assert IsPending(s, p);
      if !s.inits[source].resumed {
        assert IsPending(s, source);
      }
    }
  }

  lemma EvictKeepsInv(s: State, tenant: Tenant, startedAt: int, limit: int, now: int, clock: int)
    requires Inv(s, clock) && now >= clock
    ensures Inv(Evicted(s, tenant, startedAt, limit), now)
  {
    var t := Evicted(s, tenant, startedAt, limit);
    forall p: Source | p < |t.inits| && !t.inits[p].resumed ensures IsPending(t, p) {
      assert IsPending(s, p);
    }
    forall e | e in t.evictions ensures EvictedOnlyIdle(t, e) {
      if e in s.evictions {
        assert EvictedOnlyIdle(s, e);
      }
    }
  }

  lemma LostKeepsInv(s: State, source: Source, now: int)
    requires Inv(s, now)
    ensures Inv(s.(alive := s.alive - {source}), now)
  {
    var t := s.(alive := s.alive - {source});
    forall p: Source | p < |t.inits| && !t.inits[p].resumed ensures IsPending(t, p) {
      assert IsPending(s, p);
    }
    forall e | e in t.evictions ensures EvictedOnlyIdle(t, e) {
      assert EvictedOnlyIdle(s, e);
    }
  }

  lemma NextKeepsInv(s: State, step: Step, now: int, clock: int)
    requires Inv(s, clock) && now >= clock
    ensures Inv(Next(s, step, now), now)
  {
    hide Begun, Settled, Resumed, Evicted, PoolOk, PendingOk, CallersOk, TimesOk;
    LaterIsOk(s, clock, now);
    match step {
      case Begin(caller, tenant) => if caller !in s.callers { BeginKeepsInv(s, caller, tenant, now, clock); }
      case Settle(source, ok) =>
        if source < |s.inits| && s.inits[source].settled.None? { SettleKeepsInv(s, source, ok, now, clock); }
      case Resume(caller) =>
        if caller in s.callers && s.callers[caller].Waiting? && s.callers[caller].source < |s.inits|
           && s.inits[s.callers[caller].source].settled.Some? {
          ResumeKeepsInv(s, caller, now, clock);
        }
      case Evict(tenant, startedAt, limit) => EvictKeepsInv(s, tenant, startedAt, limit, now, clock);
      case Lost(source) => LostKeepsInv(s, source, now);
    }
  }

  /** In every interleaving: at most one initialisation per tenant is in flight, the pool and the
      times of last use hold the same tenants, nobody is given another tenant's data source, and
      only tenants that nobody was served for the given time were evicted. */
  lemma {:induction false} RunKeepsInv(s: State, steps: seq<Timed>, clock: int) returns (last: int)
    requires Inv(s, clock) && Monotone(steps, clock)
    ensures Inv(Run(s, steps), last) && SingleFlight(Run(s, steps))
    decreases |steps|
  {
    hide Inv, Next, SingleFlight;
    last := clock;
    if steps != [] {
      NextKeepsInv(s, steps[0].step, steps[0].now, clock);
      last := RunKeepsInv(Next(s, steps[0].step, steps[0].now), steps[1..], steps[0].now);
    } else {
      InvIsSingleFlight(s, clock);
    }
  }

  lemma StartKeepsInv(clock: int)
    ensures Inv(Start(), clock)
  {
  }

  /** The same for every run from the empty pool. */
  lemma RunFromStartKeepsInv(steps: seq<Timed>, clock: int) returns (last: int)
    requires Monotone(steps, clock)
    ensures Inv(Run(Start(), steps), last) && SingleFlight(Run(Start(), steps))
  {
    hide *;
    StartKeepsInv(clock);
    last := RunKeepsInv(Start(), steps, clock);
  }

  // ---- Sharing one outcome ----

  /** A caller waits for an initialisation of its tenant, or has had its outcome. */
  ghost predicate Shares(s: State, caller: nat, source: Source) {
    && source < |s.inits| && caller in s.callers && s.callers[caller].tenant == s.inits[source].tenant
    && match s.callers[caller]
       case Waiting(_, p) => p == source
       case Done(_, outcome) => s.inits[source].settled.Some? && outcome == OutcomeOf(s.inits[source], source)
  }

  lemma NextKeepsShares(s: State, step: Step, now: int, caller: nat, source: Source)
    requires Shares(s, caller, source)
    ensures Shares(Next(s, step, now), caller, source)
    ensures Next(s, step, now).inits[source].tenant == s.inits[source].tenant
    ensures s.inits[source].settled.Some? ==> Next(s, step, now).inits[source].settled == s.inits[source].settled
  {
    hide IsIdle;
  }

  lemma {:induction false} RunKeepsShares(s: State, steps: seq<Timed>, caller: nat, source: Source)
    requires Shares(s, caller, source)
    ensures Shares(Run(s, steps), caller, source)
    ensures Run(s, steps).inits[source].tenant == s.inits[source].tenant
    ensures s.inits[source].settled.Some? ==> Run(s, steps).inits[source].settled == s.inits[source].settled
    decreases |steps|
  {
    hide Next;
    if steps != [] {
      NextKeepsShares(s, steps[0].step, steps[0].now, caller, source);
      RunKeepsShares(Next(s, steps[0].step, steps[0].now), steps[1..], caller, source);
    }
  }

  /** A caller that arrives while its tenant's data source is being initialised starts nothing and,
      however the run goes on, ends with the outcome of that initialisation if it ends. */
  lemma ArrivingCallerShares(s: State, clock: int, caller: nat, source: Source, now: int, steps: seq<Timed>)
    requires Inv(s, clock) && caller !in s.callers
    requires source < |s.inits| && s.inits[source].settled.None?
    ensures var t := Next(s, Begin(caller, s.inits[source].tenant), now);
            t.inits == s.inits && t.maps == s.maps && Shares(Run(t, steps), caller, source)
  {
    hide Run;
    assert IsPending(s, source);
    var t := Next(s, Begin(caller, s.inits[source].tenant), now);
    RunKeepsShares(t, steps, caller, source);
  }

  /** A failure does not stick: when the caller that started a failed initialisation has gone on,
      the next request for the tenant starts a new one. */
  lemma FailureDoesNotStick(s: State, clock: int, source: Source, caller: nat, now: int)
    requires Inv(s, clock) && caller !in s.callers
    requires source < |s.inits| && s.inits[source].settled == Some(false) && !s.inits[source].resumed
    requires s.inits[source].tenant !in s.maps.pool
    ensures var tenant := s.inits[source].tenant;
            var t := Next(Next(s, Resume(s.inits[source].owner), now), Begin(caller, tenant), now);
            && |t.inits| == |s.inits| + 1 && t.inits[|s.inits|] == Init(tenant, caller, None, false)
            && t.callers[caller] == Waiting(tenant, |s.inits|)
  {
    assert IsPending(s, source);
  }

  /** When an initialisation ends, its data source is pooled if it succeeded; and each of the callers
      that wait for it is given its outcome when it goes on, whatever happens in between. */
  lemma WaitingCallerIsAnswered(s: State, clock: int, caller: nat, source: Source, ok: bool, now: int,
                                between: seq<Timed>, later: int)
    requires Inv(s, clock) && now >= clock
    requires source < |s.inits| && s.inits[source].settled.None?
    requires caller in s.callers && s.callers[caller].Waiting? && s.callers[caller].source == source
    ensures var t, tenant := Next(s, Settle(source, ok), now), s.inits[source].tenant;
            && t.maps == (if ok then s.maps.(pool := s.maps.pool[tenant := source],
                                             lastUsedAt := s.maps.lastUsedAt[tenant := now]) else s.maps)
            && (ok ==> Serves(t, tenant))
            && var u := Next(Run(t, between), Resume(caller), later);
               caller in u.callers && u.callers[caller] == Done(tenant, if ok then Got(source) else Failed)
  {
    hide Run, PoolOk, PendingOk, TimesOk;
    assert Shares(s, caller, source);
    var t := Next(s, Settle(source, ok), now);
    NextKeepsShares(s, Settle(source, ok), now, caller, source);
    RunKeepsShares(t, between, caller, source);
  }

  // ---- A data source is created only when there is none ----

  /** The pool has a live data source for the tenant. */
  predicate Serves(s: State, tenant: Tenant) {
    tenant in s.maps.pool && s.maps.pool[tenant] in s.alive
  }

  /** A request for a tenant with a live data source in the pool is given that one at once, for good;
      nothing is started or dropped, and the tenant counts as used just now. */
  lemma PooledIsServed(s: State, caller: nat, tenant: Tenant, now: int, steps: seq<Timed>)
    requires caller !in s.callers && Serves(s, tenant)
    ensures var t := Next(s, Begin(caller, tenant), now);
            && t.inits == s.inits && t.alive == s.alive && t.evictions == s.evictions
            && t.maps.pool == s.maps.pool && t.maps.pending == s.maps.pending
            && t.maps.lastUsedAt == s.maps.lastUsedAt[tenant := now]
            && t.callers == s.callers[caller := Done(tenant, Got(s.maps.pool[tenant]))]
            && t.served == s.served + [Serving(tenant, now)]
            && caller in Run(t, steps).callers && Run(t, steps).callers[caller] == t.callers[caller]
  {
    hide Run;
    AnsweredStays(Next(s, Begin(caller, tenant), now), steps, caller);
  }

  lemma {:induction false} AnsweredStays(s: State, steps: seq<Timed>, caller: nat)
    requires caller in s.callers && s.callers[caller].Done?
    ensures caller in Run(s, steps).callers && Run(s, steps).callers[caller] == s.callers[caller]
    decreases |steps|
  {
    if steps != [] {
      var t := Next(s, steps[0].step, steps[0].now);
      assert caller in t.callers && t.callers[caller] == s.callers[caller];
      hide Next;
      AnsweredStays(t, steps[1..], caller);
    }
  }

  /** A visit of the eviction takes a pooled tenant out exactly when it was not used for the given
      time before the round started, and touches nothing else. */
  lemma EvictsIffIdle(s: State, clock: int, tenant: Tenant, startedAt: int, limit: int, now: int)
    requires Inv(s, clock) && tenant in s.maps.pool && startedAt <= now && limit > 0
    ensures var t := Next(s, Evict(tenant, startedAt, limit), now);
            && tenant in s.maps.lastUsedAt
            && (tenant !in t.maps.pool <==> s.maps.lastUsedAt[tenant] + limit <= startedAt)
            && (tenant in t.maps.pool ==> t == s)
            && t.inits == s.inits && t.alive == s.alive && t.callers == s.callers
            && t.maps.pending == s.maps.pending && t.maps.pool.Keys == t.maps.lastUsedAt.Keys
            && (forall other | other != tenant && other in s.maps.pool ::
                  && other in t.maps.pool && t.maps.pool[other] == s.maps.pool[other]
                  && t.maps.lastUsedAt[other] == s.maps.lastUsedAt[other])
  {
    hide PendingOk, CallersOk, TimesOk;
    assert tenant in s.maps.pool.Keys;
  }

  function InitsOf(s: State, tenant: Tenant): set<Source> {
    set p: Source | p < |s.inits| && s.inits[p].tenant == tenant
  }

  function FailedOf(s: State, tenant: Tenant): set<Source> {
    set p: Source | p < |s.inits| && s.inits[p].tenant == tenant && s.inits[p].settled == Some(false)
  }

  function FlyingOf(s: State, tenant: Tenant): set<Source> {
    set p: Source | p < |s.inits| && s.inits[p].tenant == tenant && s.inits[p].settled.None?
  }

  /** What a tenant has: a live data source in the pool, or one in the making. */
  function Active(s: State, tenant: Tenant): nat {
    |FlyingOf(s, tenant)| + if Serves(s, tenant) then 1 else 0
  }

  /** A step that is not a request takes the pooled data source of a tenant away: it is evicted, or it
      is lost. */
  ghost predicate TakesAway(s: State, step: Step, now: int, tenant: Tenant) {
    (step.Evict? || step.Lost?) && Serves(s, tenant) && !Serves(Next(s, step, now), tenant)
  }

  ghost function Takings(s: State, steps: seq<Timed>, tenant: Tenant): nat
    decreases |steps|
  {
    if steps == [] then 0
    else
      (if TakesAway(s, steps[0].step, steps[0].now, tenant) then 1 else 0)
      + Takings(Next(s, steps[0].step, steps[0].now), steps[1..], tenant)
  }

  /** The initialisations of a tenant that neither failed nor have made what it still has. */
  function Spent(s: State, tenant: Tenant): int {
    |InitsOf(s, tenant)| - |FailedOf(s, tenant)| - Active(s, tenant)
  }

  lemma SameInitsSameSets(s: State, t: State, tenant: Tenant)
    requires |t.inits| == |s.inits|
    requires forall p: Source | p < |s.inits| ::
               t.inits[p].tenant == s.inits[p].tenant && t.inits[p].settled == s.inits[p].settled
    ensures InitsOf(t, tenant) == InitsOf(s, tenant) && FailedOf(t, tenant) == FailedOf(s, tenant)
    ensures FlyingOf(t, tenant) == FlyingOf(s, tenant)
  {
  }

  lemma StartedSets(s: State, t: State, init: Init, tenant: Tenant)
    requires t.inits == s.inits + [init] && init.settled.None?
    ensures FailedOf(t, tenant) == FailedOf(s, tenant)
    ensures var more := if init.tenant == tenant then {|s.inits|} else {};
            && InitsOf(t, tenant) == InitsOf(s, tenant) + more && FlyingOf(t, tenant) == FlyingOf(s, tenant) + more
            && InitsOf(s, tenant) !! more && FlyingOf(s, tenant) !! more
  {
  }

  lemma SettledSets(s: State, source: Source, ok: bool, now: int, tenant: Tenant)
    requires source < |s.inits| && s.inits[source].settled.None?
    ensures var t := Settled(s, source, ok, now);
            var it := if s.inits[source].tenant == tenant then {source} else {};
            && InitsOf(t, tenant) == InitsOf(s, tenant)
            && FailedOf(t, tenant) == FailedOf(s, tenant) + (if ok then {} else it)
            && FlyingOf(t, tenant) == FlyingOf(s, tenant) - it
            && it <= FlyingOf(s, tenant) && it !! FailedOf(s, tenant)
  {
  }

  lemma SettledSpends(s: State, source: Source, ok: bool, now: int, clock: int, tenant: Tenant)
    requires Inv(s, clock) && source < |s.inits| && s.inits[source].settled.None?
    ensures Spent(Settled(s, source, ok, now), tenant) == Spent(s, tenant)
  {
    hide InitsOf, FailedOf, FlyingOf, CallersOk, TimesOk;
    SettledSets(s, source, ok, now, tenant);
    var t := Settled(s, source, ok, now);
    if s.inits[source].tenant == tenant {
      assert tenant !in s.maps.pool by { hide EntriesAreInits, InitsAreEntries, PoolOk; }
      assert Serves(t, tenant) <==> ok;
    } else if Serves(t, tenant) {
      assert MadeFor(s, s.maps.pool[tenant], tenant);
    }
  }

  lemma BegunSpends(s: State, caller: nat, tenant: Tenant, now: int, clock: int, other: Tenant)
    requires Inv(s, clock)
    ensures Spent(Begun(s, caller, tenant, now), other) == Spent(s, other)
  {
    hide InitsOf, FailedOf, FlyingOf, PoolOk, CallersOk, TimesOk, PendingOk;
    var t := Begun(s, caller, tenant, now);
    if t.inits == s.inits {
      SameInitsSameSets(s, t, other);
    } else {
      StartedSets(s, t, Init(tenant, caller, None, false), other);
    }
  }

  lemma NextSpends(s: State, step: Step, now: int, clock: int, tenant: Tenant)
    requires Inv(s, clock) && now >= clock
    ensures Spent(Next(s, step, now), tenant)
         == Spent(s, tenant) + (if TakesAway(s, step, now, tenant) then 1 else 0)
  {
    hide InitsOf, FailedOf, FlyingOf, PoolOk, CallersOk, TimesOk, PendingOk, Begun, Settled;
    var t := Next(s, step, now);
    match step {
      case Begin(caller, asked) => BegunSpends(s, caller, asked, now, clock, tenant);
      case Settle(source, ok) =>
        if source < |s.inits| && s.inits[source].settled.None? {
          SettledSpends(s, source, ok, now, clock, tenant);
        }
      case _ => SameInitsSameSets(s, t, tenant);
    }
  }

  lemma {:induction false} RunSpends(s: State, steps: seq<Timed>, clock: int, tenant: Tenant)
    requires Inv(s, clock) && Monotone(steps, clock)
    ensures Spent(Run(s, steps), tenant) == Spent(s, tenant) + Takings(s, steps, tenant)
    decreases |steps|
  {
    hide Inv, Next, Spent, TakesAway;
    if steps != [] {
      NextKeepsInv(s, steps[0].step, steps[0].now, clock);
      NextSpends(s, steps[0].step, steps[0].now, clock, tenant);
      RunSpends(Next(s, steps[0].step, steps[0].now), steps[1..], steps[0].now, tenant);
    }
  }

  lemma ActiveIsOne(s: State, clock: int, tenant: Tenant)
    requires Inv(s, clock)
    ensures Active(s, tenant) <= 1
  {
    hide PoolOk, CallersOk, TimesOk, EntriesAreInits, InitsAreEntries;
    InvIsSingleFlight(s, clock);
    var flying := FlyingOf(s, tenant);
    if p :| p in flying {
      assert flying == {p};
    }
  }

  /** In every run from the empty pool a tenant is initialised exactly as often as initialisations of it
      have failed and its live data source was evicted or lost, and once more if it has one or one is in
      the making: never for a request that could have been served. */
  lemma InitialisedOnlyWhenNeeded(steps: seq<Timed>, clock: int, tenant: Tenant)
    requires Monotone(steps, clock)
    ensures var t := Run(Start(), steps);
            && |InitsOf(t, tenant)|
               == |FailedOf(t, tenant)| + Takings(Start(), steps, tenant) + Active(t, tenant)
            && Active(t, tenant) <= 1
  {
    hide Inv, Run, Takings, Monotone;
    StartKeepsInv(clock);
    RunSpends(Start(), steps, clock, tenant);
    var last := RunKeepsInv(Start(), steps, clock);
    ActiveIsOne(Run(Start(), steps), last, tenant);
    assert InitsOf(Start(), tenant) == {} && FailedOf(Start(), tenant) == {} && FlyingOf(Start(), tenant) == {};
  }
}
