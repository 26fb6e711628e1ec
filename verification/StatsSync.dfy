/** The delayed retries that fetch the statistics of an import whose vectors were not ready. */
module StatsSync {

  type TaskId = string

  const DELAYED_STATS_SYNC_DELAYS_MS := [10_000, 30_000, 90_000, 180_000, 300_000]

  /** A chain of attempts waits for its timer, then synchronises; when it has decided to stop it has
      still to release its tenant context. `fired` counts its timers that went off. */
  datatype Phase = Waiting(delayMs: int) | Syncing | Closing | Ended

  datatype Chain = Chain(task: TaskId, attempt: nat, phase: Phase, fired: nat)

  datatype State = State(scheduled: set<TaskId>, chains: seq<Chain>)

  function Start(): State { State({}, []) }

  function Attempted(s: State, c: nat, attempt: nat): State
    requires c < |s.chains|
  {
    var chain := s.chains[c];
    if attempt < |DELAYED_STATS_SYNC_DELAYS_MS| then
      s.(chains := s.chains[c := chain.(attempt := attempt, phase := Waiting(DELAYED_STATS_SYNC_DELAYS_MS[attempt]))])
    else State(s.scheduled - {chain.task}, s.chains[c := chain.(phase := Ended)])
  }

  function Scheduled(s: State, task: TaskId): State {
    if task in s.scheduled then s
    else Attempted(State(s.scheduled + {task}, s.chains + [Chain(task, 0, Ended, 0)]), |s.chains|, 0)
  }

  class StatsScheduler {
    var scheduledStatsSyncTaskIds: set<TaskId>
    ghost var chains: seq<Chain>

    constructor ()
      ensures StateNow() == Start()
    {
      scheduledStatsSyncTaskIds, chains := {}, [];
    }

    ghost function StateNow(): State
      reads this
    {
      State(scheduledStatsSyncTaskIds, chains)
    }

    method ScheduleDelayedStatsSync(task: TaskId)
      modifies this
      ensures StateNow() == Scheduled(old(StateNow()), task)
    {
      if task in scheduledStatsSyncTaskIds {
        return;
      }
      scheduledStatsSyncTaskIds := scheduledStatsSyncTaskIds + {task};
      chains := chains + [Chain(task, 0, Ended, 0)];
      var _ := ScheduleDelayedStatsSyncAttempt(task, 0, |chains| - 1);
    }

    /** Sets the timer of an attempt, or gives up after the last delay. */
    method ScheduleDelayedStatsSyncAttempt(task: TaskId, attempt: nat, ghost c: nat) returns (delayMs: int)
      requires c < |chains| && chains[c].task == task
      modifies this
      ensures StateNow() == Attempted(old(StateNow()), c, attempt)
      ensures delayMs > 0 <==> chains[c].phase.Waiting?
      ensures delayMs > 0 ==> chains[c].phase.delayMs == delayMs
    {
      if attempt >= |DELAYED_STATS_SYNC_DELAYS_MS| {
        scheduledStatsSyncTaskIds := scheduledStatsSyncTaskIds - {task};
        chains := chains[c := chains[c].(phase := Ended)];
        return 0;
      }
      delayMs := DELAYED_STATS_SYNC_DELAYS_MS[attempt];
      chains := chains[c := chains[c].(attempt := attempt, phase := Waiting(delayMs))];
    }
  }

  // ---- Every interleaving ----

  /** `Retry` is an attempt that threw, or found no vectors yet; `Stop` one that found its import done
      with or no candidate any more, and took its id out; `Release` the end of the latter. */
  datatype Step =
    | Schedule(task: TaskId)
    | Fire(chain: nat)
    | Retry(chain: nat)
    | Stop(chain: nat)
    | Release(chain: nat, ok: bool)

  function WithPhase(s: State, c: nat, phase: Phase): State
    requires c < |s.chains|
  {
    s.(chains := s.chains[c := s.chains[c].(phase := phase)])
  }

  /** A step that is not possible in a state changes nothing. */
  function Next(s: State, step: Step): State {
    match step
    case Schedule(task) => Scheduled(s, task)
    case Fire(c) =>
      if c < |s.chains| && s.chains[c].phase.Waiting? then
        s.(chains := s.chains[c := s.chains[c].(phase := Syncing, fired := s.chains[c].fired + 1)])
      else s
    case Retry(c) =>
      if c < |s.chains| && s.chains[c].phase.Syncing? then Attempted(s, c, s.chains[c].attempt + 1) else s
    case Stop(c) =>
      if c < |s.chains| && s.chains[c].phase.Syncing? then
        WithPhase(s.(scheduled := s.scheduled - {s.chains[c].task}), c, Closing)
      else s
    case Release(c, ok) =>
      if c < |s.chains| && s.chains[c].phase.Closing? then
        if ok then WithPhase(s, c, Ended) else Attempted(s, c, s.chains[c].attempt + 1)
      else s
  }

  function Run(s: State, steps: seq<Step>): State
    decreases |steps|
  {
    if steps == [] then s else Run(Next(s, steps[0]), steps[1..])
  }

  // ---- One live chain per task ----

  predicate Live(s: State, c: nat) {
    c < |s.chains| && (s.chains[c].phase.Waiting? || s.chains[c].phase.Syncing?)
  }

  ghost predicate HasLiveChain(s: State, task: TaskId) {
    exists c: nat :: Live(s, c) && s.chains[c].task == task
  }

  /** A task has at most one live chain, and its id is in the set exactly while it has one. */
  ghost predicate OneChain(s: State) {
    && (forall c: nat | Live(s, c) :: s.chains[c].task in s.scheduled)
    && (forall task <- s.scheduled :: HasLiveChain(s, task))
    && (forall c: nat, d: nat | Live(s, c) && Live(s, d) && s.chains[c].task == s.chains[d].task :: c == d)
  }

  /** A failed release of a chain that has stopped, unless it has no delay left and its task has no
      new chain. */
  predicate BadRelease(s: State, step: Step) {
    && step.Release? && !step.ok && step.chain < |s.chains| && s.chains[step.chain].phase.Closing?
    && (s.chains[step.chain].attempt + 1 < |DELAYED_STATS_SYNC_DELAYS_MS| || s.chains[step.chain].task in s.scheduled)
  }

  lemma LiveElsewhere(s: State, t: State, c: nat)
    requires |t.chains| == |s.chains| || (c == |s.chains| && |t.chains| == c + 1)
    requires forall d: nat | d < |s.chains| && d != c :: t.chains[d] == s.chains[d]
    requires c < |t.chains|
    requires c >= |s.chains| || t.chains[c].task == s.chains[c].task
    ensures forall d: nat | d != c :: Live(t, d) <==> Live(s, d)
    ensures forall task | HasLiveChain(s, task) && (Live(s, c) ==> s.chains[c].task != task) :: HasLiveChain(t, task)
  {
    forall task | HasLiveChain(s, task) && (Live(s, c) ==> s.chains[c].task != task) ensures HasLiveChain(t, task) {
      var d: nat :| Live(s, d) && s.chains[d].task == task;
      assert Live(t, d);
    }
  }

  lemma ScheduleKeepsOneChain(s: State, task: TaskId)
    requires OneChain(s)
    ensures OneChain(Scheduled(s, task))
  {
    var t := Scheduled(s, task);
    if task !in s.scheduled {
      LiveElsewhere(s, t, |s.chains|);
      assert Live(t, |s.chains|);
    }
  }

  lemma ChainKeepsOneChain(s: State, step: Step)
    requires OneChain(s) && !step.Schedule? && !step.Release?
    ensures OneChain(Next(s, step))
  {
    var t, c := Next(s, step), step.chain;
    if Live(s, c) {
      LiveElsewhere(s, t, c);
      assert Live(t, c) ==> HasLiveChain(t, s.chains[c].task);
    }
  }

  lemma ReleaseKeepsOneChainIff(s: State, step: Step)
    requires OneChain(s) && step.Release?
    ensures OneChain(Next(s, step)) <==> !BadRelease(s, step)
  {
    var t, c := Next(s, step), step.chain;
    if c < |s.chains| && s.chains[c].phase.Closing? {
      var task := s.chains[c].task;
      LiveElsewhere(s, t, c);
      if task in s.scheduled {
        var d: nat :| Live(s, d) && s.chains[d].task == task;
        assert Live(t, d);
      }
    }
  }

  /** From a state where tasks and chains agree, every step but a bad release leads to one, and a bad
      release never does. */
  lemma NextKeepsOneChainIff(s: State, step: Step)
    requires OneChain(s)
    ensures OneChain(Next(s, step)) <==> !BadRelease(s, step)
  {
    hide OneChain;
    match step
    case Schedule(task) => ScheduleKeepsOneChain(s, task);
    case Release(_, _) => ReleaseKeepsOneChainIff(s, step);
    case _ => ChainKeepsOneChain(s, step);
  }

  ghost predicate AlwaysOneChain(s: State, steps: seq<Step>)
    decreases |steps|
  {
    OneChain(s) && (steps == [] || AlwaysOneChain(Next(s, steps[0]), steps[1..]))
  }

  predicate NoBadRelease(s: State, steps: seq<Step>)
    decreases |steps|
  {
    steps == [] || (!BadRelease(s, steps[0]) && NoBadRelease(Next(s, steps[0]), steps[1..]))
  }

  /** In an interleaving every task has at all times at most one live chain, with its id in the set
      exactly while it has it, if and only if no release goes wrong in the one way that matters. */
  lemma {:induction false} RunKeepsOneChainIff(s: State, steps: seq<Step>)
    requires OneChain(s)
    ensures AlwaysOneChain(s, steps) <==> NoBadRelease(s, steps)
    decreases |steps|
  {
    hide OneChain, BadRelease, Next;
    if steps != [] {
      NextKeepsOneChainIff(s, steps[0]);
      if OneChain(Next(s, steps[0])) {
        RunKeepsOneChainIff(Next(s, steps[0]), steps[1..]);
      }
    }
  }

  lemma StartHasOneChain()
    ensures OneChain(Start())
  {
  }

  /** The same for every interleaving from the start. */
  lemma RunFromStartKeepsOneChainIff(steps: seq<Step>)
    ensures AlwaysOneChain(Start(), steps) <==> NoBadRelease(Start(), steps)
  {
    hide *;
    StartHasOneChain();
    RunKeepsOneChainIff(Start(), steps);
  }

  /** A failed release brings its chain back to life without its id: scheduling that import again then
      starts a second one. */
  lemma FailedReleaseDoublesTheChain(task: TaskId)
    ensures var s := Run(Start(), [Schedule(task), Fire(0), Stop(0), Release(0, false), Schedule(task)]);
            Live(s, 0) && Live(s, 1) && s.chains[0].task == s.chains[1].task == task
  {
    var s1 := Next(Start(), Schedule(task));
    var s2 := Next(s1, Fire(0));
    var s3 := Next(s2, Stop(0));
    var s4 := Next(s3, Release(0, false));
    var s5 := Next(s4, Schedule(task));
    var steps := [Schedule(task), Fire(0), Stop(0), Release(0, false), Schedule(task)];
    assert Run(Start(), steps) == Run(s1, steps[1..]);
    assert Run(s1, steps[1..]) == Run(s2, steps[2..]) by { assert steps[1..][1..] == steps[2..]; }
    assert Run(s2, steps[2..]) == Run(s3, steps[3..]) by { assert steps[2..][1..] == steps[3..]; }
    assert Run(s3, steps[3..]) == Run(s4, steps[4..]) by { assert steps[3..][1..] == steps[4..]; }
    assert Run(s4, steps[4..]) == Run(s5, []) by { assert steps[4..][1..] == []; }
  }

  // ---- Every chain ends ----

  ghost predicate AttemptsOk(s: State) {
    forall chain <- s.chains ::
      && chain.attempt < |DELAYED_STATS_SYNC_DELAYS_MS|
      && chain.fired == chain.attempt + (if chain.phase.Waiting? then 0 else 1)
      && (chain.phase.Waiting? ==> chain.phase.delayMs == DELAYED_STATS_SYNC_DELAYS_MS[chain.attempt])
  }

  lemma NextKeepsAttempts(s: State, step: Step)
    requires AttemptsOk(s)
    ensures AttemptsOk(Next(s, step))
  {
    if !step.Schedule? && step.chain < |s.chains| {
      assert s.chains[step.chain] in s.chains;
    }
  }

  /** Whatever fails, a chain fires at most five times, the n-th time after the n-th delay. */
  lemma {:induction false} RunKeepsAttempts(s: State, steps: seq<Step>)
    requires AttemptsOk(s)
    ensures AttemptsOk(Run(s, steps))
    ensures forall chain <- Run(s, steps).chains :: chain.fired <= 5
    decreases |steps|
  {
    hide Next;
    if steps != [] {
      NextKeepsAttempts(s, steps[0]);
      RunKeepsAttempts(Next(s, steps[0]), steps[1..]);
    }
  }

  /** How many steps a chain can still take. */
  function Weight(chain: Chain): nat {
    var left := 3 * (|DELAYED_STATS_SYNC_DELAYS_MS| as int - chain.attempt);
    if left < 3 then 0
    else match chain.phase
         case Waiting(_) => left
         case Syncing => left - 1
         case Closing => left - 2
         case Ended => 0
  }

  function Potential(chains: seq<Chain>): nat {
    if chains == [] then 0 else Potential(chains[..|chains| - 1]) + Weight(chains[|chains| - 1])
  }

  lemma {:induction false} PotentialOfUpdate(chains: seq<Chain>, c: nat, chain: Chain)
    requires c < |chains|
    ensures Potential(chains[c := chain]) == Potential(chains) - Weight(chains[c]) + Weight(chain)
  {
    var last := |chains| - 1;
    var updated := chains[c := chain];
    if c < last {
      PotentialOfUpdate(chains[..last], c, chain);
      assert updated[..last] == chains[..last][c := chain];
    } else {
      assert updated[..last] == chains[..last];
    }
  }

  lemma NextUsesPotential(s: State, step: Step)
    requires AttemptsOk(s) && !step.Schedule? && Next(s, step) != s
    ensures Potential(Next(s, step).chains) < Potential(s.chains)
  {
    hide Potential;
    var t, c := Next(s, step), step.chain;
    assert s.chains[c] in s.chains;
    PotentialOfUpdate(s.chains, c, t.chains[c]);
    assert t.chains == s.chains[c := t.chains[c]];
  }

  predicate AllEffective(s: State, steps: seq<Step>)
    decreases |steps|
  {
    steps == [] || (Next(s, steps[0]) != s && AllEffective(Next(s, steps[0]), steps[1..]))
  }

  /** Unless tasks are scheduled again, all chains come to their end: a run in which every step
      changes something is no longer than the steps the chains have left, fifteen for a new one. */
  lemma {:induction false} ChainsEnd(s: State, steps: seq<Step>)
    requires AttemptsOk(s) && AllEffective(s, steps)
    requires forall step <- steps :: !step.Schedule?
    ensures |steps| + Potential(Run(s, steps).chains) <= Potential(s.chains)
    decreases |steps|
  {
    hide Next, Potential, AttemptsOk;
    if steps != [] {
      NextKeepsAttempts(s, steps[0]);
      NextUsesPotential(s, steps[0]);
      ChainsEnd(Next(s, steps[0]), steps[1..]);
    }
  }

  /** From the start: every chain fires at most five times, and without further scheduling all chains
      come to their end, whatever fails on the way. */
  lemma ChainsFromStartEnd(before: seq<Step>, after: seq<Step>)
    requires AllEffective(Run(Start(), before), after) && forall step <- after :: !step.Schedule?
    ensures forall chain <- Run(Start(), before).chains :: chain.fired <= 5
    ensures |after| <= Potential(Run(Start(), before).chains)
  {
    hide Run, AllEffective, Potential;
    assert AttemptsOk(Start());
    RunKeepsAttempts(Start(), before);
    ChainsEnd(Run(Start(), before), after);
  }

  // ---- Every attempt takes place ----

  /** Rounds in which the timer of a chain goes off and its attempt fails, or finds no vectors. */
  function Failures(c: nat, n: nat): seq<Step> {
    if n == 0 then [] else [Fire(c), Retry(c)] + Failures(c, n - 1)
  }

  lemma RunOfTwo(s: State, first: Step, second: Step, rest: seq<Step>)
    ensures Run(s, [first, second] + rest) == Run(Next(Next(s, first), second), rest)
  {
    hide Next;
    var steps := [first, second] + rest;
    assert steps[1..] == [second] + rest && steps[1..][1..] == rest;
    assert Run(Next(s, first), steps[1..]) == Run(Next(Next(s, first), second), steps[1..][1..]);
  }

  /** As long as its attempts fail a chain goes through all the delays, one after the other, and with
      the last of them it ends and frees the id of its task. */
  lemma {:induction false} FailuresTakeEveryDelay(s: State, c: nat, n: nat)
    requires c < |s.chains| && s.chains[c].phase.Waiting?
    requires s.chains[c].attempt + n <= |DELAYED_STATS_SYNC_DELAYS_MS|
    requires s.chains[c].attempt < |DELAYED_STATS_SYNC_DELAYS_MS|
    requires s.chains[c].phase == Waiting(DELAYED_STATS_SYNC_DELAYS_MS[s.chains[c].attempt])
    ensures var t, chain := Run(s, Failures(c, n)), s.chains[c];
            var reached := chain.attempt + n;
            && |t.chains| == |s.chains|
            && t.chains[c].task == chain.task && t.chains[c].fired == chain.fired + n
            && (reached < |DELAYED_STATS_SYNC_DELAYS_MS| ==>
                  && t.chains[c].attempt == reached
                  && t.chains[c].phase == Waiting(DELAYED_STATS_SYNC_DELAYS_MS[reached])
                  && t.scheduled == s.scheduled)
            && (reached == |DELAYED_STATS_SYNC_DELAYS_MS| ==>
                  t.chains[c].phase == Ended && t.scheduled == s.scheduled - {chain.task})
    decreases n
  {
    if n > 0 {
      var t := Next(Next(s, Fire(c)), Retry(c));
      RunOfTwo(s, Fire(c), Retry(c), Failures(c, n - 1));
      if s.chains[c].attempt + 1 < |DELAYED_STATS_SYNC_DELAYS_MS| {
        FailuresTakeEveryDelay(t, c, n - 1);
      } else {
        assert Failures(c, n - 1) == [];
      }
    }
  }

  /** A task that has no chain gets one when it is scheduled: it fires after each of the five delays if
      its attempts fail, and then the task can be scheduled again. An attempt that decides to stop
      ends it at once. */
  lemma ScheduledTaskIsTried(s: State, task: TaskId, n: nat)
    requires task !in s.scheduled && n <= 5
    ensures var c := |s.chains|;
            var t := Run(Next(s, Schedule(task)), Failures(c, n));
            && |t.chains| == c + 1 && t.chains[c].task == task && t.chains[c].fired == n
            && (n < 5 ==> t.chains[c].phase == Waiting([10_000, 30_000, 90_000, 180_000, 300_000][n])
                          && task in t.scheduled)
            && (n == 5 ==> t.chains[c].phase == Ended && task !in t.scheduled)
            && (n < 5 ==>
                  var u := Run(t, [Fire(c), Stop(c), Release(c, true)]);
                  |u.chains| == c + 1 && u.chains[c].phase == Ended && task !in u.scheduled)
  {
    var c := |s.chains|;
    var s' := Next(s, Schedule(task));
    FailuresTakeEveryDelay(s', c, n);
    var t := Run(s', Failures(c, n));
    if n < 5 {
      hide Run;
      var last := [Release(c, true)];
      assert [Fire(c), Stop(c), Release(c, true)] == [Fire(c), Stop(c)] + last;
      RunOfTwo(t, Fire(c), Stop(c), last);
      RunOfOne(Next(Next(t, Fire(c)), Stop(c)), last[0]);
    }
  }

  lemma RunOfOne(s: State, step: Step)
    ensures Run(s, [step]) == Next(s, step)
  {
    hide Next;
    assert [step][1..] == [];
  }
}
