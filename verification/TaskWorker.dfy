/** The import worker: how many tasks run at once, and which ones a poll starts. */
module TaskWorker {
  import opened Text

  const GLOBAL_MAX_CONCURRENCY := 5

  datatype Task = Task(id: string, createdAt: int)

  // ---- The oldest first ----

  /** A stable sort by creation time: a task goes behind those created no later. */
  function Insert(sorted: seq<Task>, task: Task): seq<Task> {
    if sorted == [] || sorted[|sorted| - 1].createdAt <= task.createdAt then sorted + [task]
    else Insert(sorted[..|sorted| - 1], task) + [sorted[|sorted| - 1]]
  }

  function SortByCreation(tasks: seq<Task>): seq<Task> {
    if tasks == [] then [] else Insert(SortByCreation(tasks[..|tasks| - 1]), tasks[|tasks| - 1])
  }

  function FirstOf(tasks: seq<Task>, n: nat): seq<Task> {
    if |tasks| <= n then tasks else tasks[..n]
  }

  predicate OldestFirst(tasks: seq<Task>) {
    forall i, j | 0 <= i < j < |tasks| :: tasks[i].createdAt <= tasks[j].createdAt
  }

  /** The tasks of one creation time, in order. */
  function CreatedAt(tasks: seq<Task>, at: int): seq<Task> {
    if tasks == [] then []
    else
      var last := tasks[|tasks| - 1];
      CreatedAt(tasks[..|tasks| - 1], at) + if last.createdAt == at then [last] else []
  }

  lemma AppendKeepsOrder(tasks: seq<Task>, last: Task)
    requires OldestFirst(tasks) && forall t <- multiset(tasks) :: t.createdAt <= last.createdAt
    ensures OldestFirst(tasks + [last])
  {
    forall i | 0 <= i < |tasks| ensures tasks[i].createdAt <= last.createdAt {
      assert tasks[i] in multiset(tasks);
    }
  }

  lemma LastIsYoungest(tasks: seq<Task>)
    requires tasks != [] && OldestFirst(tasks)
    ensures OldestFirst(tasks[..|tasks| - 1])
    ensures forall t <- multiset(tasks) :: t.createdAt <= tasks[|tasks| - 1].createdAt
  {
  }

  lemma {:induction false} InsertKeepsOrder(sorted: seq<Task>, task: Task)
    requires OldestFirst(sorted)
    ensures var r := Insert(sorted, task); OldestFirst(r) && multiset(r) == multiset(sorted) + multiset{task}
  {
    hide OldestFirst;
    if sorted == [] || sorted[|sorted| - 1].createdAt <= task.createdAt {
      if sorted != [] {
        LastIsYoungest(sorted);
      }
      AppendKeepsOrder(sorted, task);
    } else {
      var init, last := sorted[..|sorted| - 1], sorted[|sorted| - 1];
      LastIsYoungest(sorted);
      InsertKeepsOrder(init, task);
      assert sorted == init + [last];
      AppendKeepsOrder(Insert(init, task), last);
    }
  }

  lemma CreatedAtPush(tasks: seq<Task>, task: Task, at: int)
    ensures CreatedAt(tasks + [task], at) == CreatedAt(tasks, at) + if task.createdAt == at then [task] else []
  {
    assert (tasks + [task])[..|tasks|] == tasks;
  }

  lemma {:induction false} InsertIsStable(sorted: seq<Task>, task: Task, at: int)
    ensures CreatedAt(Insert(sorted, task), at) == CreatedAt(sorted + [task], at)
  {
    hide CreatedAt;
    if sorted != [] && sorted[|sorted| - 1].createdAt > task.createdAt {
      var init, last := sorted[..|sorted| - 1], sorted[|sorted| - 1];
      InsertIsStable(init, task, at);
      CreatedAtPush(init, task, at);
      CreatedAtPush(Insert(init, task), last, at);
      CreatedAtPush(init, last, at);
      CreatedAtPush(sorted, task, at);
      assert sorted == init + [last];
    }
  }

  lemma {:induction false} SortIsStable(tasks: seq<Task>, at: int)
    ensures CreatedAt(SortByCreation(tasks), at) == CreatedAt(tasks, at)
  {
    hide Insert, CreatedAt;
    if tasks != [] {
      var init, last := tasks[..|tasks| - 1], tasks[|tasks| - 1];
      SortIsStable(init, at);
      InsertIsStable(SortByCreation(init), last, at);
      CreatedAtPush(SortByCreation(init), last, at);
      CreatedAtPush(init, last, at);
      assert tasks == init + [last];
    }
  }

  lemma {:induction false} SortIsSorted(tasks: seq<Task>)
    ensures var r := SortByCreation(tasks); OldestFirst(r) && multiset(r) == multiset(tasks)
  {
    hide Insert;
    if tasks != [] {
      var init, last := tasks[..|tasks| - 1], tasks[|tasks| - 1];
      SortIsSorted(init);
      InsertKeepsOrder(SortByCreation(init), last);
      assert tasks == init + [last];
    }
  }

  // ---- The worker, one method for each stretch that runs without awaiting ----

  /** `running` has the calls of processTask that have not ended, `fetches` counts the polls that
      wait for the pending tasks, and `started` lists every task ever started. */
  datatype State = State(current: int, polling: bool, running: map<nat, Task>, next: nat, fetches: nat, started: seq<Task>)

  function Start(): State { State(0, false, map[], 0, 0, []) }

  function Polled(s: State): State {
    if s.polling || s.current >= GLOBAL_MAX_CONCURRENCY then s else s.(polling := true, fetches := s.fetches + 1)
  }

  function StartedOne(s: State, task: Task): State {
    s.(current := s.current + 1, running := s.running[s.next := task], next := s.next + 1, started := s.started + [task])
  }

  function StartedAll(s: State, tasks: seq<Task>): State {
    if tasks == [] then s
    else
      var s' := StartedAll(s, tasks[..|tasks| - 1]);
      if s'.current < GLOBAL_MAX_CONCURRENCY then StartedOne(s', tasks[|tasks| - 1]) else s'
  }

  /** What slice(0, n) takes for any n. */
  function Sliced(tasks: seq<Task>, n: int): seq<Task> {
    if n >= 0 then FirstOf(tasks, n)
    else if |tasks| + n <= 0 then []
    else tasks[..|tasks| + n]
  }

  /** The pending tasks have been read, or reading them has failed. */
  function Fetched(s: State, tasks: Option<seq<Task>>): State
    requires s.fetches > 0
  {
    var s' := match tasks
              case None => s
              case Some(list) => StartedAll(s, Sliced(SortByCreation(list), GLOBAL_MAX_CONCURRENCY - s.current));
    s'.(polling := false, fetches := if s'.fetches > 0 then s'.fetches - 1 else 0)
  }

  function Finished(s: State, run: nat): State {
    s.(current := s.current - 1, running := s.running - {run})
  }

  class TaskWorkerService {
    var currentConcurrency: int
    var isPolling: bool
    ghost var running: map<nat, Task>
    ghost var next: nat
    ghost var fetches: nat
    ghost var started: seq<Task>

    constructor ()
      ensures StateNow() == Start()
    {
      currentConcurrency, isPolling := 0, false;
      running, next, fetches, started := map[], 0, 0, [];
    }

    ghost function StateNow(): State
      reads this
    {
      State(currentConcurrency, isPolling, running, next, fetches, started)
    }

    method Poll() returns (fetching: bool)
      modifies this
      ensures StateNow() == Polled(old(StateNow()))
      ensures fetching == (fetches > old(fetches))
    {
      if isPolling || currentConcurrency >= GLOBAL_MAX_CONCURRENCY {
        return false;
      }
      isPolling := true;
      fetches := fetches + 1;
      fetching := true;
    }

    method PollFetched(tasks: Option<seq<Task>>)
      requires fetches > 0
      modifies this
      ensures StateNow() == Fetched(old(StateNow()), tasks)
    {
      if tasks.Some? {
        var pending := Sliced(SortByCreation(tasks.value), GLOBAL_MAX_CONCURRENCY - currentConcurrency);
        ghost var before := StateNow();
        var i := 0;
        while i < |pending|
          invariant 0 <= i <= |pending|
          invariant StateNow() == StartedAll(before, pending[..i])
          invariant isPolling == before.polling && fetches == before.fetches
        {
          assert pending[..i + 1][..i] == pending[..i];
          if currentConcurrency < GLOBAL_MAX_CONCURRENCY {
            ProcessTask(pending[i]);
          }
          i := i + 1;
        }
        assert pending[..i] == pending;
      }
      isPolling := false;
      fetches := fetches - 1;
    }

    /** The part of processTask that runs before its first await. */
    method ProcessTask(task: Task)
      modifies this
      ensures StateNow() == StartedOne(old(StateNow()), task)
    {
      currentConcurrency := currentConcurrency + 1;
      running, next, started := running[next := task], next + 1, started + [task];
    }

    /** The end of processTask, whether the import succeeded or failed. */
    method TaskFinished(ghost run: nat)
      requires run in running
      modifies this
      ensures StateNow() == Finished(old(StateNow()), run)
    {
      currentConcurrency := currentConcurrency - 1;
      running := running - {run};
    }
  }

  // ---- Every interleaving ----

  datatype Step = PollTimer | FetchEnds(tasks: Option<seq<Task>>) | TaskEnds(run: nat)

  function Next(s: State, step: Step): State {
    match step
    case PollTimer => Polled(s)
    case FetchEnds(tasks) => if s.fetches > 0 then Fetched(s, tasks) else s
    case TaskEnds(run) => if run in s.running then Finished(s, run) else s
  }

  function Run(s: State, steps: seq<Step>): State
    decreases |steps|
  {
    if steps == [] then s else Run(Next(s, steps[0]), steps[1..])
  }

  ghost predicate Inv(s: State) {
    && s.current == |s.running| && 0 <= s.current <= GLOBAL_MAX_CONCURRENCY
    && (forall run <- s.running :: run < s.next)
    && s.fetches == if s.polling then 1 else 0
  }

  lemma {:induction false} StartedAllStarts(s: State, tasks: seq<Task>)
    requires Inv(s) && s.current + |tasks| <= GLOBAL_MAX_CONCURRENCY
    ensures var t := StartedAll(s, tasks);
            && Inv(t) && t.started == s.started + tasks && t.current == s.current + |tasks|
            && t.polling == s.polling && t.fetches == s.fetches
  {
    if tasks == [] {
      assert s.started + tasks == s.started;
    } else {
      var init := tasks[..|tasks| - 1];
      StartedAllStarts(s, init);
      var t := StartedAll(s, init);
      assert t.next !in t.running;
      assert tasks == init + [tasks[|tasks| - 1]];
    }
  }

  /** What a poll starts: of the tasks it has read as many as there are free places, each of them
      created no later than any it leaves, those of one creation time in the order read. */
  lemma PollStartsTheOldest(s: State, tasks: seq<Task>) returns (begun: seq<Task>, left: seq<Task>)
    requires Inv(s) && s.polling
    ensures Next(s, FetchEnds(Some(tasks))).started == s.started + begun
    ensures |begun| == var free := 5 - s.current; if |tasks| <= free then |tasks| else free
    ensures multiset(begun + left) == multiset(tasks) && OldestFirst(begun + left)
    ensures forall at :: CreatedAt(begun + left, at) == CreatedAt(tasks, at)
  {
    hide SortByCreation, StartedAll, CreatedAt, OldestFirst;
    var sorted := SortByCreation(tasks);
    SortIsSorted(tasks);
    forall at ensures CreatedAt(sorted, at) == CreatedAt(tasks, at) {
      SortIsStable(tasks, at);
    }
    assert |sorted| == |multiset(sorted)| == |tasks|;
    begun := FirstOf(sorted, GLOBAL_MAX_CONCURRENCY - s.current);
    left := sorted[|begun|..];
    assert begun + left == sorted;
    StartedAllStarts(s, begun);
  }

  lemma NextKeepsInv(s: State, step: Step)
    requires Inv(s)
    ensures Inv(Next(s, step))
  {
    hide StartedAll, SortByCreation;
    match step
    case PollTimer =>
    case FetchEnds(tasks) =>
      if s.fetches > 0 && tasks.Some? {
        StartedAllStarts(s, FirstOf(SortByCreation(tasks.value), GLOBAL_MAX_CONCURRENCY - s.current));
      }
    case TaskEnds(run) =>
      if run in s.running {
        assert s.running.Keys == (s.running - {run}).Keys + {run};
        assert |s.running - {run}| == |(s.running - {run}).Keys|;
      }
  }

  /** In every interleaving of polls, starts and ends, the counter is the number of calls of
      processTask that have not ended, never more than five, and at most one poll waits for its
      tasks. */
  lemma {:induction false} RunKeepsInv(s: State, steps: seq<Step>)
    requires Inv(s)
    ensures Inv(Run(s, steps)) && 0 <= Run(s, steps).current <= 5
    decreases |steps|
  {
    hide Next;
    if steps != [] {
      NextKeepsInv(s, steps[0]);
      RunKeepsInv(Next(s, steps[0]), steps[1..]);
    }
  }

  lemma StartKeepsInv()
    ensures Inv(Start())
  {
  }

  /** The same for every run of a worker that starts idle. */
  lemma RunFromStartKeepsInv(steps: seq<Step>)
    ensures Inv(Run(Start(), steps)) && 0 <= Run(Start(), steps).current <= 5
  {
    hide *;
    StartKeepsInv();
    RunKeepsInv(Start(), steps);
  }

  /** A poll of a worker with a free place reads the pending tasks, starts the oldest of them, and
      leaves the worker ready for the next poll; if reading them fails, nothing has changed. */
  lemma PollRound(s: State, tasks: seq<Task>) returns (begun: seq<Task>, left: seq<Task>)
    requires Inv(s) && !s.polling && s.current < 5
    ensures var t := Run(s, [PollTimer, FetchEnds(Some(tasks))]);
            && t.started == s.started + begun && t.current == s.current + |begun| && !t.polling && Inv(t)
            && |begun| == (var free := 5 - s.current; if |tasks| <= free then |tasks| else free)
            && multiset(begun + left) == multiset(tasks) && OldestFirst(begun + left)
    ensures Run(s, [PollTimer, FetchEnds(None)]) == s
  {
    hide StartedAll, SortByCreation, OldestFirst, CreatedAt, Sliced;
    var polled, fetch := Next(s, PollTimer), FetchEnds(Some(tasks));
    NextKeepsInv(s, PollTimer);
    begun, left := PollStartsTheOldest(polled, tasks);
    NextKeepsInv(polled, fetch);
    FetchMakesReady(polled, tasks);
    RunOfTwo(s, PollTimer, fetch);
    RunOfTwo(s, PollTimer, FetchEnds(None));
  }

  lemma FetchMakesReady(s: State, tasks: seq<Task>)
    requires Inv(s) && s.polling
    ensures var t := Next(s, FetchEnds(Some(tasks)));
            !t.polling && t.current == s.current + |t.started| - |s.started|
  {
    hide StartedAll, SortByCreation;
    StartedAllStarts(s, FirstOf(SortByCreation(tasks), GLOBAL_MAX_CONCURRENCY - s.current));
  }

  lemma RunOfTwo(s: State, first: Step, second: Step)
    ensures Run(s, [first, second]) == Next(Next(s, first), second)
  {
    hide Next;
    assert [first, second][1..] == [second] && [second][1..] == [];
    assert Run(Next(s, first), [second]) == Run(Next(Next(s, first), second), []);
  }

  /** A worker that is busy reading, or has no free place, ignores the timer; the end of a task frees
      its place and no other. */
  lemma BusyWorkerWaits(s: State, run: nat)
    requires Inv(s)
    ensures s.polling || s.current == 5 ==> Next(s, PollTimer) == s
    ensures run in s.running ==>
              var t := Next(s, TaskEnds(run));
              t.running == s.running - {run} && t.current == s.current - 1 && t.started == s.started
              && t.polling == s.polling
  {
  }
}
