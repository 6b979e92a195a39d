/**
 * The dispatch loop of `threadTasksAdvanced` (src/thread-tasks.ts): a timer
 * tick that re-reads the allowed maximum, launches at most one task and
 * detects completion, and the `message`/`error` handlers of each worker.
 * Also the cached default maximum and the unlimited fan-out `threadTasks`.
 *
 * A tick is treated as atomic: in the source, awaits sit between the launch
 * check and the increments, which this model does not capture.
 * Workers are identified by the index of the task they run.
 */
module ThreadTasks {
  import opened Common

  /** One entry of `tasks`: the task body (as its source text), its
      optional arguments and whether each optional callback is present. */
  datatype Task = Task(fn: string, args: Option<Record>, hasOnSuccess: bool, hasOnError: bool)

  /** What the caller hands over besides the maximum. */
  datatype Job = Job(tasks: seq<Task>, hasAfterAll: bool)

  /** What the loop does to the outside world, in order. */
  datatype Effect =
    | Spawn(task: nat, data: Record)          // write the worker file and start a worker
    | CallOnSuccess(task: nat, msg: Json)     // await task.onSuccess(msg)
    | CallOnError(task: nat, err: string)     // await task.onError(err)
    | Terminate(task: nat)                    // worker.terminate()
    | DeleteFile(task: nat)                   // remove the worker file
    | CallAfterAll                            // await afterAll()
    | Resolve                                 // clearInterval and resolve(true)

  /** What the runtime delivers: a timer tick carrying the value the
      maximum function returned on it, or a worker's terminal event. */
  datatype Event =
    | Tick(max: int)
    | Message(worker: nat, msg: Json)
    | WorkerError(worker: nat, err: string)

  /** The closure variables of one call, plus the effects so far. */
  datatype State = State(counter: nat, activeWorkers: int, threadCount: int, stopped: bool, log: seq<Effect>)

  /** The `workerData.data` a worker receives: a copy of `args`, or `{}`. */
  function WorkerArgs(t: Task): Record
  {
    if t.args.Some? then t.args.value else map[]
  }

  /** The state right after the call: `threadCount` holds the first reading of the maximum. */
  function Start(initialMax: int): State
  {
    State(0, 0, initialMax, false, [])
  }

  /** Launch `tasks[counter]` if there is a free slot and a task left. */
  function Launch(job: Job, s: State, max: int): State
    requires s.counter <= |job.tasks|
  {
    if s.activeWorkers < max && s.counter < |job.tasks| then
      s.(counter := s.counter + 1, activeWorkers := s.activeWorkers + 1,
         log := s.log + [Spawn(s.counter, WorkerArgs(job.tasks[s.counter]))])
    else s
  }

  /** Run `afterAll`, stop the interval and resolve once everything has finished. */
  function Finish(job: Job, s: State): State
  {
    if s.counter == |job.tasks| && s.activeWorkers == 0 then
      s.(stopped := true, log := s.log + (if job.hasAfterAll then [CallAfterAll] else []) + [Resolve])
    else s
  }

  /** One interval tick, `max` being what the maximum function returned on it.
      A stopped interval delivers no ticks, so it leaves the state as it is. */
  function TickStep(job: Job, s: State, max: int): (r: State)
    requires s.counter <= |job.tasks|
    ensures r.counter <= |job.tasks|
    ensures s.log <= r.log
    ensures r.threadCount == if s.stopped then s.threadCount else max
    // at most one launch, exactly when the guard holds
    ensures r.counter != s.counter <==> !s.stopped && s.activeWorkers < max && s.counter < |job.tasks|
    ensures r.counter != s.counter ==>
      r.counter == s.counter + 1 && r.activeWorkers == s.activeWorkers + 1 && r.activeWorkers <= max &&
      |r.log| > |s.log| && r.log[|s.log|] == Spawn(s.counter, WorkerArgs(job.tasks[s.counter]))
    ensures r.counter == s.counter ==> r.activeWorkers == s.activeWorkers
    // completion exactly when nothing is left to launch and nothing runs
    ensures r.stopped <==> s.stopped || (r.counter == |job.tasks| && r.activeWorkers == 0)
    // the tick's effects: the launch, if any; on completion `afterAll` (if given), then the resolve; nothing else
    ensures !(r.stopped && !s.stopped) ==>
      r.log == s.log + (if r.counter != s.counter then [Spawn(s.counter, WorkerArgs(job.tasks[s.counter]))] else [])
    ensures r.stopped && !s.stopped ==>
      r.log == s.log + (if r.counter != s.counter then [Spawn(s.counter, WorkerArgs(job.tasks[s.counter]))] else []) +
        (if job.hasAfterAll then [CallAfterAll] else []) + [Resolve]
  {
    if s.stopped then s else Finish(job, Launch(job, s.(threadCount := max), max))
  }

  /** The effects of a terminal event of worker `w`: the callback, if any, then terminate, then cleanup. */
  function Terminal(s: State, w: nat, callback: seq<Effect>): State
  {
    s.(activeWorkers := s.activeWorkers - 1, log := s.log + callback + [Terminate(w), DeleteFile(w)])
  }

  /** The `message` handler of the worker running `tasks[w]`. */
  function MessageStep(job: Job, s: State, w: nat, msg: Json): (r: State)
    requires s.counter <= |job.tasks| && w < s.counter
    ensures r.counter == s.counter && r.stopped == s.stopped && r.threadCount == s.threadCount
    ensures r.activeWorkers == s.activeWorkers - 1
    // the callback only when the task has one, then terminate, then delete the worker file
    ensures r.log == s.log + (if job.tasks[w].hasOnSuccess then [CallOnSuccess(w, msg)] else []) + [Terminate(w), DeleteFile(w)]
  {
    Terminal(s, w, if job.tasks[w].hasOnSuccess then [CallOnSuccess(w, msg)] else [])
  }

  /** The `error` handler of the worker running `tasks[w]`. */
  function ErrorStep(job: Job, s: State, w: nat, err: string): (r: State)
    requires s.counter <= |job.tasks| && w < s.counter
    ensures r.counter == s.counter && r.stopped == s.stopped && r.threadCount == s.threadCount
    ensures r.activeWorkers == s.activeWorkers - 1
    // the callback only when the task has one, then terminate, then delete the worker file
    ensures r.log == s.log + (if job.tasks[w].hasOnError then [CallOnError(w, err)] else []) + [Terminate(w), DeleteFile(w)]
  {
    Terminal(s, w, if job.tasks[w].hasOnError then [CallOnError(w, err)] else [])
  }

  /** One event. A terminal event of a worker never started has no listener and changes nothing. */
  function Apply(job: Job, s: State, e: Event): (r: State)
    requires s.counter <= |job.tasks|
    ensures r.counter <= |job.tasks|
  {
    match e
    case Tick(max) => TickStep(job, s, max)
    case Message(w, msg) => if w < s.counter then MessageStep(job, s, w, msg) else s
    case WorkerError(w, err) => if w < s.counter then ErrorStep(job, s, w, err) else s
  }

  /** The state after the runtime delivered `evs`, in order. */
  function Run(job: Job, initialMax: int, evs: seq<Event>): (r: State)
    ensures r.counter <= |job.tasks|
    decreases |evs|
  {
    if evs == [] then Start(initialMax)
    else Apply(job, Run(job, initialMax, evs[..|evs| - 1]), evs[|evs| - 1])
  }

  // ---------------------------------------------------------------------
  // Tallies of the effect log

  /** The task indices started, in order. */
  function Spawned(log: seq<Effect>): seq<nat>
  {
    if log == [] then []
    else Spawned(log[..|log| - 1]) + (if log[|log| - 1].Spawn? then [log[|log| - 1].task] else [])
  }

  /** The task indices whose worker was terminated, in order. */
  function Terminated(log: seq<Effect>): seq<nat>
  {
    if log == [] then []
    else Terminated(log[..|log| - 1]) + (if log[|log| - 1].Terminate? then [log[|log| - 1].task] else [])
  }

  /** How often the promise was resolved. */
  function Resolves(log: seq<Effect>): nat
  {
    if log == [] then 0
    else Resolves(log[..|log| - 1]) + (if log[|log| - 1].Resolve? then 1 else 0)
  }

  /** How often `afterAll` was called. */
  function AfterAlls(log: seq<Effect>): nat
  {
    if log == [] then 0
    else AfterAlls(log[..|log| - 1]) + (if log[|log| - 1].CallAfterAll? then 1 else 0)
  }

  /** Every call of `afterAll` is followed directly by the resolve. */
  predicate AfterAllThenResolve(log: seq<Effect>)
  {
    forall i :: 0 <= i < |log| && log[i].CallAfterAll? ==> i + 1 < |log| && log[i + 1].Resolve?
  }

  lemma AfterAllThenResolveAppend(a: seq<Effect>, b: seq<Effect>)
    requires AfterAllThenResolve(a) && AfterAllThenResolve(b)
    ensures AfterAllThenResolve(a + b)
  {
    forall i | 0 <= i < |a + b| && (a + b)[i].CallAfterAll?
      ensures i + 1 < |a + b| && (a + b)[i + 1].Resolve?
    {
      if i < |a| {
        assert a[i].CallAfterAll?;
      } else {
        assert b[i - |a|].CallAfterAll?;
      }
    }
  }

  lemma {:induction false} TalliesAppend(a: seq<Effect>, b: seq<Effect>)
    ensures Spawned(a + b) == Spawned(a) + Spawned(b)
    ensures Terminated(a + b) == Terminated(a) + Terminated(b)
    ensures Resolves(a + b) == Resolves(a) + Resolves(b)
    ensures AfterAlls(a + b) == AfterAlls(a) + AfterAlls(b)
  {
    if b == [] {
      assert a + b == a;
    } else {
      TalliesAppend(a, b[..|b| - 1]);
      assert (a + b)[..|a + b| - 1] == a + b[..|b| - 1];
    }
  }

  /** The workers still running: started and not yet terminated. */
  function Running(s: State): set<nat>
  {
    Below(s.counter) - Elements(Terminated(s.log))
  }

  /**
   * What every reachable state satisfies: tasks were started in input order,
   * each once; `activeWorkers` is the number started minus the number of
   * terminations; only started workers were terminated; the promise was
   * resolved once if the loop stopped and never otherwise; `afterAll` was
   * called once, directly before the resolve, if given and the loop stopped,
   * and never otherwise; and it stops only after the last task was started.
   */
  ghost predicate Inv(job: Job, s: State)
  {
    s.counter <= |job.tasks| &&
    Spawned(s.log) == Iota(s.counter) &&
    s.activeWorkers == s.counter - |Terminated(s.log)| &&
    (forall i :: 0 <= i < |Terminated(s.log)| ==> Terminated(s.log)[i] < s.counter) &&
    Resolves(s.log) == (if s.stopped then 1 else 0) &&
    AfterAlls(s.log) == (if s.stopped && job.hasAfterAll then 1 else 0) &&
    AfterAllThenResolve(s.log) &&
    (s.stopped ==> s.counter == |job.tasks|)
  }

  lemma LaunchKeepsInv(job: Job, s: State, max: int)
    requires Inv(job, s)
    ensures Inv(job, Launch(job, s, max))
  {
    if s.activeWorkers < max && s.counter < |job.tasks| {
      TalliesAppend(s.log, [Spawn(s.counter, WorkerArgs(job.tasks[s.counter]))]);
      AfterAllThenResolveAppend(s.log, [Spawn(s.counter, WorkerArgs(job.tasks[s.counter]))]);
    }
  }

  lemma FinishKeepsInv(job: Job, s: State)
    requires Inv(job, s) && !s.stopped
    ensures Inv(job, Finish(job, s))
  {
    if s.counter == |job.tasks| && s.activeWorkers == 0 {
      var tail := (if job.hasAfterAll then [CallAfterAll] else []) + [Resolve];
      TalliesAppend(s.log, tail);
      assert AfterAllThenResolve(tail);
      AfterAllThenResolveAppend(s.log, tail);
      assert s.log + (if job.hasAfterAll then [CallAfterAll] else []) + [Resolve] == s.log + tail;
      if job.hasAfterAll {
        TalliesAppend([CallAfterAll], [Resolve]);
      }
    }
  }

  lemma TickKeepsInv(job: Job, s: State, max: int)
    requires Inv(job, s)
    ensures Inv(job, TickStep(job, s, max))
  {
    if !s.stopped {
      var s1 := s.(threadCount := max);
      LaunchKeepsInv(job, s1, max);
      FinishKeepsInv(job, Launch(job, s1, max));
    }
  }

  lemma TerminalKeepsInv(job: Job, s: State, w: nat, callback: seq<Effect>)
    requires Inv(job, s) && w < s.counter
    requires Spawned(callback) == [] && Terminated(callback) == [] && Resolves(callback) == 0
    requires AfterAlls(callback) == 0 && AfterAllThenResolve(callback)
    ensures Inv(job, Terminal(s, w, callback))
  {
    var tail := callback + [Terminate(w), DeleteFile(w)];
    TalliesAppend([Terminate(w)], [DeleteFile(w)]);
    TalliesAppend(callback, [Terminate(w), DeleteFile(w)]);
    AfterAllThenResolveAppend(callback, [Terminate(w), DeleteFile(w)]);
    assert Spawned(tail) == [] && Terminated(tail) == [w] && Resolves(tail) == 0 && AfterAlls(tail) == 0;
    TalliesAppend(s.log, tail);
    AfterAllThenResolveAppend(s.log, tail);
    var r := Terminal(s, w, callback);
    assert r.log == s.log + tail;
    assert Terminated(r.log) == Terminated(s.log) + [w];
  }

  lemma ApplyKeepsInv(job: Job, s: State, e: Event)
    requires Inv(job, s)
    ensures Inv(job, Apply(job, s, e))
  {
    match e
    case Tick(max) => TickKeepsInv(job, s, max);
    case Message(w, msg) =>
      if w < s.counter {
        TerminalKeepsInv(job, s, w, if job.tasks[w].hasOnSuccess then [CallOnSuccess(w, msg)] else []);
      }
    case WorkerError(w, err) =>
      if w < s.counter {
        TerminalKeepsInv(job, s, w, if job.tasks[w].hasOnError then [CallOnError(w, err)] else []);
      }
  }

  lemma {:induction false} RunKeepsInv(job: Job, initialMax: int, evs: seq<Event>)
    ensures Inv(job, Run(job, initialMax, evs))
  {
    if evs != [] {
      RunKeepsInv(job, initialMax, evs[..|evs| - 1]);
      ApplyKeepsInv(job, Run(job, initialMax, evs[..|evs| - 1]), evs[|evs| - 1]);
    }
  }

  // ---------------------------------------------------------------------
  // Properties of every run

  /** Tasks are started in input order, each at most once; once the loop has
      stopped, every task has been started exactly once. */
  lemma DispatchInOrder(job: Job, initialMax: int, evs: seq<Event>)
    ensures var s := Run(job, initialMax, evs);
      Spawned(s.log) == Iota(s.counter) &&
      (s.stopped ==> Spawned(s.log) == Iota(|job.tasks|))
  {
    RunKeepsInv(job, initialMax, evs);
  }

  /** `afterAll` is called at most once, only when given and only on completion, and directly before the resolve. */
  lemma AfterAllOnceBeforeResolve(job: Job, initialMax: int, evs: seq<Event>)
    ensures var s := Run(job, initialMax, evs);
      AfterAlls(s.log) <= 1 && (AfterAlls(s.log) == 1 <==> s.stopped && job.hasAfterAll) &&
      AfterAllThenResolve(s.log)
  {
    RunKeepsInv(job, initialMax, evs);
  }

  /** The promise is resolved at most once, and it has been exactly when the loop stopped. */
  lemma ResolvedAtMostOnce(job: Job, initialMax: int, evs: seq<Event>)
    ensures var s := Run(job, initialMax, evs);
      Resolves(s.log) <= 1 && (Resolves(s.log) == 1 <==> s.stopped)
  {
    RunKeepsInv(job, initialMax, evs);
  }

  /** When each worker is terminated at most once, `activeWorkers` is the
      number of workers started and not yet terminated, so it is never negative. */
  lemma ActiveCountsRunning(job: Job, initialMax: int, evs: seq<Event>)
    requires Distinct(Terminated(Run(job, initialMax, evs).log))
    ensures var s := Run(job, initialMax, evs);
      s.activeWorkers == |Running(s)| && s.activeWorkers >= 0
  {
    var s := Run(job, initialMax, evs);
    RunKeepsInv(job, initialMax, evs);
    var done := Elements(Terminated(s.log));
    BelowSize(s.counter);
    DistinctSize(Terminated(s.log));
    assert done <= Below(s.counter) by {
      forall x | x in done ensures x in Below(s.counter) {
        var i :| 0 <= i < |Terminated(s.log)| && Terminated(s.log)[i] == x;
      }
    }
    assert Below(s.counter) == Running(s) + done;
    assert Running(s) * done == {};
  }

  /** An empty task list: the first tick launches nothing and resolves. */
  lemma EmptyTaskListResolvesOnFirstTick(hasAfterAll: bool, initialMax: int, max: int)
    ensures var s := Run(Job([], hasAfterAll), initialMax, [Tick(max)]);
      s.stopped && s.counter == 0 &&
      s.log == (if hasAfterAll then [CallAfterAll] else []) + [Resolve]
  {
    assert [Tick(max)][..0] == [];
  }

  /** With a maximum of 0 or less on every tick, a non-empty task list never
      starts a worker and never completes. */
  lemma {:induction false} NoCapacityNoProgress(job: Job, initialMax: int, evs: seq<Event>)
    requires |job.tasks| > 0
    requires forall i :: 0 <= i < |evs| && evs[i].Tick? ==> evs[i].max <= 0
    ensures var s := Run(job, initialMax, evs);
      s.counter == 0 && s.activeWorkers == 0 && !s.stopped && s.log == []
  {
    if evs != [] {
      NoCapacityNoProgress(job, initialMax, evs[..|evs| - 1]);
    }
  }

  /** The events of running the first `k` tasks one at a time. */
  function OneByOne(k: nat, max: int): seq<Event>
  {
    if k == 0 then [] else OneByOne(k - 1, max) + [Tick(max), Message(k - 1, JNull)]
  }

  lemma {:induction false} OneByOneState(job: Job, initialMax: int, k: nat, max: int)
    requires k <= |job.tasks| && max >= 1
    ensures var s := Run(job, initialMax, OneByOne(k, max));
      s.counter == k && s.activeWorkers == 0 && !s.stopped
  {
    if k > 0 {
      OneByOneState(job, initialMax, k - 1, max);
      var pre := OneByOne(k - 1, max);
      var evs := OneByOne(k, max);
      assert evs[..|evs| - 1] == pre + [Tick(max)];
      assert (pre + [Tick(max)])[..|pre|] == pre;
    }
  }

  /** With a maximum of at least 1, the schedule that lets each worker finish
      before the next tick starts every task once and then resolves. */
  lemma SequentialRunCompletes(job: Job, initialMax: int, max: int)
    requires max >= 1
    ensures var s := Run(job, initialMax, OneByOne(|job.tasks|, max) + [Tick(max)]);
      s.stopped && Spawned(s.log) == Iota(|job.tasks|) && s.log != [] && s.log[|s.log| - 1] == Resolve
  {
    var evs := OneByOne(|job.tasks|, max) + [Tick(max)];
    OneByOneState(job, initialMax, |job.tasks|, max);
    assert evs[..|evs| - 1] == OneByOne(|job.tasks|, max);
    RunKeepsInv(job, initialMax, evs);
  }

  // ---------------------------------------------------------------------
  // The loop as the source writes it: closure variables updated in place

  class AdvancedScheduler {
    const tasks: seq<Task>
    const hasAfterAll: bool
    var counter: nat
    var activeWorkers: int
    var threadCount: int
    var stopped: bool
    var log: seq<Effect>

    function Config(): Job
    {
      Job(tasks, hasAfterAll)
    }

    function Snapshot(): State
      reads this
    {
      State(counter, activeWorkers, threadCount, stopped, log)
    }

    ghost predicate Valid()
      reads this
    {
      Inv(Config(), Snapshot())
    }

    /** The call itself: counters at zero, `threadCount` set from the first reading of the maximum. */
    constructor (tasks: seq<Task>, hasAfterAll: bool, initialMax: int)
      ensures this.tasks == tasks && this.hasAfterAll == hasAfterAll
      ensures Valid() && Snapshot() == Start(initialMax)
    {
      this.tasks := tasks;
      this.hasAfterAll := hasAfterAll;
      counter, activeWorkers, threadCount, stopped, log := 0, 0, initialMax, false, [];
    }

    /** The interval callback; the interval is cleared once `stopped` is set. */
    method Tick(max: int)
      requires Valid() && !stopped
      modifies this
      ensures Valid() && Snapshot() == TickStep(Config(), old(Snapshot()), max)
    {
      ghost var before := Snapshot();
      threadCount := max;
      if activeWorkers < max && counter < |tasks| {
        var task := tasks[counter];
        log := log + [Spawn(counter, WorkerArgs(task))];
        counter := counter + 1;
        activeWorkers := activeWorkers + 1;
      }
      if counter == |tasks| && activeWorkers == 0 {
        if hasAfterAll {
          log := log + [CallAfterAll];
        }
        log := log + [Resolve];
        stopped := true;
      }
      assert Snapshot() == Finish(Config(), Launch(Config(), before.(threadCount := max), max));
      TickKeepsInv(Config(), before, max);
    }

    /** The `message` listener of the worker running `tasks[w]`. */
    method OnMessage(w: nat, msg: Json)
      requires Valid() && w < counter
      modifies this
      ensures Valid() && Snapshot() == MessageStep(Config(), old(Snapshot()), w, msg)
    {
      ghost var before := Snapshot();
      if tasks[w].hasOnSuccess {
        log := log + [CallOnSuccess(w, msg)];
      }
      log := log + [Terminate(w)];
      activeWorkers := activeWorkers - 1;
      log := log + [DeleteFile(w)];
      var callback := if tasks[w].hasOnSuccess then [CallOnSuccess(w, msg)] else [];
      assert Snapshot() == Terminal(before, w, callback);
      TerminalKeepsInv(Config(), before, w, callback);
    }

    /** The `error` listener of the worker running `tasks[w]`. */
    method OnError(w: nat, err: string)
      requires Valid() && w < counter
      modifies this
      ensures Valid() && Snapshot() == ErrorStep(Config(), old(Snapshot()), w, err)
    {
      ghost var before := Snapshot();
      if tasks[w].hasOnError {
        log := log + [CallOnError(w, err)];
      }
      log := log + [Terminate(w)];
      activeWorkers := activeWorkers - 1;
      log := log + [DeleteFile(w)];
      var callback := if tasks[w].hasOnError then [CallOnError(w, err)] else [];
      assert Snapshot() == Terminal(before, w, callback);
      TerminalKeepsInv(Config(), before, w, callback);
    }
  }

  // ---------------------------------------------------------------------
  // The default maximum: the CPU count, read once and cached

  /** One call of the default `getThreadCount`, given what the CPU count
      would read now: the returned value and the new cache. */
  function ReadThreadCount(cache: Option<nat>, cpuCount: nat): (r: (nat, Option<nat>))
    // after any call the cache holds the value returned
    ensures r.1 == Some(r.0)
    // a filled cache answers, an empty one takes the reading
    ensures r.0 == (if cache.Some? then cache.value else cpuCount)
  {
    match cache
    case None => (cpuCount, Some(cpuCount))
    case Some(c) => (c, cache)
  }

  /** The values returned by successive calls, given the CPU count each would read. */
  function ReadAll(cache: Option<nat>, readings: seq<nat>): (r: seq<nat>)
    ensures |r| == |readings|
    decreases |readings|
  {
    if readings == [] then []
    else
      var (v, next) := ReadThreadCount(cache, readings[0]);
      [v] + ReadAll(next, readings[1..])
  }

  lemma {:induction false} CachedReadsAgree(c: nat, readings: seq<nat>)
    ensures forall i :: 0 <= i < |readings| ==> ReadAll(Some(c), readings)[i] == c
  {
    if readings != [] {
      CachedReadsAgree(c, readings[1..]);
    }
  }

  /** Every call returns what the first call read, whatever later readings would be. */
  lemma FirstReadingIsCached(readings: seq<nat>)
    requires |readings| > 0
    ensures forall i :: 0 <= i < |readings| ==> ReadAll(None, readings)[i] == readings[0]
  {
    CachedReadsAgree(readings[0], readings[1..]);
  }

  class ThreadCountCache {
    var maxCpus: Option<nat>

    constructor ()
      ensures maxCpus == None
    {
      maxCpus := None;
    }

    method GetThreadCount(cpuCount: nat) returns (r: nat)
      modifies this
      ensures (r, maxCpus) == ReadThreadCount(old(maxCpus), cpuCount)
      ensures old(maxCpus).Some? ==> r == old(maxCpus).value && maxCpus == old(maxCpus)
    {
      if maxCpus == None {
        maxCpus := Some(cpuCount);
        return cpuCount;
      }
      return maxCpus.value;
    }
  }

  // ---------------------------------------------------------------------
  // threadTasks: one worker per task, no limit

  /** The `workerData.data` of the workers `threadTasks` starts, one per task, in order. */
  function StartAll(tasks: seq<Task>): (r: seq<Record>)
    ensures |r| == |tasks|
    ensures forall i :: 0 <= i < |tasks| ==> r[i] == WorkerArgs(tasks[i])
  {
    if tasks == [] then [] else [WorkerArgs(tasks[0])] + StartAll(tasks[1..])
  }
}
