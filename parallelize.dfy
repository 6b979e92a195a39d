/**
 * The dispatch loop of `parallelize` (src/parallelize.ts): the same tick
 * shape as `threadTasksAdvanced`, without awaits, which also builds the
 * `workerData` record of each launch and merges it over the caller's data.
 * Workers are identified by their launch index (the task index).
 */
module Parallelize {
  import opened Common

  /** The fields `parallelize` builds for one launch. */
  datatype WorkerData = WorkerData(task: Json, worker: int, counter: nat, numberOfTasks: nat, maxConcurrency: int)

  /** The built fields as a JavaScript object. */
  function Fields(d: WorkerData): Record
  {
    map["task" := d.task, "worker" := JNum(d.worker), "counter" := JNum(d.counter),
        "numberOfTasks" := JNum(d.numberOfTasks), "maxConcurrency" := JNum(d.maxConcurrency)]
  }

  /** `{ ...user, ...built }`: every key of both, the built value winning on a clash. */
  function MergeWorkerData(user: Record, d: WorkerData): (r: Record)
    ensures r.Keys == user.Keys + Fields(d).Keys
    ensures forall k :: k in Fields(d) ==> r[k] == Fields(d)[k]
    ensures forall k :: k in user && k !in Fields(d) ==> r[k] == user[k]
  {
    user + Fields(d)
  }

  /** The caller's options; `getWorkerData` is applied to the built fields of each launch. */
  datatype Options = Options(tasks: seq<Json>, workerFilePath: string, getWorkerData: WorkerData -> Record)

  /** What the runtime delivers: a tick carrying this tick's reading of the maximum, or a worker event. */
  datatype Event = Tick(max: int) | Exit(worker: nat) | WorkerError(worker: nat, message: string)

  /** The locals of one call and the `workerData` of every worker started so far. */
  datatype State = State(counter: nat, activeWorkers: int, concurrency: int, stopped: bool, launched: seq<Record>)

  function Start(initialMax: int): State
  {
    State(0, 0, initialMax, false, [])
  }

  /** The fields built for launching `tasks[counter]` on a tick that read `max`. */
  function Built(opts: Options, s: State, max: int): WorkerData
    requires s.counter < |opts.tasks|
  {
    WorkerData(opts.tasks[s.counter], s.activeWorkers, s.counter + 1, |opts.tasks|, max)
  }

  /** `workerData` of launch number `i + 1` describes `tasks[i]` in a slot below the maximum read at its launch. */
  predicate Describes(rec: Record, i: nat, tasks: seq<Json>)
  {
    i < |tasks| &&
    "task" in rec && rec["task"] == tasks[i] &&
    "counter" in rec && rec["counter"] == JNum(i + 1) &&
    "numberOfTasks" in rec && rec["numberOfTasks"] == JNum(|tasks|) &&
    "worker" in rec && rec["worker"].JNum? &&
    "maxConcurrency" in rec && rec["maxConcurrency"].JNum? &&
    rec["worker"].n < rec["maxConcurrency"].n
  }

  /** One interval tick. A stopped interval delivers no ticks, so it leaves the state as it is. */
  function TickStep(opts: Options, s: State, max: int): (r: State)
    requires s.counter <= |opts.tasks|
    ensures r.counter <= |opts.tasks|
    ensures s.launched <= r.launched
    ensures r.concurrency == if s.stopped then s.concurrency else max
    // at most one launch, exactly when the guard holds
    ensures r.counter != s.counter <==> !s.stopped && s.activeWorkers < max && s.counter < |opts.tasks|
    ensures r.counter != s.counter ==>
      r.counter == s.counter + 1 && r.activeWorkers == s.activeWorkers + 1 && r.activeWorkers <= max &&
      |r.launched| == |s.launched| + 1 &&
      Describes(r.launched[|s.launched|], s.counter, opts.tasks) &&
      r.launched[|s.launched|]["worker"] == JNum(s.activeWorkers) &&
      r.launched[|s.launched|]["maxConcurrency"] == JNum(max)
    // the record is the built fields spread over what `getWorkerData` returned for them
    ensures r.counter != s.counter ==>
      r.launched[|s.launched|] == MergeWorkerData(opts.getWorkerData(Built(opts, s, max)), Built(opts, s, max))
    ensures r.counter == s.counter ==> r.activeWorkers == s.activeWorkers && r.launched == s.launched
    // stops and resolves exactly when nothing is left to launch and nothing runs
    ensures r.stopped <==> s.stopped || (r.counter == |opts.tasks| && r.activeWorkers == 0)
  {
    if s.stopped then s
    else
      var s1 := s.(concurrency := max);
      var s2 :=
        if s1.activeWorkers < max && s1.counter < |opts.tasks| then
          var d := Built(opts, s1, max);
          s1.(counter := s1.counter + 1, activeWorkers := s1.activeWorkers + 1,
              launched := s1.launched + [MergeWorkerData(opts.getWorkerData(d), d)])
        else s1;
      if s2.counter == |opts.tasks| && s2.activeWorkers == 0 then s2.(stopped := true) else s2
  }

  /** The `exit` listener, and likewise the `error` listener: one worker fewer. */
  function EndStep(s: State): (r: State)
    ensures r.activeWorkers == s.activeWorkers - 1
    ensures r.(activeWorkers := s.activeWorkers) == s
  {
    s.(activeWorkers := s.activeWorkers - 1)
  }

  /** One event. An event of a worker never started has no listener and changes nothing. */
  function Apply(opts: Options, s: State, e: Event): (r: State)
    requires s.counter <= |opts.tasks|
    ensures r.counter <= |opts.tasks|
  {
    match e
    case Tick(max) => TickStep(opts, s, max)
    case Exit(w) => if w < s.counter then EndStep(s) else s
    case WorkerError(w, _) => if w < s.counter then EndStep(s) else s
  }

  /** The state after the runtime delivered `evs`, in order. */
  function Run(opts: Options, initialMax: int, evs: seq<Event>): (r: State)
    ensures r.counter <= |opts.tasks|
    decreases |evs|
  {
    if evs == [] then Start(initialMax)
    else Apply(opts, Run(opts, initialMax, evs[..|evs| - 1]), evs[|evs| - 1])
  }

  /** How many `exit` and `error` events reached a listener during `evs`. */
  function Ended(opts: Options, initialMax: int, evs: seq<Event>): nat
    decreases |evs|
  {
    if evs == [] then 0
    else
      var e := evs[|evs| - 1];
      Ended(opts, initialMax, evs[..|evs| - 1]) +
      (if !e.Tick? && e.worker < Run(opts, initialMax, evs[..|evs| - 1]).counter then 1 else 0)
  }

  /** What every reachable state satisfies. */
  ghost predicate Inv(opts: Options, s: State)
  {
    s.counter <= |opts.tasks| &&
    |s.launched| == s.counter &&
    (forall i :: 0 <= i < |s.launched| ==> Describes(s.launched[i], i, opts.tasks)) &&
    (s.stopped ==> s.counter == |opts.tasks|)
  }

  lemma TickKeepsInv(opts: Options, s: State, max: int)
    requires Inv(opts, s)
    ensures Inv(opts, TickStep(opts, s, max))
  {
  }

  lemma {:induction false} RunKeepsInv(opts: Options, initialMax: int, evs: seq<Event>)
    ensures Inv(opts, Run(opts, initialMax, evs))
  {
    if evs != [] {
      var pre := evs[..|evs| - 1];
      RunKeepsInv(opts, initialMax, pre);
      if evs[|evs| - 1].Tick? {
        TickKeepsInv(opts, Run(opts, initialMax, pre), evs[|evs| - 1].max);
      }
    }
  }

  /** Launch number `i + 1` carried `tasks[i]`, its 1-based sequence number, the
      task count and a slot label below the maximum read on its tick; and the
      loop stops only after every task was launched. */
  lemma {:induction false} LaunchRecords(opts: Options, initialMax: int, evs: seq<Event>)
    ensures var s := Run(opts, initialMax, evs);
      |s.launched| == s.counter &&
      (forall i :: 0 <= i < s.counter ==> Describes(s.launched[i], i, opts.tasks)) &&
      (s.stopped ==> |s.launched| == |opts.tasks|)
  {
    RunKeepsInv(opts, initialMax, evs);
  }

  /** Each launch added one to `activeWorkers` and each `exit` or `error` that
      reached a listener took one away. */
  lemma {:induction false} ActiveWorkersAccount(opts: Options, initialMax: int, evs: seq<Event>)
    ensures var s := Run(opts, initialMax, evs);
      s.activeWorkers == s.counter - Ended(opts, initialMax, evs)
  {
    if evs != [] {
      ActiveWorkersAccount(opts, initialMax, evs[..|evs| - 1]);
    }
  }

  /** `concurrency` holds the maximum read on the latest tick, as long as the loop runs. */
  lemma {:induction false} ConcurrencyIsLatestMax(opts: Options, initialMax: int, evs: seq<Event>, max: int, rest: seq<Event>)
    requires !Run(opts, initialMax, evs).stopped
    requires forall i :: 0 <= i < |rest| ==> !rest[i].Tick?
    ensures Run(opts, initialMax, evs + [Tick(max)] + rest).concurrency == max
  {
    var all := evs + [Tick(max)] + rest;
    if rest == [] {
      assert all[..|all| - 1] == evs;
    } else {
      ConcurrencyIsLatestMax(opts, initialMax, evs, max, rest[..|rest| - 1]);
      assert all[..|all| - 1] == evs + [Tick(max)] + rest[..|rest| - 1];
    }
  }

  /** An empty task list: the first tick launches nothing and resolves. */
  lemma EmptyTaskListResolvesOnFirstTick(path: string, getWorkerData: WorkerData -> Record, initialMax: int, max: int)
    ensures var s := Run(Options([], path, getWorkerData), initialMax, [Tick(max)]);
      s.stopped && s.counter == 0 && s.launched == []
  {
    assert [Tick(max)][..0] == [];
  }

  /** The slot label is `activeWorkers` at launch, not a free slot: with a
      maximum of 2, after the first of two workers exits, the third launch
      gets label 1 while the second worker, also labelled 1, still runs. */
  lemma SlotLabelsCanRepeat(path: string, getWorkerData: WorkerData -> Record, a: Json, b: Json, c: Json)
    ensures var s := Run(Options([a, b, c], path, getWorkerData), 2, [Tick(2), Tick(2), Exit(0), Tick(2)]);
      |s.launched| == 3 && s.activeWorkers == 2 && "worker" in s.launched[1] && "worker" in s.launched[2] &&
      s.launched[1]["worker"] == JNum(1) && s.launched[2]["worker"] == JNum(1)
  {
    var opts := Options([a, b, c], path, getWorkerData);
    var e1, e2, e3, e4 := [Tick(2)], [Tick(2), Tick(2)], [Tick(2), Tick(2), Exit(0)], [Tick(2), Tick(2), Exit(0), Tick(2)];
    assert e1[..0] == [] && e2[..1] == e1 && e3[..2] == e2 && e4[..3] == e3;
    var s1 := Run(opts, 2, e1);
    assert s1 == TickStep(opts, Start(2), 2);
    assert s1.counter == 1 && s1.activeWorkers == 1;
    var s2 := Run(opts, 2, e2);
    assert s2 == TickStep(opts, s1, 2);
    assert s2.counter == 2 && s2.activeWorkers == 2 && s2.launched[1]["worker"] == JNum(1);
    var s3 := Run(opts, 2, e3);
    assert s3 == EndStep(s2);
    var s4 := Run(opts, 2, e4);
    assert s4 == TickStep(opts, s3, 2);
    assert s4.launched[2]["worker"] == JNum(1);
  }

  // ---------------------------------------------------------------------
  // The loop as the source writes it: locals updated in place

  class Parallelizer {
    const tasks: seq<Json>
    const workerFilePath: string
    const getWorkerData: WorkerData -> Record
    var counter: nat
    var activeWorkers: int
    var concurrency: int
    var stopped: bool
    var launched: seq<Record>

    function Config(): Options
    {
      Options(tasks, workerFilePath, getWorkerData)
    }

    function Snapshot(): State
      reads this
    {
      State(counter, activeWorkers, concurrency, stopped, launched)
    }

    ghost predicate Valid()
      reads this
    {
      Inv(Config(), Snapshot())
    }

    constructor (tasks: seq<Json>, workerFilePath: string, getWorkerData: WorkerData -> Record, initialMax: int)
      ensures this.tasks == tasks && this.workerFilePath == workerFilePath && this.getWorkerData == getWorkerData
      ensures Valid() && Snapshot() == Start(initialMax)
    {
      this.tasks := tasks;
      this.workerFilePath := workerFilePath;
      this.getWorkerData := getWorkerData;
      counter, activeWorkers, concurrency, stopped, launched := 0, 0, initialMax, false, [];
    }

    /** The interval callback; the interval is cleared once `stopped` is set. */
    method Tick(max: int)
      requires Valid() && !stopped
      modifies this
      ensures Valid() && Snapshot() == TickStep(Config(), old(Snapshot()), max)
    {
      ghost var before := Snapshot();
      concurrency := max;
      if activeWorkers < max && counter < |tasks| {
        var data := WorkerData(tasks[counter], activeWorkers, counter + 1, |tasks|, max);
        var workerData := MergeWorkerData(getWorkerData(data), data);
        launched := launched + [workerData];
        counter := counter + 1;
        activeWorkers := activeWorkers + 1;
      }
      if counter == |tasks| && activeWorkers == 0 {
        stopped := true;
      }
      TickKeepsInv(Config(), before, max);
    }

    /** The `exit` listener of a started worker. */
    method OnExit(w: nat)
      requires Valid() && w < counter
      modifies this
      ensures Valid() && Snapshot() == EndStep(old(Snapshot()))
    {
      activeWorkers := activeWorkers - 1;
    }

    /** The `error` listener of a started worker (the message is only logged). */
    method OnError(w: nat, message: string)
      requires Valid() && w < counter
      modifies this
      ensures Valid() && Snapshot() == EndStep(old(Snapshot()))
    {
      activeWorkers := activeWorkers - 1;
    }
  }
}
