/**
 * `manageConcurrency` (src/parallelize.ts), the older loop: the maximum is
 * fixed, a tick launches whenever a slot is free (without checking that a
 * task is left), and the interval stops as soon as `counter` equals the list
 * length, whether or not workers are still running. The starting `counter`
 * and `concurrencyCurrent` are the caller's arguments.
 */
module ManageConcurrency {
  import opened Common
  import Parallelize

  /** The `workerData` of one launch; `task` is `None` when `taskList[counter]` is undefined. */
  datatype WorkerData = WorkerData(task: Option<string>, worker: int, counter: int, numberOfTasks: nat, maxConcurrency: int)

  datatype Event = Tick | Exit(worker: nat) | WorkerError(worker: nat, message: string)

  /** The two parameters the listeners update, whether the interval was cleared, and every launch so far. */
  datatype State = State(counter: int, current: int, stopped: bool, launched: seq<WorkerData>)

  /** `taskList[i]`: a value inside the list, undefined outside it (also for negative `i`). */
  function TaskAt(taskList: seq<string>, i: int): Option<string>
  {
    if 0 <= i < |taskList| then Some(taskList[i]) else None
  }

  function Start(counter: int, current: int): State
  {
    State(counter, current, false, [])
  }

  /** One interval tick. A cleared interval delivers no ticks. */
  function TickStep(taskList: seq<string>, max: int, s: State): (r: State)
    ensures r.counter >= s.counter
    ensures s.launched <= r.launched
    // launches exactly when a slot is free, with no look at the list
    ensures r.counter != s.counter <==> !s.stopped && s.current < max
    ensures r.counter != s.counter ==>
      r.counter == s.counter + 1 && r.current == s.current + 1 &&
      r.launched == s.launched + [WorkerData(TaskAt(taskList, s.counter), s.current, s.counter + 1, |taskList|, max)]
    ensures r.counter == s.counter ==> r.current == s.current && r.launched == s.launched
    // stops on exact equality with the length, whatever runs
    ensures r.stopped <==> s.stopped || r.counter == |taskList|
  {
    if s.stopped then s
    else
      var s1 :=
        if s.current < max then
          s.(counter := s.counter + 1, current := s.current + 1,
             launched := s.launched + [WorkerData(TaskAt(taskList, s.counter), s.current, s.counter + 1, |taskList|, max)])
        else s;
      if s1.counter == |taskList| then s1.(stopped := true) else s1
  }

  /** One event; an `exit` or `error` of a worker never started has no listener. */
  function Apply(taskList: seq<string>, max: int, s: State, e: Event): State
  {
    match e
    case Tick => TickStep(taskList, max, s)
    case Exit(w) => if w < |s.launched| then s.(current := s.current - 1) else s
    case WorkerError(w, _) => if w < |s.launched| then s.(current := s.current - 1) else s
  }

  /** The state after the runtime delivered `evs` to a call started in `s0`. */
  function Run(taskList: seq<string>, max: int, s0: State, evs: seq<Event>): State
    decreases |evs|
  {
    if evs == [] then s0
    else Apply(taskList, max, Run(taskList, max, s0, evs[..|evs| - 1]), evs[|evs| - 1])
  }

  /** How many `exit` and `error` events reached a listener during `evs`. */
  function Ended(taskList: seq<string>, max: int, s0: State, evs: seq<Event>): nat
    decreases |evs|
  {
    if evs == [] then 0
    else
      var e := evs[|evs| - 1];
      Ended(taskList, max, s0, evs[..|evs| - 1]) +
      (if !e.Tick? && e.worker < |Run(taskList, max, s0, evs[..|evs| - 1]).launched| then 1 else 0)
  }

  /** Launch `j` of a call started at `counter == c0`: it was handed
      `taskList[c0 + j]` (undefined outside the list), the number `c0 + j + 1`,
      the list length and the maximum, in a slot below the maximum; and
      `counter` has grown by exactly the number of launches. */
  lemma {:induction false} LaunchRecords(taskList: seq<string>, max: int, c0: int, current: int, evs: seq<Event>)
    ensures var s := Run(taskList, max, Start(c0, current), evs);
      s.counter == c0 + |s.launched| &&
      forall j :: 0 <= j < |s.launched| ==>
        s.launched[j].task == TaskAt(taskList, c0 + j) && s.launched[j].counter == c0 + j + 1 &&
        s.launched[j].numberOfTasks == |taskList| && s.launched[j].maxConcurrency == max &&
        s.launched[j].worker < max
    decreases |evs|
  {
    if evs != [] {
      LaunchRecords(taskList, max, c0, current, evs[..|evs| - 1]);
    }
  }

  /** `concurrencyCurrent` is its starting value plus the launches minus the
      `exit` and `error` events that reached a listener. */
  lemma {:induction false} CurrentAccount(taskList: seq<string>, max: int, c0: int, current: int, evs: seq<Event>)
    ensures var s := Run(taskList, max, Start(c0, current), evs);
      s.current == current + |s.launched| - Ended(taskList, max, Start(c0, current), evs)
    decreases |evs|
  {
    if evs != [] {
      CurrentAccount(taskList, max, c0, current, evs[..|evs| - 1]);
    }
  }

  /** Once `counter` has passed the list length on a running loop, it only
      grows and the interval is never cleared. */
  lemma {:induction false} PastEndNeverStops(taskList: seq<string>, max: int, s0: State, evs: seq<Event>, k: nat)
    requires k <= |evs|
    requires var s := Run(taskList, max, s0, evs[..k]); !s.stopped && s.counter > |taskList|
    ensures var s := Run(taskList, max, s0, evs);
      !s.stopped && s.counter >= Run(taskList, max, s0, evs[..k]).counter
    decreases |evs| - k
  {
    if k < |evs| {
      var pre := evs[..k + 1];
      assert pre[..k] == evs[..k];
      assert Run(taskList, max, s0, pre) == Apply(taskList, max, Run(taskList, max, s0, evs[..k]), evs[k]);
      PastEndNeverStops(taskList, max, s0, evs, k + 1);
    } else {
      assert evs[..k] == evs;
    }
  }

  /** A starting `counter` beyond the list length never stops the interval. */
  lemma OvershootNeverStops(taskList: seq<string>, max: int, counter: int, current: int, evs: seq<Event>)
    requires counter > |taskList|
    ensures var s := Run(taskList, max, Start(counter, current), evs);
      !s.stopped && s.counter >= counter
  {
    assert evs[..0] == [];
    PastEndNeverStops(taskList, max, Start(counter, current), evs, 0);
  }

  /** Called on an empty list with a free slot, the first tick starts a worker
      for an undefined task, and the interval is never cleared afterwards. */
  lemma EmptyListNeverStops(max: int, current: int, evs: seq<Event>)
    requires current < max
    requires |evs| > 0 && evs[0] == Tick
    ensures var s := Run([], max, Start(0, current), evs);
      !s.stopped && |s.launched| > 0 && s.launched[0].task == None
  {
    var s0 := Start(0, current);
    var first := evs[..1];
    assert first[..|first| - 1] == [] && first[|first| - 1] == Tick;
    assert Run([], max, s0, first[..|first| - 1]) == s0;
    var s1 := Run([], max, s0, first);
    assert s1 == Apply([], max, s0, Tick);
    assert s1.counter == 1 && !s1.stopped && s1.launched[0].task == None;
    PastEndNeverStops([], max, s0, evs, 1);
    LaunchesKept([], max, s0, evs, 1);
  }

  /** Launch records are never taken back. */
  lemma {:induction false} LaunchesKept(taskList: seq<string>, max: int, s0: State, evs: seq<Event>, k: nat)
    requires k <= |evs|
    ensures Run(taskList, max, s0, evs[..k]).launched <= Run(taskList, max, s0, evs).launched
    decreases |evs| - k
  {
    if k < |evs| {
      var pre := evs[..k + 1];
      assert pre[..k] == evs[..k];
      assert Run(taskList, max, s0, pre) == Apply(taskList, max, Run(taskList, max, s0, evs[..k]), evs[k]);
      LaunchesKept(taskList, max, s0, evs, k + 1);
    } else {
      assert evs[..k] == evs;
    }
  }

  /** One task and two slots: the first tick launches it and clears the
      interval while that worker is still running. */
  lemma StopsWhileWorkersRun(task: string)
    ensures var s := Run([task], 2, Start(0, 0), [Tick]);
      s.stopped && s.current == 1 && s.launched == [WorkerData(Some(task), 0, 1, 1, 2)]
  {
    assert [Tick][..0] == [];
  }

  /** Side by side with `parallelize`: before the end of the list, from the
      same counters, the same maximum and the same tasks, both loops launch on
      the same ticks and hand the worker the same task, slot, number and counts. */
  lemma SameLaunchBeforeEnd(taskList: seq<string>, max: int, s: State, opts: Parallelize.Options, ps: Parallelize.State)
    requires |opts.tasks| == |taskList| && ps.counter <= |opts.tasks|
    requires forall i :: 0 <= i < |taskList| ==> opts.tasks[i] == JStr(taskList[i])
    requires !s.stopped && !ps.stopped && 0 <= s.counter == ps.counter < |taskList| && s.current == ps.activeWorkers
    ensures var r := TickStep(taskList, max, s);
      var pr := Parallelize.TickStep(opts, ps, max);
      (r.counter != s.counter <==> pr.counter != ps.counter) &&
      (r.counter != s.counter ==>
        var d := r.launched[|s.launched|];
        var rec := pr.launched[|ps.launched|];
        d.task == Some(taskList[s.counter]) && "task" in rec && rec["task"] == JStr(taskList[s.counter]) &&
        rec["worker"] == JNum(d.worker) && rec["counter"] == JNum(d.counter) &&
        rec["numberOfTasks"] == JNum(d.numberOfTasks) && rec["maxConcurrency"] == JNum(d.maxConcurrency))
  {
  }

  // ---------------------------------------------------------------------
  // The loop as the source writes it: the parameters updated in place

  class Manager {
    const taskList: seq<string>
    const concurrencyMax: int
    var counter: int
    var concurrencyCurrent: int
    var stopped: bool
    var launched: seq<WorkerData>

    function Snapshot(): State
      reads this
    {
      State(counter, concurrencyCurrent, stopped, launched)
    }

    constructor (taskList: seq<string>, counter: int, concurrencyMax: int, concurrencyCurrent: int)
      ensures this.taskList == taskList && this.concurrencyMax == concurrencyMax
      ensures Snapshot() == Start(counter, concurrencyCurrent)
    {
      this.taskList := taskList;
      this.concurrencyMax := concurrencyMax;
      this.counter, this.concurrencyCurrent, stopped, launched := counter, concurrencyCurrent, false, [];
    }

    /** The interval callback; the interval is cleared once `stopped` is set. */
    method Tick()
      requires !stopped
      modifies this
      ensures Snapshot() == TickStep(taskList, concurrencyMax, old(Snapshot()))
    {
      if concurrencyCurrent < concurrencyMax {
        var data := WorkerData(TaskAt(taskList, counter), concurrencyCurrent, counter + 1, |taskList|, concurrencyMax);
        launched := launched + [data];
        counter := counter + 1;
        concurrencyCurrent := concurrencyCurrent + 1;
      }
      if counter == |taskList| {
        stopped := true;
      }
    }

    /** The `exit` listener, and likewise the `error` listener, of a started worker. */
    method OnEnd(w: nat)
      requires w < |launched|
      modifies this
      ensures Snapshot() == Apply(taskList, concurrencyMax, old(Snapshot()), Exit(w))
    {
      concurrencyCurrent := concurrencyCurrent - 1;
    }
  }
}
