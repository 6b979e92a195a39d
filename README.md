# thread-tasks: the concurrency-limited dispatch loops, in Dafny

This project models the scheduling core of the `thread-tasks` library. The
library runs a list of tasks in worker threads, with at most a given number
running at once. That number is re-read on every tick of a 1 ms interval.

Three loops are modelled, each as pure state, step functions and lemmas over
any sequence of runtime events, and as a class whose methods update the
source's variables in place and are proved against the step functions:

- `threadTasksAdvanced` (module `ThreadTasks`). A tick re-reads the maximum and
  launches `tasks[counter]` when `activeWorkers < max && counter < tasks.length`.
  A worker's `message` or `error` event runs its callback, terminates the
  worker, decrements `activeWorkers` and deletes the worker file. Once
  `counter === tasks.length && activeWorkers === 0`, the tick runs `afterAll`,
  clears the interval and resolves. The module also covers the cached default
  maximum (the CPU count, read once) and the unlimited fan-out `threadTasks`.
- `parallelize` (module `Parallelize`). The same loop without awaits. Each
  launch builds a `workerData` record: the task, the slot label
  `activeWorkers`, the 1-based `counter`, the task count and this tick's
  maximum. That record is merged over what `getWorkerData` returned.
- `manageConcurrency` (module `ManageConcurrency`). The older loop. Its maximum
  is fixed, it launches whenever a slot is free without checking that a task
  is left, and it stops as soon as `counter` equals the list length.
- `isTimeBetween` (module `Utils`). Both `"H:M"` strings become minutes since
  midnight, and the window test is inclusive at both ends. The clock reading
  (hours, minutes) is a parameter.

Modelling choices:

- A tick is atomic. In `threadTasksAdvanced` awaits sit between the launch
  check (src/thread-tasks.ts:166) and the increments (:183-184). On the real
  event loop, ticks can therefore overlap, which can launch a task twice or
  push `counter` past `tasks.length`. The model does not capture this, and the
  dispatch-order lemmas hold for atomic ticks only. `parallelize` has no await
  inside the tick.
- A worker is identified by the index of the task it runs. The random
  timestamp ids of the source are not modelled.
- The runtime is an input: a sequence of events (`Tick(max)` carrying what the
  maximum function returned, and terminal events naming a worker). An event for
  a worker that was never started has no listener and changes nothing. A
  cleared interval delivers no more ticks.
- `activeWorkers` is an `int`. A worker that delivers two terminal events is
  counted down twice. `ThreadTasks.ActiveCountsRunning` proves the count is
  non-negative, and equal to the number of running workers, when each worker is
  terminated at most once.
- Outside effects (starting a worker, callbacks, `terminate`, file deletion,
  `afterAll`, resolving) are recorded in order in an effect log.

Behaviour of the code worth knowing:

- A tick launches at most one task, even when more slots are free.
- A failing `new Worker`, or a failing maximum function, is not caught.
- In `parallelize` the slot label is `activeWorkers` at launch, not a free slot
  number. Two running workers can carry the same label
  (`Parallelize.SlotLabelsCanRepeat`).
- Completion is checked on ticks only, not when a worker terminates.

## Model

| member | source | states |
|---|---|---|
| ThreadTasks.TickStep | src/thread-tasks.ts:157-206 | `threadCount` becomes the maximum read on this tick. A task is launched exactly when `activeWorkers < max && counter < tasks.length`, at most one per tick. The launch is `tasks[counter]` with its copied args, `counter` and `activeWorkers` each grow by 1, and the count stays `<= max`. Without a launch, `counter`, `activeWorkers` and the effects stay as they are. The tick's only effects are the launch, if any, and, on the tick where `counter == tasks.length && activeWorkers == 0` first holds, `afterAll` (if given) followed by the resolve. The loop stops exactly then. |
| ThreadTasks.MessageStep | src/thread-tasks.ts:186-191 | A `message` event adds exactly these effects: `onSuccess` when the task has one (and nothing in its place otherwise), then `terminate`, then deleting the worker file. `activeWorkers` drops by 1. `counter` and the stop flag do not change. |
| ThreadTasks.ErrorStep | src/thread-tasks.ts:193-198 | The same for an `error` event, with `onError`. |
| ThreadTasks.Run | src/thread-tasks.ts:139-206 | Over any event sequence, `counter` never exceeds `tasks.length`. |
| ThreadTasks.RunKeepsInv | src/thread-tasks.ts:139-206 | Every reachable state keeps the invariant: tasks started in input order, each once; `activeWorkers` = started − terminated; only started workers terminated; resolved once if stopped, never otherwise; `afterAll` called once, directly before the resolve, if given and stopped, never otherwise; stopped only once every task was started. |
| ThreadTasks.DispatchInOrder | src/thread-tasks.ts:166-184 | The started tasks are exactly `0, 1, …, counter-1`, in that order. After completion, every task has been started exactly once. |
| ThreadTasks.AfterAllOnceBeforeResolve | src/thread-tasks.ts:201-205 | `afterAll` is called at most once, and has been exactly when it was given and the loop stopped. Every call is directly followed by the resolve. |
| ThreadTasks.ResolvedAtMostOnce | src/thread-tasks.ts:201-205 | The promise is resolved at most once, and it has been exactly when the loop stopped. |
| ThreadTasks.ActiveCountsRunning | src/thread-tasks.ts:183-196 | When no worker is terminated twice, `activeWorkers` equals the number of started, not yet terminated workers, so it is never negative. |
| ThreadTasks.EmptyTaskListResolvesOnFirstTick | src/thread-tasks.ts:166-205 | With no tasks, the first tick launches nothing, calls `afterAll` (if given) and resolves. |
| ThreadTasks.NoCapacityNoProgress | src/thread-tasks.ts:158-166 | If every tick reads a maximum `<= 0`, a non-empty task list never starts a worker and never completes. |
| ThreadTasks.OneByOneState | src/thread-tasks.ts:166-191 | With a maximum `>= 1`, after k rounds of "tick, then that worker's message", k tasks were started, none runs and the loop has not stopped. |
| ThreadTasks.SequentialRunCompletes | src/thread-tasks.ts:157-206 | With a maximum `>= 1`, the run where each worker finishes before the next tick starts every task once, in order, and then resolves. |
| ThreadTasks.AdvancedScheduler.constructor | src/thread-tasks.ts:139-155 | Counters start at zero and `threadCount` holds the first reading of the maximum. The invariant holds. |
| ThreadTasks.AdvancedScheduler.Tick | src/thread-tasks.ts:157-206 | The in-place tick yields exactly `TickStep` of the old state and keeps the invariant. |
| ThreadTasks.AdvancedScheduler.OnMessage | src/thread-tasks.ts:186-191 | The in-place `message` listener yields exactly `MessageStep` and keeps the invariant. |
| ThreadTasks.AdvancedScheduler.OnError | src/thread-tasks.ts:193-198 | The in-place `error` listener yields exactly `ErrorStep` and keeps the invariant. |
| ThreadTasks.ReadThreadCount | src/thread-tasks.ts:145-153 | One call of the default maximum function returns the cached count if there is one, and otherwise the CPU count read now. After the call, the cache holds the returned value. |
| ThreadTasks.CachedReadsAgree | src/thread-tasks.ts:146-152 | Once the CPU count is cached, every later call returns the cached value, whatever the CPUs would read. |
| ThreadTasks.FirstReadingIsCached | src/thread-tasks.ts:142-153 | Starting with an empty cache, every call returns the count read by the first call. |
| ThreadTasks.ThreadCountCache.constructor | src/thread-tasks.ts:142 | The cache starts empty. |
| ThreadTasks.ThreadCountCache.GetThreadCount | src/thread-tasks.ts:143-153 | The first call reads and stores the count. Later calls return the stored count and leave the cache as it is. |
| ThreadTasks.StartAll | src/thread-tasks.ts:84-96 | `threadTasks` starts one worker per task, in task order. Worker i receives a copy of `tasks[i].args`, or `{}` when there are none. |
| Parallelize.MergeWorkerData | src/parallelize.ts:48 | The merged `workerData` has every key of both objects. The built fields win over same-named keys from `getWorkerData`, and other user keys are kept. |
| Parallelize.TickStep | src/parallelize.ts:30-69 | `concurrency` becomes this tick's maximum. A launch happens exactly when `activeWorkers < max && counter < tasks.length`, at most once per tick. Its record carries `tasks[counter]`, slot `activeWorkers` (below this tick's maximum), `counter + 1`, the task count and this maximum. The record is exactly these fields spread over what `getWorkerData` returned for them. The loop stops exactly when `counter == tasks.length && activeWorkers == 0`. |
| Parallelize.EndStep | src/parallelize.ts:54-61 | An `exit` or `error` event lowers `activeWorkers` by 1 and changes nothing else. |
| Parallelize.Run | src/parallelize.ts:26-69 | Over any event sequence, `counter` never exceeds `tasks.length`. |
| Parallelize.RunKeepsInv | src/parallelize.ts:26-69 | Every reachable state has one record per launch, each describing its task, and is stopped only after the last launch. |
| Parallelize.LaunchRecords | src/parallelize.ts:39-52 | Launch i+1 carried `tasks[i]`, `counter` i+1, the task count and a slot label below the maximum read at its launch. After completion, every task was launched once. |
| Parallelize.ActiveWorkersAccount | src/parallelize.ts:51-60 | `activeWorkers` equals the number of launches minus the number of `exit`/`error` events that reached a listener. |
| Parallelize.ConcurrencyIsLatestMax | src/parallelize.ts:31-37 | While the loop runs, `concurrency` holds the maximum read on the latest tick. |
| Parallelize.EmptyTaskListResolvesOnFirstTick | src/parallelize.ts:39-68 | With no tasks, the first tick launches nothing and resolves. |
| Parallelize.SlotLabelsCanRepeat | src/parallelize.ts:42 | With maximum 2 and three tasks, after the first worker exits, the third launch gets slot label 1 while the running second worker also has label 1. |
| Parallelize.Parallelizer.constructor | src/parallelize.ts:26-28 | Counters start at zero and `concurrency` holds the first reading. The invariant holds. |
| Parallelize.Parallelizer.Tick | src/parallelize.ts:30-69 | The in-place tick yields exactly `TickStep` of the old state and keeps the invariant. |
| Parallelize.Parallelizer.OnExit | src/parallelize.ts:54-56 | The in-place `exit` listener yields exactly `EndStep` and keeps the invariant. |
| Parallelize.Parallelizer.OnError | src/parallelize.ts:58-61 | The in-place `error` listener yields exactly `EndStep` and keeps the invariant. |
| ManageConcurrency.TickStep | src/parallelize.ts:79-106 | A launch happens exactly when `concurrencyCurrent < concurrencyMax`, with no check that a task is left. The launch record and counters are as listed. The interval stops exactly when `counter == taskList.length`, whatever is still running. |
| ManageConcurrency.LaunchRecords | src/parallelize.ts:80-91 | From a starting `counter` of c0, launch j was handed `taskList[c0 + j]` (undefined outside the list), the number `c0 + j + 1`, the list length and the maximum, in a slot below the maximum. `counter` grew by exactly the number of launches. |
| ManageConcurrency.CurrentAccount | src/parallelize.ts:89-100 | `concurrencyCurrent` is its starting value plus the number of launches minus the `exit`/`error` events that reached a listener. |
| ManageConcurrency.PastEndNeverStops | src/parallelize.ts:90-105 | Once `counter` is past the list length on a running loop, it never decreases and the interval is never cleared. |
| ManageConcurrency.OvershootNeverStops | src/parallelize.ts:102 | A starting `counter` greater than the list length never stops the interval, whatever events follow. |
| ManageConcurrency.EmptyListNeverStops | src/parallelize.ts:80-105 | On an empty list with a free slot, the first tick starts a worker for an undefined task, and the interval is never cleared. |
| ManageConcurrency.LaunchesKept | src/parallelize.ts:80-91 | Launch records are only ever appended. |
| ManageConcurrency.StopsWhileWorkersRun | src/parallelize.ts:102-105 | One task and two slots: the first tick launches the task and clears the interval while that worker still runs. |
| ManageConcurrency.SameLaunchBeforeEnd | src/parallelize.ts:80-91 | Before the end of the list, from equal counters, the same maximum and the same tasks, `manageConcurrency` and `parallelize` launch on the same ticks. They give the same task, slot, sequence number, task count and maximum. |
| ManageConcurrency.Manager.constructor | src/parallelize.ts:73-78 | The loop starts from the caller's `counter` and `concurrencyCurrent`, with no launches. |
| ManageConcurrency.Manager.Tick | src/parallelize.ts:79-106 | The in-place tick yields exactly `TickStep` of the old state. |
| ManageConcurrency.Manager.OnEnd | src/parallelize.ts:93-100 | The in-place `exit`/`error` listener lowers `concurrencyCurrent` by 1. |
| Utils.Split | src/utils.ts:4 | `split(':')` gives at least one piece, and no piece holds a colon. A string without a colon is a single piece. |
| Utils.SplitJoin | src/utils.ts:4 | Joining the pieces of a split with the separator gives back the original string. |
| Utils.SplitTwo | src/utils.ts:4 | Splitting `"a:b"` on `:` gives exactly `[a, b]` when neither part has a colon. |
| Utils.Number | src/utils.ts:5 | A part gives a number exactly when it is present and made of decimal digits. The number is the decimal value of those digits, and `""` gives 0. |
| Utils.NumberOfDigits | src/utils.ts:5 | `Number` reads the decimal digits of n back as n. |
| Utils.PartsToMinutes | src/utils.ts:4-8 | Without a second part the time is NaN. A time that is a number came from two digit parts and equals `H * 60 + M`. Parts after the second play no role. |
| Utils.TimeToMinutes | src/utils.ts:4-8 | A time without a colon is NaN. |
| Utils.IsTimeBetween | src/utils.ts:3-17 | A window can hold only when both bounds contain a colon, both read as numbers, and the start is not after the end. |
| Utils.DigitPartsToMinutes | src/utils.ts:4-8 | `"H:M"` with digit parts reads as `H * 60 + M` minutes. |
| Utils.DigitsValueOfDigits | src/utils.ts:5 | Reading back the decimal digits of n gives n. |
| Utils.FormatRoundTrip | src/utils.ts:4-8 | Reading back a formatted `"H:M"` gives `H * 60 + M`. |
| Utils.Now | src/utils.ts:10-11 | The clock reading `hours * 60 + minutes` lies in [0, 1439] and gives back the hour and minute, so seconds play no part. |
| Utils.InclusiveWindow | src/utils.ts:13-16 | With both bounds parsed, the result is true exactly when `start <= now <= end`, both ends included. |
| Utils.MalformedBoundNeverTrue | src/utils.ts:13-16 | A bound that is NaN makes the result false. |
| Utils.CrossMidnightNeverTrue | src/utils.ts:13 | A window with start after end (crossing midnight) is never true. |
| Utils.SingleMinuteWindow | src/utils.ts:13 | A window with equal ends is true in exactly that minute. |
| Utils.WorkingHours | src/utils.ts:3-17 | For `"9:00"`–`"17:00"`: 9:00 and 17:00 are inside, 8:59 and 17:01 are not. |

## Findings

| source | as written | input that shows it | evidently intended | confidence | as-written member | corrected member |
|---|---|---|---|---|---|---|
| src/parallelize.ts:80-105 | `manageConcurrency` launches whenever a slot is free and stops only when `counter === taskList.length`, checked after the launch | `manageConcurrency([], 0, 1, 0)`: the first tick starts a worker for `taskList[0]` (undefined) and sets `counter` to 1; the interval is never cleared and keeps starting workers whenever a slot frees | with no task left, launch nothing and stop, as `parallelize` does with its `counter < tasks.length` guard | medium, not executed | ManageConcurrency.EmptyListNeverStops | Parallelize.EmptyTaskListResolvesOnFirstTick |

## Left out

- Worker-file generation, transpiling and deletion (src/thread-tasks.ts:15-66): filesystem I/O and the TypeScript compiler. Writing the file and starting the worker are one `Spawn` effect, and deletion is a `DeleteFile` effect.
- `new Worker`, `worker.terminate` and how Node delivers `message`/`exit`/`error` events: runtime behaviour. The events are an input sequence. Whether Node sends `exit` after `error` for the same worker (a double decrement in `parallelize`) is left to that input.
- Overlapping ticks in `threadTasksAdvanced`: the awaits at src/thread-tasks.ts:172 and :202 let interval callbacks interleave. Each tick is taken as atomic, so the model does not show the duplicate launches or `counter` overshoot this allows.
- ThreadTasks.AfterAllOnceBeforeResolve and ThreadTasks.ResolvedAtMostOnce hold for atomic ticks only. In the source, an async `afterAll` slower than the 1 ms interval (src/thread-tasks.ts:202) lets the following ticks pass the same completion test and call `afterAll` and `resolve` again before the interval is cleared.
- ThreadTasks.MessageStep and ThreadTasks.ErrorStep are atomic. In the source, the listener awaits `onSuccess`/`onError` (src/thread-tasks.ts:187, :194) before `terminate` and the decrement, so ticks, and launches if a slot is free, can run in between. The effect order inside one listener is kept, but ticks that interleave with a slow callback are not shown.
- The task list is an immutable sequence. Both loops read `tasks` afresh on every tick (src/thread-tasks.ts:166-167, src/parallelize.ts:39-41), so a caller that changes the array during a run changes that run. The model does not capture this.
- Parallelize.TickStep: `getWorkerData` is a pure function of the built fields. In the source it receives the `data` object itself (src/parallelize.ts:48) and may change it before `...data` is spread, or return different results on equal inputs. The model does not capture that aliasing or impurity.
- `setInterval` timing and the `Date.now() + Math.random()` worker ids, which can collide: clock and randomness. Workers are named by task index.
- `os.cpus()`: the CPU count is a parameter of each call of the default maximum function.
- The values `onSuccess`, `onError` and `afterAll` return, and whether they throw: only the fact and order of each call is recorded. In the source, a rejecting `onSuccess` or `onError` stops its listener before `terminate`, the decrement and the file deletion (src/thread-tasks.ts:187-190, :194-197), so `activeWorkers` never returns to 0 and the loop never completes. A rejecting `afterAll` stops the tick before `clearInterval` (:202-204), so every later tick calls `afterAll` again. Both hold unless the unhandled rejection ends the process.
- `console.log` output, including the error message logged by `parallelize`'s `error` listener.
- `getFeatureFlags` (src/utils.ts:19-27): a file read and a JSON parse.
- Utils.Number: only digit strings are read as numbers (and `""` as 0). Other strings that JavaScript's `Number()` accepts, such as `" 9"`, `"+9"`, `"9.5"` or `"0x9"`, are treated like NaN, so the result is false for them.
- The return value of `threadTasks` (an array of promises of `Worker` objects) is modelled only through the `workerData` each worker receives. Its listeners are the same callback, `terminate` and delete sequence as `threadTasksAdvanced`, without a counter.
- JavaScript numbers are modelled as unbounded integers; fractional or NaN maxima are not modelled.
- src/index.ts, index.ts, src/worker.js and the test harnesses are not part of this model.
