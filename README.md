# WorkerThread lifecycle model

A Dafny model of the `WorkerThread` class (worker_thread.h, worker_thread.cpp).
That class runs a work callback on a background thread. It coordinates the
callback through an atomic word of seven lifecycle flags: THREAD_ACTIVE,
TERMINATE_PENDING, DETACH_ON_TERMINATE, IDLE, BUSY, WORK_PENDING and
WORK_REPEAT. It also holds an `int` signal slot (NONE = 0, KILL = 1), a
work-function pointer and scratch argument slots: two `void*` slots, and two
64-bit words readable as `unsigned long long` or `long long` through a union.

The project has four modules:

- `Flags` (flags.dfy). The `FlagBits` and `Signal` constants. `Encode` and
  `Decode` translate between a set of flags and the 32-bit flag word. Lemmas
  prove that the flags are distinct single bits, that `Encode` and `Decode`
  are inverse on words with no stray bits, and that `fetch_or(bit)` and
  `fetch_and(~bit)` add or remove exactly one flag.
- `Args` (args.dfy). The slot storage. The union is one storage word per
  slot: the unsigned view reads it directly, the signed view through
  two's-complement reinterpretation. Setters and getters are guarded by the
  index range {0, 1}.
- `Lifecycle` (lifecycle.dfy). The flag and signal behaviour as a state
  machine over values. `Step` applies one event: a public mutator, or one
  phase step of the background loop. The loop steps are enter, begin wait,
  wake, callback done and exit. `Consistent` ties the flags to the loop's
  phase. Lemmas cover single steps and whole runs.
- `WorkerThreads` (worker.dfy). The `WorkerThread` class. Its fields are the
  flag word (`bv32`), the signal, the work function and two arrays of slots.
  A ghost field holds the loop phase. Each lifecycle method is proved to
  change the object exactly as `Lifecycle.Step` says. Each single-flag update
  goes through `FetchOr` or `FetchAndNot` on the word, as the source's
  `fetch_or` and `fetch_and` do. The constructor and `Reset` assign the word 0
  directly, as the source's `m_flags(0)` and `m_flags.store(0)` do. The class
  invariant keeps the word free of bits outside the seven flags.

Two behaviours of the code are worth knowing:

- On loop exit the code clears WORK_REPEAT (worker_thread.cpp:205). A
  restarted loop therefore does not keep a previous `enableWorkRepeat`; only
  DETACH_ON_TERMINATE survives (`RestartKeepsDetachOnly`).
- `reset` is meant to end the background loop before clearing the fields.
  The code calls `stop_detach`, which stores KILL, releases the lock and
  notifies the loop, and then takes the lock again and stores NONE
  (worker_thread.cpp:153-155). If the woken loop takes the lock first, it
  sees KILL and leaves (worker_thread.cpp:186-188). If `reset` takes the lock
  first, the KILL is overwritten before the loop sees it. A waiting loop can
  then be left waiting on a false predicate, with THREAD_ACTIVE clear, so
  `start` would spawn a second loop. The model takes `reset` as one step,
  which is this second interleaving (`ResetWhileWaitingStrandsLoop`). Full
  consistency across runs is therefore proved only for traces that reset
  while no loop runs (`RunPreservesConsistent`). Over every run of one loop,
  whenever `reset` is called, IDLE and BUSY are never both set
  (`RunKeepsIdleBusyApart`). The model runs at most one loop, so the second
  loop that `start` would spawn after such a reset is not modelled (see
  "Left out").
  Stopping, letting the loop leave and then resetting gives the constructed
  state (`StopDrainResetIsFresh`).

## Model

| member | source | states |
|---|---|---|
| Flags.Encode | worker_thread.h:64 | the `m_flags` word of a set of flags, with no bit outside the seven flags |
| Flags.Decode | worker_thread.h:64 | the flags a word holds: a flag is in it exactly when the source's test `word & FLAG != 0` succeeds (no contract of its own; its round trips are `DecodeEncode` and `EncodeDecode`) |
| Flags.FlagsAreDistinctSingleBits | worker_thread.h:17-25 | each flag is the single bit `1 << k` for its position k, and two different flags share no bit |
| Flags.HasOr | worker_thread.h:17-25 | setting one flag's bit in any word leaves every other flag's test as it was and makes that flag's test true |
| Flags.HasAndNot | worker_thread.h:17-25 | clearing one flag's bit leaves every other flag's test as it was and makes that flag's test false |
| Flags.EncodeHas | worker_thread.cpp:137-150 | the source's test `word & FLAG != 0` on the word of a set is membership in the set, and the word has no bit outside the seven flags |
| Flags.DecodeEncode | worker_thread.h:64 | reading back the word of a set of flags gives that set |
| Flags.EncodeDecode | worker_thread.h:64 | a word with no bit outside the seven flags is the word of the flags it holds |
| Flags.EncodeInjective | worker_thread.h:17-25 | different flag sets have different words |
| Flags.DecodeZero | worker_thread.cpp:9 | the zero word holds no flag |
| Flags.FetchOrAdds | worker_thread.cpp:67 | `fetch_or(bit)` on any word adds exactly that flag and keeps the word free of stray bits |
| Flags.FetchAndRemoves | worker_thread.cpp:84 | `fetch_and(~bit)` on any word removes exactly that flag and keeps the word free of stray bits |
| Flags.EncodeAdd | worker_thread.cpp:79 | adding a flag to a set is `fetch_or` of its bit on the set's word |
| Flags.EncodeRemove | worker_thread.cpp:84 | removing a flag from a set is `fetch_and(~bit)` on the set's word |
| Args.AsSigned | worker_thread.h:66-69 | the signed view of a word is non-negative exactly when the word is below 2^63, and is the word or the word minus 2^64 |
| Args.FromSigned | worker_thread.h:66-69 | the word a signed write stores reads back through the signed view as the value written |
| Args.SignedViewIsInjective | worker_thread.h:66-69 | writing back what the signed view read restores the word |
| Args.SignedWriteUnsignedRead | worker_thread.h:66-69 | a signed write of x to slot i reads back unsigned as x, or as x + 2^64 when x is negative |
| Args.UnsignedWriteSignedRead | worker_thread.h:66-69 | an unsigned write of u to slot i reads back signed as u, or as u - 2^64 when u is at least 2^63 |
| Args.Store | worker_thread.cpp:87-89 | an in-range set replaces slot i and keeps the other slot; an out-of-range set changes nothing |
| Args.Load | worker_thread.cpp:91-93 | an in-range get reads slot i; an out-of-range get reads the sentinel |
| Args.StoreLoad | worker_thread.cpp:87-109 | a get after a set returns the value set when the indices agree and are in range, and otherwise what the get would have returned before |
| Lifecycle.WaitPredicate | worker_thread.cpp:180-182 | the wait's predicate holds exactly when WORK_PENDING is set in the flag word or a signal is pending |
| Lifecycle.SpawnAllowed | worker_thread.cpp:38 | `start` spawns exactly when THREAD_ACTIVE is clear in the flag word |
| Lifecycle.Step | worker_thread.cpp:15-208 | only the loop's own steps move its phase; only the wake consumes the signal, leaving NONE; loop steps keep the work function and DETACH_ON_TERMINATE; `requestWork` sets WORK_PENDING, `enableWorkRepeat` sets and `disableWorkRepeat` clears WORK_REPEAT, `setDetachOnTerminate` sets or clears DETACH_ON_TERMINATE as `enable` says; each of these four leaves every other flag, the signal and the work function as they were |
| Lifecycle.HandleSignal | worker_thread.cpp:162-167 | TERMINATE_PENDING is set afterwards exactly when it was set or the signal was KILL; no other flag changes |
| Lifecycle.Dispatch | worker_thread.cpp:187-199 | the loop leaves exactly when TERMINATE_PENDING is set; it runs the callback exactly when it does not leave, work is pending and a function is set; in that case BUSY is set and WORK_PENDING stays set exactly when WORK_REPEAT is set, with no other flag changed; otherwise the flags are unchanged |
| Lifecycle.WakeStep | worker_thread.cpp:180-199 | a wake clears IDLE; it leaves exactly when TERMINATE_PENDING was set or the signal was KILL; it runs the callback exactly when it does not leave, work is pending and a function is set; the flags it leaves on each branch |
| Lifecycle.ExitCleanup | worker_thread.cpp:203-207 | cleanup clears TERMINATE_PENDING, WORK_REPEAT, WORK_PENDING and THREAD_ACTIVE, and keeps everything else, DETACH_ON_TERMINATE included |
| Lifecycle.ExitCleanupLeavesOnlyDetach | worker_thread.cpp:203-207 | with IDLE and BUSY clear, cleanup leaves at most DETACH_ON_TERMINATE set |
| Lifecycle.InitialIsConsistent | worker_thread.cpp:3-13 | the constructed state agrees with a stopped loop, and its flag word is 0 |
| Lifecycle.ConsistentConsequences | worker_thread.cpp:38-40 | in a consistent state IDLE and BUSY are not both set, and `start` spawns exactly when no loop runs |
| Lifecycle.StepPreservesConsistent | worker_thread.cpp:169-208 | every mutator and every loop step keeps the flags in agreement with the phase (THREAD_ACTIVE exactly while a loop runs, IDLE exactly while it waits, BUSY exactly while the callback runs), `reset` only while no loop runs |
| Lifecycle.RunPreservesConsistent | worker_thread.cpp:178-198 | over any run that resets only while no loop runs, the flags stay in agreement with the phase, and IDLE and BUSY are never both set |
| Lifecycle.ConsistentMarksMatchPhase | worker_thread.cpp:178-198 | a consistent state has IDLE only while the loop waits and BUSY only while the callback runs |
| Lifecycle.StepKeepsMarksMatchPhase | worker_thread.cpp:152-208 | every enabled event, `reset` at any time included, keeps IDLE only while the loop waits and BUSY only while the callback runs |
| Lifecycle.RunKeepsIdleBusyApart | worker_thread.cpp:178-198 | over every feasible run of one loop, however `reset` is interleaved, IDLE and BUSY are never both set |
| Lifecycle.ResetWhileWaitingStrandsLoop | worker_thread.cpp:152-160 | `reset` taken as one step during the wait leaves the loop waiting on a false predicate, with THREAD_ACTIVE clear so that `start` would spawn again |
| Lifecycle.RequestWorkCoalesces | worker_thread.cpp:64-70 | any number n >= 1 of `requestWork` calls in a row leaves the state that one call leaves |
| Lifecycle.DrainFromExiting | worker_thread.cpp:203-207 | a loop that has decided to leave reaches `Stopped`, keeping only DETACH_ON_TERMINATE of its flags |
| Lifecycle.DrainFromWaiting | worker_thread.cpp:180-188 | a waiting loop with KILL pending leaves at the wake and ends stopped with only DETACH_ON_TERMINATE kept |
| Lifecycle.DrainFromLoopTop | worker_thread.cpp:176-188 | a loop at the top of an iteration with KILL pending ends the same way |
| Lifecycle.DrainFromCallback | worker_thread.cpp:196-198 | a loop inside the callback with KILL pending finishes the callback and then ends the same way |
| Lifecycle.KillStopsLoop | worker_thread.cpp:162-207 | with KILL pending, from any phase, the loop's remaining steps run without a new callback and end with THREAD_ACTIVE clear and only DETACH_ON_TERMINATE kept |
| Lifecycle.StopDrainResetIsFresh | worker_thread.cpp:152-160 | `stop_detach`, then the loop leaving, then `reset` gives exactly the freshly constructed state |
| Lifecycle.RepeatRedispatches | worker_thread.cpp:190-199 | with WORK_REPEAT set, the wake that starts the callback keeps WORK_PENDING set, so the next wake starts it again |
| Lifecycle.SingleRequestRunsOnce | worker_thread.cpp:190-192 | without WORK_REPEAT, one request runs the callback once, and the loop then waits on a false predicate |
| Lifecycle.DisableRepeatInCallback | worker_thread.cpp:82-85 | disabling WORK_REPEAT inside a repeating callback allows exactly one more run, after which the loop waits on a false predicate |
| Lifecycle.RestartKeepsDetachOnly | worker_thread.cpp:203-207 | a loop restarted after one that exited keeps DETACH_ON_TERMINATE as it was and has WORK_REPEAT and WORK_PENDING clear |
| WorkerThreads.WorkerThread.constructor | worker_thread.cpp:3-13 | flag word 0, signal NONE, no work function, both pointer slots null, both words zero, loop stopped |
| WorkerThreads.WorkerThread.ClearArgs | worker_thread.cpp:11-12 | after the two loops both pointer slots are null and both words are zero |
| WorkerThreads.WorkerThread.FetchOr | worker_thread.cpp:67 | the word's flags gain exactly the one flag |
| WorkerThreads.WorkerThread.FetchAndNot | worker_thread.cpp:84 | the word's flags lose exactly the one flag |
| WorkerThreads.WorkerThread.Destroy | worker_thread.cpp:15-28 | the destructor's step: TERMINATE_PENDING set, signal KILL, nothing else changed; it detaches exactly when DETACH_ON_TERMINATE is set |
| WorkerThreads.WorkerThread.Start | worker_thread.cpp:30-41 | a previous thread is detached exactly when DETACH_ON_TERMINATE is set; a loop is spawned exactly when THREAD_ACTIVE is clear, which in a consistent state means no loop runs |
| WorkerThreads.WorkerThread.StopDetach | worker_thread.cpp:43-53 | DETACH_ON_TERMINATE set, signal KILL, nothing else changed; it detaches exactly when THREAD_ACTIVE is set |
| WorkerThreads.WorkerThread.StopJoin | worker_thread.cpp:55-62 | DETACH_ON_TERMINATE cleared, signal KILL, nothing else changed |
| WorkerThreads.WorkerThread.RequestWork | worker_thread.cpp:64-70 | WORK_PENDING set, nothing else changed |
| WorkerThreads.WorkerThread.SetWorkFunction | worker_thread.cpp:72-75 | the work function is the one given, nothing else changed |
| WorkerThreads.WorkerThread.EnableWorkRepeat | worker_thread.cpp:77-80 | WORK_REPEAT set, nothing else changed |
| WorkerThreads.WorkerThread.DisableWorkRepeat | worker_thread.cpp:82-85 | WORK_REPEAT cleared, nothing else changed |
| WorkerThreads.WorkerThread.SetWorkPointerArg | worker_thread.cpp:87-89 | pointer slot i set when i is 0 or 1, otherwise no slot changes |
| WorkerThreads.WorkerThread.GetWorkPointerArg | worker_thread.cpp:91-93 | pointer slot i when i is 0 or 1, otherwise null |
| WorkerThreads.WorkerThread.SetWorkUIntArg | worker_thread.cpp:95-97 | word i set to the value when i is 0 or 1, otherwise no word changes |
| WorkerThreads.WorkerThread.GetWorkUIntArg | worker_thread.cpp:99-101 | word i read unsigned when i is 0 or 1, otherwise 0 |
| WorkerThreads.WorkerThread.SetWorkIntArg | worker_thread.cpp:103-105 | word i set to the two's-complement pattern of the value when i is 0 or 1, otherwise no word changes |
| WorkerThreads.WorkerThread.GetWorkIntArg | worker_thread.cpp:107-109 | word i read as two's complement when i is 0 or 1, otherwise 0 |
| WorkerThreads.WorkerThread.SetDetachOnTerminate | worker_thread.cpp:111-117 | DETACH_ON_TERMINATE set or cleared as `enable` says, nothing else changed |
| WorkerThreads.WorkerThread.SendSignal | worker_thread.cpp:119-125 | the signal slot holds the value sent, whatever it is; nothing else changed |
| WorkerThreads.WorkerThread.GetSignal | worker_thread.cpp:127-130 | the current signal |
| WorkerThreads.WorkerThread.GetFlags | worker_thread.cpp:132-135 | the word of the current flags, with no bit outside the seven |
| WorkerThreads.WorkerThread.IsIdle | worker_thread.cpp:137-140 | true exactly when IDLE is set; in a consistent state, exactly while the loop waits |
| WorkerThreads.WorkerThread.IsThreadActive | worker_thread.cpp:142-145 | true exactly when THREAD_ACTIVE is set; in a consistent state, exactly while a loop runs |
| WorkerThreads.WorkerThread.IsBusy | worker_thread.cpp:147-150 | true exactly when BUSY is set; in a consistent state, exactly while the callback runs |
| WorkerThreads.WorkerThread.Reset | worker_thread.cpp:152-160 | flags, signal and work function as constructed, both pointer slots null, both words zero (so both views read 0); the loop phase is untouched; it detaches (through `stop_detach`) exactly when THREAD_ACTIVE was set |
| WorkerThreads.WorkerThread.HandleSignal | worker_thread.cpp:162-167 | signal NONE afterwards; TERMINATE_PENDING set exactly when it was set or the signal was KILL; no other flag changes |
| WorkerThreads.WorkerThread.EnterLoop | worker_thread.cpp:170-173 | only when `start` may spawn and no modelled loop runs (phase `Stopped`): THREAD_ACTIVE set, the loop at the top of its first iteration |
| WorkerThreads.WorkerThread.BeginWait | worker_thread.cpp:176-182 | IDLE set, the loop waiting |
| WorkerThreads.WorkerThread.Wake | worker_thread.cpp:180-199 | only when WORK_PENDING is set or a signal is pending: the flags, phase and branch `WakeStep` gives, signal NONE |
| WorkerThreads.WorkerThread.Dispatch | worker_thread.cpp:187-199 | the flags and branch `Lifecycle.Dispatch` gives for the flags after the signal is handled |
| WorkerThreads.WorkerThread.CallbackDone | worker_thread.cpp:197-198 | BUSY cleared, the loop back at the top of an iteration |
| WorkerThreads.WorkerThread.ExitCleanup | worker_thread.cpp:203-207 | the flags `ExitCleanup` gives, the loop stopped |

## Left out

- Threads. Creating the background thread, `join` and `detach`
  (worker_thread.cpp:22-27, 32-40, 50-52) are not modelled. `Start`,
  `StopDetach`, `Reset` and `Destroy` return the decisions the code takes
  from the flags (detach or join, spawn or not). Whether the thread is
  joinable is not modelled. The detach-or-join decisions are therefore the
  code's only when a joinable thread exists. `Start`'s spawn decision is the
  code's in every case, since worker_thread.cpp:38 tests THREAD_ACTIVE
  whatever `joinable()` says.
- `Start`'s join never completes while the old loop runs. `start` joins while
  holding `m_mutex` (worker_thread.cpp:31-36), and the old loop needs that
  mutex to return from its wait (worker_thread.cpp:180) and to clean up
  (worker_thread.cpp:203). A second `start()` on a running worker with
  DETACH_ON_TERMINATE clear therefore deadlocks. The model returns the join
  decision and does not model the blocking join.
- `Lifecycle.RunKeepsIdleBusyApart` holds for runs of one loop only. After a
  `reset` strands a waiting loop, THREAD_ACTIVE is clear and `start` spawns a
  second loop (worker_thread.cpp:38-39) beside the stranded one. The model has
  one phase and does not model that second loop. With two loops, one can set
  IDLE (worker_thread.cpp:178) while the other is in the callback with BUSY
  set, so the exclusion no longer holds.
- `WorkerThreads.WorkerThread.EnterLoop` requires the phase `Stopped` as well
  as `start`'s THREAD_ACTIVE guard, because the model runs at most one loop.
  After a stranding `reset`, `Start` returns `spawn` true but `EnterLoop`
  cannot run. The second loop the code spawns then is not modelled.
- The mutex, the condition variable, `notify_one` and the atomic operations.
  Every method and every loop step is one atomic step. The condition-variable
  wait is the precondition of the wake step. The model says nothing about
  lost wakeups, spurious wakeups or races.
- `Reset`: its two critical sections (`stop_detach`'s, then its own) are one
  step, so no loop step can fall between them.
- The unlocked flag read in `stop_detach` (worker_thread.cpp:50) and the
  unlocked argument accessors. Both are data-race concerns.
- The work callback's body (worker_thread.cpp:196), an opaque function given
  the object. The callback is the time between `Wake` returning
  `RunCallback` and `CallbackDone`. Any public call may happen in that time.
- Pointer values. A `void*` is either `Null` or an opaque address, and the
  work function is either absent or an opaque identity.
- The argument words are held as the unsigned number their 64-bit pattern
  denotes, not as a `bv64`. The signed view is the two's-complement reading
  of that number. The two are the same storage word.
- test.cpp is a demonstration driver (console output, sleeps, polling). It is
  not part of this model.
