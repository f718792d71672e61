/** The lifecycle state machine of worker_thread.cpp, as values: the flag and
    signal updates of every public mutator and of each phase of the
    background loop, the invariant the phases keep, and what runs of the
    machine guarantee. The class in worker.dfy is proved against `Step`. */
module Lifecycle {
  import opened Flags

  /** Where the background loop is. `Stopped`: no loop has entered (or the
      last one has left); `LoopTop`: at the top of an iteration, about to set
      IDLE; `Waiting`: blocked on the condition variable; `InCallback`: the
      work function runs with the lock released; `Exiting`: left the loop,
      cleanup pending. */
  datatype Phase = Stopped | LoopTop | Waiting | InCallback | Exiting

  /** The part of the worker the lifecycle depends on. */
  datatype State = State(phase: Phase, flags: set<Flag>, signal: Int32, hasWorkFunc: bool)

  /** A public mutator of the worker, or one phase step of the background loop. */
  datatype Event =
    | RequestWork
    | SetWorkFunction(present: bool)
    | EnableWorkRepeat
    | DisableWorkRepeat
    | SetDetachOnTerminate(enable: bool)
    | SendSignal(sig: Int32)
    | StopJoin
    | StopDetach
    | Destroy
    | Reset
    | EnterLoop
    | BeginWait
    | Wake
    | CallbackDone
    | ExitLoop

  /** Which way a wake-up leaves the loop body. */
  datatype Branch = Terminate | RunCallback | NoWork

  datatype WakeResult = WakeResult(flags: set<Flag>, branch: Branch)

  /** A worker as the constructor (and `reset`, while no loop runs) leaves it. */
  const INITIAL: State := State(Stopped, {}, SIGNAL_NONE, false)

  /** The predicate the loop's condition-variable wait re-checks. */
  predicate WaitPredicate(flags: set<Flag>, signal: Int32)
    ensures WaitPredicate(flags, signal) <==> Has(Encode(flags), WorkPending) || signal != SIGNAL_NONE
  {
    EncodeHas(flags, WorkPending);
    WorkPending in flags || signal != SIGNAL_NONE
  }

  /** `start` spawns a loop only while THREAD_ACTIVE is clear. */
  predicate SpawnAllowed(flags: set<Flag>)
    ensures SpawnAllowed(flags) <==> !Has(Encode(flags), ThreadActive)
  {
    EncodeHas(flags, ThreadActive);
    ThreadActive !in flags
  }

  /** `handleSignal`'s flag update: KILL turns into TERMINATE_PENDING, any
      other signal value is dropped; the signal slot is then cleared. */
  function HandleSignal(flags: set<Flag>, signal: Int32): (r: set<Flag>)
    ensures TerminatePending in r <==> TerminatePending in flags || signal == SIGNAL_KILL
    ensures r - {TerminatePending} == flags - {TerminatePending}
  {
    if signal == SIGNAL_KILL then flags + {TerminatePending} else flags
  }

  /** The loop body once the signal is handled: leave on TERMINATE_PENDING;
      otherwise, with work pending and a work function, consume the request
      (unless WORK_REPEAT is set) and mark the worker BUSY. */
  function Dispatch(g: set<Flag>, hasWorkFunc: bool): (r: WakeResult)
    ensures r.branch == Terminate <==> TerminatePending in g
    ensures r.branch == RunCallback <==> TerminatePending !in g && WorkPending in g && hasWorkFunc
    ensures r.branch != RunCallback ==> r.flags == g
    ensures r.branch == RunCallback ==>
              && Busy in r.flags
              && (WorkPending in r.flags <==> WorkRepeat in g)
              && r.flags - {Busy, WorkPending} == g - {Busy, WorkPending}
  {
    if TerminatePending in g then
      WakeResult(g, Terminate)
    else if WorkPending in g && hasWorkFunc then
      var h := if WorkRepeat in g then g else g - {WorkPending};
      WakeResult(h + {Busy}, RunCallback)
    else
      WakeResult(g, NoWork)
  }

  /** The loop body after the wait returns: clear IDLE, handle the signal,
      then leave the loop, start the callback or do nothing. */
  function WakeStep(flags: set<Flag>, signal: Int32, hasWorkFunc: bool): (r: WakeResult)
    ensures Idle !in r.flags
    ensures r.branch == Terminate <==> TerminatePending in flags || signal == SIGNAL_KILL
    ensures r.branch == RunCallback <==>
              && TerminatePending !in flags && signal != SIGNAL_KILL
              && WorkPending in flags && hasWorkFunc
    ensures r.branch == Terminate ==>
              r.flags == flags - {Idle} + {TerminatePending}
    ensures r.branch == RunCallback ==>
              && Busy in r.flags
              && (WorkPending in r.flags <==> WorkRepeat in flags)
              && r.flags - {Busy, WorkPending} == flags - {Idle, Busy, WorkPending}
    ensures r.branch == NoWork ==> r.flags == flags - {Idle}
  {
    Dispatch(HandleSignal(flags - {Idle}, signal), hasWorkFunc)
  }

  /** The cleanup after the loop: TERMINATE_PENDING, WORK_REPEAT,
      WORK_PENDING and THREAD_ACTIVE are cleared, in that order. */
  function ExitCleanup(flags: set<Flag>): (r: set<Flag>)
    ensures r * {TerminatePending, WorkRepeat, WorkPending, ThreadActive} == {}
    ensures r == flags - {TerminatePending, WorkRepeat, WorkPending, ThreadActive}
    ensures DetachOnTerminate in r <==> DetachOnTerminate in flags
  {
    flags - {TerminatePending} - {WorkRepeat} - {WorkPending} - {ThreadActive}
  }

  /** Cleanup after a loop that is neither waiting nor in its callback
      leaves at most DETACH_ON_TERMINATE set. */
  lemma ExitCleanupLeavesOnlyDetach(flags: set<Flag>)
    requires Idle !in flags && Busy !in flags
    ensures ExitCleanup(flags) <= {DetachOnTerminate}
  {
    forall f | f in ExitCleanup(flags) ensures f == DetachOnTerminate {
      assert f.ThreadActive? || f.TerminatePending? || f.DetachOnTerminate? || f.Idle?
        || f.Busy? || f.WorkPending? || f.WorkRepeat?;
    }
  }

  function PhaseAfter(b: Branch): Phase {
    match b
    case Terminate => Exiting
    case RunCallback => InCallback
    case NoWork => LoopTop
  }

  /** Loop steps happen only in their phase, the first one only for a loop
      `start` may spawn, and the wake only once the wait predicate holds.
      The model runs at most one loop, so entering also needs the phase
      `Stopped`. Every public mutator may run at any time. */
  predicate Enabled(st: State, e: Event) {
    match e
    case EnterLoop => st.phase == Stopped && SpawnAllowed(st.flags)
    case BeginWait => st.phase == LoopTop
    case Wake => st.phase == Waiting && WaitPredicate(st.flags, st.signal)
    case CallbackDone => st.phase == InCallback
    case ExitLoop => st.phase == Exiting
    case _ => true
  }

  /** The effect of one event, each one atomic. Only the loop's own steps
      move its phase; only the wake consumes a signal; DETACH_ON_TERMINATE and
      the work function change only when a caller asks. */
  function Step(st: State, e: Event): (r: State)
    requires Enabled(st, e)
    ensures !IsLoopStep(e) ==> r.phase == st.phase
    ensures IsLoopStep(e) && !e.Wake? ==> r.signal == st.signal
    ensures e.Wake? ==> r.signal == SIGNAL_NONE
    ensures IsLoopStep(e) ==> r.hasWorkFunc == st.hasWorkFunc
    ensures IsLoopStep(e) ==> (DetachOnTerminate in r.flags <==> DetachOnTerminate in st.flags)
    ensures (e.RequestWork? || e.DisableWorkRepeat? || e.EnableWorkRepeat? || e.SetDetachOnTerminate?) ==>
              && r.flags - {WorkPending, WorkRepeat, DetachOnTerminate} == st.flags - {WorkPending, WorkRepeat, DetachOnTerminate}
              && r.signal == st.signal && r.hasWorkFunc == st.hasWorkFunc
    ensures e.RequestWork? ==> WorkPending in r.flags && r.flags - {WorkPending} == st.flags - {WorkPending}
    ensures e.EnableWorkRepeat? ==> WorkRepeat in r.flags && r.flags - {WorkRepeat} == st.flags - {WorkRepeat}
    ensures e.DisableWorkRepeat? ==> WorkRepeat !in r.flags && r.flags - {WorkRepeat} == st.flags - {WorkRepeat}
    ensures e.SetDetachOnTerminate? ==>
              && (DetachOnTerminate in r.flags <==> e.enable)
              && r.flags - {DetachOnTerminate} == st.flags - {DetachOnTerminate}
  {
    match e
    case RequestWork => st.(flags := st.flags + {WorkPending})
    case SetWorkFunction(present) => st.(hasWorkFunc := present)
    case EnableWorkRepeat => st.(flags := st.flags + {WorkRepeat})
    case DisableWorkRepeat => st.(flags := st.flags - {WorkRepeat})
    case SetDetachOnTerminate(enable) =>
      st.(flags := if enable then st.flags + {DetachOnTerminate} else st.flags - {DetachOnTerminate})
    case SendSignal(sig) => st.(signal := sig)
    case StopJoin => st.(flags := st.flags - {DetachOnTerminate}, signal := SIGNAL_KILL)
    case StopDetach => st.(flags := st.flags + {DetachOnTerminate}, signal := SIGNAL_KILL)
    case Destroy => st.(flags := st.flags + {TerminatePending}, signal := SIGNAL_KILL)
    case Reset => INITIAL.(phase := st.phase)
    case EnterLoop => st.(phase := LoopTop, flags := st.flags + {ThreadActive})
    case BeginWait => st.(phase := Waiting, flags := st.flags + {Idle})
    case Wake =>
      var w := WakeStep(st.flags, st.signal, st.hasWorkFunc);
      State(PhaseAfter(w.branch), w.flags, SIGNAL_NONE, st.hasWorkFunc)
    case CallbackDone => st.(phase := LoopTop, flags := st.flags - {Busy})
    case ExitLoop => st.(phase := Stopped, flags := ExitCleanup(st.flags))
  }

  /** The phase steps of the background loop, as opposed to public calls. */
  predicate IsLoopStep(e: Event) {
    e.EnterLoop? || e.BeginWait? || e.Wake? || e.CallbackDone? || e.ExitLoop?
  }

  /** Every event of the trace is enabled when it comes. */
  predicate Feasible(st: State, es: seq<Event>)
    decreases |es|
  {
    es == [] || (Enabled(st, es[0]) && Feasible(Step(st, es[0]), es[1..]))
  }

  function Run(st: State, es: seq<Event>): State
    requires Feasible(st, es)
    decreases |es|
  {
    if es == [] then st else Run(Step(st, es[0]), es[1..])
  }

  /** `reset` is called only while no loop runs. */
  predicate ResetsOnlyWhenStopped(st: State, es: seq<Event>)
    requires Feasible(st, es)
    decreases |es|
  {
    es == [] || ((es[0].Reset? ==> st.phase == Stopped) && ResetsOnlyWhenStopped(Step(st, es[0]), es[1..]))
  }

  /** The flags agree with the loop's phase: THREAD_ACTIVE is set exactly while
      a loop runs, IDLE exactly while it waits, BUSY exactly while the callback
      runs, and TERMINATE_PENDING from the decision to exit until cleanup. */
  predicate Consistent(st: State) {
    && (ThreadActive in st.flags <==> st.phase != Stopped)
    && (Idle in st.flags <==> st.phase == Waiting)
    && (Busy in st.flags <==> st.phase == InCallback)
    && (st.phase == Exiting ==> TerminatePending in st.flags)
  }

  lemma InitialIsConsistent()
    ensures Consistent(INITIAL) && Encode(INITIAL.flags) == 0
  {
  }

  /** A consistent worker never has IDLE and BUSY both set, and `start`
      spawns exactly when no loop runs. */
  lemma ConsistentConsequences(st: State)
    requires Consistent(st)
    ensures !(Idle in st.flags && Busy in st.flags)
    ensures SpawnAllowed(st.flags) <==> st.phase == Stopped
  {
  }

  /** Every event keeps the flags in step with the phase, `reset` only when
      no loop runs. */
  lemma StepPreservesConsistent(st: State, e: Event)
    requires Consistent(st) && Enabled(st, e)
    requires e.Reset? ==> st.phase == Stopped
    ensures Consistent(Step(st, e))
  {
  }

  /** Consistency holds after any run from a consistent state in which
      `reset` is called only while no loop runs. */
  lemma {:induction false} RunPreservesConsistent(st: State, es: seq<Event>)
    requires Consistent(st) && Feasible(st, es) && ResetsOnlyWhenStopped(st, es)
    ensures Consistent(Run(st, es))
    ensures !(Idle in Run(st, es).flags && Busy in Run(st, es).flags)
    decreases |es|
  {
    if es != [] {
      StepPreservesConsistent(st, es[0]);
      RunPreservesConsistent(Step(st, es[0]), es[1..]);
    }
  }

  /** The weaker agreement every run keeps, `reset` at any time included:
      IDLE only while the loop waits, BUSY only while the callback runs. */
  predicate MarksMatchPhase(st: State) {
    && (Idle in st.flags ==> st.phase == Waiting)
    && (Busy in st.flags ==> st.phase == InCallback)
  }

  lemma ConsistentMarksMatchPhase(st: State)
    requires Consistent(st)
    ensures MarksMatchPhase(st)
  {
  }

  /** Every enabled event keeps IDLE and BUSY tied to their phases; `reset`,
      which clears both, may come at any time. */
  lemma StepKeepsMarksMatchPhase(st: State, e: Event)
    requires MarksMatchPhase(st) && Enabled(st, e)
    ensures MarksMatchPhase(Step(st, e))
  {
  }

  /** Over every feasible run, whenever `reset` is called, IDLE and BUSY are
      never both set. */
  lemma {:induction false} RunKeepsIdleBusyApart(st: State, es: seq<Event>)
    requires MarksMatchPhase(st) && Feasible(st, es)
    ensures MarksMatchPhase(Run(st, es))
    ensures !(Idle in Run(st, es).flags && Busy in Run(st, es).flags)
    decreases |es|
  {
    if es != [] {
      StepKeepsMarksMatchPhase(st, es[0]);
      RunKeepsIdleBusyApart(Step(st, es[0]), es[1..]);
    }
  }

  /** `reset` overwrites the KILL it has just sent. Called while the loop
      waits, it leaves that loop waiting on a predicate that is now false,
      with THREAD_ACTIVE cleared so that `start` would spawn a second loop. */
  lemma ResetWhileWaitingStrandsLoop(st: State)
    requires Consistent(st) && st.phase == Waiting
    ensures Step(st, Reset).phase == Waiting
    ensures !WaitPredicate(Step(st, Reset).flags, Step(st, Reset).signal)
    ensures SpawnAllowed(Step(st, Reset).flags)
    ensures !Consistent(Step(st, Reset))
  {
  }

  /** `n` calls of `requestWork` before the loop consumes the request leave
      the same state as one call. */
  function Repeat(e: Event, n: nat): (es: seq<Event>)
    ensures |es| == n && forall k :: 0 <= k < n ==> es[k] == e
  {
    if n == 0 then [] else [e] + Repeat(e, n - 1)
  }

  lemma {:induction false} RequestWorkCoalesces(st: State, n: nat)
    requires n >= 1
    ensures Feasible(st, Repeat(RequestWork, n))
    ensures Run(st, Repeat(RequestWork, n)) == Step(st, RequestWork)
    decreases n
  {
    if n > 1 {
      var once := Step(st, RequestWork);
      assert Step(once, RequestWork) == once;
      RequestWorkCoalesces(once, n - 1);
      assert Repeat(RequestWork, n)[1..] == Repeat(RequestWork, n - 1);
    }
  }

  /** The loop steps that remain, with no caller interfering, from each phase
      until the loop has left. */
  function Drain(p: Phase): seq<Event> {
    match p
    case Stopped => []
    case LoopTop => [BeginWait, Wake, ExitLoop]
    case Waiting => [Wake, ExitLoop]
    case InCallback => [CallbackDone, BeginWait, Wake, ExitLoop]
    case Exiting => [ExitLoop]
  }

  /** Running `e` and then `rest` is running `rest` from `e`'s successor. */
  lemma RunCons(st: State, e: Event, rest: seq<Event>)
    requires Enabled(st, e) && Feasible(Step(st, e), rest)
    ensures Feasible(st, [e] + rest)
    ensures Run(st, [e] + rest) == Run(Step(st, e), rest)
  {
    assert ([e] + rest)[1..] == rest;
  }

  /** The loop ends with no caller interfering: it reaches `Stopped` and keeps
      only DETACH_ON_TERMINATE of the flags it had. */
  predicate Drains(st: State, es: seq<Event>) {
    && Feasible(st, es)
    && Run(st, es).phase == Stopped
    && Run(st, es).flags == st.flags * {DetachOnTerminate}
  }

  lemma DrainFromExiting(st: State)
    requires Consistent(st) && st.phase == Exiting
    ensures Drains(st, [ExitLoop])
  {
    ExitCleanupLeavesOnlyDetach(st.flags);
    RunCons(st, ExitLoop, []);
  }

  lemma DrainFromWaiting(st: State)
    requires Consistent(st) && st.phase == Waiting && st.signal == SIGNAL_KILL
    ensures Drains(st, [Wake, ExitLoop])
  {
    StepPreservesConsistent(st, Wake);
    DrainFromExiting(Step(st, Wake));
    RunCons(st, Wake, [ExitLoop]);
  }

  lemma DrainFromLoopTop(st: State)
    requires Consistent(st) && st.phase == LoopTop && st.signal == SIGNAL_KILL
    ensures Drains(st, [BeginWait, Wake, ExitLoop])
  {
    StepPreservesConsistent(st, BeginWait);
    DrainFromWaiting(Step(st, BeginWait));
    RunCons(st, BeginWait, [Wake, ExitLoop]);
  }

  lemma DrainFromCallback(st: State)
    requires Consistent(st) && st.phase == InCallback && st.signal == SIGNAL_KILL
    ensures Drains(st, [CallbackDone, BeginWait, Wake, ExitLoop])
  {
    StepPreservesConsistent(st, CallbackDone);
    DrainFromLoopTop(Step(st, CallbackDone));
    RunCons(st, CallbackDone, [BeginWait, Wake, ExitLoop]);
  }

  /** A pending KILL (from `sendSignal`, `stop_join`, `stop_detach` or the
      destructor) is honoured: the loop leaves at its next wake-up, without
      starting the callback, and ends with THREAD_ACTIVE clear and only
      DETACH_ON_TERMINATE left as it was. */
  lemma KillStopsLoop(st: State)
    requires Consistent(st) && st.signal == SIGNAL_KILL
    ensures Feasible(st, Drain(st.phase))
    ensures Run(st, Drain(st.phase)).phase == Stopped
    ensures ThreadActive !in Run(st, Drain(st.phase)).flags
    ensures st.phase != Stopped ==> Run(st, Drain(st.phase)).flags == st.flags * {DetachOnTerminate}
  {
    match st.phase
    case Stopped =>
    case LoopTop => DrainFromLoopTop(st);
    case Waiting => DrainFromWaiting(st);
    case InCallback => DrainFromCallback(st);
    case Exiting => DrainFromExiting(st);
  }

  /** Running two traces one after the other is running their concatenation. */
  lemma {:induction false} RunAppend(st: State, a: seq<Event>, b: seq<Event>)
    requires Feasible(st, a) && Feasible(Run(st, a), b)
    ensures Feasible(st, a + b)
    ensures Run(st, a + b) == Run(Run(st, a), b)
    decreases |a|
  {
    if a != [] {
      assert (a + b)[0] == a[0];
      assert (a + b)[1..] == a[1..] + b;
      RunAppend(Step(st, a[0]), a[1..], b);
    } else {
      assert a + b == b;
    }
  }

  /** `stop_detach`, then letting the loop leave, then `reset` gives exactly
      the state of a freshly constructed worker, whatever the loop was doing. */
  lemma StopDrainResetIsFresh(st: State)
    requires Consistent(st)
    ensures Feasible(st, [StopDetach] + Drain(st.phase) + [Reset])
    ensures Run(st, [StopDetach] + Drain(st.phase) + [Reset]) == INITIAL
  {
    var s1 := Step(st, StopDetach);
    StepPreservesConsistent(st, StopDetach);
    KillStopsLoop(s1);
    var s2 := Run(s1, Drain(st.phase));
    RunCons(s2, Reset, []);
    RunAppend(s1, Drain(st.phase), [Reset]);
    RunCons(st, StopDetach, Drain(st.phase) + [Reset]);
    assert [StopDetach] + Drain(st.phase) + [Reset] == [StopDetach] + (Drain(st.phase) + [Reset]);
  }

  /** With WORK_REPEAT set, one request keeps the callback running: the wake
      that starts it leaves WORK_PENDING set, so the next wake starts it again. */
  lemma RepeatRedispatches(st: State)
    requires Consistent(st) && st.phase == Waiting && st.signal == SIGNAL_NONE && st.hasWorkFunc
    requires WorkPending in st.flags && WorkRepeat in st.flags
    requires TerminatePending !in st.flags
    ensures Feasible(st, [Wake, CallbackDone, BeginWait, Wake])
    ensures Run(st, [Wake, CallbackDone, BeginWait, Wake]).phase == InCallback
    ensures WorkPending in Run(st, [Wake, CallbackDone, BeginWait, Wake]).flags
  {
    var s1 := Step(st, Wake);
    var s2 := Step(s1, CallbackDone);
    var s3 := Step(s2, BeginWait);
    var s4 := Step(s3, Wake);
    assert [Wake, CallbackDone, BeginWait, Wake][1..] == [CallbackDone, BeginWait, Wake];
    assert [CallbackDone, BeginWait, Wake][1..] == [BeginWait, Wake];
    assert [BeginWait, Wake][1..] == [Wake];
    assert Run(s3, [Wake]) == s4;
  }

  /** Without WORK_REPEAT a request runs the callback once: after it the loop
      waits again on a false predicate. */
  lemma SingleRequestRunsOnce(st: State)
    requires Consistent(st) && st.phase == Waiting && st.signal == SIGNAL_NONE && st.hasWorkFunc
    requires WorkPending in st.flags && WorkRepeat !in st.flags
    requires TerminatePending !in st.flags
    ensures Feasible(st, [Wake, CallbackDone, BeginWait])
    ensures Step(st, Wake).phase == InCallback
    ensures Run(st, [Wake, CallbackDone, BeginWait]).phase == Waiting
    ensures !WaitPredicate(Run(st, [Wake, CallbackDone, BeginWait]).flags, Run(st, [Wake, CallbackDone, BeginWait]).signal)
  {
    var s1 := Step(st, Wake);
    var s2 := Step(s1, CallbackDone);
    var s3 := Step(s2, BeginWait);
    assert [Wake, CallbackDone, BeginWait][1..] == [CallbackDone, BeginWait];
    assert [CallbackDone, BeginWait][1..] == [BeginWait];
    assert Run(s2, [BeginWait]) == s3;
  }

  /** Disabling WORK_REPEAT from inside a repeating callback: WORK_PENDING is
      still set, so the next wake runs the callback once more and clears it;
      after that run the loop waits. */
  lemma DisableRepeatInCallback(st: State)
    requires Consistent(st) && st.phase == InCallback && st.signal == SIGNAL_NONE && st.hasWorkFunc
    requires WorkPending in st.flags && TerminatePending !in st.flags
    ensures Feasible(st, [DisableWorkRepeat, CallbackDone, BeginWait, Wake, CallbackDone, BeginWait])
    ensures Run(st, [DisableWorkRepeat, CallbackDone, BeginWait, Wake]).phase == InCallback
    ensures var r := Run(st, [DisableWorkRepeat, CallbackDone, BeginWait, Wake, CallbackDone, BeginWait]);
            r.phase == Waiting && !WaitPredicate(r.flags, r.signal)
  {
    var s1 := Step(st, DisableWorkRepeat);
    var s2 := Step(s1, CallbackDone);
    var s3 := Step(s2, BeginWait);
    var s4 := Step(s3, Wake);
    var s5 := Step(s4, CallbackDone);
    var s6 := Step(s5, BeginWait);
    var es := [DisableWorkRepeat, CallbackDone, BeginWait, Wake, CallbackDone, BeginWait];
    assert es[1..] == [CallbackDone, BeginWait, Wake, CallbackDone, BeginWait];
    assert es[2..] == [BeginWait, Wake, CallbackDone, BeginWait];
    assert es[3..] == [Wake, CallbackDone, BeginWait];
    assert es[4..] == [CallbackDone, BeginWait];
    assert es[5..] == [BeginWait];
    assert Run(s5, [BeginWait]) == s6;
    var fs := [DisableWorkRepeat, CallbackDone, BeginWait, Wake];
    assert fs[1..] == [CallbackDone, BeginWait, Wake];
    assert fs[2..] == [BeginWait, Wake];
    assert fs[3..] == [Wake];
    assert Run(s3, [Wake]) == s4;
  }

  /** A loop restarted after a finished one keeps DETACH_ON_TERMINATE but not
      WORK_REPEAT, which the cleanup cleared. */
  lemma RestartKeepsDetachOnly(st: State)
    requires Consistent(st) && st.phase == Exiting
    ensures var r := Step(Step(st, ExitLoop), EnterLoop);
            && r.phase == LoopTop
            && (DetachOnTerminate in r.flags <==> DetachOnTerminate in st.flags)
            && WorkRepeat !in r.flags && WorkPending !in r.flags
  {
  }
}
