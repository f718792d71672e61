/** The `WorkerThread` object of worker_thread.h/.cpp with the fields its
    methods update: the atomic flag word, the pending signal, the work
    function and the argument slots. The background loop appears as one method
    per phase step, and a ghost `phase` records where it is. Every
    lifecycle method is proved against `Lifecycle.Step`, so what is proved
    there about runs holds for calls on the object. */
module WorkerThreads {
  import opened Flags
  import opened Args
  import opened Lifecycle

  /** The `work_handlerfunc_t` slot: null, or some function. */
  datatype WorkFunc = NoFunc | Func(id: nat)

  class WorkerThread {
    /** `m_flags`: the `unsigned int` word of `FlagBits`. */
    var flagWord: bv32
    /** `m_signal`. */
    var signal: Int32
    /** `m_workFunc`. */
    var workFunc: WorkFunc
    /** `m_work_arg_ptr`. */
    const ptrArgs: array<Pointer>
    /** The union of `m_work_arg_uint` and `m_work_arg_int`: one word per slot. */
    const intArgs: array<Word>
    /** Where the background loop is. */
    ghost var phase: Phase

    /** Two slots of each kind, and no bit of the flag word outside the seven flags. */
    ghost predicate Valid()
      reads this
    {
      && ptrArgs.Length == SLOTS
      && intArgs.Length == SLOTS
      && flagWord & !FLAG_MASK == 0
    }

    /** The lifecycle state the object is in. */
    ghost function Snapshot(): State
      reads this
    {
      State(phase, Decode(flagWord), signal, workFunc != NoFunc)
    }

    /** All flags clear, no signal, no work function, null and zero arguments. */
    constructor()
      ensures Valid() && Snapshot() == INITIAL
      ensures workFunc == NoFunc
      ensures ptrArgs[..] == [Null, Null] && intArgs[..] == [0, 0]
      ensures fresh(ptrArgs) && fresh(intArgs)
    {
      signal := SIGNAL_NONE;
      workFunc := NoFunc;
      flagWord := 0;
      phase := Stopped;
      ptrArgs := new Pointer[SLOTS];
      intArgs := new Word[SLOTS];
      new;
      DecodeZero();
      ClearArgs();
    }

    /** The two loops of the constructor and of `reset`: null pointers, and the
        words zeroed through the signed view. */
    method ClearArgs()
      requires ptrArgs.Length == SLOTS && intArgs.Length == SLOTS
      modifies ptrArgs, intArgs
      ensures ptrArgs[..] == [Null, Null] && intArgs[..] == [0, 0]
    {
      for k := 0 to SLOTS
        invariant forall j :: 0 <= j < k ==> ptrArgs[j] == Null
      {
        ptrArgs[k] := Null;
      }
      for k := 0 to SLOTS
        invariant forall j :: 0 <= j < k ==> intArgs[j] == 0
        invariant forall j :: 0 <= j < SLOTS ==> ptrArgs[j] == Null
      {
        intArgs[k] := FromSigned(0);
      }
      assert ptrArgs[..] == [ptrArgs[0], ptrArgs[1]];
      assert intArgs[..] == [intArgs[0], intArgs[1]];
    }

    /** `m_flags.fetch_or(bit)`. */
    method FetchOr(f: Flag)
      requires flagWord & !FLAG_MASK == 0
      modifies this`flagWord
      ensures Decode(flagWord) == Decode(old(flagWord)) + {f}
      ensures flagWord & !FLAG_MASK == 0
    {
      FetchOrAdds(flagWord, f);
      flagWord := flagWord | Bit(f);
    }

    /** `m_flags.fetch_and(~bit)`. */
    method FetchAndNot(f: Flag)
      requires flagWord & !FLAG_MASK == 0
      modifies this`flagWord
      ensures Decode(flagWord) == Decode(old(flagWord)) - {f}
      ensures flagWord & !FLAG_MASK == 0
    {
      FetchAndRemoves(flagWord, f);
      flagWord := flagWord & !Bit(f);
    }

    /** The destructor's locked part, and its choice between detaching and
        joining a joinable thread. */
    method Destroy() returns (detach: bool)
      requires Valid()
      modifies this`flagWord, this`signal
      ensures Valid() && Snapshot() == Step(old(Snapshot()), Event.Destroy)
      ensures detach <==> DetachOnTerminate in Snapshot().flags
    {
      FetchOr(TerminatePending);
      signal := SIGNAL_KILL;
      detach := Has(flagWord, DetachOnTerminate);
    }

    /** What `start` decides under its lock: whether a still-joinable previous
        thread is detached (else joined), and whether a new loop is spawned. */
    method Start() returns (detachPrevious: bool, spawn: bool)
      requires Valid()
      ensures detachPrevious <==> DetachOnTerminate in Snapshot().flags
      ensures spawn <==> SpawnAllowed(Snapshot().flags)
      ensures Consistent(Snapshot()) ==> (spawn <==> phase == Stopped)
    {
      detachPrevious := Has(flagWord, DetachOnTerminate);
      spawn := !Has(flagWord, ThreadActive);
      if Consistent(Snapshot()) {
        ConsistentConsequences(Snapshot());
      }
    }

    /** `stop_detach`'s locked part, and whether it then detaches the thread
        (if joinable): only while THREAD_ACTIVE is set. */
    method StopDetach() returns (detachNow: bool)
      requires Valid()
      modifies this`flagWord, this`signal
      ensures Valid() && Snapshot() == Step(old(Snapshot()), Event.StopDetach)
      ensures detachNow <==> ThreadActive in Snapshot().flags
    {
      FetchOr(DetachOnTerminate);
      signal := SIGNAL_KILL;
      detachNow := Has(flagWord, ThreadActive);
    }

    method StopJoin()
      requires Valid()
      modifies this`flagWord, this`signal
      ensures Valid() && Snapshot() == Step(old(Snapshot()), Event.StopJoin)
    {
      FetchAndNot(DetachOnTerminate);
      signal := SIGNAL_KILL;
    }

    method RequestWork()
      requires Valid()
      modifies this`flagWord
      ensures Valid() && Snapshot() == Step(old(Snapshot()), Event.RequestWork)
    {
      FetchOr(WorkPending);
    }

    method SetWorkFunction(func: WorkFunc)
      modifies this`workFunc
      ensures workFunc == func
      ensures Snapshot() == Step(old(Snapshot()), Event.SetWorkFunction(func != NoFunc))
    {
      workFunc := func;
    }

    method EnableWorkRepeat()
      requires Valid()
      modifies this`flagWord
      ensures Valid() && Snapshot() == Step(old(Snapshot()), Event.EnableWorkRepeat)
    {
      FetchOr(WorkRepeat);
    }

    method DisableWorkRepeat()
      requires Valid()
      modifies this`flagWord
      ensures Valid() && Snapshot() == Step(old(Snapshot()), Event.DisableWorkRepeat)
    {
      FetchAndNot(WorkRepeat);
    }

    /** An index outside {0, 1} is ignored. */
    method SetWorkPointerArg(i: Int32, ptr: Pointer)
      requires Valid()
      modifies ptrArgs
      ensures ptrArgs[..] == Store(old(ptrArgs[..]), i as int, ptr)
    {
      if InRange(i as int) {
        ptrArgs[i] := ptr;
      }
    }

    /** An index outside {0, 1} reads null. */
    method GetWorkPointerArg(i: Int32) returns (ptr: Pointer)
      requires Valid()
      ensures InRange(i as int) ==> ptr == ptrArgs[i]
      ensures !InRange(i as int) ==> ptr == Null
    {
      ptr := if InRange(i as int) then ptrArgs[i] else Null;
    }

    method SetWorkUIntArg(i: Int32, val: UInt64)
      requires Valid()
      modifies intArgs
      ensures intArgs[..] == Store(old(intArgs[..]), i as int, val)
    {
      if InRange(i as int) {
        intArgs[i] := val;
      }
    }

    /** The unsigned view; an index outside {0, 1} reads 0. */
    method GetWorkUIntArg(i: Int32) returns (val: UInt64)
      requires Valid()
      ensures InRange(i as int) ==> val == intArgs[i]
      ensures !InRange(i as int) ==> val == 0
    {
      val := if InRange(i as int) then intArgs[i] else 0;
    }

    /** A write through the signed view stores the two's-complement word. */
    method SetWorkIntArg(i: Int32, val: Int64)
      requires Valid()
      modifies intArgs
      ensures intArgs[..] == Store(old(intArgs[..]), i as int, FromSigned(val))
    {
      if InRange(i as int) {
        intArgs[i] := FromSigned(val);
      }
    }

    /** The signed view; an index outside {0, 1} reads 0. */
    method GetWorkIntArg(i: Int32) returns (val: Int64)
      requires Valid()
      ensures InRange(i as int) ==> val == AsSigned(intArgs[i])
      ensures !InRange(i as int) ==> val == 0
    {
      val := if InRange(i as int) then AsSigned(intArgs[i]) else 0;
    }

    method SetDetachOnTerminate(enable: bool)
      requires Valid()
      modifies this`flagWord
      ensures Valid() && Snapshot() == Step(old(Snapshot()), Event.SetDetachOnTerminate(enable))
    {
      if enable {
        FetchOr(DetachOnTerminate);
      } else {
        FetchAndNot(DetachOnTerminate);
      }
    }

    /** Any value can be sent; only KILL has a meaning to the loop. */
    method SendSignal(sig: Int32)
      modifies this`signal
      ensures Snapshot() == Step(old(Snapshot()), Event.SendSignal(sig))
    {
      signal := sig;
    }

    method GetSignal() returns (sig: Int32)
      ensures sig == Snapshot().signal
    {
      sig := signal;
    }

    /** The flag word is the encoding of the current flags, with no bit outside them. */
    method GetFlags() returns (w: bv32)
      requires Valid()
      ensures w == Encode(Snapshot().flags)
      ensures Decode(w) == Snapshot().flags
      ensures w & !FLAG_MASK == 0
    {
      w := flagWord;
      EncodeDecode(w);
    }

    /** IDLE is set exactly while the loop waits. */
    method IsIdle() returns (idle: bool)
      requires Valid()
      ensures idle <==> Idle in Snapshot().flags
      ensures Consistent(Snapshot()) ==> (idle <==> phase == Waiting)
    {
      idle := Has(flagWord, Idle);
    }

    /** THREAD_ACTIVE is set exactly while a loop runs. */
    method IsThreadActive() returns (active: bool)
      requires Valid()
      ensures active <==> ThreadActive in Snapshot().flags
      ensures Consistent(Snapshot()) ==> (active <==> phase != Stopped)
    {
      active := Has(flagWord, ThreadActive);
    }

    /** BUSY is set exactly while the callback runs. */
    method IsBusy() returns (busy: bool)
      requires Valid()
      ensures busy <==> Busy in Snapshot().flags
      ensures Consistent(Snapshot()) ==> (busy <==> phase == InCallback)
    {
      busy := Has(flagWord, Busy);
    }

    /** `stop_detach` (whose detach decision is returned), then every field
        back to its constructed value under the lock. The loop's phase is not
        touched: a loop that is running goes on running. */
    method Reset() returns (detachNow: bool)
      requires Valid()
      modifies this`flagWord, this`signal, this`workFunc, ptrArgs, intArgs
      ensures Valid() && Snapshot() == Step(old(Snapshot()), Event.Reset)
      ensures workFunc == NoFunc
      ensures ptrArgs[..] == [Null, Null] && intArgs[..] == [0, 0]
      ensures detachNow <==> ThreadActive in old(Snapshot()).flags
    {
      detachNow := StopDetach();
      signal := SIGNAL_NONE;
      workFunc := NoFunc;
      flagWord := 0;
      DecodeZero();
      ClearArgs();
    }

    /** `handleSignal`: KILL sets TERMINATE_PENDING; the signal is then cleared. */
    method HandleSignal()
      requires flagWord & !FLAG_MASK == 0
      modifies this`flagWord, this`signal
      ensures flagWord & !FLAG_MASK == 0
      ensures Decode(flagWord) == Lifecycle.HandleSignal(Decode(old(flagWord)), old(signal))
      ensures signal == SIGNAL_NONE
    {
      if signal == SIGNAL_KILL {
        FetchOr(TerminatePending);
      }
      signal := SIGNAL_NONE;
    }

    /** The loop's first step: THREAD_ACTIVE is set. */
    method EnterLoop()
      requires Valid() && Enabled(Snapshot(), Event.EnterLoop)
      modifies this`flagWord, this`phase
      ensures Valid() && Snapshot() == Step(old(Snapshot()), Event.EnterLoop)
    {
      FetchOr(ThreadActive);
      phase := LoopTop;
    }

    /** The top of an iteration: IDLE is set and the loop waits. */
    method BeginWait()
      requires Valid() && Enabled(Snapshot(), Event.BeginWait)
      modifies this`flagWord, this`phase
      ensures Valid() && Snapshot() == Step(old(Snapshot()), Event.BeginWait)
    {
      FetchOr(Idle);
      phase := Waiting;
    }

    /** The wait has returned: IDLE is cleared, the signal handled, and the
        loop leaves, starts the callback, or goes round again. */
    method Wake() returns (branch: Branch)
      requires Valid() && Enabled(Snapshot(), Event.Wake)
      modifies this`flagWord, this`signal, this`phase
      ensures Valid() && Snapshot() == Step(old(Snapshot()), Event.Wake)
      ensures branch == WakeStep(old(Snapshot()).flags, old(signal), workFunc != NoFunc).branch
    {
      FetchAndNot(Idle);
      HandleSignal();
      branch := Dispatch();
      phase := PhaseAfter(branch);
    }

    /** The branch of the loop body after `handleSignal`. */
    method Dispatch() returns (branch: Branch)
      requires flagWord & !FLAG_MASK == 0
      modifies this`flagWord
      ensures flagWord & !FLAG_MASK == 0
      ensures Decode(flagWord) == Lifecycle.Dispatch(old(Decode(flagWord)), workFunc != NoFunc).flags
      ensures branch == Lifecycle.Dispatch(old(Decode(flagWord)), workFunc != NoFunc).branch
    {
      if Has(flagWord, TerminatePending) {
        return Terminate;
      }
      if Has(flagWord, WorkPending) && workFunc != NoFunc {
        if !Has(flagWord, WorkRepeat) {
          FetchAndNot(WorkPending);
        }
        FetchOr(Busy);
        return RunCallback;
      }
      return NoWork;
    }

    /** The callback has returned and the lock is taken again: BUSY is cleared. */
    method CallbackDone()
      requires Valid() && Enabled(Snapshot(), Event.CallbackDone)
      modifies this`flagWord, this`phase
      ensures Valid() && Snapshot() == Step(old(Snapshot()), Event.CallbackDone)
    {
      FetchAndNot(Busy);
      phase := LoopTop;
    }

    /** After the loop: TERMINATE_PENDING, WORK_REPEAT, WORK_PENDING and
        THREAD_ACTIVE are cleared, one after another. */
    method ExitCleanup()
      requires Valid() && Enabled(Snapshot(), Event.ExitLoop)
      modifies this`flagWord, this`phase
      ensures Valid() && Snapshot() == Step(old(Snapshot()), Event.ExitLoop)
    {
      FetchAndNot(TerminatePending);
      FetchAndNot(WorkRepeat);
      FetchAndNot(WorkPending);
      FetchAndNot(ThreadActive);
      phase := Stopped;
    }
  }
}
