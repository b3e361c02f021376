/** The object itself: CRobotSync with its fields updated in place, line by line
    (DSR_util2.py, lines 23-71). */
module RobotSync {
  import opened BitMask
  import opened SyncModel
  import opened Wrappers

  class CRobotSync {
    const nRobot: nat
    var nIsRun: bool
    var nWaitBit: nat
    var nCurBit: nat
    const bIsWait: array<bool>
    const lock: array<bool>  // true: the threading.Lock is held

    ghost predicate Valid() {
      bIsWait.Length == nRobot && lock.Length == nRobot && bIsWait != lock
    }

    ghost function Fields(): (sh: Shared)
      reads this, bIsWait, lock
    {
      Shared(nRobot, nIsRun, nWaitBit, nCurBit, bIsWait[..], lock[..])
    }

    /** `__init__`: the loop ORs one bit per robot into nWaitBit; the result is the mask of all robots. */
    constructor (r: nat)
      ensures Valid() && fresh(bIsWait) && fresh(lock)
      ensures Fields() == InitShared(r)
      ensures nWaitBit == Pow2(r) - 1
    {
      nRobot := r;
      nIsRun := true;
      nCurBit := 0;
      var flags, locks := new bool[r], new bool[r];
      var mask := 0;
      MaskEmpty(r);
      for i := 0 to r
        invariant mask == Mask(FirstOf(r, i))
        invariant forall j :: 0 <= j < i ==> !flags[j] && !locks[j]
      {
        locks[i] := false;
        flags[i] := false;
        OrAddsMember(FirstOf(r, i), i);
        assert FirstOf(r, i)[i := true] == FirstOf(r, i + 1);
        mask := Or(mask, Pow2(i));
      }
      MaskFull(r);
      nWaitBit := mask;
      bIsWait := flags;
      lock := locks;
      new;
      assert bIsWait[..] == FirstOf(r, 0) && lock[..] == FirstOf(r, 0);
    }

    /** Lines 41-44. */
    method CleanUp()
      requires Valid()
      modifies this
      ensures Fields() == old(Fields()).(isRun := false)
    {
      if nIsRun == true {
        nIsRun := false;
      }
    }

    /** `lock[k].release()`: RuntimeError on a free lock, which changes nothing. */
    method Release(k: nat) returns (raised: bool)
      requires Valid() && k < nRobot
      modifies lock
      ensures raised == !old(lock[k])
      ensures Fields() == if raised then old(Fields()) else Free(old(Fields()), k)
    {
      raised := !lock[k];
      lock[k] := false;
      assert Fields().held == old(Fields()).held[k := false];
    }

    /** One line of one thread, on the real fields. */
    method ExecLine(pc: Pc, call: Call) returns (next: Pc, note: Note)
      requires Valid() && PcOk(pc, nRobot)
      modifies this, bIsWait, lock
      ensures Outcome(Fields(), next, note) == Exec(old(Fields()), pc, call)
    {
      next, note := Idle, Quiet;
      match pc
      case Idle =>
        next, note := BeginCall(call);
      case Acquire(k) =>
        if lock[k] {
          next := pc;
        } else {
          lock[k] := true;
          next, note := Lower(k), Acquired(k);
        }
      case Lower(k) =>
        bIsWait[k] := false;
        note := Passed(k);
      case WakeTest(r) =>
        if nIsRun { next := WakeRead(r); }
      case WakeRead(r) =>
        var index := PyIndex(nRobot, r);
        if index == None {
          note := IndexRaised;
        } else {
          next := if bIsWait[index.value] then WakeRelease(index.value) else WakeTest(r);
        }
      case WakeRelease(k) =>
        var raised := Release(k);
        note := if raised then ReleaseRaised else Released(k);
      case AllTest =>
        next := if nIsRun then AllRead(0) else AllRelease(0);
      case AllRead(i) =>
        if i == nRobot {
          next := if nWaitBit == nCurBit then AllRelease(0) else AllTest;
        } else if bIsWait[i] {
          next, note := AllLoad(i), SawWaiting(i);
        } else {
          next := AllRead(i + 1);
        }
      case AllLoad(i) =>
        next := AllStore(i, nCurBit);
      case AllStore(i, m) =>
        nCurBit := Or(m, Pow2(i));
        next := AllRead(i + 1);
      case AllRelease(i) =>
        if i == nRobot {
          note := RoundDone;
        } else {
          var raised := Release(i);
          if raised {
            note := ReleaseRaised;
          } else {
            next, note := AllRelease(i + 1), Released(i);
          }
        }
    }

    method BeginCall(call: Call) returns (next: Pc, note: Note)
      requires Valid()
      modifies this, bIsWait
      ensures Outcome(Fields(), next, note) == Begin(old(Fields()), call)
    {
      next, note := Idle, Quiet;
      match call
      case CallWait(r) =>
        var index := PyIndex(nRobot, r);
        if index == None {
          note := IndexRaised;
        } else {
          bIsWait[index.value] := true;
          next, note := Acquire(index.value), Arrived(index.value);
        }
      case CallWakeUp(r) =>
        next := WakeTest(r);
      case CallWakeUpAll =>
        nCurBit := 0;
        next, note := AllTest, RoundStarted;
      case CallCleanUp =>
        CleanUp();
    }

    /** Threads sharing this object run in any order `es`; the fields and the threads end exactly where
        the step machine's Run ends, so every theorem about Run is a theorem about the object. */
    method RunSchedule(threads: array<Pc>, es: seq<Event>, ghost h: History) returns (ghost h': History)
      requires Valid() && HistoryOk(h, nRobot)
      requires forall t :: 0 <= t < threads.Length ==> PcOk(threads[t], nRobot)
      modifies this, bIsWait, lock, threads
      ensures System(Fields(), threads[..], h') == Run(System(old(Fields()), old(threads[..]), h), es)
    {
      h' := h;
      ghost var s0 := System(Fields(), threads[..], h);
      assert Run(s0, es[..0]) == s0;
      for i := 0 to |es|
        invariant Wf(System(Fields(), threads[..], h'))
        invariant System(Fields(), threads[..], h') == Run(s0, es[..i])
      {
        var e := es[i];
        ghost var s := System(Fields(), threads[..], h');
        if e.t < threads.Length {
          var next, note := ExecLine(threads[e.t], e.call);
          threads[e.t] := next;
          h' := Observe(h', note);
          assert threads[..] == s.threads[e.t := next];
        }
        assert System(Fields(), threads[..], h') == Step(s, e);
        RunAppend(s0, es[..i], [e]);
        RunOne(s, e);
        assert es[..i + 1] == es[..i] + [e];
      }
      assert es[..|es|] == es;
    }
  }
}
