/** Releases outside the disciplined rounds: the release loop of WakeUpAll, as it runs after CleanUp too, and
    the call WakeUp(r) for a single robot (DSR_util2.py, lines 52-58 and 69-71). Thread k calls Wait(k) for
    robot k, thread n is the waker. */
module SyncWake {
  import opened SyncBarrier
  import opened SyncModel
  import opened SyncRound
  import opened SyncRuns
  import opened Wrappers

  /* ---- The release loop ---- */

  /** Line 69 reached, whether because every robot was seen or because nIsRun fell: the loop is sure not to
      raise if and only if every lock is held at that moment. */
  lemma ReleaseLoopSafeExactlyWhenAllHeld(s: System)
    requires Wf(s) && |s.threads| == s.sh.n + 1 && InPlaces(s) && s.threads[s.sh.n] == AllRelease(0)
    ensures (forall es :: OwnCalls(s.sh.n, es) && Run(s, es).h.rounds == s.h.rounds ==>
               Run(s, es).h.raises == s.h.raises)
       <==> (forall k :: 0 <= k < s.sh.n ==> s.sh.held[k])
  {
    if k :| 0 <= k < s.sh.n && !s.sh.held[k] {
      var m := SoloReleaseRaises(s, k);
      assert OwnCalls(s.sh.n, Solo(s.sh.n, m));
    } else {
      assert LocksLeft(s);
      forall es | OwnCalls(s.sh.n, es) && Run(s, es).h.rounds == s.h.rounds ensures Run(s, es).h.raises == s.h.raises {
        RunLocksLeft(s, es);
      }
    }
  }

  lemma StepReleases(s: System, e: Event)
    requires LocksLeft(s) && s.threads[s.sh.n].AllRelease? && OwnCall(s.sh.n, e)
    ensures var s', i := Step(s, e), s.threads[s.sh.n].i;
            && s'.h.raises == s.h.raises
            && (if e.t == s.sh.n && i == s.sh.n then s'.h.rounds == s.h.rounds + 1 && s'.h.released == s.h.released
                else LocksLeft(s') && s'.h.rounds == s.h.rounds
                     && s'.threads[s.sh.n] == AllRelease(if e.t == s.sh.n then i + 1 else i)
                     && s'.h.released == if e.t == s.sh.n then Bump(s.h.released, i) else s.h.released)
  {
    StepLocksLeft(s, e);
  }

  /** With the locks still to come held, the release loop returns within one own line per lock left and one
      more, having released each of them exactly once, however the robots run meanwhile. */
  lemma {:induction false} ReleaseLoopFreesEveryRobot(s: System, es: seq<Event>) returns (m: nat)
    requires LocksLeft(s) && s.threads[s.sh.n].AllRelease? && OwnCalls(s.sh.n, es)
    requires OwnSteps(es, s.sh.n) >= s.sh.n + 1 - s.threads[s.sh.n].i
    ensures m <= |es|
    ensures var s', i := Run(s, es[..m]), s.threads[s.sh.n].i;
            && s'.h.rounds == s.h.rounds + 1 && s'.h.raises == s.h.raises
            && forall k :: 0 <= k < s.sh.n ==> s'.h.released[k] == s.h.released[k] + (if k >= i then 1 else 0)
    decreases |es|
  {
    assert es != [];
    var s1 := Step(s, es[0]);
    StepReleases(s, es[0]);
    var j := 0;
    if s1.h.rounds == s.h.rounds {
      j := ReleaseLoopFreesEveryRobot(s1, es[1..]);
    }
    m := j + 1;
    assert es[..m][0] == es[0] && es[..m][1..] == es[1..][..j];
  }

  /** ... and a free lock ends the call there: run alone, the loop frees the locks before the first free one,
      raises, and leaves every later robot as it was; blocked ones stay blocked. */
  lemma {:induction false} ReleaseLoopStopsAtFreeLock(s: System, k: nat) returns (m: nat)
    requires Wf(s) && |s.threads| == s.sh.n + 1 && s.threads[s.sh.n].AllRelease?
    requires s.threads[s.sh.n].i <= k < s.sh.n && !s.sh.held[k]
    requires forall j :: s.threads[s.sh.n].i <= j < k ==> s.sh.held[j]
    ensures var s', i := Run(s, Solo(s.sh.n, m)), s.threads[s.sh.n].i;
            && s'.threads == s.threads[s.sh.n := Idle]
            && s'.h.raises == s.h.raises + 1 && s'.h.rounds == s.h.rounds
            && (forall j :: 0 <= j < s.sh.n ==> s'.sh.held[j] == (s.sh.held[j] && !(i <= j < k)))
            && (forall j :: k < j < s.sh.n && Blocked(s, j) ==> Blocked(s', j))
    decreases k - s.threads[s.sh.n].i
  {
    var n, e, i := s.sh.n, Event(s.sh.n, CallWakeUpAll), s.threads[s.sh.n].i;
    var s1 := Step(s, e);
    if i < k {
      var j := ReleaseLoopStopsAtFreeLock(s1, k);
      m := j + 1;
      assert Solo(n, m)[0] == e && Solo(n, m)[1..] == Solo(n, j);
      assert s1.threads[n := Idle] == s.threads[n := Idle];
    } else {
      m := 1;
      assert Solo(n, 1) == [e];
      RunOne(s, e);
    }
  }

  /* ---- WakeUp(r) ---- */

  /** `es` begins with the waker calling WakeUp(r), for robot k, and the call has not released k yet. */
  ghost predicate WakeUpFrom(s: System, r: int, k: nat, es: seq<Event>)
    requires Placed(s) && k < s.sh.n
  {
    && es != [] && es[0].t == s.sh.n && OwnWakes(s.sh.n, es)
    && (forall i :: 0 <= i < |es| && es[i].t == s.sh.n ==> es[i].call == CallWakeUp(r))
    && Run(s, es).h.released[k] == s.h.released[k]
  }

  /** During WakeUp(r), robot k's lock is held; and, if it was so at the start (`calm`), robot k is outside
      Wait or at line 48, the latter once its flag was found up. */
  ghost predicate Waking(s: System, r: int, k: nat, calm: bool) {
    && Placed(s) && k < s.sh.n && s.sh.held[k]
    && s.threads[s.sh.n] in {WakeTest(r), WakeRead(r), WakeRelease(k)}
    && (calm ==> s.threads[k] != Lower(k) && (s.threads[s.sh.n].WakeRelease? ==> s.threads[k] == Acquire(k)))
  }

  lemma StepWaking(s: System, e: Event, r: int, k: nat, calm: bool)
    requires Waking(s, r, k, calm) && PyIndex(s.sh.n, r) == Some(k)
    requires OwnWake(s.sh.n, e) && (e.t == s.sh.n ==> e.call == CallWakeUp(r))
    ensures Step(s, e).h.raises == s.h.raises
    ensures Waking(Step(s, e), r, k, calm) || Step(s, e).h.released[k] > s.h.released[k]
  {
    StepPlaced(s, e);
  }

  lemma {:induction false} RunReleased(s: System, es: seq<Event>, k: nat)
    requires Wf(s) && k < s.sh.n
    ensures s.h.released[k] <= Run(s, es).h.released[k]
    decreases |es|
  {
    if es != [] {
      RunReleased(Step(s, es[0]), es[1..], k);
    }
  }

  lemma {:induction false} RunWaking(s: System, es: seq<Event>, r: int, k: nat, calm: bool)
    requires Waking(s, r, k, calm) && PyIndex(s.sh.n, r) == Some(k) && OwnWakes(s.sh.n, es)
    requires forall i :: 0 <= i < |es| && es[i].t == s.sh.n ==> es[i].call == CallWakeUp(r)
    requires Run(s, es).h.released[k] == s.h.released[k]
    ensures Waking(Run(s, es), r, k, calm) && Run(s, es).h.raises == s.h.raises
    decreases |es|
  {
    if es != [] {
      var s1 := Step(s, es[0]);
      StepWaking(s, es[0], r, k, calm);
      RunReleased(s1, es[1..], k);
      assert s.h.released[k] <= s1.h.released[k];
      RunWaking(s1, es[1..], r, k, calm);
    }
  }

  /** With the lock held at its start, a call of WakeUp(r) keeps the invariant throughout. */
  lemma HeldWakeUp(s: System, es: seq<Event>, r: int, k: nat, calm: bool)
    requires Placed(s) && s.threads[s.sh.n].Idle? && PyIndex(s.sh.n, r) == Some(k) && s.sh.held[k]
    requires calm ==> s.threads[k] != Lower(k)
    requires WakeUpFrom(s, r, k, es)
    ensures Waking(Run(s, es), r, k, calm) && Run(s, es).h.raises == s.h.raises
  {
    StepPlaced(s, es[0]);
    RunWaking(Step(s, es[0]), es[1..], r, k, calm);
  }

  /** The call can be brought to line 55 with the lock as it was, robot k only raising its flag if it was idle. */
  lemma RushToRelease(s: System, r: int, k: nat) returns (es: seq<Event>)
    requires Placed(s) && s.threads[s.sh.n].Idle? && PyIndex(s.sh.n, r) == Some(k)
    ensures WakeUpFrom(s, r, k, es)
    ensures var s' := Run(s, es);
            && s'.threads[s.sh.n] == WakeRelease(k) && s'.sh.held == s.sh.held
            && s'.h.raises == s.h.raises && s'.h.released == s.h.released
            && (!s.threads[k].Idle? ==> s'.threads[k] == s.threads[k])
  {
    var n, e := s.sh.n, Event(s.sh.n, CallWakeUp(r));
    var s1 := Step(s, e);
    var raise := if s.threads[k].Idle? then [Event(k, CallWait(k))] else [];
    var s2 := Run(s1, raise);
    if s.threads[k].Idle? { RunOne(s1, Event(k, CallWait(k))); }
    var s3 := Step(s2, e);
    assert s2.threads[n] == WakeTest(r) && s2.sh.isWait[k] && s2.sh.isRun;
    RunOne(s3, e);
    assert [e, e][0] == e && [e, e][1..] == [e];
    assert Run(s2, [e, e]) == Step(s3, e);
    RunAppend(s1, raise, [e, e]);
    es := [e] + (raise + [e, e]);
    assert es[0] == e && es[1..] == raise + [e, e];
  }

  lemma RushToRaise(s: System, r: int, k: nat) returns (es: seq<Event>)
    requires Placed(s) && s.threads[s.sh.n].Idle? && PyIndex(s.sh.n, r) == Some(k) && !s.sh.held[k]
    ensures WakeUpFrom(s, r, k, es) && Run(s, es).h.raises > s.h.raises
  {
    var e := Event(s.sh.n, CallWakeUp(r));
    var a := RushToRelease(s, r, k);
    RunAppend(s, a, [e]);
    RunOne(Run(s, a), e);
    es := a + [e];
    assert es[0] == a[0];
  }

  /** At any point of any run of the waiters and a waker, and for every r that names a robot k: a call of
      WakeUp(r) begun now can run into a RuntimeError if and only if lock k is free now; and it is sure to
      find robot k blocked when it releases it if and only if the lock is held and k is not at line 49. */
  lemma WakeUpExactly(n: nat, past: seq<Event>, r: int, k: nat)
    requires OwnWakes(n, past) && Run(Init(n, n + 1), past).threads[n].Idle? && PyIndex(n, r) == Some(k)
    ensures var s := Run(Init(n, n + 1), past);
            && Placed(s)
            && ((exists es :: WakeUpFrom(s, r, k, es) && Run(s, es).h.raises > s.h.raises) <==> !s.sh.held[k])
            && ((forall es :: WakeUpFrom(s, r, k, es) && Run(s, es).threads[n] == WakeRelease(k) ==>
                   Blocked(Run(s, es), k)) <==>
                s.sh.held[k] && s.threads[k] != Lower(k))
  {
    var s := Run(Init(n, n + 1), past);
    RunPlaced(Init(n, n + 1), past);
    var calm := s.sh.held[k] && s.threads[k] != Lower(k);
    if s.sh.held[k] {
      forall es | WakeUpFrom(s, r, k, es) ensures Waking(Run(s, es), r, k, calm) && Run(s, es).h.raises == s.h.raises {
        HeldWakeUp(s, es, r, k, calm);
      }
    } else {
      var es := RushToRaise(s, r, k);
    }
    if !calm {
      var es := RushToRelease(s, r, k);
      assert !Blocked(Run(s, es), k);
    }
  }
}
