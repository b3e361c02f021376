/** A single round of WakeUpAll, whatever went before it: exactly when it is sure to find the robots together,
    and exactly when it can raise (DSR_util2.py, lines 46-71). Thread k calls Wait(k) for robot k, thread n is
    the waker; nothing is assumed of when the waker began its earlier calls. */
module SyncRound {
  import opened BitMask
  import opened SyncBarrier
  import opened SyncModel
  import opened SyncRuns

  /* ---- Any run of waiters and one waker ---- */

  /** Each robot's thread is outside Wait or at one of its lines. */
  ghost predicate InPlaces(s: System)
    requires Wf(s) && |s.threads| == s.sh.n + 1
  {
    forall k :: 0 <= k < s.sh.n ==> s.threads[k] == Idle || s.threads[k] == Acquire(k) || s.threads[k] == Lower(k)
  }

  /** The robots' threads wait, the waker calls WakeUp and WakeUpAll as it likes. */
  predicate OwnWake(n: nat, e: Event) {
    if e.t == n then e.call.CallWakeUp? || e.call.CallWakeUpAll? else e.t < n && e.call == CallWait(e.t)
  }

  ghost predicate OwnWakes(n: nat, es: seq<Event>) {
    forall i :: 0 <= i < |es| ==> OwnWake(n, es[i])
  }

  ghost predicate Placed(s: System) {
    && Wf(s) && |s.threads| == s.sh.n + 1 && s.sh.isRun && InPlaces(s)
    && (forall k :: 0 <= k < s.sh.n ==> s.sh.isWait[k] == (s.threads[k] != Idle))
    && WakerPlace(s.threads[s.sh.n])
  }

  /** Where the waker can be, between and inside its calls. */
  predicate WakerPlace(pc: Pc) {
    pc.Idle? || InWakeUp(pc) || InWakeUpAll(pc)
  }

  lemma WakerPlaced(sh: Shared, pc: Pc, call: Call)
    requires SharedOk(sh) && PcOk(pc, sh.n) && WakerPlace(pc) && (call.CallWakeUp? || call.CallWakeUpAll?)
    ensures var o := Exec(sh, pc, call); WakerPlace(o.pc) && o.sh.isWait == sh.isWait && o.sh.isRun == sh.isRun
  {
  }

  lemma WaiterPlaced(sh: Shared, pc: Pc, k: nat)
    requires SharedOk(sh) && k < sh.n && (pc == Idle || pc == Acquire(k) || pc == Lower(k))
    requires sh.isWait[k] == (pc != Idle)
    ensures var o := Exec(sh, pc, CallWait(k));
            && (o.pc == Idle || o.pc == Acquire(k) || o.pc == Lower(k))
            && o.sh.isWait == sh.isWait[k := o.pc != Idle] && o.sh.isRun == sh.isRun
  {
  }

  lemma StepPlaced(s: System, e: Event)
    requires Placed(s) && OwnWake(s.sh.n, e)
    ensures Placed(Step(s, e))
  {
    if e.t == s.sh.n {
      WakerPlaced(s.sh, s.threads[e.t], e.call);
    } else {
      WaiterPlaced(s.sh, s.threads[e.t], e.t);
    }
  }

  lemma {:induction false} RunPlaced(s: System, es: seq<Event>)
    requires Placed(s) && OwnWakes(s.sh.n, es)
    ensures Placed(Run(s, es))
    decreases |es|
  {
    if es != [] {
      StepPlaced(s, es[0]);
      RunPlaced(Step(s, es[0]), es[1..]);
    }
  }

  lemma OwnWakesOneWaker(n: nat, es: seq<Event>)
    requires OwnWakes(n, es)
    ensures OneWaker(es, n)
  {
    assert forall i :: 0 <= i < |es| ==> OwnWake(n, es[i]);
  }

  /** What holds at every point of such a run. */
  lemma AnyRun(n: nat, past: seq<Event>)
    requires OwnWakes(n, past)
    ensures var s := Run(Init(n, n + 1), past); Placed(s) && MaskInv(s, n)
  {
    RunPlaced(Init(n, n + 1), past);
    InitMask(n, n + 1, n);
    OwnWakesOneWaker(n, past);
    RunMask(Init(n, n + 1), past, n);
  }

  /** During a round the waker calls nothing but WakeUpAll. */
  ghost predicate OwnCalls(n: nat, es: seq<Event>) {
    forall i :: 0 <= i < |es| ==> OwnCall(n, es[i])
  }

  /** `es` begins with the waker calling WakeUpAll, and no WakeUpAll returns in it. */
  ghost predicate RoundFrom(s: System, es: seq<Event>)
    requires Wf(s)
  {
    && es != [] && es[0] == Event(s.sh.n, CallWakeUpAll) && OwnCalls(s.sh.n, es)
    && Run(s, es).h.rounds == s.h.rounds
  }

  lemma StepCounters(s: System, e: Event)
    requires Wf(s)
    ensures s.h.rounds <= Step(s, e).h.rounds && s.h.raises <= Step(s, e).h.raises
  {
  }

  lemma {:induction false} RunCounters(s: System, es: seq<Event>)
    requires Wf(s)
    ensures s.h.rounds <= Run(s, es).h.rounds && s.h.raises <= Run(s, es).h.raises
    decreases |es|
  {
    if es != [] {
      StepCounters(s, es[0]);
      RunCounters(Step(s, es[0]), es[1..]);
    }
  }

  /* ---- A round that begins settled ---- */

  /** Robot k, seen from a round that began settled: while polling its lock is held, it is not at line 49, and
      once seen it is blocked; in the release loop it is blocked until its turn. */
  predicate InRound(sh: Shared, seen: seq<bool>, waker: Pc, pc: Pc, k: nat)
    requires SharedOk(sh) && |seen| == sh.n && k < sh.n
  {
    match waker
    case AllRelease(i) => k >= i ==> pc == Acquire(k) && sh.held[k]
    case _ => sh.held[k] && pc != Lower(k) && (seen[k] ==> pc == Acquire(k))
  }

  ghost predicate SettledRound(s: System) {
    && Placed(s) && MaskInv(s, s.sh.n) && InWakeUpAll(s.threads[s.sh.n])
    && forall k :: 0 <= k < s.sh.n ==> InRound(s.sh, s.h.seen, s.threads[s.sh.n], s.threads[k], k)
  }

  /** A line of the waker, seen from robot k. */
  lemma WakerInRound(sh: Shared, h: History, waker: Pc, pc: Pc, k: nat)
    requires SharedOk(sh) && HistoryOk(h, sh.n) && PcOk(waker, sh.n) && k < sh.n && sh.isRun
    requires InWakeUpAll(waker) && InRound(sh, h.seen, waker, pc, k)
    requires sh.isWait[k] == (pc != Idle) && (pc == Idle || pc == Acquire(k) || pc == Lower(k))
    requires waker.AllRead? && waker.i == sh.n && sh.waitBit == sh.curBit ==> h.seen[k]
    ensures var o := Exec(sh, waker, CallWakeUpAll);
            var h' := Observe(h, o.note);
            |h'.seen| == sh.n && (InWakeUpAll(o.pc) ==> InRound(o.sh, h'.seen, o.pc, pc, k))
  {
  }

  /** A line of robot j, seen from robot k. */
  lemma WaiterInRound(sh: Shared, h: History, waker: Pc, pc: Pc, j: nat, k: nat, pck: Pc)
    requires SharedOk(sh) && HistoryOk(h, sh.n) && j < sh.n && k < sh.n && (j == k ==> pc == pck)
    requires pc == Idle || pc == Acquire(j) || pc == Lower(j)
    requires InRound(sh, h.seen, waker, pck, k)
    ensures var o := Exec(sh, pc, CallWait(j));
            var h' := Observe(h, o.note);
            h'.seen == h.seen && InRound(o.sh, h.seen, waker, if j == k then o.pc else pck, k)
  {
  }

  /** The waker leaves the call only by returning or by a release that raises. */
  lemma WakerStaysInCall(sh: Shared, waker: Pc)
    requires SharedOk(sh) && PcOk(waker, sh.n) && InWakeUpAll(waker)
    ensures var o := Exec(sh, waker, CallWakeUpAll);
            || InWakeUpAll(o.pc) || o.note == RoundDone
            || (o.note == ReleaseRaised && waker.AllRelease? && waker.i < sh.n && !sh.held[waker.i])
  {
  }

  lemma StepSettledRound(s: System, e: Event)
    requires SettledRound(s) && OwnCall(s.sh.n, e)
    ensures SettledRound(Step(s, e)) || Step(s, e).h.rounds > s.h.rounds
  {
    var n, w, s1 := s.sh.n, s.threads[s.sh.n], Step(s, e);
    StepPlaced(s, e);
    StepMask(s, e, n);
    if e.t == n {
      MaskFull(n);
      FullExactlyWhenAllSeen(s.h.seen);
      WakerStaysInCall(s.sh, w);
      assert w.AllRelease? && w.i < n ==> InRound(s.sh, s.h.seen, w, s.threads[w.i], w.i);
      forall k | 0 <= k < n && InWakeUpAll(s1.threads[n])
        ensures InRound(s1.sh, s1.h.seen, s1.threads[n], s1.threads[k], k)
      {
        WakerInRound(s.sh, s.h, w, s.threads[k], k);
      }
    } else {
      forall k | 0 <= k < n ensures InRound(s1.sh, s1.h.seen, s1.threads[n], s1.threads[k], k) {
        WaiterInRound(s.sh, s.h, w, s.threads[e.t], e.t, k, s.threads[k]);
      }
    }
  }

  lemma {:induction false} RunSettledRound(s: System, es: seq<Event>)
    requires SettledRound(s) && OwnCalls(s.sh.n, es) && Run(s, es).h.rounds == s.h.rounds
    ensures SettledRound(Run(s, es))
    decreases |es|
  {
    if es != [] {
      var s1 := Step(s, es[0]);
      StepSettledRound(s, es[0]);
      RunCounters(s1, es[1..]);
      StepCounters(s, es[0]);
      RunSettledRound(s1, es[1..]);
    }
  }

  /* ---- A round rushed through ---- */

  /** Same locks, same waker, same mask; every robot below j has its flag up and kept its place. */
  ghost predicate RaisedFrom(s0: System, s: System, j: nat)
    requires Wf(s0) && |s0.threads| == s0.sh.n + 1
  {
    && Wf(s) && s.sh.n == s0.sh.n && |s.threads| == |s0.threads|
    && s.sh == s0.sh.(isWait := s.sh.isWait)
    && s.h == s0.h.(arrived := s.h.arrived)
    && s.threads[s.sh.n] == s0.threads[s.sh.n]
    && (forall k :: 0 <= k < s.sh.n ==>
          if k < j && s0.threads[k].Idle? then s.threads[k] == Acquire(k) else s.threads[k] == s0.threads[k])
    && (forall k :: 0 <= k < s.sh.n && k < j ==> s.sh.isWait[k])
    && (forall k :: j <= k < s.sh.n ==> s.sh.isWait[k] == s0.sh.isWait[k])
  }

  /** Robot j, idle, runs line 47. */
  lemma RaiseOne(s0: System, s: System, j: nat)
    requires Wf(s0) && |s0.threads| == s0.sh.n + 1 && j < s0.sh.n && s0.threads[j].Idle?
    requires RaisedFrom(s0, s, j)
    ensures RaisedFrom(s0, Step(s, Event(j, CallWait(j))), j + 1)
  {
  }

  /** Robot j, already inside Wait, need not do anything. */
  lemma SkipOne(s0: System, s: System, j: nat)
    requires Wf(s0) && |s0.threads| == s0.sh.n + 1 && j < s0.sh.n && !s0.threads[j].Idle? && s0.sh.isWait[j]
    requires RaisedFrom(s0, s, j)
    ensures RaisedFrom(s0, s, j + 1)
  {
  }

  ghost predicate FlagsMatch(s: System)
    requires Wf(s) && |s.threads| == s.sh.n + 1
  {
    forall k :: 0 <= k < s.sh.n ==> s.sh.isWait[k] == (s.threads[k] != Idle)
  }

  lemma RaiseNext(s: System, es: seq<Event>, j: nat)
    requires Wf(s) && |s.threads| == s.sh.n + 1 && j < s.sh.n && s.threads[j].Idle?
    requires RaisedFrom(s, Run(s, es), j)
    ensures RaisedFrom(s, Run(s, es + [Event(j, CallWait(j))]), j + 1)
  {
    var e := Event(j, CallWait(j));
    RunAppend(s, es, [e]);
    RunOne(Run(s, es), e);
    RaiseOne(s, Run(s, es), j);
  }

  /** The idle robots below j raise their flags, one event each. */
  lemma {:induction false} RaiseUpTo(s: System, j: nat) returns (es: seq<Event>)
    requires Wf(s) && |s.threads| == s.sh.n + 1 && j <= s.sh.n && FlagsMatch(s)
    ensures OwnCalls(s.sh.n, es) && RaisedFrom(s, Run(s, es), j)
    decreases j
  {
    if j == 0 {
      es := [];
      RaisedNone(s);
    } else {
      var before := RaiseUpTo(s, j - 1);
      if s.threads[j - 1].Idle? {
        RaiseNext(s, before, j - 1);
        es := before + [Event(j - 1, CallWait(j - 1))];
      } else {
        es := before;
        SkipOne(s, Run(s, es), j - 1);
      }
    }
  }

  lemma RaisedNone(s: System)
    requires Wf(s) && |s.threads| == s.sh.n + 1
    ensures RaisedFrom(s, s, 0)
  {
  }

  /** The waker alone, m lines. */
  function Solo(n: nat, m: nat): (es: seq<Event>)
    ensures |es| == m && forall i :: 0 <= i < m ==> es[i] == Event(n, CallWakeUpAll)
  {
    seq(m, _ => Event(n, CallWakeUpAll))
  }

  /** Everything the waker cannot change while polling. */
  ghost predicate SameButPoll(s: System, s': System) {
    && s'.sh == s.sh.(curBit := s'.sh.curBit)
    && s'.h == s.h.(seen := s'.h.seen)
    && |s'.threads| == |s.threads| == s.sh.n + 1
    && (forall k :: 0 <= k < s.sh.n ==> s'.threads[k] == s.threads[k])
  }

  /** With all flags up, the waker alone reaches the release loop. */
  lemma {:induction false} SoloPoll(s: System) returns (m: nat)
    requires MaskInv(s, s.sh.n) && |s.threads| == s.sh.n + 1 && AllUp(s) && Polling(s.threads[s.sh.n])
    ensures Run(s, Solo(s.sh.n, m)).threads[s.sh.n] == AllRelease(0)
    ensures SameButPoll(s, Run(s, Solo(s.sh.n, m)))
    decreases ScanRank(s.sh.n, s.threads[s.sh.n], s.h.seen)
  {
    var n, e := s.sh.n, Event(s.sh.n, CallWakeUpAll);
    StepScan(s, e, n);
    StepMask(s, e, n);
    var s1 := Step(s, e);
    assert SameButPoll(s, s1);
    if Polling(s1.threads[n]) {
      var j := SoloPoll(s1);
      m := j + 1;
      assert Solo(n, m)[0] == e && Solo(n, m)[1..] == Solo(n, j);
    } else {
      m := 1;
      assert Solo(n, 1) == [e];
      RunOne(s, e);
    }
  }

  /** Raising flags leaves the mask alone. */
  lemma RaisedKeepsMask(s0: System, s: System)
    requires MaskInv(s0, s0.sh.n) && |s0.threads| == s0.sh.n + 1 && RaisedFrom(s0, s, s0.sh.n)
    ensures MaskInv(s, s0.sh.n) && AllUp(s)
  {
  }

  /** The waker's first line from a state with an idle waker. */
  lemma RoundStart(s: System)
    requires Placed(s) && MaskInv(s, s.sh.n) && s.threads[s.sh.n].Idle?
    ensures var s1 := Step(s, Event(s.sh.n, CallWakeUpAll));
            && Placed(s1) && MaskInv(s1, s.sh.n) && s1.threads[s.sh.n] == AllTest
            && s1.sh == s.sh.(curBit := 0) && s1.h == s.h.(seen := FirstOf(s.sh.n, 0))
            && (forall k :: 0 <= k < s.sh.n ==> s1.threads[k] == s.threads[k])
            && FlagsMatch(s1)
  {
    StepPlaced(s, Event(s.sh.n, CallWakeUpAll));
    StepMask(s, Event(s.sh.n, CallWakeUpAll), s.sh.n);
  }

  /** From any state with an idle waker there is a round that reaches the release loop with every lock,
      and every robot that was not idle, exactly where it stood when the round began. */
  lemma RushedRound(s: System) returns (es: seq<Event>)
    requires Placed(s) && MaskInv(s, s.sh.n) && s.threads[s.sh.n].Idle?
    ensures RoundFrom(s, es)
    ensures var s' := Run(s, es);
            && s'.threads[s.sh.n] == AllRelease(0) && s'.h.raises == s.h.raises
            && s'.sh.held == s.sh.held
            && forall k :: 0 <= k < s.sh.n && !s.threads[k].Idle? ==> s'.threads[k] == s.threads[k]
  {
    var n, e := s.sh.n, Event(s.sh.n, CallWakeUpAll);
    var s1 := Step(s, e);
    RoundStart(s);
    var raise := RaiseUpTo(s1, n);
    var s2 := Run(s1, raise);
    RaisedKeepsMask(s1, s2);
    var m := SoloPoll(s2);
    var rest := raise + Solo(n, m);
    RunAppend(s1, raise, Solo(n, m));
    es := [e] + rest;
    assert es[0] == e && es[1..] == rest;
  }

  /* ---- Exactly when all meet ---- */

  lemma SettledRoundMeets(s: System, es: seq<Event>)
    requires Placed(s) && MaskInv(s, s.sh.n) && Settled(s) && s.threads[s.sh.n].Idle? && RoundFrom(s, es)
    requires Run(s, es).threads[s.sh.n] == AllRelease(0)
    ensures AllBlocked(Run(s, es))
  {
    RoundStart(s);
    var s1 := Step(s, es[0]);
    RunSettledRound(s1, es[1..]);
    var s', n := Run(s, es), s.sh.n;
    forall k | 0 <= k < n ensures Blocked(s', k) {
      assert InRound(s'.sh, s'.h.seen, s'.threads[n], s'.threads[k], k);
    }
  }

  lemma UnsettledRoundCanMiss(s: System) returns (es: seq<Event>)
    requires Placed(s) && MaskInv(s, s.sh.n) && !Settled(s) && s.threads[s.sh.n].Idle?
    ensures RoundFrom(s, es) && Run(s, es).threads[s.sh.n] == AllRelease(0) && !AllBlocked(Run(s, es))
  {
    es := RushedRound(s);
    var k :| 0 <= k < s.sh.n && !(s.sh.held[k] && s.threads[k] != Lower(k));
    assert !Blocked(Run(s, es), k);
  }

  /** At any point of any run, disciplined or not: a WakeUpAll begun now is sure to find all robots blocked
      together at the end of its poll if and only if every lock is held and no robot is at line 49. */
  lemma RendezvousExactlyWhenSettled(n: nat, past: seq<Event>)
    requires OwnWakes(n, past) && Run(Init(n, n + 1), past).threads[n].Idle?
    ensures var s := Run(Init(n, n + 1), past);
            Settled(s) <==>
            forall es :: RoundFrom(s, es) && Run(s, es).threads[n] == AllRelease(0) ==> AllBlocked(Run(s, es))
  {
    var s := Run(Init(n, n + 1), past);
    AnyRun(n, past);
    if Settled(s) {
      forall es | RoundFrom(s, es) && Run(s, es).threads[n] == AllRelease(0) ensures AllBlocked(Run(s, es)) {
        SettledRoundMeets(s, es);
      }
    } else {
      var es := UnsettledRoundCanMiss(s);
    }
  }

  /* ---- Exactly when a round can raise ---- */

  /** What keeps a round from raising: locks not yet released in it are held. */
  ghost predicate LocksLeft(s: System)
  {
    && Wf(s) && |s.threads| == s.sh.n + 1 && InPlaces(s)
    && InWakeUpAll(s.threads[s.sh.n])
    && forall k :: 0 <= k < s.sh.n && (s.threads[s.sh.n].AllRelease? ==> k >= s.threads[s.sh.n].i) ==> s.sh.held[k]
  }

  lemma StepLocksLeft(s: System, e: Event)
    requires LocksLeft(s) && OwnCall(s.sh.n, e)
    ensures Step(s, e).h.raises == s.h.raises
    ensures LocksLeft(Step(s, e)) || Step(s, e).h.rounds > s.h.rounds
  {
  }

  lemma {:induction false} RunLocksLeft(s: System, es: seq<Event>)
    requires LocksLeft(s) && OwnCalls(s.sh.n, es) && Run(s, es).h.rounds == s.h.rounds
    ensures Run(s, es).h.raises == s.h.raises
    decreases |es|
  {
    if es != [] {
      StepLocksLeft(s, es[0]);
      RunCounters(Step(s, es[0]), es[1..]);
      StepCounters(s, es[0]);
      RunLocksLeft(Step(s, es[0]), es[1..]);
    }
  }

  /** The release loop run alone raises at the first free lock. */
  lemma {:induction false} SoloReleaseRaises(s: System, k: nat) returns (m: nat)
    requires Wf(s) && |s.threads| == s.sh.n + 1 && s.threads[s.sh.n].AllRelease?
    requires s.threads[s.sh.n].i <= k < s.sh.n && !s.sh.held[k]
    ensures var s' := Run(s, Solo(s.sh.n, m)); s'.h.raises == s.h.raises + 1 && s'.h.rounds == s.h.rounds
    decreases k - s.threads[s.sh.n].i
  {
    var n, e, i := s.sh.n, Event(s.sh.n, CallWakeUpAll), s.threads[s.sh.n].i;
    var s1 := Step(s, e);
    if s.sh.held[i] {
      var j := SoloReleaseRaises(s1, k);
      m := j + 1;
      assert Solo(n, m)[0] == e && Solo(n, m)[1..] == Solo(n, j);
    } else {
      m := 1;
      assert Solo(n, 1) == [e];
      RunOne(s, e);
    }
  }

  lemma RushedRoundRaises(s: System, k: nat) returns (es: seq<Event>)
    requires Placed(s) && MaskInv(s, s.sh.n) && s.threads[s.sh.n].Idle? && k < s.sh.n && !s.sh.held[k]
    ensures RoundFrom(s, es) && Run(s, es).h.raises > s.h.raises
  {
    var n := s.sh.n;
    var a := RushedRound(s);
    var m := SoloReleaseRaises(Run(s, a), k);
    RunAppend(s, a, Solo(n, m));
    es := a + Solo(n, m);
    assert es[0] == a[0];
  }

  lemma LockedRoundNeverRaises(s: System, es: seq<Event>)
    requires Placed(s) && MaskInv(s, s.sh.n) && s.threads[s.sh.n].Idle? && RoundFrom(s, es)
    requires forall k :: 0 <= k < s.sh.n ==> s.sh.held[k]
    ensures Run(s, es).h.raises == s.h.raises
  {
    RoundStart(s);
    assert LocksLeft(Step(s, es[0]));
    RunLocksLeft(Step(s, es[0]), es[1..]);
  }

  /** At any point of any run, disciplined or not: a WakeUpAll begun now can run into a RuntimeError if and
      only if some lock is free at its start. */
  lemma RoundRaisesExactlyWhenLockFree(n: nat, past: seq<Event>)
    requires OwnWakes(n, past) && Run(Init(n, n + 1), past).threads[n].Idle?
    ensures var s := Run(Init(n, n + 1), past);
            (exists es :: RoundFrom(s, es) && Run(s, es).h.raises > s.h.raises) <==>
            exists k :: 0 <= k < n && !s.sh.held[k]
  {
    var s := Run(Init(n, n + 1), past);
    AnyRun(n, past);
    if k :| 0 <= k < n && !s.sh.held[k] {
      var es := RushedRoundRaises(s, k);
    } else {
      forall es | RoundFrom(s, es) ensures Run(s, es).h.raises == s.h.raises {
        LockedRoundNeverRaises(s, es);
      }
    }
  }
}
