/** The rendezvous itself: one waiting thread per robot (thread k calls Wait(k)), one waker (thread n,
    calling WakeUpAll), no CleanUp. From `__init__`, with every lock free (DSR_util2.py, lines 36-71). */
module SyncBarrier {
  import opened BitMask
  import opened SyncModel
  import opened SyncRuns

  /** Robot k is inside Wait, before line 48 returns: flag up and lock held. */
  predicate Blocked(s: System, k: nat)
    requires SharedOk(s.sh) && k < s.sh.n && k < |s.threads|
  {
    s.threads[k] == Acquire(k) && s.sh.held[k] && s.sh.isWait[k]
  }

  ghost predicate AllBlocked(s: System)
    requires Wf(s) && s.sh.n <= |s.threads|
  {
    forall k :: 0 <= k < s.sh.n ==> Blocked(s, k)
  }

  /** Every robot released so far has taken its lock again and run line 49. */
  ghost predicate Settled(s: System)
    requires Wf(s) && s.sh.n <= |s.threads|
  {
    forall k :: 0 <= k < s.sh.n ==> s.sh.held[k] && s.threads[k] != Lower(k)
  }

  /** Each thread makes only its own calls. */
  predicate OwnCall(n: nat, e: Event) {
    if e.t == n then e.call == CallWakeUpAll else e.t < n && e.call == CallWait(e.t)
  }

  /** ... and the waker begins a round only when the last one has settled. */
  ghost predicate Allowed(s: System, e: Event)
    requires Wf(s) && |s.threads| == s.sh.n + 1
  {
    OwnCall(s.sh.n, e) && (e.t == s.sh.n && s.threads[e.t].Idle? ==> Settled(s))
  }

  ghost predicate Obeys(s: System, es: seq<Event>)
    requires Wf(s) && |s.threads| == s.sh.n + 1
    decreases |es|
  {
    es != [] ==> Allowed(s, es[0]) && Obeys(Step(s, es[0]), es[1..])
  }

  /** Robot k's thread, flag, lock and books agree. */
  predicate RobotOk(sh: Shared, h: History, pc: Pc, k: nat)
    requires SharedOk(sh) && HistoryOk(h, sh.n) && k < sh.n
  {
    && (pc == Idle || pc == Acquire(k) || pc == Lower(k))
    && sh.isWait[k] == (pc != Idle)
    && (pc == Lower(k) ==> sh.held[k])
    && (pc == Idle && !sh.held[k] ==> h.released[k] == 0)
    && h.arrived[k] == h.passed[k] + (if pc == Idle then 0 else 1)
    && h.acquired[k] == h.passed[k] + (if pc == Lower(k) then 1 else 0)
    && h.acquired[k] == h.released[k] + (if sh.held[k] then 1 else 0)
  }

  /** Robot k as seen from the waker's position: while polling nobody can take a lock, and a robot once
      seen waiting is still blocked; in the release loop the robots still to come are blocked. */
  predicate RoundOk(sh: Shared, h: History, waker: Pc, pc: Pc, k: nat)
    requires SharedOk(sh) && HistoryOk(h, sh.n) && k < sh.n
  {
    match waker
    case Idle => h.released[k] == h.rounds
    case AllRelease(i) =>
      if k < i then h.released[k] == h.rounds + 1
      else h.released[k] == h.rounds && pc == Acquire(k) && sh.held[k]
    case _ =>
      && h.released[k] == h.rounds && sh.held[k] && pc != Lower(k)
      && (h.seen[k] ==> pc == Acquire(k))
  }

  ghost predicate BarrierInv(s: System) {
    && Wf(s) && |s.threads| == s.sh.n + 1
    && MaskInv(s, s.sh.n)
    && s.sh.isRun && s.h.raises == 0
    && (s.threads[s.sh.n].Idle? || InWakeUpAll(s.threads[s.sh.n]))
    && (forall k :: 0 <= k < s.sh.n ==> RobotOk(s.sh, s.h, s.threads[k], k))
    && (forall k :: 0 <= k < s.sh.n ==> RoundOk(s.sh, s.h, s.threads[s.sh.n], s.threads[k], k))
  }

  lemma InitBarrier(n: nat)
    ensures BarrierInv(Init(n, n + 1))
  {
    InitMask(n, n + 1, n);
  }

  /** A step of robot k's own thread. */
  lemma OwnStep(sh: Shared, h: History, waker: Pc, pc: Pc, k: nat)
    requires SharedOk(sh) && HistoryOk(h, sh.n) && k < sh.n && (waker.Idle? || InWakeUpAll(waker))
    requires RobotOk(sh, h, pc, k) && RoundOk(sh, h, waker, pc, k)
    ensures PcOk(pc, sh.n)
    ensures var o := Exec(sh, pc, CallWait(k));
            var h' := Observe(h, o.note);
            && HistoryOk(h', sh.n) && h'.raises == h.raises && h'.rounds == h.rounds && o.sh.isRun == sh.isRun
            && RobotOk(o.sh, h', o.pc, k) && RoundOk(o.sh, h', waker, o.pc, k)
  {
  }

  /** A step of robot j's thread leaves another robot k's flag, lock and books alone. */
  lemma OtherStep(sh: Shared, h: History, pc: Pc, j: nat, k: nat)
    requires SharedOk(sh) && HistoryOk(h, sh.n) && j < sh.n && k < sh.n && j != k
    requires pc == Idle || pc == Acquire(j) || pc == Lower(j)
    ensures var o := Exec(sh, pc, CallWait(j));
            var h' := Observe(h, o.note);
            && HistoryOk(h', sh.n) && h'.rounds == h.rounds && h'.seen == h.seen
            && o.sh.isWait[k] == sh.isWait[k] && o.sh.held[k] == sh.held[k]
            && h'.arrived[k] == h.arrived[k] && h'.acquired[k] == h.acquired[k]
            && h'.passed[k] == h.passed[k] && h'.released[k] == h.released[k]
  {
  }

  predicate WakerKeeps(sh: Shared, h: History, waker: Pc, k: nat, pck: Pc)
    requires SharedOk(sh) && HistoryOk(h, sh.n) && PcOk(waker, sh.n) && k < sh.n
  {
    var o := Exec(sh, waker, CallWakeUpAll);
    var h' := Observe(h, o.note);
    && HistoryOk(h', sh.n)
    && (o.note != ReleaseRaised ==> RobotOk(o.sh, h', pck, k) && RoundOk(o.sh, h', o.pc, pck, k))
  }

  lemma StartKeeps(sh: Shared, h: History, k: nat, pck: Pc)
    requires SharedOk(sh) && HistoryOk(h, sh.n) && k < sh.n && sh.held[k] && pck != Lower(k)
    requires RobotOk(sh, h, pck, k) && RoundOk(sh, h, Idle, pck, k)
    ensures WakerKeeps(sh, h, Idle, k, pck)
  {
  }

  lemma ReleaseKeeps(sh: Shared, h: History, i: nat, k: nat, pck: Pc)
    requires SharedOk(sh) && HistoryOk(h, sh.n) && i <= sh.n && k < sh.n
    requires RobotOk(sh, h, pck, k) && RoundOk(sh, h, AllRelease(i), pck, k)
    ensures WakerKeeps(sh, h, AllRelease(i), k, pck)
  {
  }

  lemma PollKeeps(sh: Shared, h: History, waker: Pc, k: nat, pck: Pc)
    requires SharedOk(sh) && HistoryOk(h, sh.n) && PcOk(waker, sh.n) && k < sh.n && sh.isRun && Polling(waker)
    requires RobotOk(sh, h, pck, k) && RoundOk(sh, h, waker, pck, k)
    requires waker.AllRead? && waker.i == sh.n && sh.waitBit == sh.curBit ==> h.seen[k]
    ensures WakerKeeps(sh, h, waker, k, pck)
  {
  }

  /** A step of the waker, seen from robot k. */
  lemma WakerStep(sh: Shared, h: History, waker: Pc, k: nat, pck: Pc)
    requires SharedOk(sh) && HistoryOk(h, sh.n) && PcOk(waker, sh.n) && k < sh.n
    requires sh.isRun && (waker.Idle? || InWakeUpAll(waker))
    requires waker.Idle? ==> sh.held[k] && pck != Lower(k)
    requires RobotOk(sh, h, pck, k) && RoundOk(sh, h, waker, pck, k)
    requires waker.AllRead? && waker.i == sh.n && sh.waitBit == sh.curBit ==> h.seen[k]
    ensures WakerKeeps(sh, h, waker, k, pck)
  {
    match waker
    case Idle => StartKeeps(sh, h, k, pck);
    case AllRelease(i) => ReleaseKeeps(sh, h, i, k, pck);
    case _ => PollKeeps(sh, h, waker, k, pck);
  }

  lemma WakerNeverRaises(sh: Shared, h: History, waker: Pc, pc: Pc)
    requires SharedOk(sh) && HistoryOk(h, sh.n) && PcOk(waker, sh.n)
    requires sh.isRun && (waker.Idle? || InWakeUpAll(waker))
    requires waker.AllRelease? && waker.i < sh.n ==> RoundOk(sh, h, waker, pc, waker.i)
    ensures var o := Exec(sh, waker, CallWakeUpAll);
            && o.note != ReleaseRaised && Observe(h, o.note).raises == h.raises
            && o.sh.isRun && (o.pc.Idle? || InWakeUpAll(o.pc))
  {
  }

  lemma StepBarrier(s: System, e: Event)
    requires BarrierInv(s) && Allowed(s, e)
    ensures BarrierInv(Step(s, e))
  {
    var n := s.sh.n;
    var s' := Step(s, e);
    StepMask(s, e, n);
    if e.t == n {
      MaskFull(n);
      FullExactlyWhenAllSeen(s.h.seen);
      var w := s.threads[n];
      WakerNeverRaises(s.sh, s.h, w, if w.AllRelease? then s.threads[w.i] else Idle);
      forall k | 0 <= k < n
        ensures RobotOk(s'.sh, s'.h, s'.threads[k], k) && RoundOk(s'.sh, s'.h, s'.threads[n], s'.threads[k], k)
      {
        WakerStep(s.sh, s.h, w, k, s.threads[k]);
      }
    } else {
      OwnStep(s.sh, s.h, s.threads[n], s.threads[e.t], e.t);
      forall k | 0 <= k < n
        ensures RobotOk(s'.sh, s'.h, s'.threads[k], k) && RoundOk(s'.sh, s'.h, s'.threads[n], s'.threads[k], k)
      {
        if k != e.t { OtherStep(s.sh, s.h, s.threads[e.t], e.t, k); }
      }
    }
  }

  lemma {:induction false} RunBarrier(s: System, es: seq<Event>)
    requires BarrierInv(s) && Obeys(s, es)
    ensures BarrierInv(Run(s, es))
    decreases |es|
  {
    if es != [] {
      StepBarrier(s, es[0]);
      RunBarrier(Step(s, es[0]), es[1..]);
    }
  }

  /** Safety of the barrier in every disciplined run from `__init__`:
      no release ever hits a free lock; when the poll ends every robot is blocked at that moment, whatever
      time it was seen; a robot seen waiting stays blocked until line 70 frees it; and, the first Wait of
      each robot apart (the locks start free), no Wait returns before every robot has called Wait as often. */
  lemma BarrierSafety(n: nat, es: seq<Event>, a: nat, b: nat)
    requires Obeys(Init(n, n + 1), es) && a < n && b < n
    ensures var s := Run(Init(n, n + 1), es);
            && s.h.raises == 0
            && (s.threads[n] == AllRelease(0) ==> AllBlocked(s))
            && (Polling(s.threads[n]) && s.h.seen[a] ==> Blocked(s, a))
            && (s.threads[n].AllRelease? && s.threads[n].i <= a ==> Blocked(s, a))
            && (s.h.passed[a] >= 2 ==> s.h.passed[a] <= s.h.arrived[b])
  {
    InitBarrier(n);
    RunBarrier(Init(n, n + 1), es);
    var s := Run(Init(n, n + 1), es);
    RobotSafety(s, a, b);
    forall k | 0 <= k < n && s.threads[n] == AllRelease(0) ensures Blocked(s, k) {
      RobotSafety(s, k, k);
    }
  }

  lemma RobotSafety(s: System, a: nat, b: nat)
    requires BarrierInv(s) && a < s.sh.n && b < s.sh.n
    ensures Polling(s.threads[s.sh.n]) && s.h.seen[a] ==> Blocked(s, a)
    ensures s.threads[s.sh.n].AllRelease? && s.threads[s.sh.n].i <= a ==> Blocked(s, a)
    ensures s.h.passed[a] >= 2 ==> s.h.passed[a] <= s.h.arrived[b]
  {
    assert RobotOk(s.sh, s.h, s.threads[a], a) && RoundOk(s.sh, s.h, s.threads[s.sh.n], s.threads[a], a);
    assert RobotOk(s.sh, s.h, s.threads[b], b) && RoundOk(s.sh, s.h, s.threads[s.sh.n], s.threads[b], b);
  }

  /** Each round lets every robot through exactly one Wait: whenever the waker is idle and the round has
      settled, every robot has returned from one Wait per finished round, plus its free first one. */
  lemma OneWaitPerRound(n: nat, es: seq<Event>, k: nat)
    requires Obeys(Init(n, n + 1), es) && k < n
    requires var s := Run(Init(n, n + 1), es); s.threads[n].Idle? && Settled(s)
    ensures var s := Run(Init(n, n + 1), es); s.h.passed[k] == s.h.rounds + 1
  {
    InitBarrier(n);
    RunBarrier(Init(n, n + 1), es);
    var s := Run(Init(n, n + 1), es);
    assert RobotOk(s.sh, s.h, s.threads[k], k) && RoundOk(s.sh, s.h, s.threads[n], s.threads[k], k);
  }

  /** Own steps the waker needs to finish its round once all flags are up. */
  ghost function RoundRank(s: System): nat
    requires Wf(s) && |s.threads| == s.sh.n + 1
  {
    match s.threads[s.sh.n]
    case AllRelease(i) => s.sh.n + 1 - i
    case pc => ScanRank(s.sh.n, pc, s.h.seen) + s.sh.n + 1
  }

  lemma StepTowardsRelease(s: System, e: Event)
    requires BarrierInv(s) && Allowed(s, e)
    requires Polling(s.threads[s.sh.n]) && AllUp(s)
    ensures var s' := Step(s, e);
            && s'.h.rounds == s.h.rounds
            && (s'.threads[s.sh.n].AllRelease? || (Polling(s'.threads[s.sh.n]) && AllUp(s')))
            && RoundRank(s') <= RoundRank(s) - (if e.t == s.sh.n then 1 else 0)
  {
    StepScan(s, e, s.sh.n);
    if e.t < s.sh.n {
      assert RobotOk(s.sh, s.h, s.threads[e.t], e.t);
      assert RoundOk(s.sh, s.h, s.threads[s.sh.n], s.threads[e.t], e.t);
    }
  }

  lemma StepInRelease(s: System, e: Event)
    requires BarrierInv(s) && Allowed(s, e) && s.threads[s.sh.n].AllRelease?
    ensures var s' := Step(s, e);
            || s'.h.rounds == s.h.rounds + 1
            || (s'.h.rounds == s.h.rounds && s'.threads[s.sh.n].AllRelease?
                && RoundRank(s') <= RoundRank(s) - (if e.t == s.sh.n then 1 else 0))
  {
    var i := s.threads[s.sh.n].i;
    if i < s.sh.n {
      assert RoundOk(s.sh, s.h, s.threads[s.sh.n], s.threads[i], i);
    }
  }

  /** The waker is in its release loop, or polling with every flag up. */
  ghost predicate Finishing(s: System)
    requires Wf(s) && |s.threads| == s.sh.n + 1
  {
    s.threads[s.sh.n].AllRelease? || (Polling(s.threads[s.sh.n]) && AllUp(s))
  }

  lemma StepFinishing(s: System, e: Event)
    requires BarrierInv(s) && Allowed(s, e) && Finishing(s)
    ensures var s' := Step(s, e);
            || s'.h.rounds == s.h.rounds + 1
            || (s'.h.rounds == s.h.rounds && Finishing(s')
                && RoundRank(s') <= RoundRank(s) - (if e.t == s.sh.n then 1 else 0))
  {
    if s.threads[s.sh.n].AllRelease? {
      StepInRelease(s, e);
    } else {
      StepTowardsRelease(s, e);
    }
  }

  lemma RoundRankBound(s: System)
    requires BarrierInv(s) && Finishing(s)
    ensures 0 < RoundRank(s) <= 7 * s.sh.n + 4
  {
  }

  /** Liveness of a round: once every robot has raised its flag during the poll, the waker finishes the
      round within 7n + 4 own lines, however the robots' steps are interleaved. */
  lemma {:induction false} RoundCompletes(s: System, es: seq<Event>) returns (k: nat)
    requires BarrierInv(s) && Obeys(s, es) && Finishing(s)
    requires OwnSteps(es, s.sh.n) >= RoundRank(s)
    ensures k <= |es| && Run(s, es[..k]).h.rounds == s.h.rounds + 1
    ensures RoundRank(s) <= 7 * s.sh.n + 4
    decreases |es|
  {
    RoundRankBound(s);
    assert es != [];
    var s1 := Step(s, es[0]);
    StepFinishing(s, es[0]);
    var j := 0;
    if s1.h.rounds == s.h.rounds {
      StepBarrier(s, es[0]);
      j := RoundCompletes(s1, es[1..]);
    }
    k := j + 1;
    assert es[..k][0] == es[0] && es[..k][1..] == es[1..][..j];
  }

  /** While the waker polls, a robot that has run a line keeps its flag up; once in the release loop the waker
      is finishing. */
  ghost predicate Arriving(s: System, a: seq<Event>)
    requires Wf(s) && |s.threads| == s.sh.n + 1
  {
    || s.threads[s.sh.n].AllRelease?
    || (Polling(s.threads[s.sh.n]) && forall k :: 0 <= k < s.sh.n ==> s.sh.isWait[k] || OwnSteps(a, k) > 0)
  }

  lemma StepArriving(s: System, a: seq<Event>)
    requires a != [] && BarrierInv(s) && Allowed(s, a[0]) && Arriving(s, a)
    ensures var s1 := Step(s, a[0]);
            s1.h.rounds == s.h.rounds + 1 || (s1.h.rounds == s.h.rounds && Arriving(s1, a[1..]))
  {
    var n, e, w := s.sh.n, a[0], s.threads[s.sh.n];
    if w.AllRelease? {
      StepInRelease(s, e);
    } else if e.t == n {
      WakerLinePolling(s.sh, w);
    } else {
      assert RobotOk(s.sh, s.h, s.threads[e.t], e.t) && RoundOk(s.sh, s.h, w, s.threads[e.t], e.t);
      WaiterKeepsFlagsUp(s, e);
    }
  }

  /** A polling waker stays in its poll or goes on to the release loop, and touches no flag. */
  lemma WakerLinePolling(sh: Shared, waker: Pc)
    requires SharedOk(sh) && PcOk(waker, sh.n) && sh.isRun && Polling(waker)
    ensures var o := Exec(sh, waker, CallWakeUpAll);
            && (Polling(o.pc) || o.pc.AllRelease?) && o.sh.isWait == sh.isWait && o.note != RoundDone
  {
  }

  /** A robot outside line 49 ends its line with its flag up; no other flag changes. */
  lemma WaiterKeepsFlagsUp(s: System, e: Event)
    requires Wf(s) && |s.threads| == s.sh.n + 1 && e.t < s.sh.n && e.call == CallWait(e.t)
    requires RobotOk(s.sh, s.h, s.threads[e.t], e.t) && s.threads[e.t] != Lower(e.t)
    ensures var s1 := Step(s, e);
            && s1.threads[s.sh.n] == s.threads[s.sh.n] && s1.h.rounds == s.h.rounds
            && s1.sh.isWait == s.sh.isWait[e.t := true]
  {
  }

  lemma {:induction false} RunArriving(s: System, a: seq<Event>) returns (k: nat)
    requires BarrierInv(s) && Obeys(s, a) && Arriving(s, a)
    ensures k <= |a|
    ensures || Run(s, a[..k]).h.rounds == s.h.rounds + 1
            || (k == |a| && BarrierInv(Run(s, a)) && Run(s, a).h.rounds == s.h.rounds && Finishing(Run(s, a)))
    decreases |a|
  {
    k := 0;
    if a != [] {
      var s1 := Step(s, a[0]);
      StepBarrier(s, a[0]);
      StepArriving(s, a);
      var j := 0;
      if s1.h.rounds == s.h.rounds {
        j := RunArriving(s1, a[1..]);
      }
      k := j + 1;
      assert a[..k][0] == a[0] && a[..k][1..] == a[1..][..j];
    }
  }

  lemma {:induction false} ObeysAppend(s: System, a: seq<Event>, b: seq<Event>)
    requires Wf(s) && |s.threads| == s.sh.n + 1 && Obeys(s, a + b)
    ensures Obeys(s, a) && Obeys(Run(s, a), b)
    decreases |a|
  {
    if a == [] {
      assert a + b == b;
    } else {
      assert (a + b)[0] == a[0] && (a + b)[1..] == a[1..] + b;
      ObeysAppend(Step(s, a[0]), a[1..], b);
    }
  }

  /** Liveness of a whole round: from any point of its poll, whoever is still missing, once each robot's thread
      has run a line and after that the waker 7n + 4, the round has finished, however they are interleaved. */
  lemma WholeRoundCompletes(s: System, a: seq<Event>, b: seq<Event>) returns (k: nat)
    requires BarrierInv(s) && Polling(s.threads[s.sh.n]) && Obeys(s, a + b)
    requires forall r :: 0 <= r < s.sh.n ==> OwnSteps(a, r) > 0
    requires OwnSteps(b, s.sh.n) >= 7 * s.sh.n + 4
    ensures k <= |a| + |b| && Run(s, (a + b)[..k]).h.rounds == s.h.rounds + 1
  {
    ObeysAppend(s, a, b);
    k := RunArriving(s, a);
    if Run(s, a[..k]).h.rounds == s.h.rounds + 1 {
      assert (a + b)[..k] == a[..k];
    } else {
      RoundRankBound(Run(s, a));
      var j := RoundCompletes(Run(s, a), b);
      k := |a| + j;
      assert (a + b)[..k] == a + b[..j];
      RunAppend(s, a, b[..j]);
    }
  }

  /** The locks start free, so each robot's first Wait is no rendezvous: it returns with no other
      thread having run at all. */
  lemma FirstWaitPassesAlone(n: nat, k: nat)
    requires k < n
    ensures var e := Event(k, CallWait(k));
            var s := Run(Init(n, n + 1), [e, e, e]);
            && Obeys(Init(n, n + 1), [e, e, e])
            && s.h.passed[k] == 1 && s.h.released[k] == 0 && s.sh.held[k]
  {
    var e, s0 := Event(k, CallWait(k)), Init(n, n + 1);
    var s1 := Step(s0, e);
    var s2 := Step(s1, e);
    assert s2.threads[k] == Lower(k);
    assert [e, e, e][1..] == [e, e] && [e, e][1..] == [e];
    RunOne(s2, e);
    assert Obeys(Step(s2, e), []);
    assert [e][1..] == [];
    assert Obeys(s2, [e]) && Obeys(s1, [e, e]);
  }
}
