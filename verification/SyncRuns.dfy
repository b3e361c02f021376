/** What every run of CRobotSync keeps: the poll mask, the spread between robots,
    and the end of the polls (DSR_util2.py, lines 30-71). */
module SyncRuns {
  import opened BitMask
  import opened SyncModel

  predicate Polling(pc: Pc) {
    pc.AllTest? || pc.AllRead? || pc.AllLoad? || pc.AllStore?
  }

  predicate InWakeUpAll(pc: Pc) {
    Polling(pc) || pc.AllRelease?
  }

  predicate InWakeUp(pc: Pc) {
    pc.WakeTest? || pc.WakeRead? || pc.WakeRelease?
  }

  /** Only thread w ever calls WakeUpAll. */
  ghost predicate OneWaker(es: seq<Event>, w: nat) {
    forall i :: 0 <= i < |es| && es[i].call.CallWakeUpAll? ==> es[i].t == w
  }

  ghost predicate NoWakeUp(es: seq<Event>) {
    forall i :: 0 <= i < |es| ==> !es[i].call.CallWakeUp?
  }

  ghost predicate AllSeen(s: System) {
    forall k :: 0 <= k < |s.h.seen| ==> s.h.seen[k]
  }

  ghost predicate AllUp(s: System) {
    forall k :: 0 <= k < |s.sh.isWait| ==> s.sh.isWait[k]
  }

  /* ---- The mask is the set of robots seen waiting ---- */

  /** nCurBit, with the bit that lines 65-66 are about to add. */
  function Recorded(sh: Shared, pc: Pc): nat {
    match pc
    case AllLoad(i) => Or(sh.curBit, Pow2(i))
    case AllStore(i, m) => Or(m, Pow2(i))
    case _ => sh.curBit
  }

  /** The waker's own part of the invariant. */
  ghost predicate MaskOk(sh: Shared, pc: Pc, seen: seq<bool>) {
    && |seen| == sh.n
    && sh.waitBit == Mask(FirstOf(sh.n, sh.n))
    && Recorded(sh, pc) == Mask(seen)
    && (pc.AllLoad? ==> pc.i < sh.n && seen[pc.i])
    && (pc.AllStore? ==> pc.i < sh.n && seen[pc.i])
  }

  ghost predicate MaskInv(s: System, w: nat) {
    && Wf(s) && w < |s.threads|
    && (forall t :: 0 <= t < |s.threads| && t != w ==> !InWakeUpAll(s.threads[t]))
    && MaskOk(s.sh, s.threads[w], s.h.seen)
  }

  ghost predicate MaskKept(sh: Shared, h: History, pc: Pc, call: Call)
    requires SharedOk(sh) && PcOk(pc, sh.n)
  {
    var o := Exec(sh, pc, call); MaskOk(o.sh, o.pc, Observe(h, o.note).seen)
  }

  /** Line 62 empties the mask and forgets all robots. */
  lemma StartMask(sh: Shared, h: History)
    requires SharedOk(sh) && HistoryOk(h, sh.n) && MaskOk(sh, Idle, h.seen)
    ensures MaskKept(sh, h, Idle, CallWakeUpAll)
  {
    MaskEmpty(sh.n);
  }

  /** Line 65 sees robot i. */
  lemma SeeMask(sh: Shared, h: History, i: nat, call: Call)
    requires SharedOk(sh) && HistoryOk(h, sh.n) && i < sh.n && sh.isWait[i] && MaskOk(sh, AllRead(i), h.seen)
    ensures MaskKept(sh, h, AllRead(i), call)
  {
    OrAddsMember(h.seen, i);
  }

  /** Line 66 carries the bit through its two halves; no other line touches mask or seen. */
  lemma CarryMask(sh: Shared, h: History, pc: Pc, call: Call)
    requires SharedOk(sh) && PcOk(pc, sh.n) && HistoryOk(h, sh.n) && MaskOk(sh, pc, h.seen)
    requires !(pc.Idle? && call.CallWakeUpAll?) && !(pc.AllRead? && pc.i < sh.n && sh.isWait[pc.i])
    ensures MaskKept(sh, h, pc, call)
  {
    var o := Exec(sh, pc, call);
    assert Recorded(o.sh, o.pc) == Recorded(sh, pc) && Observe(h, o.note).seen == h.seen;
  }

  lemma WakerLineMask(sh: Shared, h: History, pc: Pc, call: Call)
    requires SharedOk(sh) && PcOk(pc, sh.n) && HistoryOk(h, sh.n) && MaskOk(sh, pc, h.seen)
    ensures MaskKept(sh, h, pc, call)
  {
    if pc.Idle? && call.CallWakeUpAll? {
      StartMask(sh, h);
    } else if pc.AllRead? && pc.i < sh.n && sh.isWait[pc.i] {
      SeeMask(sh, h, pc.i, call);
    } else {
      CarryMask(sh, h, pc, call);
    }
  }

  lemma OtherLineMask(sh: Shared, h: History, pc: Pc, call: Call)
    requires SharedOk(sh) && PcOk(pc, sh.n) && !InWakeUpAll(pc) && !call.CallWakeUpAll?
    ensures var o := Exec(sh, pc, call);
            && !InWakeUpAll(o.pc)
            && o.sh.curBit == sh.curBit && o.sh.waitBit == sh.waitBit
            && Observe(h, o.note).seen == h.seen
  {
  }

  lemma StepMask(s: System, e: Event, w: nat)
    requires MaskInv(s, w)
    requires e.call.CallWakeUpAll? ==> e.t == w
    ensures MaskInv(Step(s, e), w)
  {
    if e.t == w {
      WakerLineMask(s.sh, s.h, s.threads[w], e.call);
    } else if e.t < |s.threads| {
      OtherLineMask(s.sh, s.h, s.threads[e.t], e.call);
    }
  }

  lemma {:induction false} RunMask(s: System, es: seq<Event>, w: nat)
    requires MaskInv(s, w) && OneWaker(es, w)
    ensures MaskInv(Run(s, es), w)
    decreases |es|
  {
    if es != [] {
      assert es[0].call.CallWakeUpAll? ==> es[0].t == w;
      StepMask(s, es[0], w);
      RunMask(Step(s, es[0]), es[1..], w);
    }
  }

  lemma InitMask(n: nat, threads: nat, w: nat)
    requires w < threads
    ensures MaskInv(Init(n, threads), w)
  {
    MaskEmpty(n);
  }

  /** However the poll is interleaved with other threads and however often it rescans, nCurBit stands for
      exactly the robots seen waiting since line 62; nWaitBit is 2^n - 1; and the comparison of line 67
      leaves the loop exactly when every robot has been seen. */
  lemma MaskRefinesSeen(n: nat, threads: nat, w: nat, es: seq<Event>)
    requires w < threads && OneWaker(es, w)
    ensures var s := Run(Init(n, threads), es);
            && s.sh.waitBit == Pow2(n) - 1
            && Recorded(s.sh, s.threads[w]) == Mask(s.h.seen)
            && (s.threads[w] == AllRead(n) ==>
                  (Exec(s.sh, s.threads[w], CallCleanUp).pc == AllRelease(0) <==> AllSeen(s)))
  {
    InitMask(n, threads, w);
    RunMask(Init(n, threads), es, w);
    MaskFull(n);
    FullExactlyWhenAllSeen(Run(Init(n, threads), es).h.seen);
  }

  /** No robot is forgotten before the next line 62. */
  lemma SeenGrows(s: System, e: Event, k: nat)
    requires Wf(s) && k < s.sh.n && s.h.seen[k]
    requires e.t < |s.threads| ==> !(s.threads[e.t].Idle? && e.call.CallWakeUpAll?)
    ensures Step(s, e).h.seen[k]
  {
  }

  /* ---- Spread between robots ---- */

  /** Robot k's successful releases: one per finished round, one more once this round has passed it. */
  predicate SkewOk(h: History, waker: Pc, k: nat)
    requires k < |h.released|
  {
    h.raises == 0 ==> h.released[k] == h.rounds + (if waker.AllRelease? && k < waker.i then 1 else 0)
  }

  ghost predicate SkewInv(s: System, w: nat) {
    && Wf(s) && w < |s.threads|
    && (forall t :: 0 <= t < |s.threads| ==>
          !InWakeUp(s.threads[t]) && (t != w ==> !InWakeUpAll(s.threads[t])))
    && (forall k :: 0 <= k < s.sh.n ==> SkewOk(s.h, s.threads[w], k))
  }

  lemma WakerLineSkew(sh: Shared, h: History, pc: Pc, call: Call, k: nat)
    requires SharedOk(sh) && PcOk(pc, sh.n) && HistoryOk(h, sh.n) && k < sh.n
    requires !InWakeUp(pc) && !call.CallWakeUp? && SkewOk(h, pc, k)
    ensures var o := Exec(sh, pc, call); !InWakeUp(o.pc) && SkewOk(Observe(h, o.note), o.pc, k)
  {
  }

  lemma OtherLineSkew(sh: Shared, h: History, pc: Pc, call: Call)
    requires SharedOk(sh) && PcOk(pc, sh.n) && HistoryOk(h, sh.n)
    requires !InWakeUp(pc) && !InWakeUpAll(pc) && !call.CallWakeUp? && !call.CallWakeUpAll?
    ensures var o := Exec(sh, pc, call);
            var h' := Observe(h, o.note);
            && !InWakeUp(o.pc) && !InWakeUpAll(o.pc)
            && h'.released == h.released && h'.rounds == h.rounds && h'.raises == h.raises
  {
  }

  lemma StepSkew(s: System, e: Event, w: nat)
    requires SkewInv(s, w)
    requires !e.call.CallWakeUp? && (e.call.CallWakeUpAll? ==> e.t == w)
    ensures SkewInv(Step(s, e), w)
  {
    if e.t == w {
      forall k | 0 <= k < s.sh.n ensures SkewOk(Step(s, e).h, Step(s, e).threads[w], k) {
        WakerLineSkew(s.sh, s.h, s.threads[w], e.call, k);
      }
      if s.sh.n > 0 { WakerLineSkew(s.sh, s.h, s.threads[w], e.call, 0); }
    } else if e.t < |s.threads| {
      OtherLineSkew(s.sh, s.h, s.threads[e.t], e.call);
      forall k | 0 <= k < s.sh.n ensures SkewOk(Step(s, e).h, s.threads[w], k) {
        assert SkewOk(s.h, s.threads[w], k);
      }
    }
  }

  lemma {:induction false} RunSkew(s: System, es: seq<Event>, w: nat)
    requires SkewInv(s, w) && OneWaker(es, w) && NoWakeUp(es)
    ensures SkewInv(Run(s, es), w)
    decreases |es|
  {
    if es != [] {
      assert !es[0].call.CallWakeUp? && (es[0].call.CallWakeUpAll? ==> es[0].t == w);
      StepSkew(s, es[0], w);
      RunSkew(Step(s, es[0]), es[1..], w);
    }
  }

  /** One waker that uses only WakeUpAll, any number of waiting threads, no release that raised: the
      acquisition counts of two robots differ by at most 1, and by at most 2 inside the release loop. */
  lemma BoundedSkew(n: nat, threads: nat, w: nat, es: seq<Event>, a: nat, b: nat)
    requires w < threads && OneWaker(es, w) && NoWakeUp(es) && a < n && b < n
    requires Run(Init(n, threads), es).h.raises == 0
    ensures var s := Run(Init(n, threads), es);
            s.h.acquired[a] <= s.h.acquired[b] + if s.threads[w].AllRelease? then 2 else 1
  {
    RunSkew(Init(n, threads), es, w);
    var s := Run(Init(n, threads), es);
    assert SkewOk(s.h, s.threads[w], a) && SkewOk(s.h, s.threads[w], b);
    TokenAccounting(n, threads, es, a);
    TokenAccounting(n, threads, es, b);
  }

  /* ---- The polls end ---- */

  function OwnSteps(es: seq<Event>, t: nat): nat {
    if es == [] then 0 else (if es[0].t == t then 1 else 0) + OwnSteps(es[1..], t)
  }

  /** Own steps left before a poll is over, once nIsRun is False. */
  function ExitRank(pc: Pc, n: nat): nat
    requires PcOk(pc, n)
  {
    match pc
    case WakeTest(_) => 1
    case WakeRead(_) => 2
    case AllTest => 1
    case AllRead(i) => 3 * (n - i) + 2
    case AllLoad(i) => 3 * (n - i) + 1
    case AllStore(i, _) => 3 * (n - i)
    case _ => 0
  }

  lemma StepAfterShutdown(s: System, e: Event, t: nat)
    requires Wf(s) && t < |s.threads| && !s.sh.isRun
    ensures !Step(s, e).sh.isRun
    ensures e.t != t ==> Step(s, e).threads[t] == s.threads[t]
    ensures e.t == t && ExitRank(s.threads[t], s.sh.n) > 0 ==>
              ExitRank(Step(s, e).threads[t], s.sh.n) < ExitRank(s.threads[t], s.sh.n)
  {
  }

  /** nIsRun never comes back, and after it fell every poll, of WakeUp and of WakeUpAll alike, is left
      within at most the rest of the current scan plus two own steps, whatever the other threads do. */
  lemma {:induction false} PollEndsAfterShutdown(s: System, es: seq<Event>, t: nat) returns (k: nat)
    requires Wf(s) && t < |s.threads| && !s.sh.isRun
    requires OwnSteps(es, t) >= ExitRank(s.threads[t], s.sh.n)
    ensures !Run(s, es).sh.isRun
    ensures k <= |es| && ExitRank(Run(s, es[..k]).threads[t], s.sh.n) == 0
    decreases |es|
  {
    k := 0;
    if es != [] {
      StepAfterShutdown(s, es[0], t);
      if ExitRank(s.threads[t], s.sh.n) == 0 {
        StoppedForever(s, es);
      } else {
        var j := PollEndsAfterShutdown(Step(s, es[0]), es[1..], t);
        k := j + 1;
        assert es[..k][0] == es[0] && es[..k][1..] == es[1..][..j];
      }
    }
  }

  lemma {:induction false} StoppedForever(s: System, es: seq<Event>)
    requires Wf(s) && !s.sh.isRun
    ensures !Run(s, es).sh.isRun
    decreases |es|
  {
    if es != [] {
      StoppedForever(Step(s, es[0]), es[1..]);
    }
  }

  /* ---- Where the shutdown comes from ---- */

  /** Event i of the run is an idle thread calling CleanUp. */
  ghost predicate CleansUp(s: System, es: seq<Event>, i: nat)
    requires Wf(s) && i < |es|
  {
    es[i].call.CallCleanUp? && es[i].t < |s.threads| && Run(s, es[..i]).threads[es[i].t].Idle?
  }

  lemma LineKeepsRunning(sh: Shared, pc: Pc, call: Call)
    requires SharedOk(sh) && PcOk(pc, sh.n)
    ensures Exec(sh, pc, call).sh.isRun <==> sh.isRun && !(pc.Idle? && call.CallCleanUp?)
  {
  }

  lemma {:induction false} RunsUntilCleanUp(s: System, es: seq<Event>)
    requires Wf(s) && s.sh.isRun
    ensures Run(s, es).sh.isRun <==> forall i :: 0 <= i < |es| ==> !CleansUp(s, es, i)
    decreases |es|
  {
    if es != [] {
      var m, e := |es| - 1, es[|es| - 1];
      var before := Run(s, es[..m]);
      RunsUntilCleanUp(s, es[..m]);
      RunAppend(s, es[..m], [e]);
      RunOne(before, e);
      assert es == es[..m] + [e];
      forall i | 0 <= i < m ensures CleansUp(s, es, i) <==> CleansUp(s, es[..m], i) {
        assert es[..m][..i] == es[..i];
      }
      if e.t < |s.threads| { LineKeepsRunning(before.sh, before.threads[e.t], e.call); }
      assert Run(s, es).sh.isRun <==> before.sh.isRun && !CleansUp(s, es, m);
    }
  }

  /** In every run from `__init__`, nIsRun is True if and only if no idle thread has called CleanUp so far. */
  lemma RunningExactlyUntilCleanUp(n: nat, threads: nat, es: seq<Event>)
    ensures Run(Init(n, threads), es).sh.isRun <==>
            forall i :: 0 <= i < |es| ==> !CleansUp(Init(n, threads), es, i)
  {
    RunsUntilCleanUp(Init(n, threads), es);
  }

  /** That call lowers nIsRun and changes nothing else: no flag, lock, mask, thread or count. */
  lemma CleanUpOnlyStops(s: System, e: Event)
    requires Wf(s) && e.call.CallCleanUp? && e.t < |s.threads| && s.threads[e.t].Idle?
    ensures Step(s, e) == s.(sh := s.sh.(isRun := false))
  {
    assert s.threads[e.t := Idle] == s.threads;
  }

  /** Once CleanUp has been called, whatever went before, every poll is left within 3n + 2 own steps of its
      thread, and nIsRun stays False. */
  lemma PollEndsAfterCleanUp(n: nat, threads: nat, past: seq<Event>, c: nat, es: seq<Event>, t: nat) returns (k: nat)
    requires c < threads && t < threads && Run(Init(n, threads), past).threads[c].Idle?
    requires OwnSteps(es, t) >= 3 * n + 2
    ensures var s := Run(Init(n, threads), past + [Event(c, CallCleanUp)]);
            && !Run(s, es).sh.isRun
            && k <= |es| && ExitRank(Run(s, es[..k]).threads[t], n) == 0
  {
    var s, e := Run(Init(n, threads), past), Event(c, CallCleanUp);
    RunAppend(Init(n, threads), past, [e]);
    RunOne(s, e);
    CleanUpOnlyStops(s, e);
    k := PollEndsAfterShutdown(Step(s, e), es, t);
  }

  /* ---- Releases by WakeUp ---- */

  function Total(c: seq<nat>): nat {
    if c == [] then 0 else c[0] + Total(c[1..])
  }

  lemma {:induction false} TotalBump(c: seq<nat>, k: nat)
    requires k < |c|
    ensures Total(Bump(c, k)) == Total(c) + 1
  {
    if k == 0 {
      assert Bump(c, 0)[1..] == c[1..];
    } else {
      assert Bump(c, k)[1..] == Bump(c[1..], k - 1);
      TotalBump(c[1..], k - 1);
    }
  }

  predicate MayRelease(pc: Pc) {
    pc.WakeRead? || pc.WakeRelease?
  }

  /** Threads of WakeUp that have passed their loop test and may still release. */
  function Committed(threads: seq<Pc>): nat {
    if threads == [] then 0
    else (if MayRelease(threads[0]) then 1 else 0) + Committed(threads[1..])
  }

  lemma {:induction false} CommittedMove(threads: seq<Pc>, t: nat, pc: Pc)
    requires t < |threads|
    ensures Committed(threads[t := pc]) - (if MayRelease(pc) then 1 else 0)
         == Committed(threads) - (if MayRelease(threads[t]) then 1 else 0)
  {
    if t == 0 {
      assert threads[0 := pc][1..] == threads[1..];
    } else {
      assert threads[t := pc][1..] == threads[1..][t - 1 := pc];
      CommittedMove(threads[1..], t - 1, pc);
    }
  }

  /** After shutdown no line outside WakeUpAll commits to a release, and one that releases was committed. */
  lemma LineAfterShutdown(sh: Shared, pc: Pc, call: Call)
    requires SharedOk(sh) && PcOk(pc, sh.n) && !sh.isRun && !InWakeUpAll(pc) && !call.CallWakeUpAll?
    ensures var o := Exec(sh, pc, call);
            && !o.sh.isRun && !InWakeUpAll(o.pc)
            && (if MayRelease(o.pc) then 1 else 0) + (if o.note.Released? then 1 else 0)
               <= (if MayRelease(pc) then 1 else 0)
            && (o.note.Released? ==> o.note.k < sh.n)
  {
  }

  lemma ReleasedTotal(h: History, note: Note)
    requires note.Released? ==> note.k < |h.released|
    ensures Total(Observe(h, note).released) == Total(h.released) + (if note.Released? then 1 else 0)
  {
    if note.Released? { TotalBump(h.released, note.k); }
  }

  /** After shutdown WakeUp releases nothing on its way out: in any further run without WakeUpAll, the
      releases still made are at most the WakeUp calls that were already past their loop test. */
  lemma {:induction false} ShutdownReleasesOnlyCommitted(s: System, es: seq<Event>)
    requires Wf(s) && !s.sh.isRun
    requires forall t :: 0 <= t < |s.threads| ==> !InWakeUpAll(s.threads[t])
    requires forall i :: 0 <= i < |es| ==> !es[i].call.CallWakeUpAll?
    ensures var s' := Run(s, es);
            Total(s'.h.released) + Committed(s'.threads) <= Total(s.h.released) + Committed(s.threads)
    decreases |es|
  {
    if es != [] {
      var e := es[0];
      if e.t < |s.threads| {
        var o := StepThread(s, e);
        LineAfterShutdown(s.sh, s.threads[e.t], e.call);
        CommittedMove(s.threads, e.t, o.pc);
        ReleasedTotal(s.h, o.note);
      }
      ShutdownReleasesOnlyCommitted(Step(s, e), es[1..]);
    }
  }

  /** WakeUp calls begun in the run. */
  ghost function Begun(s: System, es: seq<Event>): nat
    requires Wf(s)
    decreases |es|
  {
    if es == [] then 0
    else
      (if es[0].call.CallWakeUp? && es[0].t < |s.threads| && s.threads[es[0].t].Idle? then 1 else 0)
      + Begun(Step(s, es[0]), es[1..])
  }

  /** Threads inside WakeUp. */
  function WakersInside(threads: seq<Pc>): nat {
    if threads == [] then 0 else (if InWakeUp(threads[0]) then 1 else 0) + WakersInside(threads[1..])
  }

  lemma {:induction false} WakersInsideMove(threads: seq<Pc>, t: nat, pc: Pc)
    requires t < |threads|
    ensures WakersInside(threads[t := pc]) - (if InWakeUp(pc) then 1 else 0)
         == WakersInside(threads) - (if InWakeUp(threads[t]) then 1 else 0)
  {
    if t == 0 {
      assert threads[0 := pc][1..] == threads[1..];
    } else {
      assert threads[t := pc][1..] == threads[1..][t - 1 := pc];
      WakersInsideMove(threads[1..], t - 1, pc);
    }
  }

  /** A line outside WakeUpAll enters WakeUp, or stays, or leaves it for good with at most one release or raise. */
  lemma WakeUpLine(sh: Shared, pc: Pc, call: Call)
    requires SharedOk(sh) && PcOk(pc, sh.n) && !InWakeUpAll(pc) && !call.CallWakeUpAll?
    ensures var o := Exec(sh, pc, call);
            && !InWakeUpAll(o.pc) && (o.note.Released? ==> o.note.k < sh.n)
            && (if InWakeUp(o.pc) then 1 else 0) + (if o.note.Released? || o.note == ReleaseRaised then 1 else 0)
               <= (if InWakeUp(pc) then 1 else 0) + (if pc.Idle? && call.CallWakeUp? then 1 else 0)
  {
  }

  /** Without WakeUpAll there is at most one release or RuntimeError for each WakeUp begun, and one fewer for each
      WakeUp still under way: a WakeUp that has released its robot, or failed to, is over. */
  lemma {:induction false} WakeUpReleasesAtMostOnce(s: System, es: seq<Event>)
    requires Wf(s)
    requires forall t :: 0 <= t < |s.threads| ==> !InWakeUpAll(s.threads[t])
    requires forall i :: 0 <= i < |es| ==> !es[i].call.CallWakeUpAll?
    ensures var s' := Run(s, es);
            Total(s'.h.released) + s'.h.raises + WakersInside(s'.threads)
            <= Total(s.h.released) + s.h.raises + WakersInside(s.threads) + Begun(s, es)
    decreases |es|
  {
    if es != [] {
      StepReleasesAtMostOnce(s, es[0]);
      WakeUpReleasesAtMostOnce(Step(s, es[0]), es[1..]);
    }
  }

  lemma StepReleasesAtMostOnce(s: System, e: Event)
    requires Wf(s) && !e.call.CallWakeUpAll?
    requires forall t :: 0 <= t < |s.threads| ==> !InWakeUpAll(s.threads[t])
    ensures var s' := Step(s, e);
            && (forall t :: 0 <= t < |s'.threads| ==> !InWakeUpAll(s'.threads[t]))
            && Total(s'.h.released) + s'.h.raises + WakersInside(s'.threads)
               <= Total(s.h.released) + s.h.raises + WakersInside(s.threads)
                  + (if e.call.CallWakeUp? && e.t < |s.threads| && s.threads[e.t].Idle? then 1 else 0)
  {
    if e.t < |s.threads| {
      var o := StepThread(s, e);
      WakeUpLine(s.sh, s.threads[e.t], e.call);
      WakersInsideMove(s.threads, e.t, o.pc);
      ReleasedTotal(s.h, o.note);
    }
  }

  ghost predicate SeenBefore(seen: seq<bool>, i: nat) {
    forall j :: 0 <= j < i && j < |seen| ==> seen[j]
  }

  /** Own steps the poll still needs while every flag is up: the rest of this scan,
      and one more scan if this one has already passed a robot it has not seen. */
  ghost function ScanRank(n: nat, pc: Pc, seen: seq<bool>): nat
    requires PcOk(pc, n)
  {
    match pc
    case AllTest => 3 * n + 2
    case AllRead(i) => 3 * (n - i) + 1 + (if SeenBefore(seen, i) then 0 else 3 * n + 2)
    case AllLoad(i) => 3 * (n - i) + (if SeenBefore(seen, i) then 0 else 3 * n + 2)
    case AllStore(i, _) => 3 * (n - i) - 1 + (if SeenBefore(seen, i) then 0 else 3 * n + 2)
    case _ => 0
  }

  /** The line goes on with the poll or leaves it, and comes nearer to its end. */
  ghost predicate ScanNears(sh: Shared, h: History, pc: Pc, call: Call)
    requires SharedOk(sh) && PcOk(pc, sh.n)
  {
    var o := Exec(sh, pc, call);
    && (Polling(o.pc) || o.pc == AllRelease(0))
    && ScanRank(sh.n, o.pc, Observe(h, o.note).seen) < ScanRank(sh.n, pc, h.seen)
  }

  /** The comparison of line 67: the poll ends, or a robot passed over earlier is still to be seen. */
  lemma CompareNears(sh: Shared, h: History, call: Call)
    requires SharedOk(sh) && HistoryOk(h, sh.n) && MaskOk(sh, AllRead(sh.n), h.seen)
    ensures ScanNears(sh, h, AllRead(sh.n), call)
  {
    MaskFull(sh.n);
    FullExactlyWhenAllSeen(h.seen);
  }

  /** Line 65: with its flag up, the robot counts as seen from here on. */
  lemma ReadNears(sh: Shared, h: History, i: nat, call: Call)
    requires SharedOk(sh) && HistoryOk(h, sh.n) && i < sh.n && sh.isWait[i]
    ensures ScanNears(sh, h, AllRead(i), call)
  {
    assert SeenBefore(h.seen, i) ==> SeenBefore(h.seen[i := true], i);
  }

  lemma StoreNears(sh: Shared, h: History, i: nat, m: nat, call: Call)
    requires SharedOk(sh) && HistoryOk(h, sh.n) && i < sh.n && h.seen[i]
    ensures ScanNears(sh, h, AllStore(i, m), call)
  {
    assert SeenBefore(h.seen, i) ==> SeenBefore(h.seen, i + 1);
  }

  lemma WakerLineScan(sh: Shared, h: History, pc: Pc, call: Call)
    requires SharedOk(sh) && PcOk(pc, sh.n) && HistoryOk(h, sh.n) && MaskOk(sh, pc, h.seen)
    requires Polling(pc) && forall k :: 0 <= k < sh.n ==> sh.isWait[k]
    ensures ScanNears(sh, h, pc, call)
  {
    match pc
    case AllRead(i) => if i == sh.n { CompareNears(sh, h, call); } else { ReadNears(sh, h, i, call); }
    case AllStore(i, m) => StoreNears(sh, h, i, m, call);
    case _ =>
  }

  lemma StepScan(s: System, e: Event, w: nat)
    requires MaskInv(s, w) && AllUp(s) && Polling(s.threads[w])
    requires e.call.CallWakeUpAll? ==> e.t == w
    ensures var s' := Step(s, e);
            var before, after := ScanRank(s.sh.n, s.threads[w], s.h.seen), ScanRank(s.sh.n, s'.threads[w], s'.h.seen);
            && (Polling(s'.threads[w]) || s'.threads[w] == AllRelease(0))
            && (e.t != w ==> s'.threads[w] == s.threads[w] && after == before)
            && (e.t == w ==> after < before)
  {
    if e.t == w {
      WakerLineScan(s.sh, s.h, s.threads[w], e.call);
    } else if e.t < |s.threads| {
      OtherLineMask(s.sh, s.h, s.threads[e.t], e.call);
    }
  }

  /** All flags are up in every state that the run passes through. */
  ghost predicate UpThroughout(s: System, es: seq<Event>)
    requires Wf(s)
    decreases |es|
  {
    AllUp(s) && (es != [] ==> UpThroughout(Step(s, es[0]), es[1..]))
  }

  /** While all flags are up, the poll reaches the release loop within ScanRank own steps: at most the
      rest of the current scan plus one full scan, under any interleaving. */
  lemma {:induction false} PollEndsWhenAllUp(s: System, es: seq<Event>, w: nat) returns (k: nat)
    requires MaskInv(s, w) && OneWaker(es, w) && Polling(s.threads[w])
    requires UpThroughout(s, es)
    requires OwnSteps(es, w) >= ScanRank(s.sh.n, s.threads[w], s.h.seen)
    ensures k <= |es| && Run(s, es[..k]).threads[w] == AllRelease(0)
    ensures ScanRank(s.sh.n, s.threads[w], s.h.seen) <= 6 * s.sh.n + 3
    decreases |es|
  {
    assert es != [];
    assert es[0].call.CallWakeUpAll? ==> es[0].t == w;
    StepScan(s, es[0], w);
    StepMask(s, es[0], w);
    var s1 := Step(s, es[0]);
    var j := 0;
    if Polling(s1.threads[w]) {
      j := PollEndsWhenAllUp(s1, es[1..], w);
    }
    k := j + 1;
    assert es[..k][0] == es[0] && es[..k][1..] == es[1..][..j];
  }

  /* ---- A scan sees each waiting robot ---- */

  /** Own steps until the poll is sure to have seen robot k, if its flag stays up: the rest of the way to it, or
      the rest of this scan and the way to it in the next. */
  function SeeRank(n: nat, pc: Pc, k: nat): nat
    requires PcOk(pc, n) && k < n
  {
    match pc
    case AllTest => 3 * k + 2
    case AllRead(i) => if i <= k then 3 * (k - i) + 1 else 3 * (n - i) + 3 * k + 4
    case AllLoad(i) => if i <= k then 3 * (k - i) else 3 * (n - i) + 3 * k + 3
    case AllStore(i, _) => if i < k then 3 * (k - i) - 1 else 3 * (n - i) + 3 * k + 2
    case _ => 0
  }

  lemma WakerLineSees(sh: Shared, h: History, pc: Pc, call: Call, k: nat)
    requires SharedOk(sh) && PcOk(pc, sh.n) && HistoryOk(h, sh.n) && MaskOk(sh, pc, h.seen)
    requires Polling(pc) && sh.isRun && k < sh.n && sh.isWait[k] && !h.seen[k]
    ensures var o := Exec(sh, pc, call);
            && Polling(o.pc)
            && (Observe(h, o.note).seen[k] || SeeRank(sh.n, o.pc, k) < SeeRank(sh.n, pc, k))
  {
    if pc == AllRead(sh.n) {
      MaskFull(sh.n);
      FullExactlyWhenAllSeen(h.seen);
    }
  }

  lemma StepSees(s: System, e: Event, w: nat, k: nat)
    requires MaskInv(s, w) && Polling(s.threads[w]) && (e.call.CallWakeUpAll? ==> e.t == w)
    requires s.sh.isRun && k < s.sh.n && s.sh.isWait[k] && !s.h.seen[k]
    ensures var s1 := Step(s, e);
            && MaskInv(s1, w) && Polling(s1.threads[w])
            && (s1.h.seen[k] || SeeRank(s.sh.n, s1.threads[w], k)
                                <= SeeRank(s.sh.n, s.threads[w], k) - (if e.t == w then 1 else 0))
  {
    StepMask(s, e, w);
    if e.t == w {
      WakerLineSees(s.sh, s.h, s.threads[w], e.call, k);
    } else if e.t < |s.threads| {
      OtherLineMask(s.sh, s.h, s.threads[e.t], e.call);
    }
  }

  ghost predicate KeepsWaiting(s: System, es: seq<Event>, k: nat)
    requires Wf(s)
    decreases |es|
  {
    k < s.sh.n && s.sh.isWait[k] && s.sh.isRun && (es != [] ==> KeepsWaiting(Step(s, es[0]), es[1..], k))
  }

  /** A robot whose flag stays up is seen within the rest of the current scan and the next, at most 6n + 1 own lines
      of the waker, whoever else is missing and however the lines are interleaved. */
  lemma {:induction false} PollSeesWaiting(s: System, es: seq<Event>, w: nat, k: nat) returns (j: nat)
    requires MaskInv(s, w) && OneWaker(es, w) && Polling(s.threads[w])
    requires KeepsWaiting(s, es, k) && OwnSteps(es, w) >= SeeRank(s.sh.n, s.threads[w], k)
    ensures j <= |es| && Run(s, es[..j]).h.seen[k]
    ensures SeeRank(s.sh.n, s.threads[w], k) <= 6 * s.sh.n + 1
    decreases |es|
  {
    j := 0;
    if !s.h.seen[k] {
      assert es != [];
      var s1 := Step(s, es[0]);
      assert es[0].call.CallWakeUpAll? ==> es[0].t == w;
      StepSees(s, es[0], w, k);
      if !s1.h.seen[k] {
        j := PollSeesWaiting(s1, es[1..], w, k);
      }
      j := j + 1;
      assert es[..j][0] == es[0] && es[..j][1..] == es[1..][..j - 1];
    }
  }
}
