/** CRobotSync as a step machine: any number of threads inside `Wait`, `WakeUp`,
    `WakeUpAll` and `CleanUp`, one source line (or one memory access) at a time,
    in any order (DSR_util2.py, lines 23-71). */
module SyncModel {
  import opened BitMask
  import opened Wrappers

  /** The fields of the shared object. `held[k]` is the state of the k-th lock. */
  datatype Shared = Shared(
    n: nat, isRun: bool, waitBit: nat, curBit: nat, isWait: seq<bool>, held: seq<bool>)

  /** What a caller may ask of the object. */
  datatype Call = CallWait(r: int) | CallWakeUp(r: int) | CallWakeUpAll | CallCleanUp

  /** Where a thread stands: the source line it runs next. */
  datatype Pc =
    | Idle
    | Acquire(k: nat)             // line 48
    | Lower(k: nat)               // line 49
    | WakeTest(r: int)            // line 53
    | WakeRead(r: int)            // line 54
    | WakeRelease(k: nat)         // line 55
    | AllTest                     // line 63
    | AllRead(i: nat)             // line 65; with i == n the comparison of line 67
    | AllLoad(i: nat)             // line 66, reading nCurBit
    | AllStore(i: nat, m: nat)    // line 66, writing nCurBit
    | AllRelease(i: nat)          // line 70; with i == n the return of line 71

  /** What a step did, as an observer would record it. */
  datatype Note =
    | Quiet
    | Arrived(k: nat)      // line 47 raised flag k
    | Acquired(k: nat)     // line 48 took lock k
    | Passed(k: nat)       // line 49 lowered flag k and Wait returned
    | Released(k: nat)     // a release freed lock k
    | ReleaseRaised        // a release hit a free lock: RuntimeError, call ended
    | IndexRaised          // IndexError, call ended
    | RoundStarted         // line 62
    | SawWaiting(k: nat)   // line 65 found flag k up
    | RoundDone            // WakeUpAll returned

  datatype Outcome = Outcome(sh: Shared, pc: Pc, note: Note)

  /** Counters an observer keeps; the program itself does not have them. */
  datatype History = History(
    arrived: seq<nat>, acquired: seq<nat>, passed: seq<nat>, released: seq<nat>,
    raises: nat, rounds: nat, seen: seq<bool>)

  datatype System = System(sh: Shared, threads: seq<Pc>, h: History)

  /** Thread t runs its next line; an idle thread begins `call`. */
  datatype Event = Event(t: nat, call: Call)

  /** Python list indexing: negative indexes count from the end. */
  function PyIndex(n: nat, r: int): (k: Option<nat>)
    ensures k.Some? ==> k.value < n
  {
    if 0 <= r < n then Some(r) else if 0 <= n + r < n then Some(n + r) else None
  }

  /** Index r names robot k if and only if it is k, or k counted from the end. */
  lemma PyIndexMeans(n: nat, r: int, k: nat)
    requires k < n
    ensures PyIndex(n, r) == Some(k) <==> r == k || r + n == k
    ensures PyIndex(n, r) == None <==> r + n < 0 || r >= n
  {
  }

  predicate SharedOk(sh: Shared) {
    |sh.isWait| == sh.n && |sh.held| == sh.n
  }

  predicate PcOk(pc: Pc, n: nat) {
    match pc
    case Acquire(k) => k < n
    case Lower(k) => k < n
    case WakeRelease(k) => k < n
    case AllRead(i) => i <= n
    case AllLoad(i) => i < n
    case AllStore(i, _) => i < n
    case AllRelease(i) => i <= n
    case _ => true
  }

  function Free(sh: Shared, k: nat): Shared
    requires SharedOk(sh) && k < sh.n
  {
    sh.(held := sh.held[k := false])
  }

  function Begin(sh: Shared, call: Call): (o: Outcome)
    requires SharedOk(sh)
    ensures SharedOk(o.sh) && o.sh.n == sh.n && PcOk(o.pc, sh.n)
  {
    match call
    case CallWait(r) =>
      (match PyIndex(sh.n, r)
       case Some(k) => Outcome(sh.(isWait := sh.isWait[k := true]), Acquire(k), Arrived(k))
       case None => Outcome(sh, Idle, IndexRaised))
    case CallWakeUp(r) => Outcome(sh, WakeTest(r), Quiet)
    case CallWakeUpAll => Outcome(sh.(curBit := 0), AllTest, RoundStarted)
    case CallCleanUp => Outcome(sh.(isRun := false), Idle, Quiet)
  }

  /** One line of one thread. */
  function Exec(sh: Shared, pc: Pc, call: Call): (o: Outcome)
    requires SharedOk(sh) && PcOk(pc, sh.n)
    ensures SharedOk(o.sh) && o.sh.n == sh.n && PcOk(o.pc, sh.n)
  {
    match pc
    case Idle => Begin(sh, call)
    case Acquire(k) =>
      if sh.held[k] then Outcome(sh, pc, Quiet)
      else Outcome(sh.(held := sh.held[k := true]), Lower(k), Acquired(k))
    case Lower(k) => Outcome(sh.(isWait := sh.isWait[k := false]), Idle, Passed(k))
    case WakeTest(r) => Outcome(sh, if sh.isRun then WakeRead(r) else Idle, Quiet)
    case WakeRead(r) =>
      (match PyIndex(sh.n, r)
       case Some(k) => Outcome(sh, if sh.isWait[k] then WakeRelease(k) else WakeTest(r), Quiet)
       case None => Outcome(sh, Idle, IndexRaised))
    case WakeRelease(k) =>
      if sh.held[k] then Outcome(Free(sh, k), Idle, Released(k)) else Outcome(sh, Idle, ReleaseRaised)
    case AllTest => Outcome(sh, if sh.isRun then AllRead(0) else AllRelease(0), Quiet)
    case AllRead(i) =>
      if i == sh.n then Outcome(sh, if sh.waitBit == sh.curBit then AllRelease(0) else AllTest, Quiet)
      else if sh.isWait[i] then Outcome(sh, AllLoad(i), SawWaiting(i))
      else Outcome(sh, AllRead(i + 1), Quiet)
    case AllLoad(i) => Outcome(sh, AllStore(i, sh.curBit), Quiet)
    case AllStore(i, m) => Outcome(sh.(curBit := Or(m, Pow2(i))), AllRead(i + 1), Quiet)
    case AllRelease(i) =>
      if i == sh.n then Outcome(sh, Idle, RoundDone)
      else if sh.held[i] then Outcome(Free(sh, i), AllRelease(i + 1), Released(i))
      else Outcome(sh, Idle, ReleaseRaised)
  }

  function Bump(c: seq<nat>, k: nat): seq<nat> {
    if k < |c| then c[k := c[k] + 1] else c
  }

  function Observe(h: History, note: Note): History {
    match note
    case Arrived(k) => h.(arrived := Bump(h.arrived, k))
    case Acquired(k) => h.(acquired := Bump(h.acquired, k))
    case Passed(k) => h.(passed := Bump(h.passed, k))
    case Released(k) => h.(released := Bump(h.released, k))
    case ReleaseRaised => h.(raises := h.raises + 1)
    case RoundStarted => h.(seen := FirstOf(|h.seen|, 0))
    case SawWaiting(k) => if k < |h.seen| then h.(seen := h.seen[k := true]) else h
    case RoundDone => h.(rounds := h.rounds + 1)
    case _ => h
  }

  predicate HistoryOk(h: History, n: nat) {
    |h.arrived| == n && |h.acquired| == n && |h.passed| == n && |h.released| == n && |h.seen| == n
  }

  ghost predicate Wf(s: System) {
    && SharedOk(s.sh)
    && HistoryOk(s.h, s.sh.n)
    && forall t :: 0 <= t < |s.threads| ==> PcOk(s.threads[t], s.sh.n)
  }

  function StepThread(s: System, e: Event): Outcome
    requires SharedOk(s.sh) && e.t < |s.threads| && PcOk(s.threads[e.t], s.sh.n)
  {
    Exec(s.sh, s.threads[e.t], e.call)
  }

  ghost function Step(s: System, e: Event): (s': System)
    requires Wf(s)
    ensures Wf(s') && s'.sh.n == s.sh.n && |s'.threads| == |s.threads|
  {
    if e.t >= |s.threads| then s else
      var o := StepThread(s, e);
      System(o.sh, s.threads[e.t := o.pc], Observe(s.h, o.note))
  }

  /** A wrong robot number raises IndexError: Wait then changes nothing at all, and WakeUp ends at line 54, when
      it is running, without touching the object. */
  lemma BadIndexChangesNothing(s: System, e: Event, r: int)
    requires Wf(s) && e.t < |s.threads| && (r + s.sh.n < 0 || r >= s.sh.n)
    ensures s.threads[e.t].Idle? && e.call == CallWait(r) ==> Step(s, e) == s
    ensures s.threads[e.t] == WakeRead(r) ==> Step(s, e) == s.(threads := s.threads[e.t := Idle])
  {
    assert s.threads[e.t].Idle? ==> s.threads[e.t := Idle] == s.threads;
  }

  /** A whole run: the events in order. */
  ghost function Run(s: System, es: seq<Event>): (s': System)
    requires Wf(s)
    ensures Wf(s') && s'.sh.n == s.sh.n && |s'.threads| == |s.threads|
    decreases |es|
  {
    if es == [] then s else Run(Step(s, es[0]), es[1..])
  }

  function Zeros(n: nat): (s: seq<nat>)
    ensures |s| == n && forall i :: 0 <= i < n ==> s[i] == 0
  {
    seq(n, _ => 0)
  }

  function InitShared(n: nat): (sh: Shared)
    ensures SharedOk(sh) && sh.n == n
  {
    Shared(n, true, Mask(FirstOf(n, n)), 0, FirstOf(n, 0), FirstOf(n, 0))
  }

  /** Just after `__init__`: all flags down, all locks free, all threads idle. */
  ghost function Init(n: nat, threads: nat): (s: System)
    ensures Wf(s) && s.sh.n == n && |s.threads| == threads
    ensures forall t :: 0 <= t < threads ==> s.threads[t] == Idle
  {
    System(InitShared(n), seq(threads, _ => Idle),
           History(Zeros(n), Zeros(n), Zeros(n), Zeros(n), 0, 0, FirstOf(n, 0)))
  }

  lemma {:induction false} RunAppend(s: System, a: seq<Event>, b: seq<Event>)
    requires Wf(s)
    ensures Run(s, a + b) == Run(Run(s, a), b)
    decreases |a|
  {
    if a == [] {
      assert a + b == b;
    } else {
      assert (a + b)[0] == a[0] && (a + b)[1..] == a[1..] + b;
      RunAppend(Step(s, a[0]), a[1..], b);
    }
  }

  lemma RunOne(s: System, e: Event)
    requires Wf(s)
    ensures Run(s, [e]) == Step(s, e)
  {
    assert Run(Step(s, e), []) == Step(s, e);
  }

  /* ---- Token accounting, for any threads and any interleaving ---- */

  /** Robot k's books: lock tokens, and calls of Wait still between lines 47-48 and 48-49. */
  ghost predicate Balanced(s: System, k: nat)
    requires Wf(s) && k < s.sh.n
  {
    && s.h.acquired[k] == s.h.released[k] + (if s.sh.held[k] then 1 else 0)
    && s.h.passed[k] + multiset(s.threads)[Lower(k)] == s.h.acquired[k]
    && s.h.acquired[k] + multiset(s.threads)[Acquire(k)] == s.h.arrived[k]
  }

  ghost predicate AllBalanced(s: System)
    requires Wf(s)
  {
    forall k :: 0 <= k < s.sh.n ==> Balanced(s, k)
  }

  /** Moving one thread changes the number of threads at p by at most that thread. */
  lemma CountAfterMove(threads: seq<Pc>, t: nat, pc: Pc, p: Pc)
    requires t < |threads|
    ensures multiset(threads[t := pc])[p]
         == multiset(threads)[p] - (if threads[t] == p then 1 else 0) + (if pc == p then 1 else 0)
  {
    assert multiset(threads[t := pc]) == multiset(threads) - multiset{threads[t]} + multiset{pc};
  }

  function At(pc: Pc, p: Pc): nat {
    if pc == p then 1 else 0
  }

  function HeldCount(sh: Shared, k: nat): nat
    requires SharedOk(sh) && k < sh.n
  {
    if sh.held[k] then 1 else 0
  }

  /** What a note adds to robot k's counters. */
  lemma NoteCounts(h: History, note: Note, n: nat, k: nat)
    requires HistoryOk(h, n) && k < n
    ensures var h' := Observe(h, note);
            && HistoryOk(h', n)
            && h'.arrived[k] == h.arrived[k] + (if note == Arrived(k) then 1 else 0)
            && h'.acquired[k] == h.acquired[k] + (if note == Acquired(k) then 1 else 0)
            && h'.passed[k] == h.passed[k] + (if note == Passed(k) then 1 else 0)
            && h'.released[k] == h.released[k] + (if note == Released(k) then 1 else 0)
  {
  }

  /** What one line does to robot k's lock, as its note says. */
  lemma LineMovesLock(sh: Shared, pc: Pc, call: Call, k: nat)
    requires SharedOk(sh) && PcOk(pc, sh.n) && k < sh.n
    ensures var o := Exec(sh, pc, call);
            HeldCount(o.sh, k) ==
            HeldCount(sh, k) + (if o.note == Acquired(k) then 1 else 0) - (if o.note == Released(k) then 1 else 0)
  {
  }

  /** ... and to the number of threads at its lines 48 and 49. */
  lemma LineMovesThread(sh: Shared, pc: Pc, call: Call, k: nat)
    requires SharedOk(sh) && PcOk(pc, sh.n) && k < sh.n
    ensures var o := Exec(sh, pc, call);
            && At(o.pc, Acquire(k)) ==
               At(pc, Acquire(k)) + (if o.note == Arrived(k) then 1 else 0) - (if o.note == Acquired(k) then 1 else 0)
            && At(o.pc, Lower(k)) ==
               At(pc, Lower(k)) + (if o.note == Acquired(k) then 1 else 0) - (if o.note == Passed(k) then 1 else 0)
  {
  }

  lemma StepBalanced(s: System, e: Event, k: nat)
    requires Wf(s) && k < s.sh.n && Balanced(s, k)
    ensures Balanced(Step(s, e), k)
  {
    if e.t < |s.threads| {
      var o := StepThread(s, e);
      NoteCounts(s.h, o.note, s.sh.n, k);
      LineMovesLock(s.sh, s.threads[e.t], e.call, k);
      LineMovesThread(s.sh, s.threads[e.t], e.call, k);
      CountAfterMove(s.threads, e.t, o.pc, Lower(k));
      CountAfterMove(s.threads, e.t, o.pc, Acquire(k));
    }
  }

  lemma {:induction false} RunBalanced(s: System, es: seq<Event>)
    requires Wf(s) && AllBalanced(s)
    ensures AllBalanced(Run(s, es))
    decreases |es|
  {
    if es != [] {
      forall k | 0 <= k < s.sh.n ensures Balanced(Step(s, es[0]), k) {
        StepBalanced(s, es[0], k);
      }
      RunBalanced(Step(s, es[0]), es[1..]);
    }
  }

  /** In every run of any number of threads from `__init__`: the acquisitions of a lock exceed its
      successful releases by 1 when it is held and by 0 when it is free, every acquisition is a Wait
      that has returned or is about to, and so j Waits have returned only after j - 1 releases. */
  lemma TokenAccounting(n: nat, threads: nat, es: seq<Event>, k: nat)
    requires k < n
    ensures var s := Run(Init(n, threads), es);
            && Balanced(s, k)
            && s.h.passed[k] <= s.h.released[k] + 1
            && s.h.passed[k] <= s.h.arrived[k]
  {
    var s := Init(n, threads);
    assert forall p :: p != Idle ==> p !in s.threads;
    assert AllBalanced(s);
    RunBalanced(s, es);
    assert Balanced(Run(s, es), k);
  }
}
