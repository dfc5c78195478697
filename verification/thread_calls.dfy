/** What a system call leaves for its caller, from the request to the return, over whole runs.

    Between the two the caller is interrupted by ticks, and by whatever these nest: deliveries, handlers,
    other threads. */
module ThreadCalls {
  import opened Options
  import opened ThreadModel
  import opened ThreadSteps
  import opened ThreadInvariant
  import opened ThreadPreserved
  import opened ThreadWaits
  import opened ThreadSignals

  // --- one activation, followed through what interrupts it -----------------------------------

  /** Activation f, called from `base`, is in progress. */
  predicate On(st: Stack, base: Stack, f: Frame) {
    st.Push? && ((st.top == f && st.below == base) || On(st.below, base, f))
  }

  /** Step a of state s is thread t executing the top frame of st. */
  predicate At(s: State, a: Action, t: nat, st: Stack) {
    Sized(s) && t < ALL_THREADS && (a == Run || a == HandlerReturn) && s.sc.current == t && s.stacks[t] == st
  }

  /** What is in progress stays so while frames come and go above it. */
  lemma OnMove(st: Stack, st': Stack, base: Stack, f: Frame)
    requires st.Push? && On(st.below, base, f)
    requires st' == st || st' == st.below || (st'.Push? && st'.below == st.below)
             || (st'.Push? && st'.below.Push? && st'.below.below == st.below) || (st'.Push? && st'.below == st)
    ensures On(st', base, f)
  {
  }

  /** How a function other than exit moves the stack. */
  lemma TopMoves(s: State)
    requires LocalOK(s) && SchedOK(s.sc) && Live(s) && !IsUser(Stk(s).top) && !Stk(s).top.Ex? && Sized(RunTop(s))
    requires Stk(s).top.Cl? && Stk(s).top.lpc == LBody ==> Stk(s).top.slot != s.sc.current
    ensures var st, st' := Stk(s), RunTop(s).stacks[s.sc.current];
            || st' == st || st' == st.below || (st'.Push? && st'.below == st.below)
            || (st'.Push? && st'.below.Push? && st'.below.below == st.below)
  {
    if Stk(s).top.Dl? {
      DeliverMoves(s);
    } else if Stk(s).top.Cs? {
      CriticalMoves(s);
    } else {
      QuietRun(s);
      NeverEmptied(s);
    }
  }

  lemma OnTop(s: State, base: Stack, f: Frame)
    requires Inv(s) && Enabled(s, Run) && Sized(RunTop(s)) && base.Push? && On(Stk(s).below, base, f)
    ensures On(RunTop(s).stacks[s.sc.current], base, f)
  {
    if Stk(s).top.Ex? {
      AppIsBottom(Stk(s).below);
      assert false;
    } else {
      if Stk(s).top.Cl? { CloneFrame(Cur(s), Stk(s).top, Stk(s).top, Stk(s).below); }
      TopMoves(s);
      OnMove(Stk(s), RunTop(s).stacks[s.sc.current], base, f);
    }
  }

  lemma OnOther(s: State, a: Action, base: Stack, f: Frame)
    requires Live(s) && !a.Run? && (a.HandlerReturn? ==> IsHandler(Stk(s).top) && Stk(s) != Push(f, base))
    requires On(Stk(s), base, f) && Sized(Step(s, a))
    ensures On(Step(s, a).stacks[s.sc.current], base, f)
  {
    match a
    case Advance(_) => case Tick => case HandlerReturn =>
    case User(req) => EnterFrame(s, req);
  }

  lemma OnCurrent(s: State, a: Action, base: Stack, f: Frame)
    requires Inv(s) && Enabled(s, a) && Sized(Step(s, a)) && base.Push? && On(Stk(s), base, f)
    ensures On(Step(s, a).stacks[s.sc.current], base, f) || At(s, a, s.sc.current, Push(f, base))
  {
    if a.Run? {
      if Stk(s) != Push(f, base) { OnTop(s, base, f); }
    } else if a.HandlerReturn? && Stk(s) == Push(f, base) {
    } else {
      OnOther(s, a, base, f);
    }
  }

  lemma OnStep(s: State, a: Action, t: nat, base: Stack, f: Frame)
    requires Inv(s) && Enabled(s, a) && Sized(Step(s, a)) && t < ALL_THREADS && base.Push? && On(s.stacks[t], base, f)
    ensures On(Step(s, a).stacks[t], base, f) || At(s, a, t, Push(f, base))
  {
    if t == s.sc.current {
      OnCurrent(s, a, base, f);
    } else {
      OtherStack(s, a, t);
      assert ThreadOK(s.sc.threads[t], s.stacks[t], false);
    }
  }

  lemma OnRunStep(ss: seq<State>, acts: seq<Action>, k: nat, t: nat, base: Stack, f: Frame)
    requires IsRun(ss, acts) && k < |acts| && base.Push? && On(StackOf(ss[k], t), base, f)
    ensures On(StackOf(ss[k + 1], t), base, f) || At(ss[k], acts[k], t, Push(f, base))
  {
    RunStep(ss, acts, k);
    OnStep(ss[k], acts[k], t, base, f);
  }

  lemma NotOn(st: Stack, base: Stack, f: Frame)
    requires Size(st) <= Size(base)
    ensures !On(st, base, f)
  {
  }

  /** An activation that has returned by step m executed its next instruction at some step j before. */
  lemma {:induction false} Executes(ss: seq<State>, acts: seq<Action>, i: nat, m: nat, t: nat, base: Stack, f: Frame)
      returns (j: nat)
    requires IsRun(ss, acts) && i < m < |ss| && base.Push?
    requires On(StackOf(ss[i], t), base, f) && StackOf(ss[m], t) == base
    ensures i <= j < m && At(ss[j], acts[j], t, Push(f, base))
    decreases m - i
  {
    OnRunStep(ss, acts, i, t, base, f);
    if On(StackOf(ss[i + 1], t), base, f) {
      NotOn(base, base, f);
      j := Executes(ss, acts, i + 1, m, t, base, f);
    } else {
      j := i;
    }
  }

  // --- the same with the signal mask it sees ---------------------------------------------------

  /** Thread t is at st with signal mask m, or in a tick that interrupted it there. */
  predicate Steady(s: State, t: nat, st: Stack, m: set<nat>) {
    (StackOf(s, t) == st && MaskOf(s, t) == m) || Inside(StackOf(s, t), st, m)
  }

  lemma SteadyStep(s: State, a: Action, t: nat, st: Stack, m: set<nat>)
    requires Inv(s) && Enabled(s, a) && Inv(Step(s, a)) && t < ALL_THREADS
    requires Steady(s, t, st, m) && st.Push? && !IsUser(st.top)
    ensures Steady(Step(s, a), t, st, m) || (At(s, a, t, st) && a == Run && MaskOf(s, t) == m)
  {
    if Inside(s.stacks[t], st, m) {
      InsideStep(s, a, t, st, m);
    } else if t != s.sc.current {
      OtherStack(s, a, t);
      assert ThreadOK(s.sc.threads[t], s.stacks[t], false);
      if a.Run? { MaskRun(s, t); } else { OnlyRunSchedules(s, a); }
    } else if !a.Run? {
      OnlyRunSchedules(s, a);
    }
  }

  lemma SteadyRunStep(ss: seq<State>, acts: seq<Action>, k: nat, t: nat, st: Stack, m: set<nat>)
    requires IsRun(ss, acts) && k < |acts| && Steady(ss[k], t, st, m) && st.Push? && !IsUser(st.top)
    ensures Steady(ss[k + 1], t, st, m) || (At(ss[k], acts[k], t, st) && acts[k] == Run && MaskOf(ss[k], t) == m)
  {
    RunStep(ss, acts, k);
    assert t < ALL_THREADS;
    SteadyStep(ss[k], acts[k], t, st, m);
  }

  lemma NotSteady(s: State, t: nat, st: Stack, m: set<nat>)
    requires Size(StackOf(s, t)) < Size(st)
    ensures !Steady(s, t, st, m)
  {
    NotInsideItself(StackOf(s, t), st, m);
  }

  lemma NotPush(st: Stack)
    requires st.Push?
    ensures st.below != st
  {
    assert Size(st.below) != Size(st);
  }

  /** Step j is the next instruction of an activation, which sees the mask it saw before. */
  ghost predicate Next(ss: seq<State>, acts: seq<Action>, i: nat, j: nat, t: nat, st: Stack, m: set<nat>)
    requires |ss| == |acts| + 1
  {
    && i <= j < |acts| && At(ss[j], acts[j], t, st) && acts[j] == Run && MaskOf(ss[j], t) == m
    && forall k :: i <= k <= j ==> Steady(ss[k], t, st, m)
  }

  /** An activation executes its next instruction at step j before m, or is where it was up to m. */
  lemma {:induction false} Leaves(ss: seq<State>, acts: seq<Action>, i: nat, m: nat, t: nat, st: Stack, mask: set<nat>)
      returns (j: nat)
    requires IsRun(ss, acts) && i <= m < |ss| && st.Push? && !IsUser(st.top) && Steady(ss[i], t, st, mask)
    ensures i <= j <= m && (j < m ==> Next(ss, acts, i, j, t, st, mask))
    ensures j == m ==> forall k :: i <= k <= m ==> Steady(ss[k], t, st, mask)
    decreases m - i
  {
    if i == m {
      j := i;
    } else {
      SteadyRunStep(ss, acts, i, t, st, mask);
      if Steady(ss[i + 1], t, st, mask) {
        j := Leaves(ss, acts, i + 1, m, t, st, mask);
      } else {
        j := i;
      }
    }
  }

  /** An activation that has returned by step m executed its next instruction at some step j before. */
  lemma Proceeds(ss: seq<State>, acts: seq<Action>, i: nat, m: nat, t: nat, st: Stack, mask: set<nat>) returns (j: nat)
    requires IsRun(ss, acts) && i < m < |ss| && st.Push? && !IsUser(st.top)
    requires Steady(ss[i], t, st, mask) && Size(StackOf(ss[m], t)) < Size(st)
    ensures j < m && Next(ss, acts, i, j, t, st, mask)
  {
    NotSteady(ss[m], t, st, mask);
    j := Leaves(ss, acts, i, m, t, st, mask);
  }

  /** While an activation is at f, or in a tick that interrupted it there, there is no other frame on its base. */
  lemma {:induction false} OneOn(st: Stack, base: Stack, f: Frame, g: Frame, m: set<nat>)
    requires st == Push(f, base) || Inside(st, Push(f, base), m)
    requires On(st, base, g)
    ensures f == g
  {
    NotOn(base, base, g);
    NotInsideItself(base, Push(f, base), m);
    NotPush(Push(f, base));
    if st != Push(f, base) && st.below != Push(f, base) {
      OneOn(st.below, base, f, g, m);
    }
  }

  // --- calls ---------------------------------------------------------------------------------

  function RetOf(s: State, t: nat): int {
    if Sized(s) && t < ALL_THREADS then s.rets[t] else 0
  }

  /** Thread t asks for req at step i and has its answer at m. */
  ghost predicate Answered(ss: seq<State>, acts: seq<Action>, i: nat, m: nat, t: nat, req: Request) {
    && |ss| == |acts| + 1 && i < m < |ss| && acts[i] == User(req) && Sized(ss[i]) && ss[i].sc.current == t
    && StackOf(ss[m], t) == StackOf(ss[i], t) && forall k :: i < k < m ==> StackOf(ss[k], t) != StackOf(ss[i], t)
  }

  // --- futex_wake() --------------------------------------------------------------------------

  /** Thread k is T_BLOCKED in a futex_wait() on addr. */
  predicate ParkedOn(s: State, k: nat, addr: nat) {
    && Sized(s) && k < ALL_THREADS && s.sc.threads[k].state == Blocked
    && InWait(Base(s.stacks[k])) && Base(s.stacks[k]).what.OnFutex? && Base(s.stacks[k]).what.addr == addr
  }

  /** The threads parked on addr in s that are READY in s'. */
  ghost function WokenBetween(s: State, s': State, addr: nat): set<nat>
    requires Sized(s')
  {
    set k: nat | k < ALL_THREADS && ParkedOn(s, k, addr) && s'.sc.threads[k].state == Ready
  }

  lemma ParkedIs(s: State, k: nat, addr: nat)
    requires Inv(s) && k < ALL_THREADS && addr != 0
    ensures ParkedOn(s, k, addr) <==> s.sc.threads[k].state == Blocked && s.sc.threads[k].waitAddr == addr
  {
    assert ThreadOK(s.sc.threads[k], s.stacks[k], k == s.sc.current);
  }

  /** Step a of state s wakes as many threads parked on addr as `woken` says, at most n, those lowest in the
      table, and all of them if that is fewer than n. */
  ghost predicate WakesUpTo(s: State, s': State, addr: nat, n: int, woken: int) {
    && Sized(s) && Sized(s')
    && woken == |WokenBetween(s, s', addr)| && woken <= n
    && (woken < n ==> forall k :: 0 <= k < ALL_THREADS ==> !ParkedOn(s', k, addr))
    && (forall a: nat, b: nat :: a < b && b in WokenBetween(s, s', addr) && ParkedOn(s, a, addr)
                                 ==> a in WokenBetween(s, s', addr))
  }

  /** A thread is parked on addr exactly if its record says so. */
  ghost predicate RecordsSay(s: State, addr: nat) {
    Sized(s) && forall k :: 0 <= k < ALL_THREADS ==>
                    (ParkedOn(s, k, addr) <==> s.sc.threads[k].state == Blocked && s.sc.threads[k].waitAddr == addr)
  }

  lemma RecordsAgree(s: State, addr: nat)
    requires Inv(s) && addr != 0
    ensures RecordsSay(s, addr)
  {
    forall k | 0 <= k < ALL_THREADS
      ensures ParkedOn(s, k, addr) <==> s.sc.threads[k].state == Blocked && s.sc.threads[k].waitAddr == addr
    {
      ParkedIs(s, k, addr);
    }
  }

  lemma ScanCounts(s: State, s': State, addr: nat, n: nat)
    requires RecordsSay(s, addr) && RecordsSay(s', addr) && SchedOK(s.sc) && s'.sc == WakeFrom(s.sc, 0, addr, n).0
    ensures WakesUpTo(s, s', addr, n, WakeFrom(s.sc, 0, addr, n).1)
  {
    WakeCounts(s.sc, 0, addr, n);
    if WakeFrom(s.sc, 0, addr, n).1 < n { WakeExhausts(s.sc, 0, addr, n); }
    assert WokenBetween(s, s', addr) == Roused(s.sc, s'.sc, 0, addr);
  }

  lemma WakeScan(s: State, base: Stack, addr: nat, n: nat)
    requires Live(s) && Stk(s) == Push(Wk(Body, addr, n, 0), base)
    ensures RunTop(s).stacks[s.sc.current] == Push(Wk(Unlock, addr, n, WakeFrom(s.sc, 0, addr, n).1), base)
    ensures RunTop(s).sc == WakeFrom(s.sc, 0, addr, n).0
  {
  }

  lemma WakeEnds(s: State, base: Stack, addr: nat, n: nat, woken: nat)
    requires Live(s)
    ensures Stk(s) == Push(Wk(Lock, addr, n, 0), base) ==>
              RunTop(s).stacks[s.sc.current] == Push(Wk(Body, addr, n, 0), base) && RunTop(s).sc == s.sc
    ensures Stk(s) == Push(Wk(Unlock, addr, n, woken), base) ==>
              RunTop(s).stacks[s.sc.current] == base && RunTop(s).rets[s.sc.current] == woken && RunTop(s).sc == s.sc
  {
  }

  lemma WakeCounted(s: State, base: Stack, addr: nat, n: nat) returns (woken: nat)
    requires Inv(s) && Live(s) && Inv(RunTop(s)) && Stk(s) == Push(Wk(Body, addr, n, 0), base) && addr != 0
    ensures RunTop(s).stacks[s.sc.current] == Push(Wk(Unlock, addr, n, woken), base)
    ensures RunTop(s).sc.threads[s.sc.current].blocked == Cur(s).blocked && WakesUpTo(s, RunTop(s), addr, n, woken)
  {
    woken := WakeFrom(s.sc, 0, addr, n).1;
    WakeScan(s, base, addr, n);
    RecordsAgree(s, addr);
    RecordsAgree(RunTop(s), addr);
    ScanCounts(s, RunTop(s), addr, n);
    MaskWakes(s, s.sc.current);
  }

  /** A futex_wake() called on top of `base` wakes at some step j, and has the count of it when it is done. */
  lemma WakeRuns(ss: seq<State>, acts: seq<Action>, i: nat, m: nat, t: nat, base: Stack, addr: nat, n: nat,
                 mask: set<nat>)
      returns (j: nat, e: nat)
    requires IsRun(ss, acts) && i < m < |ss| && addr != 0
    requires StackOf(ss[i], t) == Push(Wk(Lock, addr, n, 0), base) && MaskOf(ss[i], t) == mask
    requires Size(StackOf(ss[m], t)) <= Size(base)
    ensures i < j < e < m && StackOf(ss[e + 1], t) == base && MaskOf(ss[e + 1], t) == mask
    ensures WakesUpTo(ss[j], ss[j + 1], addr, n, RetOf(ss[e + 1], t))
  {
    var j1 := Proceeds(ss, acts, i, m, t, Push(Wk(Lock, addr, n, 0), base), mask);
    WakeEndsAt(ss, acts, j1, t, base, addr, n, 0);
    j, e := WakeBody(ss, acts, j1 + 1, m, t, base, addr, n, mask);
  }

  lemma WakeBody(ss: seq<State>, acts: seq<Action>, i: nat, m: nat, t: nat, base: Stack, addr: nat, n: nat,
                 mask: set<nat>)
      returns (j: nat, e: nat)
    requires IsRun(ss, acts) && i <= m < |ss| && addr != 0
    requires StackOf(ss[i], t) == Push(Wk(Body, addr, n, 0), base) && MaskOf(ss[i], t) == mask
    requires Size(StackOf(ss[m], t)) <= Size(base)
    ensures i <= j < e < m && StackOf(ss[e + 1], t) == base && MaskOf(ss[e + 1], t) == mask
    ensures WakesUpTo(ss[j], ss[j + 1], addr, n, RetOf(ss[e + 1], t))
  {
    j := Proceeds(ss, acts, i, m, t, Push(Wk(Body, addr, n, 0), base), mask);
    var woken := WakeCountedAt(ss, acts, j, t, base, addr, n);
    e := Proceeds(ss, acts, j + 1, m, t, Push(Wk(Unlock, addr, n, woken), base), mask);
    WakeEndsAt(ss, acts, e, t, base, addr, n, woken);
  }

  lemma WakeEndsAt(ss: seq<State>, acts: seq<Action>, j: nat, t: nat, base: Stack, addr: nat, n: nat, woken: nat)
    requires IsRun(ss, acts) && j < |acts| && acts[j] == Run
    ensures At(ss[j], Run, t, Push(Wk(Lock, addr, n, 0), base)) ==>
              StackOf(ss[j + 1], t) == Push(Wk(Body, addr, n, 0), base) && MaskOf(ss[j + 1], t) == MaskOf(ss[j], t)
    ensures At(ss[j], Run, t, Push(Wk(Unlock, addr, n, woken), base)) ==>
              && StackOf(ss[j + 1], t) == base && MaskOf(ss[j + 1], t) == MaskOf(ss[j], t)
              && RetOf(ss[j + 1], t) == woken
  {
    RunStep(ss, acts, j);
    WakeEnds(ss[j], base, addr, n, woken);
  }

  lemma WakeCountedAt(ss: seq<State>, acts: seq<Action>, j: nat, t: nat, base: Stack, addr: nat, n: nat)
      returns (woken: nat)
    requires IsRun(ss, acts) && j < |acts| && acts[j] == Run && addr != 0
    requires At(ss[j], Run, t, Push(Wk(Body, addr, n, 0), base))
    ensures StackOf(ss[j + 1], t) == Push(Wk(Unlock, addr, n, woken), base)
    ensures MaskOf(ss[j + 1], t) == MaskOf(ss[j], t) && WakesUpTo(ss[j], ss[j + 1], addr, n, woken)
  {
    RunStep(ss, acts, j);
    woken := WakeCounted(ss[j], base, addr, n);
  }

  lemma WakeAsked(s: State, addr: nat, n: int)
    requires Live(s)
    ensures var s' := Enter(s, FutexWakeup(addr, n));
            && s'.sc == s.sc && (n <= 0 ==> s'.rets[s.sc.current] == 0)
            && s'.stacks[s.sc.current] == if n > 0 then Push(Wk(Lock, addr, n, 0), Stk(s)) else Stk(s)
  {
  }

  lemma WakeAskedAt(ss: seq<State>, acts: seq<Action>, i: nat, addr: nat, n: int)
    requires IsRun(ss, acts) && i < |acts| && acts[i] == User(FutexWakeup(addr, n))
    ensures var t, st := ss[i].sc.current, StackOf(ss[i], ss[i].sc.current);
            && addr != 0 && ss[i + 1].sc == ss[i].sc && MaskOf(ss[i + 1], t) == MaskOf(ss[i], t)
            && (n <= 0 ==> RetOf(ss[i + 1], t) == 0)
            && StackOf(ss[i + 1], t) == if n > 0 then Push(Wk(Lock, addr, n, 0), st) else st
  {
    RunStep(ss, acts, i);
    WakeAsked(ss[i], addr, n);
  }

  /** The answer to FUTEX_WAKE for n threads: the number of threads parked on addr that its one scan, at j,
      made READY; at most n; if fewer, nobody is left parked there.  Nothing for n <= 0. */
  lemma WakeAnswer(ss: seq<State>, acts: seq<Action>, i: nat, m: nat, t: nat, addr: nat, n: int) returns (j: nat)
    requires IsRun(ss, acts) && Answered(ss, acts, i, m, t, FutexWakeup(addr, n))
    ensures n <= 0 ==> m == i + 1 && RetOf(ss[m], t) == 0 && ss[m].sc == ss[i].sc
    ensures n > 0 ==> i < j < m && WakesUpTo(ss[j], ss[j + 1], addr, n, RetOf(ss[m], t))
    ensures MaskOf(ss[m], t) == MaskOf(ss[i], t)
  {
    WakeAskedAt(ss, acts, i, addr, n);
    j := i;
    if n > 0 {
      var e;
      j, e := WakeRuns(ss, acts, i + 1, m, t, StackOf(ss[i], t), addr, n, MaskOf(ss[i], t));
    }
  }

  /** A FUTEX_WAKE that was asked for n threads and returned less has left nobody parked on the word with an
      expected value the word has not had since the request, then and as long as that is so: no wakeup is lost. */
  lemma NoLostWakeup(ss: seq<State>, acts: seq<Action>, i: nat, m: nat, q: nat, t: nat, addr: nat, n: int, v: int,
                     x: nat)
    requires IsRun(ss, acts) && Answered(ss, acts, i, m, t, FutexWakeup(addr, n)) && m <= q < |ss|
    requires RetOf(ss[m], t) < n
    requires forall k :: i <= k < q ==> Load(ss[k].mem, addr) != v
    ensures !BlockedOn(ss[q], x, addr, v)
  {
    var j := WakeAnswer(ss, acts, i, m, t, addr, n);
    assert !ParkedOn(ss[j + 1], x, addr);
    NotBlockedLater(ss, acts, j + 1, q, addr, v, x);
  }
}
