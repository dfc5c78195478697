/** Whether the signal a delivery runs the handler for is still pending when its bit is cleared:
    thread_shim.c chooses it at line 494 and disables IRQs only at line 496. */
module ThreadDelivery {
  import opened ThreadModel
  import opened ThreadSteps
  import opened ThreadInvariant
  import opened ThreadPreserved
  import opened ThreadWaits
  import opened ThreadSignals

  /** Step a of state s is t's delivery on top of `base` choosing sig. */
  predicate Chooses(s: State, a: Action, t: nat, base: Stack, sig: nat) {
    && Sized(s) && a == Run && s.sc.current == t && Stk(s).Push? && Stk(s).below == base
    && Stk(s).top.Dl? && Stk(s).top.dpc == DCheck
    && 1 <= sig <= 64 && sig in Cur(s).pending - Cur(s).blocked
    && forall x :: x in Cur(s).pending - Cur(s).blocked ==> sig <= x
  }

  /** A delivery on top of `base` has chosen sig and not cleared its bit yet. */
  predicate Chosen(st: Stack, base: Stack, sig: nat) {
    st.Push? && (Chosen(st.below, base, sig) || (st.below == base && Choosing(st.top, sig)))
  }

  predicate Choosing(f: Frame, sig: nat) {
    f.Dl? && f.sig == sig && (f.dpc == DLock || f.dpc == DClear)
  }

  /** Step a of state s clears sig's bit in t's pending mask. */
  predicate Clears(s: State, a: Action, t: nat, sig: nat) {
    && Sized(s) && a == Run && s.sc.current == t && Stk(s).Push?
    && Stk(s).top.Dl? && Stk(s).top.dpc == DClear && Stk(s).top.sig == sig
  }

  /** Step a of state s sets it. */
  predicate Raises(s: State, a: Action, t: nat, sig: nat) {
    Sized(s) && a == Run && Stk(s).Push? && Stk(s).top == Cs(Body, Raise(t, sig))
  }

  // --- where a choice comes from -----------------------------------------------------------

  lemma ChosenQuiet(st: Stack, st': Stack, base: Stack, sig: nat)
    requires QuietMove(st, st') && Chosen(st', base, sig)
    ensures Chosen(st, base, sig)
  {
    if st'.Push? && st'.below.Push? && st.Push? && st'.below.below == st.below {
      assert Chosen(st'.below, base, sig) ==> Chosen(st.below, base, sig);
    }
  }

  lemma ChosenCheck(s: State, base: Stack, sig: nat)
    requires Live(s) && Stk(s).top.Dl? && Stk(s).top.dpc == DCheck && Sized(RunDeliver(s)) && Signals(Cur(s).pending)
    requires Chosen(RunDeliver(s).stacks[s.sc.current], base, sig) && !Chosen(Stk(s), base, sig)
    ensures Chooses(s, Run, s.sc.current, base, sig)
  {
  }

  /** What a delivery that has made its choice does next leaves the choice as it was. */
  lemma ChosenBefore(s: State, base: Stack, sig: nat)
    requires Live(s) && Stk(s).top.Dl? && Stk(s).top.dpc != DCheck && !IsUser(Stk(s).top) && Sized(RunDeliver(s))
    requires Chosen(RunDeliver(s).stacks[s.sc.current], base, sig)
    ensures Chosen(Stk(s), base, sig)
  {
    match Stk(s).top.dpc
    case DLock => case DClear => case DUnlock => case DAct =>
    case DMask => case DSelf => case DReset => case DRestore =>
  }

  lemma ChosenRun(s: State, base: Stack, sig: nat)
    requires Inv(s) && Enabled(s, Run) && Sized(RunTop(s))
    requires Chosen(RunTop(s).stacks[s.sc.current], base, sig) && !Chosen(Stk(s), base, sig)
    ensures Chooses(s, Run, s.sc.current, base, sig)
  {
    if Stk(s).top.Dl? {
      if Stk(s).top.dpc == DCheck { ChosenCheck(s, base, sig); } else { ChosenBefore(s, base, sig); }
    } else if Stk(s).top.Cs? {
      CriticalMoves(s);
    } else {
      if Stk(s).top.Cl? { CloneFrame(Cur(s), Stk(s).top, Stk(s).top, Stk(s).below); }
      QuietRun(s);
      ChosenQuiet(Stk(s), RunTop(s).stacks[s.sc.current], base, sig);
    }
  }

  lemma ChosenEnter(s: State, req: Request, base: Stack, sig: nat)
    requires Live(s) && IsUser(Stk(s).top) && Sized(Enter(s, req))
    requires Chosen(Enter(s, req).stacks[s.sc.current], base, sig)
    ensures Chosen(Stk(s), base, sig)
  {
    match req
    case FutexWait(_, _, _) => case FutexWakeup(_, _) => case Yield => case SleepUntil(_) => case Clone(_) =>
    case Exit => case Tkill(_, _) => case Sigprocmask(_, _) => case Sigaction(_, _) => case Store(_, _) =>
  }

  lemma ChosenStep(s: State, a: Action, t: nat, base: Stack, sig: nat)
    requires Inv(s) && Enabled(s, a) && Sized(Step(s, a)) && t < ALL_THREADS
    requires Chosen(Step(s, a).stacks[t], base, sig) && !Chosen(s.stacks[t], base, sig)
    ensures Chooses(s, a, t, base, sig)
  {
    if t != s.sc.current {
      OtherStack(s, a, t);
    } else {
      match a
      case Advance(_) => case Tick => case HandlerReturn =>
      case User(req) => ChosenEnter(s, req, base, sig);
      case Run => ChosenRun(s, base, sig);
    }
  }

  // --- the pending bit ---------------------------------------------------------------------

  lemma BitStep(s: State, a: Action, t: nat, sig: nat)
    requires Inv(s) && Enabled(s, a) && Sized(Step(s, a)) && t < ALL_THREADS && s.sc.threads[t].state != Free
    ensures sig in Step(s, a).sc.threads[t].pending
            <==> Raises(s, a, t, sig) || (sig in s.sc.threads[t].pending && !Clears(s, a, t, sig))
  {
    if sig in s.sc.threads[t].pending && sig !in Step(s, a).sc.threads[t].pending {
      ClearedByDelivery(s, a, t, sig);
    }
    if a.Run? {
      BitRun(s, t, sig);
    } else if a.User? {
      EnterFrame(s, a.req);
    }
  }

  lemma BitRun(s: State, t: nat, sig: nat)
    requires SchedOK(s.sc) && Live(s) && !IsUser(Stk(s).top) && Sized(RunTop(s)) && t < ALL_THREADS
    requires s.sc.threads[t].state != Free
    ensures Clears(s, Run, t, sig) ==> sig !in RunTop(s).sc.threads[t].pending
    ensures Raises(s, Run, t, sig) ==> sig in RunTop(s).sc.threads[t].pending
    ensures sig in RunTop(s).sc.threads[t].pending ==> sig in s.sc.threads[t].pending || Raises(s, Run, t, sig)
  {
    match Stk(s).top
    case Sc(_) => PendingWakes(s, t);
    case Wk(_, _, _, _) => PendingWakes(s, t);
    case Wt(_, _, _, _, _) => WaitFrame(s);
    case Rs(_, _) => ReschedFrame(s);
    case Ex(_) => ExitFrame(s);
    case Dl(_, _, _) => BitDeliver(s, t, sig);
    case Cs(_, _) => BitCritical(s, t, sig);
    case Tk(_, _) => RecTick(s);
    case Tramp => RecTick(s);
    case Cl(_, _, _) =>
    case App =>
  }

  lemma BitDeliver(s: State, t: nat, sig: nat)
    requires Live(s) && Stk(s).top.Dl? && !IsUser(Stk(s).top) && Sized(RunDeliver(s)) && t < ALL_THREADS
    ensures Clears(s, Run, t, sig) ==> sig !in RunDeliver(s).sc.threads[t].pending
    ensures sig in RunDeliver(s).sc.threads[t].pending ==> sig in s.sc.threads[t].pending
  {
    match Stk(s).top.dpc
    case DCheck => case DLock => case DClear => case DUnlock => case DAct =>
    case DMask => case DSelf => case DReset => case DRestore =>
  }

  lemma BitCritical(s: State, t: nat, sig: nat)
    requires Live(s) && Stk(s).top.Cs? && Sized(RunCritical(s)) && t < ALL_THREADS
    ensures Raises(s, Run, t, sig) ==> sig in RunCritical(s).sc.threads[t].pending
    ensures sig in RunCritical(s).sc.threads[t].pending ==> sig in s.sc.threads[t].pending || Raises(s, Run, t, sig)
  {
  }

  // --- whole runs --------------------------------------------------------------------------

  function PendingOf(s: State, t: nat): set<nat> {
    if Sized(s) && t < ALL_THREADS then s.sc.threads[t].pending else {}
  }

  /** t has a pending signal that it does not block. */
  predicate SignalDue(s: State, t: nat) {
    PendingOf(s, t) - MaskOf(s, t) != {}
  }

  lemma BitRunStep(ss: seq<State>, acts: seq<Action>, k: nat, t: nat, sig: nat)
    requires IsRun(ss, acts) && k < |acts| && StackOf(ss[k], t) != Empty
    ensures sig in PendingOf(ss[k + 1], t)
            <==> Raises(ss[k], acts[k], t, sig) || (sig in PendingOf(ss[k], t) && !Clears(ss[k], acts[k], t, sig))
  {
    RunStep(ss, acts, k);
    assert ThreadOK(ss[k].sc.threads[t], ss[k].stacks[t], t == ss[k].sc.current);
    BitStep(ss[k], acts[k], t, sig);
  }

  /** The step at which a delivery that is about to clear sig chose it. */
  lemma {:induction false} ChoiceStory(ss: seq<State>, acts: seq<Action>, n: nat, t: nat, base: Stack, sig: nat)
      returns (i: nat)
    requires IsRun(ss, acts) && n < |ss| && Chosen(StackOf(ss[n], t), base, sig)
    ensures i < n && Chooses(ss[i], acts[i], t, base, sig)
    ensures forall k :: i < k <= n ==> Chosen(StackOf(ss[k], t), base, sig)
    decreases n
  {
    NotAtStart(ss[0], t, base, sig);
    var j := n - 1;
    ChosenRunStep(ss, acts, j, t, base, sig);
    if Chosen(StackOf(ss[j], t), base, sig) {
      i := ChoiceStory(ss, acts, j, t, base, sig);
    } else {
      i := j;
    }
  }

  lemma ChosenRunStep(ss: seq<State>, acts: seq<Action>, k: nat, t: nat, base: Stack, sig: nat)
    requires IsRun(ss, acts) && k < |acts| && Chosen(StackOf(ss[k + 1], t), base, sig)
    ensures Chosen(StackOf(ss[k], t), base, sig) || Chooses(ss[k], acts[k], t, base, sig)
  {
    RunStep(ss, acts, k);
    if !Chosen(StackOf(ss[k], t), base, sig) {
      ChosenStep(ss[k], acts[k], t, base, sig);
    }
  }

  lemma NotAtStart(s: State, t: nat, base: Stack, sig: nat)
    requires Init(s)
    ensures !Chosen(StackOf(s, t), base, sig)
  {
    assert t < ALL_THREADS ==> s.stacks[t] == if t == 0 then Push(App, Empty) else Empty;
  }

  /** Some delivery cleared sig since step i, and nobody raised it after that. */
  ghost predicate Taken(ss: seq<State>, acts: seq<Action>, i: nat, n: nat, t: nat, sig: nat)
    requires |ss| == |acts| + 1 && n < |ss|
  {
    exists k :: i < k < n && Clears(ss[k], acts[k], t, sig) && forall m :: k <= m < n ==>
        !Raises(ss[m], acts[m], t, sig)
  }

  /** While the activation on `base` waits to clear sig, any other that clears it is nested in it. */
  lemma ClearsNested(ss: seq<State>, acts: seq<Action>, k: nat, t: nat, base: Stack, sig: nat)
    requires IsRun(ss, acts) && k < |acts| && Clears(ss[k], acts[k], t, sig)
    requires Chosen(StackOf(ss[k], t), base, sig) && Chosen(StackOf(ss[k + 1], t), base, sig)
    ensures Chosen(Stk(ss[k]).below, base, sig)
  {
    RunStep(ss, acts, k);
    NotOnItself(base, base, sig);
    assert StackOf(ss[k + 1], t) == Push(Stk(ss[k]).top.(dpc := DUnlock), Stk(ss[k]).below);
  }

  lemma NotOnItself(st: Stack, base: Stack, sig: nat)
    requires Size(st) <= Size(base)
    ensures !Chosen(st, base, sig)
  {
  }

  /** A delivery that is about to clear the bit of sig, n being that step, chose sig at an earlier step
      i when it was pending; by now it is not, exactly if a delivery nested in this one took it and
      nobody raised it since. */
  lemma DeliveryStory(ss: seq<State>, acts: seq<Action>, n: nat, sig: nat) returns (i: nat)
    requires IsRun(ss, acts) && n < |acts| && Clears(ss[n], acts[n], ss[n].sc.current, sig)
    ensures var t, base := ss[n].sc.current, Stk(ss[n]).below;
            && i < n && Chooses(ss[i], acts[i], t, base, sig)
            && (forall k :: i < k <= n ==> Chosen(StackOf(ss[k], t), base, sig))
            && (forall k :: i < k < n && Clears(ss[k], acts[k], t, sig) ==> Chosen(Stk(ss[k]).below, base, sig))
            && (sig !in PendingOf(ss[n], t) <==> Taken(ss, acts, i, n, t, sig))
  {
    var t, base := ss[n].sc.current, Stk(ss[n]).below;
    i := ChoiceStory(ss, acts, n, t, base, sig);
    forall k | i < k < n && Clears(ss[k], acts[k], t, sig) ensures Chosen(Stk(ss[k]).below, base, sig) {
      ClearsNested(ss, acts, k, t, base, sig);
    }
    TakenIff(ss, acts, i, n, t, base, sig);
  }

  lemma {:induction false} TakenIff(ss: seq<State>, acts: seq<Action>, i: nat, n: nat, t: nat, base: Stack, sig: nat)
    requires IsRun(ss, acts) && i < n < |ss| && Chooses(ss[i], acts[i], t, base, sig)
    requires forall k :: i < k <= n ==> Chosen(StackOf(ss[k], t), base, sig)
    ensures sig !in PendingOf(ss[n], t) <==> Taken(ss, acts, i, n, t, sig)
    decreases n
  {
    var j := n - 1;
    BitRunStep(ss, acts, j, t, sig);
    if i < j {
      TakenIff(ss, acts, i, j, t, base, sig);
    } else {
      assert sig in PendingOf(ss[i], t);
    }
    TakenBit(ss, acts, i, n, t, sig);
  }

  lemma TakenBit(ss: seq<State>, acts: seq<Action>, i: nat, n: nat, t: nat, sig: nat)
    requires |ss| == |acts| + 1 && i < n < |ss|
    requires if i == n - 1 then sig in PendingOf(ss[i], t) && !Clears(ss[i], acts[i], t, sig)
             else sig !in PendingOf(ss[n - 1], t) <==> Taken(ss, acts, i, n - 1, t, sig)
    requires sig in PendingOf(ss[n], t) <==> Raises(ss[n - 1], acts[n - 1], t, sig)
                                             || (sig in PendingOf(ss[n - 1], t)
                                                && !Clears(ss[n - 1], acts[n - 1], t, sig))
    ensures sig !in PendingOf(ss[n], t) <==> Taken(ss, acts, i, n, t, sig)
  {
    TakenNext(ss, acts, i, n, t, sig);
  }

  lemma TakenNext(ss: seq<State>, acts: seq<Action>, i: nat, n: nat, t: nat, sig: nat)
    requires |ss| == |acts| + 1 && i < n < |ss|
    ensures Taken(ss, acts, i, n, t, sig)
            <==> i < n - 1 && !Raises(ss[n - 1], acts[n - 1], t, sig)
                 && (Clears(ss[n - 1], acts[n - 1], t, sig) || Taken(ss, acts, i, n - 1, t, sig))
  {
  }

  // --- a signal raised once whose handler runs twice ---------------------------------------

  /** Only the main thread is there, executing st, and sig has a handler. */
  ghost predicate Alone(s: State, sig: nat, st: Stack, pending: set<nat>, blocked: set<nat>, on: bool) {
    && Sized(s) && !s.halted && s.sc.current == 0 && s.sc.queue == [] && s.stacks[0] == st && s.irqOn == on
    && s.sc.threads[0].state == Running && s.sc.threads[0].pending == pending && s.sc.threads[0].blocked == blocked
    && (forall k :: 0 <= k < ALL_THREADS ==> s.sc.threads[k].state != Blocked)
    && 1 <= sig <= 64 && sig != SIGKILL && s.acts[sig - 1] == SigAct(Fn, {}, false, false)
  }

  /** The current thread is raising a signal or changing its mask. */
  predicate InCritical(s: State) {
    Sized(s) && Stk(s).Push? && Stk(s).top.Cs?
  }

  /** One instruction, not of kill() or sigprocmask(), leads from s to s'. */
  ghost predicate Goes(s: State, s': State) {
    Enabled(s, Run) && !InCritical(s) && s' == RunTop(s)
  }

  ghost predicate Path(p: seq<State>) {
    p != [] && forall k :: 0 <= k < |p| - 1 ==> Goes(p[k], p[k + 1])
  }

  lemma PathOn(p: seq<State>, q: seq<State>)
    requires Path(p) && Path(q) && p[|p| - 1] == q[0]
    ensures Path(p + q[1..]) && (p + q[1..])[0] == p[0] && (p + q[1..])[|p| + |q| - 2] == q[|q| - 1]
  {
    var r := p + q[1..];
    forall k | 0 <= k < |r| - 1 ensures Goes(r[k], r[k + 1]) {
      if k >= |p| - 1 {
        assert Goes(q[k - (|p| - 1)], q[k - (|p| - 1) + 1]);
      }
    }
  }

  lemma {:induction false} ScanIdle(s: Sched, i: nat, now: nat)
    requires i <= |s.threads| && forall k :: 0 <= k < |s.threads| ==> s.threads[k].state != Blocked
    ensures ScanFrom(s, i, now) == s
    decreases |s.threads| - i
  {
    if i < |s.threads| {
      ScanIdle(s, i + 1, now);
    }
  }

  /** Between the states of a path whose ends are s and s'. */
  ghost predicate Ends(p: seq<State>, s: State, s': State) {
    Path(p) && p[0] == s && p[|p| - 1] == s'
  }

  /** scan_timeouts() finds nobody. */
  lemma ScanPasses(s: State, sig: nat, f: Frame, rest: Stack, p: set<nat>, b: set<nat>)
      returns (path: seq<State>, s': State)
    requires Alone(s, sig, Push(Sc(Lock), Push(f, rest)), p, b, true)
    ensures Ends(path, s, s') && Alone(s', sig, Push(f, rest), p, b, true)
  {
    var s1 := RunTop(s);
    assert Alone(s1, sig, Push(Sc(Body), Push(f, rest)), p, b, false);
    ScanIdle(s1.sc, 0, s1.clock);
    var s2 := RunTop(s1);
    assert Alone(s2, sig, Push(Sc(Unlock), Push(f, rest)), p, b, false);
    s' := RunTop(s2);
    path := [s, s1, s2, s'];
  }

  /** From its entry to the choice of sig. */
  lemma TickChooses(s: State, sig: nat, st: Stack, b: set<nat>) returns (path: seq<State>, s': State)
    requires Alone(s, sig, Push(Tk(TScan, b), st), {sig}, b, true) && sig !in b && st.Push?
    ensures Ends(path, s, s') && Alone(s', sig, Push(Dl(DLock, sig, {}), Push(Tk(TState, b), st)), {sig}, b, true)
  {
    var s1 := RunTop(s);
    var scan, s2 := ScanPasses(s1, sig, Tk(TDeliver, b), st, {sig}, b);
    var choice;
    choice, s' := Delivers(s2, sig, st, b);
    assert Goes(s, s1);
    PathOn([s, s1], scan);
    PathOn([s, s1] + scan[1..], choice);
    path := [s, s1] + scan[1..] + choice[1..];
  }

  lemma Delivers(s: State, sig: nat, st: Stack, b: set<nat>) returns (path: seq<State>, s': State)
    requires Alone(s, sig, Push(Tk(TDeliver, b), st), {sig}, b, true) && sig !in b && st.Push?
    ensures Ends(path, s, s') && Alone(s', sig, Push(Dl(DLock, sig, {}), Push(Tk(TState, b), st)), {sig}, b, true)
  {
    var s1 := RunTop(s);
    assert Alone(s1, sig, Push(Dl(DCheck, 0, {}), Push(Tk(TState, b), st)), {sig}, b, true);
    assert {sig} - b == {sig} && sig in {sig};
    s' := RunTop(s1);
    path := [s, s1, s'];
  }

  /** From the choice to the handler, whether sig is still pending or not. */
  lemma Handles(s: State, sig: nat, rest: Stack, p: set<nat>, b: set<nat>) returns (path: seq<State>, s': State)
    requires Alone(s, sig, Push(Dl(DLock, sig, {}), rest), p, b, true) && rest.Push?
    ensures Ends(path, s, s') && Alone(s', sig, Push(Dl(DHandler, sig, b), rest), p - {sig}, b + {sig}, true)
  {
    var first, m := BitGoes(s, sig, rest, p, b);
    var last;
    last, s' := Masks(m, sig, rest, p - {sig}, b);
    PathOn(first, last);
    path := first + last[1..];
  }

  lemma BitGoes(s: State, sig: nat, rest: Stack, p: set<nat>, b: set<nat>) returns (path: seq<State>, s': State)
    requires Alone(s, sig, Push(Dl(DLock, sig, {}), rest), p, b, true) && rest.Push?
    ensures Ends(path, s, s') && Alone(s', sig, Push(Dl(DAct, sig, {}), rest), p - {sig}, b, true)
  {
    var s1 := RunTop(s);
    assert Alone(s1, sig, Push(Dl(DClear, sig, {}), rest), p, b, false);
    var s2 := RunTop(s1);
    assert Alone(s2, sig, Push(Dl(DUnlock, sig, {}), rest), p - {sig}, b, false);
    s' := RunTop(s2);
    path := [s, s1, s2, s'];
  }

  lemma Masks(s: State, sig: nat, rest: Stack, p: set<nat>, b: set<nat>) returns (path: seq<State>, s': State)
    requires Alone(s, sig, Push(Dl(DAct, sig, {}), rest), p, b, true) && rest.Push?
    ensures Ends(path, s, s') && Alone(s', sig, Push(Dl(DHandler, sig, b), rest), p, b + {sig}, true)
  {
    var s1 := RunTop(s);
    assert Alone(s1, sig, Push(Dl(DMask, sig, b), rest), p, b, true);
    var s2 := RunTop(s1);
    assert b + {} == b;
    MaskSelf(s2, sig, rest, p, b);
    s' := RunTop(s2);
    path := [s, s1, s2, s'];
  }

  lemma MaskSelf(s: State, sig: nat, rest: Stack, p: set<nat>, b: set<nat>)
    requires Alone(s, sig, Push(Dl(DSelf, sig, b), rest), p, b, true) && rest.Push?
    ensures Goes(s, RunTop(s)) && Alone(RunTop(s), sig, Push(Dl(DHandler, sig, b), rest), p, b + {sig}, true)
  {
  }

  /** From the return of the handler to the end of the tick. */
  lemma TickEnds(s: State, sig: nat, st: Stack, p: set<nat>, b: set<nat>) returns (path: seq<State>, s': State)
    requires Alone(s, sig, Push(Dl(DReset, sig, b), Push(Tk(TState, b), st)), p, b + {sig}, true) && st.Push?
    ensures Ends(path, s, s') && Alone(s', sig, st, p, b, true)
  {
    var s1 := RunTop(s);
    assert Alone(s1, sig, Push(Dl(DRestore, sig, b), Push(Tk(TState, b), st)), p, b + {sig}, true);
    var m := RunTop(s1);
    var last;
    last, s' := NothingReady(m, sig, st, p, b);
    assert Path([s, s1, m]);
    PathOn([s, s1, m], last);
    path := [s, s1, m] + last[1..];
  }

  lemma NothingReady(s: State, sig: nat, st: Stack, p: set<nat>, b: set<nat>) returns (path: seq<State>, s': State)
    requires Alone(s, sig, Push(Tk(TState, b), st), p, b, true) && st.Push?
    ensures Ends(path, s, s') && Alone(s', sig, st, p, b, true)
  {
    var s1 := RunTop(s);
    assert Alone(s1, sig, Push(Tk(THead, b), st), p, b, true);
    s' := RunTop(s1);
    path := [s, s1, s'];
  }

  /** A run that raised nothing from step `from` on. */
  ghost predicate Quietly(ss: seq<State>, acts: seq<Action>, from: nat) {
    IsRun(ss, acts) && from <= |acts| && forall k :: from <= k < |acts| ==> !InCritical(ss[k])
  }

  ghost predicate Extends(ss: seq<State>, acts: seq<Action>, ss': seq<State>, acts': seq<Action>) {
    ss <= ss' && acts <= acts'
  }

  lemma ExtendsTwice(a: seq<State>, b: seq<Action>, c: seq<State>, d: seq<Action>, e: seq<State>, f: seq<Action>)
    requires Extends(a, b, c, d) && Extends(c, d, e, f)
    ensures Extends(a, b, e, f)
  {
  }

  lemma GoOne(ss: seq<State>, acts: seq<Action>, from: nat, a: Action) returns (ss': seq<State>, acts': seq<Action>)
    requires Quietly(ss, acts, from) && Enabled(ss[|acts|], a) && !InCritical(ss[|acts|])
    ensures Quietly(ss', acts', from) && Extends(ss, acts, ss', acts') && |acts'| == |acts| + 1
    ensures ss'[|acts| + 1] == Step(ss[|acts|], a) && acts'[|acts|] == a
  {
    ss', acts' := ss + [Step(ss[|acts|], a)], acts + [a];
    forall i | 0 <= i < |acts'| ensures StepAt(ss', acts', i) {
      assert i < |acts| ==> StepAt(ss, acts, i);
    }
  }

  /** Going along a path. */
  lemma GoOn(ss: seq<State>, acts: seq<Action>, from: nat, p: seq<State>, s': State)
      returns (ss': seq<State>, acts': seq<Action>)
    requires Quietly(ss, acts, from) && Ends(p, ss[|acts|], s')
    ensures Quietly(ss', acts', from) && Extends(ss, acts, ss', acts') && ss'[|acts'|] == s'
  {
    ss', acts' := ss + p[1..], acts + seq(|p| - 1, _ => Run);
    forall i | 0 <= i < |acts'| ensures StepAt(ss', acts', i) && (i >= from ==> !InCritical(ss'[i])) {
      OnPath(ss, acts, from, p, i);
    }
  }

  lemma OnPath(ss: seq<State>, acts: seq<Action>, from: nat, p: seq<State>, i: nat)
    requires Quietly(ss, acts, from) && Path(p) && p[0] == ss[|acts|] && i < |acts| + |p| - 1
    ensures StepAt(ss + p[1..], acts + seq(|p| - 1, _ => Run), i) && (i >= from ==> !InCritical((ss + p[1..])[i]))
  {
    var ss', acts' := ss + p[1..], acts + seq(|p| - 1, _ => Run);
    if i < |acts| {
      assert StepAt(ss, acts, i);
      assert ss'[i] == ss[i] && ss'[i + 1] == ss[i + 1] && acts'[i] == acts[i];
    } else {
      var k := i - |acts|;
      assert Goes(p[k], p[k + 1]);
      assert ss'[i] == p[k] && ss'[i + 1] == p[k + 1] && acts'[i] == Run;
    }
  }

  /** A tick up to the choice of sig, wherever it lands in the main thread. */
  lemma GoTick(ss: seq<State>, acts: seq<Action>, from: nat, sig: nat, st: Stack, b: set<nat>)
      returns (ss': seq<State>, acts': seq<Action>)
    requires Quietly(ss, acts, from) && Alone(ss[|acts|], sig, st, {sig}, b, true) && sig !in b
    requires st.Push? && FrameOK(st.top) && !st.top.Cs?
    ensures Quietly(ss', acts', from) && Extends(ss, acts, ss', acts')
    ensures Alone(ss'[|acts'|], sig, Push(Dl(DLock, sig, {}), Push(Tk(TState, b), st)), {sig}, b, true)
  {
    var mid, first := GoOne(ss, acts, from, Tick);
    var p, s' := TickChooses(Step(ss[|acts|], Tick), sig, st, b);
    ss', acts' := GoOn(mid, first, from, p, s');
    ExtendsTwice(ss, acts, mid, first, ss', acts');
  }

  /** The handler the choice leads to. */
  lemma GoHandle(ss: seq<State>, acts: seq<Action>, from: nat, sig: nat, rest: Stack, p: set<nat>, b: set<nat>)
      returns (ss': seq<State>, acts': seq<Action>)
    requires Quietly(ss, acts, from) && rest.Push?
    requires Alone(ss[|acts|], sig, Push(Dl(DLock, sig, {}), rest), p, b, true)
    ensures Quietly(ss', acts', from) && Extends(ss, acts, ss', acts')
    ensures Alone(ss'[|acts'|], sig, Push(Dl(DHandler, sig, b), rest), p - {sig}, b + {sig}, true)
  {
    var path, s' := Handles(ss[|acts|], sig, rest, p, b);
    ss', acts' := GoOn(ss, acts, from, path, s');
  }

  /** The handler returns, and so does the tick. */
  lemma GoReturn(ss: seq<State>, acts: seq<Action>, from: nat, sig: nat, st: Stack, p: set<nat>, b: set<nat>)
      returns (ss': seq<State>, acts': seq<Action>)
    requires Quietly(ss, acts, from) && st.Push?
    requires Alone(ss[|acts|], sig, Push(Dl(DHandler, sig, b), Push(Tk(TState, b), st)), p, b + {sig}, true)
    ensures Quietly(ss', acts', from) && Extends(ss, acts, ss', acts') && |acts| < |acts'|
    ensures acts'[|acts|] == HandlerReturn && Alone(ss'[|acts'|], sig, st, p, b, true)
  {
    var mid, first := GoOne(ss, acts, from, HandlerReturn);
    var path, s' := TickEnds(Step(ss[|acts|], HandlerReturn), sig, st, p, b);
    ss', acts' := GoOn(mid, first, from, path, s');
    ExtendsTwice(ss, acts, mid, first, ss', acts');
  }

  /** The program installs a handler and sends itself the signal. */
  lemma RaisedOnce(s: State, sig: nat, b: set<nat>) returns (ss: seq<State>, acts: seq<Action>)
    requires Init(s) && s.sc.threads[0].pending == {} && s.sc.threads[0].blocked == b
    requires 1 <= sig <= 64 && sig != SIGKILL && sig != SIGSTOP
    ensures IsRun(ss, acts) && |acts| == 5 && ss[0] == s
    ensures Alone(ss[5], sig, Push(App, Empty), {sig}, b, true)
    ensures forall k :: 0 <= k < 5 && Raises(ss[k], acts[k], 0, sig) ==> k == 3
  {
    var handler := User(Sigaction(sig, SigAct(Fn, {}, false, false)));
    var kill := User(Tkill(s.sc.threads[0].tid, sig));
    var s1 := Step(s, handler);
    assert Alone(s1, sig, Push(App, Empty), {}, b, true);
    var s2 := Step(s1, kill);
    var s3, s4, s5 := KillSets(s2, sig, b);
    ss, acts := [s, s1, s2, s3, s4, s5], [handler, kill, Run, Run, Run];
  }

  /** From the entry of kill() to its return. */
  lemma KillSets(s: State, sig: nat, b: set<nat>) returns (s1: State, s2: State, s3: State)
    requires Alone(s, sig, Push(Cs(Lock, Raise(0, sig)), Push(App, Empty)), {}, b, true)
    ensures Enabled(s, Run) && s1 == RunTop(s) && Enabled(s1, Run) && s2 == RunTop(s1) && Enabled(s2, Run)
    ensures s3 == RunTop(s2)
    ensures Alone(s1, sig, Push(Cs(Body, Raise(0, sig)), Push(App, Empty)), {}, b, false)
    ensures Alone(s2, sig, Push(Cs(Unlock, Raise(0, sig)), Push(App, Empty)), {sig}, b, false)
    ensures Alone(s3, sig, Push(App, Empty), {sig}, b, true)
  {
    s1 := RunTop(s);
    s2 := RunTop(s1);
    assert {} + {sig} == {sig};
    s3 := RunTop(s2);
  }

  predicate InHandler(s: State, sig: nat, saved: set<nat>) {
    Sized(s) && Stk(s).Push? && Stk(s).top == Dl(DHandler, sig, saved)
  }

  /** A signal sent once whose handler runs a second time, in the same run, because a tick comes between
      the choice and irq_disable(). */
  lemma HandledTwice(s: State, sig: nat, b: set<nat>) returns (ss: seq<State>, acts: seq<Action>, i: nat)
    requires Init(s) && s.sc.threads[0].pending == {} && s.sc.threads[0].blocked == b && sig !in b
    requires 1 <= sig <= 64 && sig != SIGKILL && sig != SIGSTOP
    ensures IsRun(ss, acts) && ss[0] == s && i < |acts|
    ensures forall k :: 0 <= k < |acts| && Raises(ss[k], acts[k], 0, sig) ==> k == 3
    ensures InHandler(ss[i], sig, b) && acts[i] == HandlerReturn && InHandler(ss[|acts|], sig, b)
  {
    var app := Push(App, Empty);
    var outer := Push(Dl(DLock, sig, {}), Push(Tk(TState, b), app));
    var ss0, acts0 := RaisedOnce(s, sig, b);
    var ss1, acts1 := GoTick(ss0, acts0, 5, sig, app, b);
    var ss2, acts2 := GoTick(ss1, acts1, 5, sig, outer, b);
    var ss3, acts3 := GoHandle(ss2, acts2, 5, sig, Push(Tk(TState, b), outer), {sig}, b);
    i := |acts3|;
    var ss4, acts4 := GoReturn(ss3, acts3, 5, sig, outer, {}, b);
    ss, acts := GoHandle(ss4, acts4, 5, sig, Push(Tk(TState, b), app), {}, b);
    ExtendsTwice(ss0, acts0, ss1, acts1, ss2, acts2);
    ExtendsTwice(ss0, acts0, ss2, acts2, ss3, acts3);
    ExtendsTwice(ss3, acts3, ss4, acts4, ss, acts);
    ExtendsTwice(ss0, acts0, ss3, acts3, ss, acts);
  }
}
