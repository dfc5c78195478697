/** What clone() and exit leave (port/thread_shim.c:666-724, 757-803). */
module ThreadLifecycle {
  import opened ThreadModel
  import opened ThreadSteps
  import opened ThreadInvariant
  import opened ThreadPreserved
  import opened ThreadWaits
  import opened ThreadSignals
  import opened ThreadDelivery
  import opened ThreadCalls

  // --- thread ids ------------------------------------------------------------------------------

  /** The current thread is about to take a slot and a tid. */
  predicate Allocates(s: State, a: Action) {
    Sized(s) && a == Run && Stk(s).Push? && Stk(s).top.Cl? && Stk(s).top.lpc == LAlloc
  }

  /** All tids, and the addresses to clear at exit, are as they were. */
  ghost predicate IdsKept(s: State, s': State) {
    && Sized(s) && Sized(s') && s'.nextTid == s.nextTid
    && forall x :: 0 <= x < ALL_THREADS ==>
         s'.sc.threads[x].tid == s.sc.threads[x].tid && s'.sc.threads[x].ctid == s.sc.threads[x].ctid
  }

  lemma IdsWait(s: State)
    requires Live(s) && Stk(s).top.Wt? && Sized(RunWait(s))
    ensures IdsKept(s, RunWait(s))
  {
    match Stk(s).top.wpc
    case WCheck => case WSig => case WClock => case WLock => case WPark =>
    case WFail => case WUnlock => case WCall => case WWait => case WClear =>
  }

  lemma IdsResched(s: State)
    requires Live(s) && Stk(s).top.Rs? && Sized(RunResched(s))
    ensures IdsKept(s, RunResched(s))
  {
    match Stk(s).top.rpc
    case RTop => case RBody => case RSelf => case RResume => case RNone => case RIdle => case RSleep =>
  }

  lemma IdsDeliver(s: State)
    requires Live(s) && Stk(s).top.Dl? && !IsUser(Stk(s).top) && Sized(RunDeliver(s))
    ensures IdsKept(s, RunDeliver(s))
  {
    match Stk(s).top.dpc
    case DCheck => case DLock => case DClear => case DUnlock => case DAct =>
    case DMask => case DSelf => case DReset => case DRestore =>
  }

  lemma IdsExit(s: State)
    requires Live(s) && Stk(s).top.Ex? && Sized(RunExit(s))
    ensures IdsKept(s, RunExit(s))
  {
    match Stk(s).top.xpc
    case XLock => case XPark => case XUnlock => case XCtid => case XWake =>
    case XLock2 => case XSwitch => case XNone => case XIdle => case XSleep =>
  }

  lemma IdsWakes(s: State)
    requires Live(s) && SchedOK(s.sc) && (Stk(s).top.Sc? || Stk(s).top.Wk?) && Sized(RunTop(s))
    ensures IdsKept(s, RunTop(s))
  {
    if Stk(s).top.Sc? {
      ScanEffect(s.sc, 0, s.clock);
    } else {
      WakeEffect(s.sc, 0, Stk(s).top.addr, Stk(s).top.n);
    }
  }

  lemma IdsOthers(s: State)
    requires Live(s) && (Stk(s).top.Cs? || Stk(s).top.Tk? || Stk(s).top == Tramp) && Sized(RunTop(s))
    ensures IdsKept(s, RunTop(s))
  {
    match Stk(s).top
    case Tramp => case Tk(_, _) => case Cs(_, _) =>
  }

  lemma IdsClone(s: State)
    requires Live(s) && Stk(s).top.Cl? && Stk(s).top.lpc != LAlloc && Sized(RunClone(s))
    ensures IdsKept(s, RunClone(s))
  {
    match Stk(s).top.lpc
    case LLock => case LBody => case LUnlock =>
  }

  lemma IdsUser(s: State, a: Action)
    requires Live(s) && !a.Run? && (a.HandlerReturn? ==> IsHandler(Stk(s).top)) && Sized(Step(s, a))
    ensures IdsKept(s, Step(s, a))
  {
    match a
    case Advance(_) => case Tick => case HandlerReturn =>
    case User(req) =>
      match req
      case FutexWait(_, _, _) => case FutexWakeup(_, _) => case Yield => case SleepUntil(_) => case Clone(_) =>
      case Exit => case Tkill(_, _) => case Sigprocmask(_, _) => case Sigaction(_, _) => case Store(_, _) =>
  }

  /** Only clone() gives out tids. */
  lemma IdsStep(s: State, a: Action)
    requires Inv(s) && Enabled(s, a) && Sized(Step(s, a)) && !Allocates(s, a)
    ensures IdsKept(s, Step(s, a))
  {
    if !a.Run? {
      IdsUser(s, a);
    } else {
      match Stk(s).top
      case Wt(_, _, _, _, _) => IdsWait(s);
      case Rs(_, _) => IdsResched(s);
      case Dl(_, _, _) => IdsDeliver(s);
      case Ex(_) => IdsExit(s);
      case Cl(_, _, _) => IdsClone(s);
      case Sc(_) => IdsWakes(s);
      case Wk(_, _, _, _) => IdsWakes(s);
      case _ => IdsOthers(s);
    }
  }

  /** What clone() does first: the lowest free slot gets a tid of its own, the address to clear, no pending signals
      and its creator's mask; or there is none. */
  ghost predicate Filled(s: State, s': State, slot: nat, ctid: nat)
    requires Sized(s)
  {
    && Sized(s') && 1 <= slot < ALL_THREADS && s.sc.threads[slot].state == Free
    && (forall k :: 1 <= k < slot ==> s.sc.threads[k].state != Free)
    && (var th := s'.sc.threads[slot];
        && th.tid == s.nextTid && th.ctid == ctid && th.pending == {} && th.blocked == Cur(s).blocked
        && th.state == Free)
    && s'.nextTid == s.nextTid + 1
    && (forall k :: 0 <= k < ALL_THREADS && k != slot ==> s'.sc.threads[k] == s.sc.threads[k])
    && s'.sc.queue == s.sc.queue
  }

  lemma Fills(s: State, base: Stack, ctid: nat) returns (slot: nat)
    requires Live(s) && Stk(s) == Push(Cl(LAlloc, ctid, 0), base)
    ensures slot < ALL_THREADS ==>
              Filled(s, RunTop(s), slot, ctid) && RunTop(s).stacks[s.sc.current] == Push(Cl(LLock, ctid, slot), base)
    ensures slot >= ALL_THREADS ==>
              && (forall k :: 1 <= k < ALL_THREADS ==> s.sc.threads[k].state != Free)
              && RunTop(s) == s.(stacks := s.stacks[s.sc.current := base], rets := s.rets[s.sc.current := -11])
  {
    slot := AllocFrom(s.sc.threads, 1);
  }

  /** Tids already given out are below g_next_tid, and no two records hold the same. */
  ghost predicate Tids(s: State) {
    && Sized(s) && s.nextTid >= 2
    && (forall x :: 0 <= x < ALL_THREADS ==> 0 <= s.sc.threads[x].tid < s.nextTid)
    && (forall x, y :: 0 <= x < y < ALL_THREADS && s.sc.threads[x].tid == s.sc.threads[y].tid ==>
          s.sc.threads[x].tid == 0)
  }

  lemma TidsStep(s: State, a: Action)
    requires Inv(s) && Enabled(s, a) && Sized(Step(s, a)) && Tids(s)
    ensures Tids(Step(s, a))
  {
    if Allocates(s, a) {
      TidsAlloc(s);
    } else {
      IdsStep(s, a);
    }
  }

  lemma TidsAlloc(s: State)
    requires Live(s) && Stk(s).top.Cl? && Stk(s).top.lpc == LAlloc && Sized(RunTop(s)) && Tids(s)
    ensures Tids(RunTop(s))
  {
  }

  lemma {:induction false} TidsDistinct(ss: seq<State>, acts: seq<Action>, n: nat)
    requires IsRun(ss, acts) && n < |ss|
    ensures Tids(ss[n])
    decreases n
  {
    if n > 0 {
      TidsDistinct(ss, acts, n - 1);
      RunStep(ss, acts, n - 1);
      TidsStep(ss[n - 1], acts[n - 1]);
    }
  }

  // --- a slot being filled -----------------------------------------------------------------------

  /** The record of free slot x, its pending mask aside. */
  predicate SlotKept(s: State, s': State, x: nat) {
    && Sized(s) && Sized(s') && x < ALL_THREADS
    && s'.sc.threads[x] == s.sc.threads[x].(pending := s'.sc.threads[x].pending)
  }

  lemma SlotResched(s: State, x: nat)
    requires Live(s) && SchedOK(s.sc) && Stk(s).top.Rs? && Sized(RunResched(s)) && x < ALL_THREADS && x != s.sc.current
    requires s.sc.threads[x].state == Free
    ensures SlotKept(s, RunResched(s), x)
  {
    match Stk(s).top.rpc
    case RTop => case RSelf => case RResume => case RNone => case RIdle => case RSleep =>
    case RBody => FreeNotHead(s.sc, x);
  }

  lemma FreeNotHead(sc: Sched, x: nat)
    requires SchedOK(sc) && x < ALL_THREADS && sc.threads[x].state == Free && x != sc.current
    ensures sc.queue != [] ==> sc.queue[0] != x && SwitchToHead(sc).threads[x] == sc.threads[x]
    ensures var sc' := Requeue(sc); sc'.queue[0] != x && SwitchToHead(sc').threads[x] == sc.threads[x]
  {
  }

  lemma SlotExit(s: State, x: nat)
    requires Live(s) && SchedOK(s.sc) && Stk(s).top.Ex? && Sized(RunExit(s)) && x < ALL_THREADS && x != s.sc.current
    requires s.sc.threads[x].state == Free
    ensures SlotKept(s, RunExit(s), x)
  {
    match Stk(s).top.xpc
    case XLock => case XPark => case XUnlock => case XCtid => case XWake => case XLock2 =>
    case XSwitch => FreeNotHead(s.sc, x);
    case XNone => case XIdle => case XSleep =>
  }

  lemma SlotWakes(s: State, x: nat)
    requires Live(s) && SchedOK(s.sc) && (Stk(s).top.Sc? || Stk(s).top.Wk?) && Sized(RunTop(s)) && x < ALL_THREADS
    requires s.sc.threads[x].state == Free
    ensures SlotKept(s, RunTop(s), x)
  {
    if Stk(s).top.Sc? {
      ScanEffect(s.sc, 0, s.clock);
    } else {
      WakeEffect(s.sc, 0, Stk(s).top.addr, Stk(s).top.n);
    }
  }

  lemma SlotOthers(s: State, x: nat)
    requires Live(s) && (Stk(s).top.Cs? || Stk(s).top.Tk? || Stk(s).top == Tramp) && Sized(RunTop(s))
    requires x < ALL_THREADS && x != s.sc.current
    ensures SlotKept(s, RunTop(s), x)
  {
    match Stk(s).top
    case Tramp => case Tk(_, _) => case Cs(_, _) =>
  }

  /** Nobody but a clone() touches a free slot, except to raise a signal. */
  lemma SlotStep(s: State, a: Action, x: nat)
    requires Inv(s) && Enabled(s, a) && Sized(Step(s, a)) && x < ALL_THREADS && s.sc.threads[x].state == Free
    requires a.Run? && Stk(s).top.Cl? ==> Stk(s).top.lpc == LLock || Stk(s).top.lpc == LUnlock
    ensures SlotKept(s, Step(s, a), x)
  {
    assert x != s.sc.current;
    if !a.Run? {
      OnlyRunSchedules(s, a);
    } else {
      match Stk(s).top
      case Wt(_, _, _, _, _) => WaitFrame(s);
      case Rs(_, _) => SlotResched(s, x);
      case Dl(_, _, _) => DeliverFrame(s);
      case Ex(_) => SlotExit(s, x);
      case Cl(_, _, _) =>
      case Sc(_) => SlotWakes(s, x);
      case Wk(_, _, _, _) => SlotWakes(s, x);
      case _ => SlotOthers(s, x);
    }
  }

  lemma OnDeep(st: Stack, f: Frame)
    requires On(st, Push(App, Empty), f)
    ensures st.below.Push?
  {
  }

  lemma {:induction false} BaseOn(st: Stack, f: Frame)
    requires On(st, Push(App, Empty), f)
    ensures Base(st) == f
  {
    if st != Push(f, Push(App, Empty)) {
      BaseOn(st.below, f);
      OnDeep(st.below, f);
    }
  }

  lemma SteadyOn(s: State, t: nat, base: Stack, f: Frame, m: set<nat>)
    requires Steady(s, t, Push(f, base), m)
    ensures On(StackOf(s, t), base, f)
  {
    if StackOf(s, t) != Push(f, base) {
      InsideOn(StackOf(s, t), base, f, m);
    }
  }

  lemma {:induction false} InsideOn(st: Stack, base: Stack, f: Frame, m: set<nat>)
    requires Inside(st, Push(f, base), m)
    ensures On(st, base, f)
  {
    if st.below != Push(f, base) {
      InsideOn(st.below, base, f, m);
    }
  }

  /** While one clone() is under way no other is. */
  lemma NoOtherClone(s: State, t: nat, f: Frame)
    requires Inv(s) && Live(s) && t < ALL_THREADS && On(s.stacks[t], Push(App, Empty), f) && f.Cl? && f.lpc != LUnlock
    requires Stk(s).top.Cl? && Stk(s).top.lpc != LUnlock
    ensures s.sc.current == t && Stk(s) == Push(f, Push(App, Empty))
  {
    BaseOn(s.stacks[t], f);
    AppIsBottom(Stk(s).below);
    assert Base(Stk(s)) == Stk(s).top;
    assert Cloning(s.stacks[t]) && Cloning(s.stacks[s.sc.current]);
  }

  lemma CloneEnds(s: State, base: Stack, ctid: nat, slot: nat)
    requires Live(s) && 1 <= slot < ALL_THREADS && slot != s.sc.current
    ensures Stk(s) == Push(Cl(LLock, ctid, slot), base) ==>
              RunTop(s).stacks[s.sc.current] == Push(Cl(LBody, ctid, slot), base) && RunTop(s).sc == s.sc
    ensures Stk(s) == Push(Cl(LBody, ctid, slot), base) ==>
              && RunTop(s).stacks[s.sc.current] == Push(Cl(LUnlock, ctid, slot), base)
              && RunTop(s).stacks[slot] == Push(Tramp, Empty)
              && RunTop(s).sc.threads == s.sc.threads[slot := s.sc.threads[slot].(state := Ready)]
              && RunTop(s).sc.queue == s.sc.queue + [slot]
    ensures Stk(s) == Push(Cl(LUnlock, ctid, slot), base) ==>
              && RunTop(s).stacks[s.sc.current] == base && RunTop(s).sc == s.sc
              && RunTop(s).rets[s.sc.current] == s.sc.threads[slot].tid
  {
  }

  /** Slot x holds record th, its pending mask aside. */
  predicate Holds(s: State, x: nat, th: Thread) {
    Sized(s) && x < ALL_THREADS && s.sc.threads[x] == th.(pending := s.sc.threads[x].pending)
  }

  lemma Held(s: State, a: Action, t: nat, f: Frame, x: nat, th: Thread)
    requires Inv(s) && Enabled(s, a) && Sized(Step(s, a)) && t < ALL_THREADS && On(s.stacks[t], Push(App, Empty), f)
    requires f.Cl? && (f.lpc == LLock || (f.lpc == LBody && !At(s, a, t, Push(f, Push(App, Empty)))))
    requires th.state == Free && Holds(s, x, th)
    ensures Holds(Step(s, a), x, th)
  {
    if a.Run? && Stk(s).top.Cl? && Stk(s).top.lpc != LUnlock {
      NoOtherClone(s, t, f);
    }
    SlotStep(s, a, x);
  }

  lemma HeldStep(ss: seq<State>, acts: seq<Action>, k: nat, t: nat, f: Frame, x: nat, th: Thread, m: set<nat>)
    requires IsRun(ss, acts) && k < |acts| && th.state == Free && Holds(ss[k], x, th)
    requires f.Cl? && (f.lpc == LLock || (f.lpc == LBody && !At(ss[k], acts[k], t, Push(f, Push(App, Empty)))))
    requires Steady(ss[k], t, Push(f, Push(App, Empty)), m)
    ensures Holds(ss[k + 1], x, th)
  {
    RunStep(ss, acts, k);
    SteadyOn(ss[k], t, Push(App, Empty), f, m);
    Held(ss[k], acts[k], t, f, x, th);
  }

  /** Up to the next instruction of the clone() a filled slot stays as it is. */
  lemma {:induction false} HeldTo(ss: seq<State>, acts: seq<Action>, i: nat, j: nat, t: nat, f: Frame, x: nat,
                                  th: Thread, m: set<nat>)
    requires IsRun(ss, acts) && Next(ss, acts, i, j, t, Push(f, Push(App, Empty)), m)
    requires f.Cl? && (f.lpc == LLock || f.lpc == LBody) && th.state == Free && Holds(ss[i], x, th)
    ensures Holds(ss[j], x, th)
    decreases j - i
  {
    if i < j {
      if At(ss[i], acts[i], t, Push(f, Push(App, Empty))) && f.lpc == LBody {
        PublishesAt(ss, acts, i, t, f.ctid, f.slot, m);
        assert false;
      } else {
        HeldStep(ss, acts, i, t, f, x, th, m);
        HeldTo(ss, acts, i + 1, j, t, f, x, th, m);
      }
    }
  }

  /** Publishing the slot takes the clone() off that point. */
  lemma PublishesAt(ss: seq<State>, acts: seq<Action>, k: nat, t: nat, ctid: nat, slot: nat, m: set<nat>)
    requires IsRun(ss, acts) && k < |acts| && At(ss[k], acts[k], t, Push(Cl(LBody, ctid, slot), Push(App, Empty)))
    ensures !Steady(ss[k + 1], t, Push(Cl(LBody, ctid, slot), Push(App, Empty)), m)
  {
    CloneEndsAt(ss, acts, k, t, ctid, slot);
    NotInsideItself(StackOf(ss[k + 1], t), Push(Cl(LBody, ctid, slot), Push(App, Empty)), m);
  }

  lemma CloneEndsAt(ss: seq<State>, acts: seq<Action>, j: nat, t: nat, ctid: nat, slot: nat)
    requires IsRun(ss, acts) && j < |acts|
    ensures At(ss[j], acts[j], t, Push(Cl(LBody, ctid, slot), Push(App, Empty))) ==>
              && StackOf(ss[j + 1], t) == Push(Cl(LUnlock, ctid, slot), Push(App, Empty))
              && MaskOf(ss[j + 1], t) == MaskOf(ss[j], t) && ss[j + 1].sc.current == t
              && Published(ss[j], ss[j + 1], slot)
  {
    RunStep(ss, acts, j);
    if At(ss[j], acts[j], t, Push(Cl(LBody, ctid, slot), Push(App, Empty))) {
      CloneSlotFree(ss[j]);
      CloneEnds(ss[j], Push(App, Empty), ctid, slot);
    }
  }

  /** The slot is READY at the back of the queue, about to run its entry function; the rest is as it was. */
  ghost predicate Published(s: State, s': State, slot: nat) {
    && Sized(s) && Sized(s') && slot < ALL_THREADS && s.sc.threads[slot].state == Free
    && s'.sc.threads == s.sc.threads[slot := s.sc.threads[slot].(state := Ready)]
    && s'.sc.queue == s.sc.queue + [slot] && s'.stacks[slot] == Push(Tramp, Empty)
  }

  lemma LocksAt(ss: seq<State>, acts: seq<Action>, j: nat, t: nat, ctid: nat, slot: nat)
    requires IsRun(ss, acts) && j < |acts| && At(ss[j], acts[j], t, Push(Cl(LLock, ctid, slot), Push(App, Empty)))
    ensures StackOf(ss[j + 1], t) == Push(Cl(LBody, ctid, slot), Push(App, Empty))
    ensures MaskOf(ss[j + 1], t) == MaskOf(ss[j], t) && Sized(ss[j + 1]) && ss[j + 1].sc == ss[j].sc
  {
    RunStep(ss, acts, j);
    CloneSlotFree(ss[j]);
  }

  lemma UnlocksAt(ss: seq<State>, acts: seq<Action>, j: nat, t: nat, ctid: nat, slot: nat)
    requires IsRun(ss, acts) && j < |acts| && At(ss[j], acts[j], t, Push(Cl(LUnlock, ctid, slot), Push(App, Empty)))
    requires slot < ALL_THREADS
    ensures StackOf(ss[j + 1], t) == Push(App, Empty) && RetOf(ss[j + 1], t) == ss[j].sc.threads[slot].tid
    ensures MaskOf(ss[j + 1], t) == MaskOf(ss[j], t)
  {
    RunStep(ss, acts, j);
  }

  /** With IRQs off only the clock moves until the next instruction. */
  lemma OnlyClock(ss: seq<State>, acts: seq<Action>, k: nat, t: nat, ctid: nat, slot: nat)
    requires IsRun(ss, acts) && k < |acts| && Sized(ss[k]) && ss[k].sc.current == t
    requires StackOf(ss[k], t) == Push(Cl(LUnlock, ctid, slot), Push(App, Empty))
    ensures acts[k] == Run || (ss[k + 1].sc == ss[k].sc && ss[k + 1].stacks == ss[k].stacks && Sized(ss[k + 1]))
  {
    RunStep(ss, acts, k);
  }

  lemma {:induction false} StillThere(ss: seq<State>, acts: seq<Action>, i: nat, j: nat, t: nat, ctid: nat, slot: nat,
                                      m: set<nat>)
    requires IsRun(ss, acts) && Next(ss, acts, i, j, t, Push(Cl(LUnlock, ctid, slot), Push(App, Empty)), m)
    requires Sized(ss[i]) && ss[i].sc.current == t && slot < ALL_THREADS
    requires StackOf(ss[i], t) == Push(Cl(LUnlock, ctid, slot), Push(App, Empty))
    ensures Sized(ss[j]) && ss[j].sc == ss[i].sc
    decreases j - i
  {
    if i < j {
      OnlyClock(ss, acts, i, t, ctid, slot);
      if acts[i] == Run {
        UnlocksAt(ss, acts, i, t, ctid, slot);
        NotSteady(ss[i + 1], t, Push(Cl(LUnlock, ctid, slot), Push(App, Empty)), m);
        assert false;
      } else {
        StillThere(ss, acts, i + 1, j, t, ctid, slot, m);
      }
    }
  }

  /** From a filled slot to the return of the clone(). */
  lemma CloneRuns(ss: seq<State>, acts: seq<Action>, i: nat, m: nat, t: nat, ctid: nat, slot: nat, th: Thread)
      returns (p: nat, u: nat)
    requires IsRun(ss, acts) && i < m < |ss| && StackOf(ss[m], t) == Push(App, Empty) && th.state == Free
    requires StackOf(ss[i], t) == Push(Cl(LLock, ctid, slot), Push(App, Empty)) && Holds(ss[i], slot, th)
    ensures i < p < u < m && Published(ss[p], ss[p + 1], slot) && Holds(ss[p + 1], slot, th.(state := Ready))
    ensures StackOf(ss[u + 1], t) == Push(App, Empty) && RetOf(ss[u + 1], t) == th.tid
    ensures MaskOf(ss[u + 1], t) == MaskOf(ss[i], t)
  {
    var mask, app := MaskOf(ss[i], t), Push(App, Empty);
    var l := Proceeds(ss, acts, i, m, t, Push(Cl(LLock, ctid, slot), app), mask);
    HeldTo(ss, acts, i, l, t, Cl(LLock, ctid, slot), slot, th, mask);
    LocksAt(ss, acts, l, t, ctid, slot);
    p := Proceeds(ss, acts, l + 1, m, t, Push(Cl(LBody, ctid, slot), app), mask);
    HeldTo(ss, acts, l + 1, p, t, Cl(LBody, ctid, slot), slot, th, mask);
    CloneEndsAt(ss, acts, p, t, ctid, slot);
    u := CloneReturns(ss, acts, p + 1, m, t, ctid, slot);
  }

  lemma CloneReturns(ss: seq<State>, acts: seq<Action>, i: nat, m: nat, t: nat, ctid: nat, slot: nat) returns (u: nat)
    requires IsRun(ss, acts) && 0 < i < m < |ss| && StackOf(ss[m], t) == Push(App, Empty)
    requires Sized(ss[i]) && slot < ALL_THREADS && ss[i].sc.current == t
    requires StackOf(ss[i], t) == Push(Cl(LUnlock, ctid, slot), Push(App, Empty))
    ensures i <= u < m && StackOf(ss[u + 1], t) == Push(App, Empty) && RetOf(ss[u + 1], t) == ss[i].sc.threads[slot].tid
    ensures MaskOf(ss[u + 1], t) == MaskOf(ss[i], t)
  {
    u := Proceeds(ss, acts, i, m, t, Push(Cl(LUnlock, ctid, slot), Push(App, Empty)), MaskOf(ss[i], t));
    StillThere(ss, acts, i, u, t, ctid, slot, MaskOf(ss[i], t));
    UnlocksAt(ss, acts, u, t, ctid, slot);
  }

  lemma CloneAskedAt(ss: seq<State>, acts: seq<Action>, i: nat, ctid: nat)
    requires IsRun(ss, acts) && i < |acts| && acts[i] == User(Clone(ctid))
    ensures var t := ss[i].sc.current;
            && StackOf(ss[i], t) == Push(App, Empty)
            && StackOf(ss[i + 1], t) == Push(Cl(LAlloc, ctid, 0), Push(App, Empty))
            && MaskOf(ss[i + 1], t) == MaskOf(ss[i], t)
  {
    RunStep(ss, acts, i);
    AppIsBottom(Stk(ss[i]));
  }

  lemma FillsAt(ss: seq<State>, acts: seq<Action>, a: nat, t: nat, ctid: nat) returns (slot: nat)
    requires IsRun(ss, acts) && a < |acts| && At(ss[a], acts[a], t, Push(Cl(LAlloc, ctid, 0), Push(App, Empty)))
    ensures slot < ALL_THREADS ==>
              && Filled(ss[a], ss[a + 1], slot, ctid) && MaskOf(ss[a + 1], t) == MaskOf(ss[a], t)
              && StackOf(ss[a + 1], t) == Push(Cl(LLock, ctid, slot), Push(App, Empty))
    ensures slot >= ALL_THREADS ==>
              && (forall k :: 1 <= k < ALL_THREADS ==> ss[a].sc.threads[k].state != Free)
              && StackOf(ss[a + 1], t) == Push(App, Empty) && RetOf(ss[a + 1], t) == -11 && ss[a + 1].sc == ss[a].sc
  {
    RunStep(ss, acts, a);
    assert Cur(ss[a]).state != Free;
    slot := Fills(ss[a], Push(App, Empty), ctid);
  }

  /** The answer to clone(): EAGAIN (11) and nothing done if no slot was free at step a; otherwise a tid greater than
      any given out before, and the thread that has it, in the lowest free slot, became READY at step p, with its
      creator's mask. */
  lemma CloneAnswer(ss: seq<State>, acts: seq<Action>, i: nat, m: nat, t: nat, ctid: nat)
      returns (a: nat, slot: nat, p: nat)
    requires IsRun(ss, acts) && Answered(ss, acts, i, m, t, Clone(ctid))
    ensures i < a < m && Tids(ss[a])
    ensures slot >= ALL_THREADS ==>
              && (forall k :: 1 <= k < ALL_THREADS ==> ss[a].sc.threads[k].state != Free)
              && RetOf(ss[m], t) == -11 && m == a + 1 && ss[m].sc == ss[a].sc
    ensures slot < ALL_THREADS ==>
              && a < p < m && Filled(ss[a], ss[a + 1], slot, ctid) && Published(ss[p], ss[p + 1], slot)
              && RetOf(ss[m], t) == ss[a].nextTid
              && (forall x :: 0 <= x < ALL_THREADS ==> ss[a].sc.threads[x].tid < RetOf(ss[m], t))
              && ss[p + 1].sc.threads[slot].tid == RetOf(ss[m], t) && ss[p + 1].sc.threads[slot].ctid == ctid
              && MaskOf(ss[p + 1], slot) == MaskOf(ss[i], t)
  {
    CloneAskedAt(ss, acts, i, ctid);
    NotPush(StackOf(ss[i + 1], t));
    a := Proceeds(ss, acts, i + 1, m, t, Push(Cl(LAlloc, ctid, 0), Push(App, Empty)), MaskOf(ss[i], t));
    TidsDistinct(ss, acts, a);
    slot := FillsAt(ss, acts, a, t, ctid);
    p := a;
    if slot < ALL_THREADS {
      var th := ss[a + 1].sc.threads[slot];
      var u;
      p, u := CloneRuns(ss, acts, a + 1, m, t, ctid, slot, th);
    }
  }

  // --- exit --------------------------------------------------------------------------------------

  /** The instructions of an exit up to its last switch. */
  lemma ExitMoves(s: State)
    requires Live(s) && Stk(s).top.Ex? && Stk(s).below == Push(App, Empty) && Sized(RunExit(s))
    ensures var pc, t, app, st' := Stk(s).top.xpc, s.sc.current, Push(App, Empty), RunExit(s).stacks[s.sc.current];
            && (pc == XLock ==> st' == Push(Ex(XPark), app))
            && (pc == XPark ==> st' == Push(Ex(XUnlock), app) && RunExit(s).sc.threads[t].state == Blocked)
            && (pc == XUnlock ==> st' == Push(Ex(XCtid), app))
            && (pc == XCtid ==> st' == Push(Ex(if Cur(s).ctid == 0 then XLock2 else XWake), app))
            && (pc == XWake ==> st' == Push(Wk(Lock, Cur(s).ctid, 1, 0), Push(Ex(XLock2), app)))
            && RunExit(s).sc.threads[t].blocked == Cur(s).blocked
  {
    match Stk(s).top.xpc
    case XLock => case XPark => case XUnlock => case XCtid => case XWake =>
    case XLock2 => case XSwitch => case XNone => case XIdle => case XSleep =>
  }

  /** The word at the address to clear, if there is one, is 0 in s', and no other word has changed. */
  ghost predicate Zeroed(s: State, s': State, ctid: nat) {
    && (ctid != 0 ==> Load(s'.mem, ctid) == 0)
    && forall a: nat :: a == 0 || a != ctid ==> Load(s'.mem, a) == Load(s.mem, a)
  }

  lemma ExitZeroes(s: State)
    requires Live(s) && Stk(s).top == Ex(XCtid)
    ensures Zeroed(s, RunExit(s), Cur(s).ctid)
  {
    assert RunExit(s).mem == if Cur(s).ctid == 0 then s.mem else s.mem[Cur(s).ctid := 0];
  }

  lemma ExitMovesAt(ss: seq<State>, acts: seq<Action>, j: nat, t: nat, pc: ExitPc)
    requires IsRun(ss, acts) && j < |acts| && At(ss[j], acts[j], t, Push(Ex(pc), Push(App, Empty)))
    requires pc in {XLock, XPark, XUnlock, XCtid, XWake}
    ensures var app, st', c := Push(App, Empty), StackOf(ss[j + 1], t), ss[j].sc.threads[t].ctid;
            && (pc == XLock ==> st' == Push(Ex(XPark), app))
            && (pc == XPark ==> st' == Push(Ex(XUnlock), app))
            && (pc == XUnlock ==> st' == Push(Ex(XCtid), app))
            && (pc == XCtid ==> st' == Push(Ex(if c == 0 then XLock2 else XWake), app) && Zeroed(ss[j], ss[j + 1], c))
            && (pc == XWake ==> st' == Push(Wk(Lock, c, 1, 0), Push(Ex(XLock2), app)))
            && MaskOf(ss[j + 1], t) == MaskOf(ss[j], t)
  {
    RunStep(ss, acts, j);
    ExitMoves(ss[j]);
    if pc == XCtid { ExitZeroes(ss[j]); }
  }

  function CtidOf(s: State, t: nat): nat {
    if Sized(s) && t < ALL_THREADS then s.sc.threads[t].ctid else 0
  }

  lemma CtidStep(ss: seq<State>, acts: seq<Action>, k: nat, t: nat)
    requires IsRun(ss, acts) && k < |acts| && StackOf(ss[k], t) != Empty
    ensures CtidOf(ss[k + 1], t) == CtidOf(ss[k], t)
  {
    RunStep(ss, acts, k);
    assert ss[k].sc.threads[t].state != Free;
    if Allocates(ss[k], acts[k]) { CtidAlloc(ss[k], t); } else { IdsStep(ss[k], acts[k]); }
  }

  lemma CtidAlloc(s: State, t: nat)
    requires Live(s) && Stk(s).top.Cl? && Stk(s).top.lpc == LAlloc && Sized(RunTop(s))
    requires t < ALL_THREADS && s.sc.threads[t].state != Free
    ensures RunTop(s).sc.threads[t].ctid == s.sc.threads[t].ctid
  {
  }

  lemma {:induction false} CtidStays(ss: seq<State>, acts: seq<Action>, i: nat, j: nat, t: nat)
    requires IsRun(ss, acts) && i <= j < |ss| && forall k :: i <= k < j ==> StackOf(ss[k], t) != Empty
    ensures CtidOf(ss[j], t) == CtidOf(ss[i], t)
    decreases j - i
  {
    if i < j {
      CtidStep(ss, acts, j - 1, t);
      CtidStays(ss, acts, i, j - 1, t);
    }
  }

  lemma ExitAskedAt(ss: seq<State>, acts: seq<Action>, i: nat)
    requires IsRun(ss, acts) && i < |acts| && acts[i] == User(Exit)
    ensures StackOf(ss[i + 1], ss[i].sc.current) == Push(Ex(XLock), Push(App, Empty))
    ensures StackOf(ss[i], ss[i].sc.current) == Push(App, Empty)
  {
    RunStep(ss, acts, i);
    AppIsBottom(Stk(ss[i]));
  }

  /** The next instruction of an exit that has ended by step q. */
  lemma ExitGoes(ss: seq<State>, acts: seq<Action>, i: nat, q: nat, t: nat, pc: ExitPc) returns (j: nat)
    requires IsRun(ss, acts) && i < q < |ss| && StackOf(ss[i], t) == Push(Ex(pc), Push(App, Empty))
    requires StackOf(ss[q], t) == Empty
    ensures i <= j < q && At(ss[j], acts[j], t, Push(Ex(pc), Push(App, Empty))) && acts[j] == Run
  {
    j := Proceeds(ss, acts, i, q, t, Push(Ex(pc), Push(App, Empty)), MaskOf(ss[i], t));
  }

  /** An exit has parked its thread and comes to *ctid at step z. */
  lemma ExitParks(ss: seq<State>, acts: seq<Action>, i: nat, q: nat, t: nat) returns (z: nat)
    requires IsRun(ss, acts) && i < q < |ss| && StackOf(ss[i], t) == Push(Ex(XLock), Push(App, Empty))
    requires StackOf(ss[q], t) == Empty
    ensures i < z < q && At(ss[z], acts[z], t, Push(Ex(XCtid), Push(App, Empty))) && acts[z] == Run
  {
    var j := ExitGoes(ss, acts, i, q, t, XLock);
    ExitMovesAt(ss, acts, j, t, XLock);
    j := ExitGoes(ss, acts, j + 1, q, t, XPark);
    ExitMovesAt(ss, acts, j, t, XPark);
    j := ExitGoes(ss, acts, j + 1, q, t, XUnlock);
    ExitMovesAt(ss, acts, j, t, XUnlock);
    z := ExitGoes(ss, acts, j + 1, q, t, XCtid);
  }

  lemma ExitClears(ss: seq<State>, acts: seq<Action>, i: nat, q: nat, t: nat) returns (z: nat)
    requires IsRun(ss, acts) && i < q < |ss| && acts[i] == User(Exit) && ss[i].sc.current == t
    requires StackOf(ss[q], t) == Empty && forall k :: i <= k < q ==> StackOf(ss[k], t) != Empty
    ensures i < z && z + 1 < q && Zeroed(ss[z], ss[z + 1], CtidOf(ss[i], t))
    ensures CtidOf(ss[i], t) != 0 ==> StackOf(ss[z + 1], t) == Push(Ex(XWake), Push(App, Empty))
  {
    ExitAskedAt(ss, acts, i);
    z := ExitParks(ss, acts, i + 1, q, t);
    CtidStays(ss, acts, i, z, t);
    ExitMovesAt(ss, acts, z, t, XCtid);
  }

  /** From s to s' one thread parked on addr was woken, the lowest, or nobody was parked there. */
  ghost predicate WakesOne(s: State, s': State, addr: nat) {
    Sized(s') && WakesUpTo(s, s', addr, 1, |WokenBetween(s, s', addr)|)
  }

  /** A thread that asked to exit at step i, whose stack is gone at q, has set the word its creator named to 0, at z,
      and then woken one thread parked there, at w, if there was any; its slot is free. */
  lemma ExitAnswer(ss: seq<State>, acts: seq<Action>, i: nat, q: nat, t: nat) returns (z: nat, w: nat)
    requires IsRun(ss, acts) && i < q < |ss| && acts[i] == User(Exit) && ss[i].sc.current == t
    requires StackOf(ss[q], t) == Empty && forall k :: i <= k < q ==> StackOf(ss[k], t) != Empty
    ensures i < z < q && Zeroed(ss[z], ss[z + 1], CtidOf(ss[i], t))
    ensures CtidOf(ss[i], t) != 0 ==> z < w < q && WakesOne(ss[w], ss[w + 1], CtidOf(ss[i], t))
    ensures Sized(ss[q]) && t < ALL_THREADS && ss[q].sc.threads[t].state == Free
  {
    assert t < ALL_THREADS by { ExitAskedAt(ss, acts, i); }
    z := ExitClears(ss, acts, i, q, t);
    w := z;
    if CtidOf(ss[i], t) != 0 {
      w := ExitWakes(ss, acts, i, z + 1, q, t);
    }
    FreeIs(ss, acts, q, t);
  }

  lemma FreeIs(ss: seq<State>, acts: seq<Action>, q: nat, t: nat)
    requires IsRun(ss, acts) && q < |ss| && StackOf(ss[q], t) == Empty && t < ALL_THREADS
    ensures Sized(ss[q]) && ss[q].sc.threads[t].state == Free
  {
    RunInv(ss, acts, q);
    assert ThreadOK(ss[q].sc.threads[t], ss[q].stacks[t], t == ss[q].sc.current);
  }

  lemma ExitWakes(ss: seq<State>, acts: seq<Action>, i: nat, y: nat, q: nat, t: nat) returns (w: nat)
    requires IsRun(ss, acts) && i < y < q < |ss| && StackOf(ss[y], t) == Push(Ex(XWake), Push(App, Empty))
    requires StackOf(ss[q], t) == Empty && (forall k :: i <= k < q ==> StackOf(ss[k], t) != Empty)
    requires CtidOf(ss[i], t) != 0
    ensures y <= w < q && WakesOne(ss[w], ss[w + 1], CtidOf(ss[i], t))
  {
    var c := CtidOf(ss[i], t);
    var j := ExitGoes(ss, acts, y, q, t, XWake);
    CtidStays(ss, acts, i, j, t);
    ExitMovesAt(ss, acts, j, t, XWake);
    var e;
    w, e := WakeRuns(ss, acts, j + 1, q, t, Push(Ex(XLock2), Push(App, Empty)), c, 1, MaskOf(ss[j + 1], t));
  }
}
