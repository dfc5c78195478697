/** Signal delivery from the timer tick: masks are restored through any nesting of ticks and
    handlers, nothing blocked is delivered, and nesting is bounded. */
module ThreadSignals {
  import opened ThreadModel
  import opened ThreadSteps
  import opened ThreadInvariant
  import opened ThreadPreserved
  import opened ThreadWaits

  /** A frame that neither holds a saved mask nor changes the blocked mask. */
  predicate Quiet(f: Frame) {
    !f.Cs? && (f.Dl? ==> f.dpc == DCheck)
  }

  /** How a function other than delivery and sigprocmask moves its stack. */
  predicate QuietMove(st: Stack, st': Stack) {
    || st' == st
    || st' == Empty
    || (st.Push? && st' == st.below)
    || (st.Push? && st'.Push? && st'.below == st.below && Quiet(st'.top))
    || (st.Push? && st'.Push? && st'.below.Push? && st'.below.below == st.below && Quiet(st'.top)
       && Quiet(st'.below.top))
  }

  lemma QuietRun(s: State)
    requires Live(s) && SchedOK(s.sc) && !IsUser(Stk(s).top) && !Stk(s).top.Dl? && !Stk(s).top.Cs? && Sized(RunTop(s))
    requires Stk(s).top.Cl? && Stk(s).top.lpc == LBody ==> Stk(s).top.slot != s.sc.current
    ensures QuietMove(Stk(s), RunTop(s).stacks[s.sc.current])
  {
    match Stk(s).top
    case Wt(_, _, _, _, _) => QuietWait(s);
    case Rs(_, _) => QuietResched(s);
    case Ex(_) => QuietExit(s);
    case Cl(_, _, _) => QuietClone(s);
    case _ => QuietSimple(s);
  }

  lemma QuietSimple(s: State)
    requires Live(s) && (Stk(s).top == Tramp || Stk(s).top.Sc? || Stk(s).top.Wk? || Stk(s).top.Tk?) && Sized(RunTop(s))
    ensures QuietMove(Stk(s), RunTop(s).stacks[s.sc.current])
    ensures Stk(s).below.Push? || Stk(s).top == Tramp ==> RunTop(s).stacks[s.sc.current].Push?
  {
    match Stk(s).top
    case Tramp => case Sc(_) => case Wk(_, _, _, _) => case Tk(_, _) =>
  }

  lemma QuietClone(s: State)
    requires Live(s) && Stk(s).top.Cl? && Sized(RunClone(s))
    requires (Stk(s).top.lpc == LBody ==> Stk(s).top.slot != s.sc.current)
    ensures QuietMove(Stk(s), RunClone(s).stacks[s.sc.current])
    ensures Stk(s).below.Push? ==> RunClone(s).stacks[s.sc.current].Push?
  {
    match Stk(s).top.lpc
    case LAlloc => case LLock => case LBody => case LUnlock =>
  }

  lemma QuietWait(s: State)
    requires Live(s) && Stk(s).top.Wt? && Sized(RunWait(s))
    ensures QuietMove(Stk(s), RunWait(s).stacks[s.sc.current])
  {
    match Stk(s).top.wpc
    case WCheck => case WSig => case WClock => case WLock => case WPark =>
    case WFail => case WUnlock => case WCall => case WWait => case WClear =>
  }

  lemma QuietResched(s: State)
    requires Live(s) && Stk(s).top.Rs? && Sized(RunResched(s))
    ensures QuietMove(Stk(s), RunResched(s).stacks[s.sc.current])
    ensures Stk(s).below.Push? ==> RunResched(s).stacks[s.sc.current].Push?
  {
    match Stk(s).top.rpc
    case RTop => case RSelf => case RResume => case RNone => case RIdle => case RSleep => case RBody =>
  }

  lemma QuietExit(s: State)
    requires Live(s) && Stk(s).top.Ex? && Sized(RunExit(s))
    ensures QuietMove(Stk(s), RunExit(s).stacks[s.sc.current])
  {
    match Stk(s).top.xpc
    case XLock => case XPark => case XUnlock => case XCtid => case XWake =>
    case XLock2 => case XSwitch => case XNone => case XIdle => case XSleep =>
  }

  lemma MaskWakes(s: State, t: nat)
    requires Live(s) && SchedOK(s.sc) && (Stk(s).top.Sc? || Stk(s).top.Wk?) && t < ALL_THREADS && Sized(RunTop(s))
    ensures RunTop(s).sc.threads[t].blocked == s.sc.threads[t].blocked
  {
    if Stk(s).top.Sc? {
      ScanEffect(s.sc, 0, s.clock);
    } else {
      WakeEffect(s.sc, 0, Stk(s).top.addr, Stk(s).top.n);
    }
  }

  lemma MaskOthers(s: State, t: nat)
    requires Live(s) && (Stk(s).top.Cl? || Stk(s).top.Cs? || Stk(s).top.Tk? || Stk(s).top == Tramp)
    requires Sized(RunTop(s)) && t < ALL_THREADS && (t == s.sc.current ==> !Stk(s).top.Cs?)
    requires s.sc.threads[t].state != Free
    ensures RunTop(s).sc.threads[t].blocked == s.sc.threads[t].blocked
  {
    match Stk(s).top
    case Tramp => case Tk(_, _) => case Cl(_, _, _) => case Cs(_, _) =>
  }

  /** Only the owner changes a blocked mask, in delivery or sigprocmask (a slot being filled aside). */
  lemma MaskRun(s: State, t: nat)
    requires Live(s) && SchedOK(s.sc) && !IsUser(Stk(s).top) && Sized(RunTop(s)) && t < ALL_THREADS
    requires t == s.sc.current ==> !Stk(s).top.Dl? && !Stk(s).top.Cs?
    requires s.sc.threads[t].state != Free
    ensures RunTop(s).sc.threads[t].blocked == s.sc.threads[t].blocked
  {
    match Stk(s).top
    case Sc(_) => MaskWakes(s, t);
    case Wk(_, _, _, _) => MaskWakes(s, t);
    case Wt(_, _, _, _, _) => WaitFrame(s);
    case Rs(_, _) => ReschedFrame(s);
    case Ex(_) => ExitFrame(s);
    case Dl(_, _, _) => DeliverFrame(s);
    case _ => MaskOthers(s, t);
  }

  // --- masks are restored ------------------------------------------------------------------

  /** A tick that found mask m when the stack was `base` is still in progress. */
  predicate Inside(st: Stack, base: Stack, m: set<nat>) {
    st.Push? && ((st.top.Tk? && st.top.mask == m && st.below == base) || Inside(st.below, base, m))
  }

  /** What is inside stays inside while frames come and go above it. */
  lemma InsideMove(st: Stack, st': Stack, base: Stack, m: set<nat>)
    requires st.Push? && Inside(st.below, base, m)
    requires st' == st || st' == st.below || (st'.Push? && st'.below == st.below)
             || (st'.Push? && st'.below.Push? && st'.below.below == st.below) || (st'.Push? && st'.below == st)
    ensures Inside(st', base, m)
  {
  }

  lemma InsideTick(s: State, base: Stack, m: set<nat>)
    requires LocalOK(s) && Live(s) && Stk(s).top.Tk? && Inside(Stk(s), base, m) && Sized(RunTick(s))
    ensures var st' := RunTick(s).stacks[s.sc.current];
            Inside(st', base, m) || (st' == base && RunTick(s).sc.threads[s.sc.current].blocked == m)
  {
    match Stk(s).top.tpc
    case TScan => case TDeliver => case TState => case THead => case TEnd =>
  }

  lemma InsideRun(s: State, base: Stack, m: set<nat>)
    requires LocalOK(s) && SchedOK(s.sc) && Live(s) && !IsUser(Stk(s).top) && !Stk(s).top.Tk? && Sized(RunTop(s))
    requires Stk(s).top.Cl? && Stk(s).top.lpc == LBody ==> Stk(s).top.slot != s.sc.current
    requires Inside(Stk(s), base, m)
    ensures Inside(RunTop(s).stacks[s.sc.current], base, m)
  {
    var f, st' := Stk(s).top, RunTop(s).stacks[s.sc.current];
    if f.Ex? {
      ExNotInside(Stk(s), base, m);
      assert false;
    } else {
      if f.Dl? {
        DeliverMoves(s);
      } else if f.Cs? {
        CriticalMoves(s);
      } else {
        QuietRun(s);
        NeverEmptied(s);
      }
      InsideMove(Stk(s), st', base, m);
    }
  }

  lemma ExNotInside(st: Stack, base: Stack, m: set<nat>)
    requires Shape(st) && st.Push? && st.top.Ex?
    ensures !Inside(st, base, m)
  {
    AppIsBottom(st.below);
    assert !Inside(st.below.below, base, m);
  }

  lemma CriticalMoves(s: State)
    requires Live(s) && Stk(s).top.Cs? && Sized(RunCritical(s))
    ensures var st, st' := Stk(s), RunCritical(s).stacks[s.sc.current];
            st' == st.below || (st'.Push? && st'.below == st.below && st'.top.Cs? && st'.top.act == st.top.act)
  {
  }

  /** Only an exiting thread loses its stack. */
  lemma NeverEmptied(s: State)
    requires LocalOK(s) && Live(s) && !IsUser(Stk(s).top) && !Stk(s).top.Ex? && !Stk(s).top.Dl? && Sized(RunTop(s))
    requires Stk(s).top.Cl? && Stk(s).top.lpc == LBody ==> Stk(s).top.slot != s.sc.current
    ensures RunTop(s).stacks[s.sc.current].Push?
  {
    assert Stk(s).top != Tramp ==> Stk(s).below.Push?;
    match Stk(s).top
    case Wt(_, _, _, _, _) => WaitNext(s);
    case Rs(_, _) => QuietResched(s);
    case Cl(_, _, _) => QuietClone(s);
    case Cs(_, _) => CriticalMoves(s);
    case _ => QuietSimple(s);
  }

  lemma InsideCurrent(s: State, a: Action, base: Stack, m: set<nat>)
    requires Inv(s) && Enabled(s, a) && Sized(Step(s, a)) && Inside(Stk(s), base, m)
    ensures var st' := Step(s, a).stacks[s.sc.current];
            Inside(st', base, m) || (st' == base && Step(s, a).sc.threads[s.sc.current].blocked == m)
  {
    if !a.Run? {
      InsideUser(s, a, base, m);
    } else if Stk(s).top.Tk? {
      InsideTick(s, base, m);
    } else {
      if Stk(s).top.Cl? { CloneFrame(Cur(s), Stk(s).top, Stk(s).top, Stk(s).below); }
      InsideRun(s, base, m);
    }
  }

  lemma InsideUser(s: State, a: Action, base: Stack, m: set<nat>)
    requires Live(s) && !a.Run? && (a.User? ==> IsUser(Stk(s).top)) && (a.HandlerReturn? ==> IsHandler(Stk(s).top))
    requires Inside(Stk(s), base, m) && Sized(Step(s, a))
    ensures Inside(Step(s, a).stacks[s.sc.current], base, m)
  {
    match a
    case Advance(_) => case Tick => case HandlerReturn =>
    case User(req) => EnterFrame(s, req);
  }

  lemma DeliverMoves(s: State)
    requires Live(s) && Stk(s).top.Dl? && !IsUser(Stk(s).top) && Sized(RunDeliver(s))
    ensures var st, st' := Stk(s), RunDeliver(s).stacks[s.sc.current];
            st' == st || st' == st.below || (st'.Push? && st'.below == st.below)
  {
    match Stk(s).top.dpc
    case DCheck => case DLock => case DClear => case DUnlock => case DAct =>
    case DMask => case DSelf => case DReset => case DRestore =>
  }

  lemma InsideStep(s: State, a: Action, t: nat, base: Stack, m: set<nat>)
    requires Inv(s) && Enabled(s, a) && Sized(Step(s, a)) && t < ALL_THREADS && Inside(s.stacks[t], base, m)
    ensures var st' := Step(s, a).stacks[t];
            Inside(st', base, m) || (st' == base && Step(s, a).sc.threads[t].blocked == m)
  {
    if t == s.sc.current {
      InsideCurrent(s, a, base, m);
    } else {
      OtherStack(s, a, t);
      assert ThreadOK(s.sc.threads[t], s.stacks[t], false);
    }
  }

  lemma {:induction false} StaysTrue(b: seq<bool>, i: nat, j: nat)
    requires i <= j < |b| && b[i]
    requires forall k :: i <= k < j && b[k] ==> b[k + 1]
    ensures b[j]
  {
    if i < j {
      var k := j - 1;
      StaysTrue(b, i, k);
      assert b[k];
    }
  }

  function StackOf(s: State, t: nat): Stack {
    if Sized(s) && t < ALL_THREADS then s.stacks[t] else Empty
  }

  function MaskOf(s: State, t: nat): set<nat> {
    if Sized(s) && t < ALL_THREADS then s.sc.threads[t].blocked else {}
  }

  /** Once the code a tick landed on goes on, its blocked mask is what it was, however many
      ticks, handlers, switches and sigprocmask() calls were nested in that tick. */
  lemma TickRestoresMask(ss: seq<State>, acts: seq<Action>, i: nat, n: nat, t: nat)
    requires IsRun(ss, acts) && i + 1 < n < |ss| && acts[i] == Tick && t == ss[i].sc.current
    requires StackOf(ss[n], t) == StackOf(ss[i], t)
    requires forall k :: i < k < n ==> StackOf(ss[k], t) != StackOf(ss[i], t)
    ensures MaskOf(ss[n], t) == MaskOf(ss[i], t)
  {
    var st := seq(|ss|, k requires 0 <= k < |ss| => StackOf(ss[k], t));
    var mk := seq(|ss|, k requires 0 <= k < |ss| => MaskOf(ss[k], t));
    TickEnters(ss, acts, i, t);
    forall k | i < k < n && Inside(st[k], st[i], mk[i])
      ensures Inside(st[k + 1], st[i], mk[i]) || (st[k + 1] == st[i] && mk[k + 1] == mk[i])
    {
      InsideRunStep(ss, acts, k, t, st[i], mk[i]);
    }
    MaskReturns(st, mk, i, n);
  }

  lemma MaskReturns(st: seq<Stack>, mk: seq<set<nat>>, i: nat, n: nat)
    requires |st| == |mk| && i + 1 < n < |st| && st[n] == st[i] && Inside(st[i + 1], st[i], mk[i])
    requires forall k :: i < k < n ==> st[k] != st[i]
    requires forall k :: i < k < n && Inside(st[k], st[i], mk[i]) ==>
               Inside(st[k + 1], st[i], mk[i]) || (st[k + 1] == st[i] && mk[k + 1] == mk[i])
    ensures mk[n] == mk[i]
  {
    var b := seq(|st|, k requires 0 <= k < |st| => Inside(st[k], st[i], mk[i]));
    StaysTrue(b, i + 1, n - 1);
    NotInsideItself(st[i], st[i], mk[i]);
    var k := n - 1;
    assert b[k] && Inside(st[k], st[i], mk[i]);
  }

  lemma TickEnters(ss: seq<State>, acts: seq<Action>, i: nat, t: nat)
    requires IsRun(ss, acts) && i < |acts| && acts[i] == Tick && t == ss[i].sc.current
    ensures Inside(StackOf(ss[i + 1], t), StackOf(ss[i], t), MaskOf(ss[i], t))
  {
    RunStep(ss, acts, i);
  }

  lemma InsideRunStep(ss: seq<State>, acts: seq<Action>, k: nat, t: nat, base: Stack, m: set<nat>)
    requires IsRun(ss, acts) && k < |acts| && Inside(StackOf(ss[k], t), base, m)
    ensures Inside(StackOf(ss[k + 1], t), base, m) || (StackOf(ss[k + 1], t) == base && MaskOf(ss[k + 1], t) == m)
  {
    RunStep(ss, acts, k);
    InsideStep(ss[k], acts[k], t, base, m);
  }

  ghost function Size(st: Stack): nat {
    if st.Empty? then 0 else 1 + Size(st.below)
  }

  lemma NotInsideItself(st: Stack, base: Stack, m: set<nat>)
    requires Size(st) <= Size(base)
    ensures !Inside(st, base, m)
  {
  }

  // --- what is delivered -------------------------------------------------------------------

  /** A handler only ever runs for a signal that the code the tick landed on did not block. */
  lemma DeliveredUnblocked(ss: seq<State>, acts: seq<Action>, n: nat)
    requires IsRun(ss, acts) && n < |ss| && Sized(ss[n]) && Stk(ss[n]).Push? && IsHandler(Stk(ss[n]).top)
    ensures Stk(ss[n]).top.sig !in Stk(ss[n]).top.saved
    ensures Stk(ss[n]).below.Push? && Stk(ss[n]).below.top == Tk(TState, Stk(ss[n]).top.saved)
  {
    RunInv(ss, acts, n);
    TickBelow(Stk(ss[n]), Cur(ss[n]).blocked);
  }

  lemma TickBelow(st: Stack, actual: set<nat>)
    requires Shape(st) && MaskOK(st, actual) && st.Push? && IsHandler(st.top)
    ensures st.top.sig !in st.top.saved && st.below.Push? && st.below.top == Tk(TState, st.top.saved)
  {
    assert MaskOK(st.below, st.top.saved);
  }

  /** The tick picks the lowest deliverable signal, and none only if there is none. */
  lemma LowestFirst(s: State)
    requires Inv(s) && Enabled(s, Run) && Stk(s).top == Dl(DCheck, 0, {}) && Sized(RunTop(s))
    ensures var d, st' := Cur(s).pending - Cur(s).blocked, RunTop(s).stacks[s.sc.current];
            if d == {} then st' == Stk(s).below
            else st'.Push? && st'.top.Dl? && st'.top.dpc == DLock && st'.top.sig in d && forall x :: x in d ==>
                st'.top.sig <= x
  {
    var d := Cur(s).pending - Cur(s).blocked;
    assert Signals(Cur(s).pending);
    if d != {} {
      var x :| x in d;
      assert 1 <= x <= 64;
    }
  }

  /** A pending bit goes away only when its own delivery clears it. */
  lemma ClearedByDelivery(s: State, a: Action, t: nat, sig: nat)
    requires Inv(s) && Enabled(s, a) && Sized(Step(s, a)) && t < ALL_THREADS && s.sc.threads[t].state != Free
    requires sig in s.sc.threads[t].pending && sig !in Step(s, a).sc.threads[t].pending
    ensures t == s.sc.current && a == Run && Stk(s).top.Dl? && Stk(s).top.dpc == DClear && Stk(s).top.sig == sig
  {
    if a.Run? {
      PendingRun(s, t, sig);
    } else {
      OnlyRunSchedules(s, a);
      assert false;
    }
  }

  lemma OnlyRunSchedules(s: State, a: Action)
    requires Live(s) && !a.Run? && (a.HandlerReturn? ==> IsHandler(Stk(s).top)) && Sized(Step(s, a))
    ensures Step(s, a).sc == s.sc
  {
    match a
    case Advance(_) => case Tick => case HandlerReturn =>
    case User(req) => EnterFrame(s, req);
  }

  lemma PendingRun(s: State, t: nat, sig: nat)
    requires SchedOK(s.sc) && Live(s) && !IsUser(Stk(s).top) && Sized(RunTop(s)) && t < ALL_THREADS
    requires s.sc.threads[t].state != Free
    requires sig in s.sc.threads[t].pending && sig !in RunTop(s).sc.threads[t].pending
    ensures t == s.sc.current && Stk(s).top.Dl? && Stk(s).top.dpc == DClear && Stk(s).top.sig == sig
  {
    match Stk(s).top
    case Sc(_) => PendingWakes(s, t);
    case Wk(_, _, _, _) => PendingWakes(s, t);
    case Wt(_, _, _, _, _) => WaitFrame(s);
    case Rs(_, _) => ReschedFrame(s);
    case Ex(_) => ExitFrame(s);
    case Dl(_, _, _) => PendingDeliver(s, t, sig);
    case Cs(_, _) => PendingCritical(s, t);
    case _ => PendingOthers(s, t);
  }

  lemma PendingOthers(s: State, t: nat)
    requires Live(s) && (Stk(s).top.Cl? || Stk(s).top.Tk? || Stk(s).top == Tramp) && Sized(RunTop(s))
    requires t < ALL_THREADS && s.sc.threads[t].state != Free
    ensures RunTop(s).sc.threads[t].pending == s.sc.threads[t].pending
  {
    match Stk(s).top
    case Tramp => case Tk(_, _) => case Cl(_, _, _) =>
  }

  lemma PendingWakes(s: State, t: nat)
    requires Live(s) && SchedOK(s.sc) && (Stk(s).top.Sc? || Stk(s).top.Wk?) && t < ALL_THREADS && Sized(RunTop(s))
    ensures RunTop(s).sc.threads[t].pending == s.sc.threads[t].pending
  {
    if Stk(s).top.Sc? {
      ScanEffect(s.sc, 0, s.clock);
    } else {
      WakeEffect(s.sc, 0, Stk(s).top.addr, Stk(s).top.n);
    }
  }

  lemma PendingCritical(s: State, t: nat)
    requires Live(s) && Stk(s).top.Cs? && Sized(RunCritical(s)) && t < ALL_THREADS
    ensures s.sc.threads[t].pending <= RunCritical(s).sc.threads[t].pending
  {
  }

  lemma PendingDeliver(s: State, t: nat, sig: nat)
    requires Live(s) && Stk(s).top.Dl? && !IsUser(Stk(s).top) && Sized(RunDeliver(s)) && t < ALL_THREADS
    requires sig in s.sc.threads[t].pending && sig !in RunDeliver(s).sc.threads[t].pending
    ensures t == s.sc.current && Stk(s).top.dpc == DClear && Stk(s).top.sig == sig
  {
    match Stk(s).top.dpc
    case DCheck => case DLock => case DClear => case DUnlock => case DAct =>
    case DMask => case DSelf => case DReset => case DRestore =>
  }

  // --- nesting is bounded ------------------------------------------------------------------

  /** Handlers in progress. */
  function Depth(st: Stack): nat {
    if st.Empty? then 0 else Depth(st.below) + if st.top.Dl? && (st.top.dpc == DHandler || st.top.dpc == DReset) then 1
        else 0
  }

  /** Each handler in progress runs with its own signal, and all its caller blocked, blocked. */
  predicate Tame(st: Stack, actual: set<nat>) {
    st.Push? ==>
      match st.top
      case Dl(pc, sig, saved) =>
        if pc == DHandler || pc == DReset then saved + {sig} <= actual && Tame(st.below, saved)
        else if pc == DSelf || pc == DMask || pc == DRestore then saved <= actual && Tame(st.below, saved)
        else Tame(st.below, actual)
      case Cs(_, act) =>
        Tame(st.below, actual) && (act.SetMask? && st.below.Push? && IsHandler(st.below.top) ==> act.how == SigBlock)
      case _ => Tame(st.below, actual)
  }

  /** Nobody uses SA_NODEFER and no handler unblocks signals. */
  ghost predicate TameAction(s: State, a: Action) {
    a.User? ==>
      && (a.req.Sigaction? ==> !a.req.act.nodefer)
      && (a.req.Sigprocmask? && Sized(s) && Stk(s).Push? && IsHandler(Stk(s).top) ==> a.req.how == SigBlock)
  }

  ghost predicate TameState(s: State) {
    && Sized(s)
    && (forall i :: 0 <= i < ALL_THREADS ==> Tame(s.stacks[i], s.sc.threads[i].blocked))
    && (forall i :: 0 <= i < 64 ==> !s.acts[i].nodefer)
  }

  lemma {:induction false} DepthBound(st: Stack, actual: set<nat>)
    requires Tame(st, actual) && MaskOK(st, actual)
    ensures Depth(st) <= |actual|
  {
    if st.Push? {
      var f := st.top;
      if f.Dl? && (f.dpc == DHandler || f.dpc == DReset) {
        DepthBound(st.below, f.saved);
        assert |f.saved + {f.sig}| == |f.saved| + 1;
        Smaller(f.saved + {f.sig}, actual);
      } else if f.Dl? && (f.dpc == DSelf || f.dpc == DMask || f.dpc == DRestore) {
        DepthBound(st.below, f.saved);
        Smaller(f.saved, actual);
      } else {
        DepthBound(st.below, actual);
      }
    }
  }

  lemma {:induction false} Smaller(a: set<nat>, b: set<nat>)
    requires a <= b
    ensures |a| <= |b|
  {
    if a != {} {
      var x :| x in a;
      Smaller(a - {x}, b - {x});
    }
  }

  /** Quiet frames come and go without touching what the frames below rely on. */
  lemma TameQuiet(st: Stack, st': Stack, actual: set<nat>)
    requires Tame(st, actual) && st.Push? && Quiet(st.top) && QuietMove(st, st')
    ensures Tame(st', actual)
  {
    assert Tame(st.below, actual);
    if st'.Push? && st'.below.Push? && st'.below.below == st.below {
      assert Tame(st'.below, actual);
    }
  }

  lemma TameDeliver(s: State)
    requires LocalOK(s) && Live(s) && Stk(s).top.Dl? && !IsUser(Stk(s).top) && Sized(RunDeliver(s))
    requires Tame(Stk(s), Cur(s).blocked) && (Stk(s).top.dpc != DCheck ==> !s.acts[Stk(s).top.sig - 1].nodefer)
    ensures Tame(RunDeliver(s).stacks[s.sc.current], RunDeliver(s).sc.threads[s.sc.current].blocked)
  {
    match Stk(s).top.dpc
    case DCheck => case DLock => case DClear => case DUnlock => case DAct =>
    case DMask => case DSelf => case DReset => case DRestore =>
  }

  lemma TameCritical(s: State)
    requires LocalOK(s) && Live(s) && Stk(s).top.Cs? && Sized(RunCritical(s)) && Tame(Stk(s), Cur(s).blocked)
    ensures Tame(RunCritical(s).stacks[s.sc.current], RunCritical(s).sc.threads[s.sc.current].blocked)
  {
    var st := Stk(s);
    assert Tame(st.below, Cur(s).blocked);
    if st.below.top == App {
      AppIsBottom(st.below);
      assert Tame(st.below, RunCritical(s).sc.threads[s.sc.current].blocked);
    }
  }

  lemma TameCurrent(s: State)
    requires Inv(s) && Enabled(s, Run) && TameState(s) && Sized(RunTop(s))
    ensures Tame(RunTop(s).stacks[s.sc.current], RunTop(s).sc.threads[s.sc.current].blocked)
  {
    if Stk(s).top.Dl? {
      TameDeliver(s);
    } else if Stk(s).top.Cs? {
      TameCritical(s);
    } else {
      if Stk(s).top.Cl? { CloneFrame(Cur(s), Stk(s).top, Stk(s).top, Stk(s).below); }
      TameOther(s);
    }
  }

  lemma TameOther(s: State)
    requires LocalOK(s) && SchedOK(s.sc) && Live(s) && !IsUser(Stk(s).top) && !Stk(s).top.Dl? && !Stk(s).top.Cs?
    requires Sized(RunTop(s))
    requires Stk(s).top.Cl? && Stk(s).top.lpc == LBody ==> Stk(s).top.slot != s.sc.current
    requires Tame(Stk(s), Cur(s).blocked)
    ensures Tame(RunTop(s).stacks[s.sc.current], RunTop(s).sc.threads[s.sc.current].blocked)
  {
    QuietRun(s);
    MaskRun(s, s.sc.current);
    TameQuiet(Stk(s), RunTop(s).stacks[s.sc.current], Cur(s).blocked);
  }

  lemma TameActs(s: State, k: nat)
    requires Live(s) && !IsUser(Stk(s).top) && k < 64 && Sized(RunTop(s)) && !s.acts[k].nodefer
    ensures !RunTop(s).acts[k].nodefer
  {
    match Stk(s).top
    case Wt(_, _, _, _, _) => WaitFrame(s);
    case Rs(_, _) => ReschedFrame(s);
    case Ex(_) => ExitFrame(s);
    case Dl(_, _, _) => TameActsDeliver(s, k);
    case Sc(_) => case Wk(_, _, _, _) => case Tk(_, _) => case Cs(_, _) => case Cl(_, _, _) => case Tramp =>
  }

  lemma TameActsDeliver(s: State, k: nat)
    requires Live(s) && Stk(s).top.Dl? && !IsUser(Stk(s).top) && k < 64 && Sized(RunDeliver(s)) && !s.acts[k].nodefer
    ensures !RunDeliver(s).acts[k].nodefer
  {
    match Stk(s).top.dpc
    case DCheck => case DLock => case DClear => case DUnlock => case DAct =>
    case DMask => case DSelf => case DReset => case DRestore =>
  }

  lemma TameOtherThread(s: State, t: nat)
    requires Inv(s) && Enabled(s, Run) && TameState(s) && Sized(RunTop(s)) && t < ALL_THREADS && t != s.sc.current
    ensures Tame(RunTop(s).stacks[t], RunTop(s).sc.threads[t].blocked)
  {
    OtherStack(s, Run, t);
    assert ThreadOK(s.sc.threads[t], s.stacks[t], false);
    if s.sc.threads[t].state != Free {
      MaskRun(s, t);
    }
  }

  lemma TameUserCurrent(s: State, a: Action)
    requires LocalOK(s) && Live(s) && !a.Run?
    requires (a.User? ==> IsUser(Stk(s).top) && (IsHandler(Stk(s).top) ==> HandlerMay(a.req)))
    requires a.HandlerReturn? ==> IsHandler(Stk(s).top)
    requires Tame(Stk(s), Cur(s).blocked) && TameAction(s, a) && Sized(Step(s, a))
    ensures Tame(Step(s, a).stacks[s.sc.current], Cur(s).blocked)
  {
    if a.User? {
      match a.req
      case FutexWait(_, _, _) => case FutexWakeup(_, _) => case Yield => case SleepUntil(_) => case Clone(_) =>
      case Exit => case Tkill(_, _) => case Sigprocmask(_, _) => case Sigaction(_, _) => case Store(_, _) =>
    }
  }

  lemma UserActs(s: State, a: Action, k: nat)
    requires Live(s) && !a.Run? && (a.HandlerReturn? ==> IsHandler(Stk(s).top)) && TameAction(s, a) && k < 64
    requires !s.acts[k].nodefer
    requires Sized(Step(s, a))
    ensures !Step(s, a).acts[k].nodefer
    ensures Step(s, a).sc == s.sc && Step(s, a).stacks == s.stacks[s.sc.current := Step(s, a).stacks[s.sc.current]]
  {
    if a.User? {
      match a.req
      case FutexWait(_, _, _) => case FutexWakeup(_, _) => case Yield => case SleepUntil(_) => case Clone(_) =>
      case Exit => case Tkill(_, _) => case Sigprocmask(_, _) => case Sigaction(_, _) => case Store(_, _) =>
    }
  }

  lemma TameUser(s: State, a: Action)
    requires Inv(s) && Enabled(s, a) && TameState(s) && TameAction(s, a) && !a.Run? && Sized(Step(s, a))
    ensures TameState(Step(s, a))
  {
    TameUserCurrent(s, a);
    UserActs(s, a, 0);
    forall k | 0 <= k < 64 ensures !Step(s, a).acts[k].nodefer {
      UserActs(s, a, k);
    }
  }

  lemma TameStep(s: State, a: Action)
    requires Inv(s) && Enabled(s, a) && TameState(s) && TameAction(s, a) && Inv(Step(s, a))
    ensures TameState(Step(s, a))
  {
    if a.Run? {
      forall t | 0 <= t < ALL_THREADS ensures Tame(RunTop(s).stacks[t], RunTop(s).sc.threads[t].blocked) {
        if t == s.sc.current { TameCurrent(s); } else { TameOtherThread(s, t); }
      }
      forall k | 0 <= k < 64 ensures !RunTop(s).acts[k].nodefer {
        TameActs(s, k);
      }
    } else {
      TameUser(s, a);
    }
  }

  lemma {:induction false} TameRun(ss: seq<State>, acts: seq<Action>, n: nat)
    requires IsRun(ss, acts) && n < |ss| && (forall k :: 0 <= k < |acts| ==> TameAction(ss[k], acts[k]))
    requires forall i :: 0 <= i < 64 ==> !ss[0].acts[i].nodefer
    ensures TameState(ss[n])
  {
    if n > 0 {
      var k := n - 1;
      TameRun(ss, acts, k);
      RunStep(ss, acts, k);
      TameStep(ss[k], acts[k]);
    }
  }

  /** Without SA_NODEFER, and with handlers that do not unblock signals, no stack ever holds
      more than 64 handlers in progress. */
  lemma NestingBounded(ss: seq<State>, acts: seq<Action>, n: nat, t: nat)
    requires IsRun(ss, acts) && n < |ss| && (forall k :: 0 <= k < |acts| ==> TameAction(ss[k], acts[k]))
    requires forall i :: 0 <= i < 64 ==> !ss[0].acts[i].nodefer
    ensures Depth(StackOf(ss[n], t)) <= 64
  {
    RunInv(ss, acts, n);
    TameRun(ss, acts, n);
    if t < ALL_THREADS {
      DepthAtMost64(ss[n], t);
    }
  }

  lemma DepthAtMost64(s: State, t: nat)
    requires Inv(s) && TameState(s) && t < ALL_THREADS
    ensures Depth(s.stacks[t]) <= 64
  {
    var th := s.sc.threads[t];
    assert ThreadOK(th, s.stacks[t], t == s.sc.current);
    DepthBound(s.stacks[t], th.blocked);
    SixtyFour(th.blocked, 64);
  }

  lemma {:induction false} SixtyFour(b: set<nat>, n: nat)
    requires forall x :: x in b ==> 1 <= x <= n
    ensures |b| <= n
  {
    if n == 0 {
      assert b == {};
    } else {
      SixtyFour(b - {n}, n - 1);
    }
  }
}
