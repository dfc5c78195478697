/** What a delivered signal does (port/thread_shim.c:471-551): end the process, nothing, or run its handler. */
module ThreadActions {
  import opened ThreadModel
  import opened ThreadSteps
  import opened ThreadInvariant
  import opened ThreadPreserved
  import opened ThreadWaits
  import opened ThreadSignals
  import opened ThreadDelivery
  import opened ThreadCalls

  /** SIGKILL (9), and by default every signal but SIGCHLD (17), SIGCONT (18), SIGSTOP (19), SIGTSTP (20),
      SIGTTIN (21), SIGTTOU (22), SIGURG (23) and SIGWINCH (28). */
  predicate Kills(disp: Disposition, x: nat) {
    x == 9 || (disp == Dfl && x !in {17, 18, 19, 20, 21, 22, 23, 28})
  }

  /** Step a of state s is t's delivery of x on top of `base` coming to its action. */
  predicate Decides(s: State, a: Action, t: nat, base: Stack, x: nat) {
    && Sized(s) && a == Run && t < ALL_THREADS && s.sc.current == t && s.stacks[t].Push? && s.stacks[t].below == base
    && s.stacks[t].top.Dl? && s.stacks[t].top.dpc == DAct && s.stacks[t].top.sig == x && 1 <= x <= 64
  }

  // --- who ends the process --------------------------------------------------------------------

  lemma HaltsRun(s: State)
    requires Live(s) && !IsUser(Stk(s).top) && !s.halted
    requires !(Stk(s).top.Dl? && Stk(s).top.dpc == DAct)
    ensures !RunTop(s).halted
  {
    match Stk(s).top
    case Wt(_, _, _, _, _) => HaltsWait(s);
    case Rs(_, _) => HaltsResched(s);
    case Ex(_) => HaltsExit(s);
    case Dl(_, _, _) => HaltsDeliver(s);
    case Tramp => case Sc(_) => case Wk(_, _, _, _) => case Tk(_, _) => case Cs(_, _) => case Cl(_, _, _) =>
  }

  lemma HaltsWait(s: State)
    requires Live(s) && Stk(s).top.Wt? && !s.halted
    ensures !RunWait(s).halted
  {
    match Stk(s).top.wpc
    case WCheck => case WSig => case WClock => case WLock => case WPark =>
    case WFail => case WUnlock => case WCall => case WWait => case WClear =>
  }

  lemma HaltsResched(s: State)
    requires Live(s) && Stk(s).top.Rs? && !s.halted
    ensures !RunResched(s).halted
  {
    match Stk(s).top.rpc
    case RTop => case RBody => case RSelf => case RResume => case RNone => case RIdle => case RSleep =>
  }

  lemma HaltsExit(s: State)
    requires Live(s) && Stk(s).top.Ex? && !s.halted
    ensures !RunExit(s).halted
  {
    match Stk(s).top.xpc
    case XLock => case XPark => case XUnlock => case XCtid => case XWake =>
    case XLock2 => case XSwitch => case XNone => case XIdle => case XSleep =>
  }

  lemma HaltsDeliver(s: State)
    requires Live(s) && Stk(s).top.Dl? && !IsUser(Stk(s).top) && !s.halted && Stk(s).top.dpc != DAct
    ensures !RunDeliver(s).halted
  {
    match Stk(s).top.dpc
    case DCheck => case DLock => case DClear => case DUnlock => case DMask => case DSelf =>
    case DReset => case DRestore =>
  }

  /** What the action is, in one step. */
  lemma Acts(s: State, t: nat, base: Stack, x: nat)
    requires Live(s) && Decides(s, Run, t, base, x)
    ensures var a, s' := s.acts[x - 1], RunTop(s);
            && s'.sc == s.sc && s'.acts == s.acts
            && (Kills(a.disp, x) ==> s'.stacks == s.stacks)
            && (s'.halted <==> s.halted || Kills(a.disp, x))
            && (!Kills(a.disp, x) ==>
                  s'.stacks[t] == if a.disp == Fn then Push(Dl(DMask, x, Cur(s).blocked), base) else base)
  {
  }

  lemma HaltsUser(s: State, a: Action)
    requires Live(s) && !a.Run? && (a.HandlerReturn? ==> IsHandler(Stk(s).top)) && !s.halted
    ensures !Step(s, a).halted
  {
    match a
    case Advance(_) => case Tick => case HandlerReturn =>
    case User(req) =>
      match req
      case FutexWait(_, _, _) => case FutexWakeup(_, _) => case Yield => case SleepUntil(_) => case Clone(_) =>
      case Exit => case Tkill(_, _) => case Sigprocmask(_, _) => case Sigaction(_, _) => case Store(_, _) =>
  }

  /** The process ends at a step exactly if that step is the action of a signal that kills. */
  lemma HaltedBy(ss: seq<State>, acts: seq<Action>, k: nat)
    requires IsRun(ss, acts) && k < |acts|
    ensures ss[k + 1].halted <==>
            && Sized(ss[k]) && Stk(ss[k]).Push?
            && var x := if Stk(ss[k]).top.Dl? then Stk(ss[k]).top.sig else 0;
               Decides(ss[k], acts[k], ss[k].sc.current, Stk(ss[k]).below, x) && Kills(ss[k].acts[x - 1].disp, x)
  {
    RunStep(ss, acts, k);
    var s := ss[k];
    if acts[k].Run? {
      if Stk(s).top.Dl? && Stk(s).top.dpc == DAct {
        Acts(s, s.sc.current, Stk(s).below, Stk(s).top.sig);
      } else {
        HaltsRun(s);
      }
    } else {
      HaltsUser(s, acts[k]);
    }
  }

  // --- from the clearing of the bit to the action ------------------------------------------------

  /** The instructions of a delivery before its action. */
  lemma Unlocks(s: State, sig: nat, saved: set<nat>, base: Stack)
    requires Live(s) && 1 <= sig <= 64
    ensures Stk(s) == Push(Dl(DClear, sig, saved), base) ==>
              && RunTop(s).stacks[s.sc.current] == Push(Dl(DUnlock, sig, saved), base)
              && RunTop(s).sc.threads[s.sc.current].blocked == Cur(s).blocked
    ensures Stk(s) == Push(Dl(DUnlock, sig, saved), base) ==>
              RunTop(s).stacks[s.sc.current] == Push(Dl(DAct, sig, saved), base) && RunTop(s).sc == s.sc
  {
  }

  lemma UnlocksAt(ss: seq<State>, acts: seq<Action>, j: nat, t: nat, sig: nat, saved: set<nat>, base: Stack)
    requires IsRun(ss, acts) && j < |acts| && acts[j] == Run && 1 <= sig <= 64
    ensures At(ss[j], Run, t, Push(Dl(DClear, sig, saved), base)) ==>
              StackOf(ss[j + 1], t) == Push(Dl(DUnlock, sig, saved), base) && MaskOf(ss[j + 1], t) == MaskOf(ss[j], t)
    ensures At(ss[j], Run, t, Push(Dl(DUnlock, sig, saved), base)) ==>
              StackOf(ss[j + 1], t) == Push(Dl(DAct, sig, saved), base) && MaskOf(ss[j + 1], t) == MaskOf(ss[j], t)
  {
    RunStep(ss, acts, j);
    Unlocks(ss[j], sig, saved, base);
  }

  lemma ActsAt(ss: seq<State>, acts: seq<Action>, d: nat, t: nat, base: Stack, x: nat)
    requires IsRun(ss, acts) && d < |acts| && Decides(ss[d], acts[d], t, base, x)
    ensures ActionDone(ss[d], ss[d + 1], t, base, x)
  {
    assert t == ss[d].sc.current;
    RunStep(ss, acts, d);
    Acts(ss[d], t, base, x);
  }

  /** At the end of step m the delivery of x on `base` that was under way at step c has ended, or the process. */
  ghost predicate Ended(ss: seq<State>, acts: seq<Action>, c: nat, m: nat, t: nat, base: Stack) {
    && |ss| == |acts| + 1 && c < m < |ss| && (StackOf(ss[m], t) == base || ss[m].halted)
    && forall k :: c < k < m ==> StackOf(ss[k], t) != base
  }

  /** From s to s' the action of x is taken: the process ends exactly for SIGKILL and for the signals whose default
      that is; ignored signals leave everything as it was; otherwise the handler is on its way. */
  ghost predicate ActionDone(s: State, s': State, t: nat, base: Stack, x: nat)
    requires Sized(s) && 1 <= x <= 64
  {
    var disp := s.acts[x - 1].disp;
    && Sized(s') && s'.sc == s.sc && s'.acts == s.acts
    && (s'.halted ==> s'.stacks == s.stacks)
    && (s'.halted <==> x == 9 || (disp == Dfl && x !in {17, 18, 19, 20, 21, 22, 23, 28}))
    && (x != 9 && (disp == Ign || (disp == Dfl && x in {17, 18, 19, 20, 21, 22, 23, 28})) ==> StackOf(s', t) == base)
    && (x != 9 && disp == Fn ==> StackOf(s', t) == Push(Dl(DMask, x, MaskOf(s, t)), base))
  }

  /** No handler for x runs directly on `base` from just after step c to d. */
  ghost predicate Unhandled(ss: seq<State>, c: nat, d: nat, t: nat, base: Stack, x: nat)
    requires d < |ss|
  {
    forall k, saved: set<nat> :: c < k <= d ==> !On(StackOf(ss[k], t), base, Dl(DHandler, x, saved))
  }

  lemma UnhandledAt(ss: seq<State>, c: nat, d: nat, t: nat, base: Stack, f: Frame, x: nat, m: set<nat>)
    requires d < |ss| && (forall k :: c < k <= d ==> Steady(ss[k], t, Push(f, base), m)) && !IsHandler(f)
    ensures Unhandled(ss, c, d, t, base, x)
  {
    forall k, saved: set<nat> | c < k <= d ensures !On(StackOf(ss[k], t), base, Dl(DHandler, x, saved)) {
      assert Steady(ss[k], t, Push(f, base), m);
      if On(StackOf(ss[k], t), base, Dl(DHandler, x, saved)) {
        OneOn(StackOf(ss[k], t), base, f, Dl(DHandler, x, saved), m);
      }
    }
  }

  /** From the clearing of the bit, at c, to the action: the mask is still, and no handler has run. */
  lemma ToAction(ss: seq<State>, acts: seq<Action>, c: nat, m: nat, t: nat, base: Stack, x: nat) returns (d: nat)
    requires IsRun(ss, acts) && c < m < |ss| && Clears(ss[c], acts[c], t, x) && ss[c].sc.current == t
    requires base == Stk(ss[c]).below && StackOf(ss[m], t) == base && 1 <= x <= 64
    ensures c < d < m && Decides(ss[d], acts[d], t, base, x) && MaskOf(ss[d], t) == MaskOf(ss[c], t)
    ensures Unhandled(ss, c, d, t, base, x)
  {
    var saved, mask := Stk(ss[c]).top.saved, MaskOf(ss[c], t);
    UnlocksAt(ss, acts, c, t, x, saved, base);
    var u := Proceeds(ss, acts, c + 1, m, t, Push(Dl(DUnlock, x, saved), base), mask);
    UnlocksAt(ss, acts, u, t, x, saved, base);
    d := Proceeds(ss, acts, u + 1, m, t, Push(Dl(DAct, x, saved), base), mask);
    UnhandledAt(ss, c, u, t, base, Dl(DUnlock, x, saved), x, mask);
    UnhandledAt(ss, u, d, t, base, Dl(DAct, x, saved), x, mask);
  }

  /** The same for a delivery that is seen coming to its action at step e. */
  lemma ToLast(ss: seq<State>, acts: seq<Action>, c: nat, e: nat, t: nat, base: Stack, x: nat) returns (d: nat)
    requires IsRun(ss, acts) && c < e < |acts| && Clears(ss[c], acts[c], t, x) && ss[c].sc.current == t
    requires base == Stk(ss[c]).below && Decides(ss[e], acts[e], t, base, x)
    ensures c < d <= e && Decides(ss[d], acts[d], t, base, x) && MaskOf(ss[d], t) == MaskOf(ss[c], t)
    ensures Unhandled(ss, c, d, t, base, x)
  {
    var saved, mask := Stk(ss[c]).top.saved, MaskOf(ss[c], t);
    UnlocksAt(ss, acts, c, t, x, saved, base);
    var u := Leaves(ss, acts, c + 1, e, t, Push(Dl(DUnlock, x, saved), base), mask);
    if u == e {
      OneOn(StackOf(ss[e], t), base, Dl(DUnlock, x, saved), Stk(ss[e]).top, mask);
      assert false;
    } else {
      UnlocksAt(ss, acts, u, t, x, saved, base);
      d := Leaves(ss, acts, u + 1, e, t, Push(Dl(DAct, x, saved), base), mask);
      UnhandledAt(ss, c, u, t, base, Dl(DUnlock, x, saved), x, mask);
      UnhandledAt(ss, u, d, t, base, Dl(DAct, x, saved), x, mask);
      if d == e {
        NotInsideItself(Push(Stk(ss[e]).top, base), Push(Dl(DAct, x, saved), base), mask);
      }
    }
  }

  lemma ClearsSane(ss: seq<State>, acts: seq<Action>, c: nat, x: nat)
    requires IsRun(ss, acts) && c < |acts| && Clears(ss[c], acts[c], ss[c].sc.current, x)
    ensures 1 <= x <= 64 && Stk(ss[c]).below.Push?
  {
    RunStep(ss, acts, c);
  }

  lemma NotYet(ss: seq<State>, acts: seq<Action>, k: nat)
    requires IsRun(ss, acts) && k < |acts|
    ensures !ss[k].halted
  {
    RunStep(ss, acts, k);
  }

  /** What becomes of a signal x whose bit was cleared at step c, when its delivery is over at m, or the process:
      it came to its action at step d with the mask it found and no handler run before, unless another signal ended
      the process first; and what is done there ActionDone says. */
  lemma DeliveryActs(ss: seq<State>, acts: seq<Action>, c: nat, m: nat, x: nat) returns (d: nat)
    requires IsRun(ss, acts) && c < |acts| && Clears(ss[c], acts[c], ss[c].sc.current, x)
    requires Ended(ss, acts, c, m, ss[c].sc.current, Stk(ss[c]).below)
    ensures var t, base := ss[c].sc.current, Stk(ss[c]).below;
            && 1 <= x <= 64 && c < d <= m
            && (d < m ==>
                  && Decides(ss[d], acts[d], t, base, x) && ActionDone(ss[d], ss[d + 1], t, base, x)
                  && MaskOf(ss[d], t) == MaskOf(ss[c], t) && Unhandled(ss, c, d, t, base, x)
                  && (ss[d + 1].halted || StackOf(ss[d + 1], t) == base ==> m == d + 1))
            && (d == m ==> ss[m].halted && !Decides(ss[m - 1], acts[m - 1], t, base, x))
  {
    var t, base := ss[c].sc.current, Stk(ss[c]).below;
    ClearsSane(ss, acts, c, x);
    if StackOf(ss[m], t) == base {
      d := ToAction(ss, acts, c, m, t, base, x);
    } else if m - 1 > c && Decides(ss[m - 1], acts[m - 1], t, base, x) {
      d := ToLast(ss, acts, c, m - 1, t, base, x);
    } else {
      d := m;
    }
    if d < m {
      ActsAt(ss, acts, d, t, base, x);
      if d + 1 < m { NotYet(ss, acts, d + 1); }
    }
  }

  // --- from the action to the end of the handler -------------------------------------------------

  function ActOf(s: State, x: nat): SigAct {
    if Sized(s) && 1 <= x <= 64 then s.acts[x - 1] else SigAct(Dfl, {}, false, false)
  }

  lemma Masks(s: State, x: nat, saved: set<nat>, base: Stack)
    requires Live(s) && 1 <= x <= 64
    ensures Stk(s) == Push(Dl(DMask, x, saved), base) ==>
              && RunTop(s).stacks[s.sc.current] == Push(Dl(DSelf, x, saved), base)
              && RunTop(s).sc.threads[s.sc.current].blocked == Cur(s).blocked + s.acts[x - 1].mask
    ensures Stk(s) == Push(Dl(DSelf, x, saved), base) ==>
              && RunTop(s).stacks[s.sc.current] == Push(Dl(DHandler, x, saved), base)
              && RunTop(s).sc.threads[s.sc.current].blocked
                 == Cur(s).blocked + if s.acts[x - 1].nodefer then {} else {x}
  {
  }

  lemma Resets(s: State, x: nat, saved: set<nat>, base: Stack)
    requires Live(s) && 1 <= x <= 64
    ensures Stk(s) == Push(Dl(DReset, x, saved), base) ==>
              && RunTop(s).stacks[s.sc.current] == Push(Dl(DRestore, x, saved), base)
              && RunTop(s).sc == s.sc
              && RunTop(s).acts[x - 1] == if s.acts[x - 1].resethand
                                          then SigAct(Dfl, s.acts[x - 1].mask, false, false) else s.acts[x - 1]
    ensures Stk(s) == Push(Dl(DRestore, x, saved), base) ==>
              RunTop(s).stacks[s.sc.current] == base && RunTop(s).sc.threads[s.sc.current].blocked == saved
  {
  }

  lemma MasksAt(ss: seq<State>, acts: seq<Action>, j: nat, t: nat, x: nat, saved: set<nat>, base: Stack)
    requires IsRun(ss, acts) && j < |acts| && acts[j] == Run && 1 <= x <= 64
    ensures At(ss[j], Run, t, Push(Dl(DMask, x, saved), base)) ==>
              && StackOf(ss[j + 1], t) == Push(Dl(DSelf, x, saved), base)
              && MaskOf(ss[j + 1], t) == MaskOf(ss[j], t) + ActOf(ss[j], x).mask
    ensures At(ss[j], Run, t, Push(Dl(DSelf, x, saved), base)) ==>
              && StackOf(ss[j + 1], t) == Push(Dl(DHandler, x, saved), base)
              && MaskOf(ss[j + 1], t) == MaskOf(ss[j], t) + if ActOf(ss[j], x).nodefer then {} else {x}
  {
    RunStep(ss, acts, j);
    Masks(ss[j], x, saved, base);
  }

  lemma ResetsAt(ss: seq<State>, acts: seq<Action>, j: nat, t: nat, x: nat, saved: set<nat>, base: Stack)
    requires IsRun(ss, acts) && j < |acts| && acts[j] == Run && 1 <= x <= 64
    ensures At(ss[j], Run, t, Push(Dl(DReset, x, saved), base)) ==>
              && StackOf(ss[j + 1], t) == Push(Dl(DRestore, x, saved), base) && MaskOf(ss[j + 1], t) == MaskOf(ss[j], t)
              && var a := ActOf(ss[j], x);
                 ActOf(ss[j + 1], x) == if a.resethand then SigAct(Dfl, a.mask, false, false) else a
    ensures At(ss[j], Run, t, Push(Dl(DRestore, x, saved), base)) ==>
              StackOf(ss[j + 1], t) == base && MaskOf(ss[j + 1], t) == saved
  {
    RunStep(ss, acts, j);
    Resets(ss[j], x, saved, base);
  }

  lemma HandlerLeft(ss: seq<State>, acts: seq<Action>, h: nat, t: nat, x: nat, saved: set<nat>, base: Stack)
    requires IsRun(ss, acts) && h < |acts| && At(ss[h], acts[h], t, Push(Dl(DHandler, x, saved), base))
    ensures acts[h] == HandlerReturn && StackOf(ss[h + 1], t) == Push(Dl(DReset, x, saved), base)
  {
    RunStep(ss, acts, h);
  }

  /** The handler of x runs from just after step e up to step h, and sees what the delivery found blocked, its
      action's mask and, unless SA_NODEFER is set, its own signal; SA_RESETHAND takes effect at r, and at the end, v,
      the mask is the one found. */
  ghost predicate HandlerRun(ss: seq<State>, acts: seq<Action>, d: nat, b: nat, e: nat, h: nat, r: nat, v: nat, m: nat,
                             t: nat, base: Stack, x: nat, mask: set<nat>)
    requires |ss| == |acts| + 1 && m < |ss|
  {
    && d < b < e < h < r < v && v + 1 == m
    && StackOf(ss[e + 1], t) == Push(Dl(DHandler, x, mask), base)
    && MaskOf(ss[e + 1], t) == mask + ActOf(ss[b], x).mask + (if ActOf(ss[e], x).nodefer then {} else {x})
    && acts[h] == HandlerReturn && StackOf(ss[h], t) == Push(Dl(DHandler, x, mask), base)
    && (var a := ActOf(ss[r], x);
        ActOf(ss[r + 1], x) == if a.resethand then SigAct(Dfl, a.mask, false, false) else a)
    && StackOf(ss[v + 1], t) == base && MaskOf(ss[v + 1], t) == mask
  }

  /** A delivery on its way to the handler, at i, that has ended at m has run it. */
  lemma Handled(ss: seq<State>, acts: seq<Action>, d: nat, m: nat, t: nat, base: Stack, x: nat, mask: set<nat>)
      returns (b: nat, e: nat, h: nat, r: nat, v: nat)
    requires IsRun(ss, acts) && d + 1 < m < |ss| && 1 <= x <= 64 && base.Push? && StackOf(ss[m], t) == base
    requires StackOf(ss[d + 1], t) == Push(Dl(DMask, x, mask), base) && MaskOf(ss[d + 1], t) == mask
    requires forall k :: d < k < m ==> StackOf(ss[k], t) != base
    ensures HandlerRun(ss, acts, d, b, e, h, r, v, m, t, base, x, mask)
  {
    b, e := Blocks(ss, acts, d + 1, m, t, base, x, mask);
    h := Executes(ss, acts, e + 1, m, t, base, Dl(DHandler, x, mask));
    HandlerLeft(ss, acts, h, t, x, mask, base);
    r, v := Reset(ss, acts, h + 1, m, t, base, x, mask);
  }

  lemma Blocks(ss: seq<State>, acts: seq<Action>, i: nat, m: nat, t: nat, base: Stack, x: nat, mask: set<nat>)
      returns (b: nat, e: nat)
    requires IsRun(ss, acts) && i < m < |ss| && 1 <= x <= 64 && StackOf(ss[m], t) == base
    requires StackOf(ss[i], t) == Push(Dl(DMask, x, mask), base) && MaskOf(ss[i], t) == mask
    ensures i <= b < e && e + 1 < m && StackOf(ss[e + 1], t) == Push(Dl(DHandler, x, mask), base)
    ensures MaskOf(ss[e + 1], t) == mask + ActOf(ss[b], x).mask + (if ActOf(ss[e], x).nodefer then {} else {x})
  {
    b := Proceeds(ss, acts, i, m, t, Push(Dl(DMask, x, mask), base), mask);
    MasksAt(ss, acts, b, t, x, mask, base);
    e := Proceeds(ss, acts, b + 1, m, t, Push(Dl(DSelf, x, mask), base), MaskOf(ss[b + 1], t));
    MasksAt(ss, acts, e, t, x, mask, base);
    NotPush(Push(Dl(DHandler, x, mask), base));
  }

  lemma Reset(ss: seq<State>, acts: seq<Action>, i: nat, m: nat, t: nat, base: Stack, x: nat, saved: set<nat>)
      returns (r: nat, v: nat)
    requires IsRun(ss, acts) && i < m < |ss| && 1 <= x <= 64 && StackOf(ss[m], t) == base
    requires StackOf(ss[i], t) == Push(Dl(DReset, x, saved), base)
    ensures i <= r < v < m && StackOf(ss[v + 1], t) == base && MaskOf(ss[v + 1], t) == saved
    ensures var a := ActOf(ss[r], x);
            ActOf(ss[r + 1], x) == if a.resethand then SigAct(Dfl, a.mask, false, false) else a
  {
    r := Proceeds(ss, acts, i, m, t, Push(Dl(DReset, x, saved), base), MaskOf(ss[i], t));
    ResetsAt(ss, acts, r, t, x, saved, base);
    v := Proceeds(ss, acts, r + 1, m, t, Push(Dl(DRestore, x, saved), base), MaskOf(ss[r + 1], t));
    ResetsAt(ss, acts, v, t, x, saved, base);
  }

  /** The action decides what the delivery is. */
  lemma AfterAction(ss: seq<State>, acts: seq<Action>, d: nat, m: nat, t: nat, base: Stack, x: nat)
    requires IsRun(ss, acts) && d < m < |ss| && Decides(ss[d], acts[d], t, base, x) && StackOf(ss[m], t) == base
    requires forall k :: d < k < m ==> StackOf(ss[k], t) != base
    ensures x != 9 && (ActOf(ss[d], x).disp == Dfl ==> x in {17, 18, 19, 20, 21, 22, 23, 28})
    ensures if ActOf(ss[d], x).disp == Fn
            then d + 1 < m && StackOf(ss[d + 1], t) == Push(Dl(DMask, x, MaskOf(ss[d], t)), base)
            else m == d + 1
    ensures MaskOf(ss[d + 1], t) == MaskOf(ss[d], t)
  {
    ActsAt(ss, acts, d, t, base, x);
    if d + 1 < m { NotYet(ss, acts, d + 1); }
    NotPush(StackOf(ss[d], t));
    NotPush(Push(Dl(DMask, x, MaskOf(ss[d], t)), base));
  }

  /** A delivery of x that has ended ran the handler exactly if at its action, at d, x was not SIGKILL and had a
      handler; either way the mask is what the delivery found. */
  lemma DeliveryEnds(ss: seq<State>, acts: seq<Action>, c: nat, m: nat, t: nat, base: Stack, x: nat)
      returns (d: nat, b: nat, e: nat, h: nat, r: nat, v: nat)
    requires IsRun(ss, acts) && c < m < |ss| && Clears(ss[c], acts[c], t, x) && base == Stk(ss[c]).below
    requires StackOf(ss[m], t) == base && forall k :: c < k < m ==> StackOf(ss[k], t) != base
    ensures c < d < m && Decides(ss[d], acts[d], t, base, x) && Unhandled(ss, c, d, t, base, x)
    ensures MaskOf(ss[m], t) == MaskOf(ss[c], t)
    ensures x != 9 && (ActOf(ss[d], x).disp == Dfl ==> x in {17, 18, 19, 20, 21, 22, 23, 28})
    ensures if ActOf(ss[d], x).disp == Fn
            then HandlerRun(ss, acts, d, b, e, h, r, v, m, t, base, x, MaskOf(ss[c], t))
            else m == d + 1
  {
    ClearsSane(ss, acts, c, x);
    d := ToAction(ss, acts, c, m, t, base, x);
    AfterAction(ss, acts, d, m, t, base, x);
    b, e, h, r, v := 0, 0, 0, 0, 0;
    if ActOf(ss[d], x).disp == Fn {
      b, e, h, r, v := Handled(ss, acts, d, m, t, base, x, MaskOf(ss[c], t));
    }
  }
}
