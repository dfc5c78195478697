/** What parking and waking come to over whole runs: no wakeup is lost, every park is ended
    by one wake, and the return value of a wait says truly why it ended. */
module ThreadWaits {
  import opened ThreadModel
  import opened ThreadSteps
  import opened ThreadInvariant
  import opened ThreadPreserved

  /** Thread t is in a wait on w with deadline dl, from the park to the reading of the reason. */
  predicate Waits(s: State, t: nat, w: Park, dl: nat)
    requires Sized(s) && t < ALL_THREADS
  {
    var b := Base(s.stacks[t]);
    InWait(b) && b.what == w && b.dl == dl
  }

  /** Step a of state s is t parking on w. */
  predicate ParksOn(s: State, a: Action, t: nat, w: Park, dl: nat)
  {
    && Sized(s) && t < ALL_THREADS
    && a == Run && s.sc.current == t
    && Stk(s).Push? && Stk(s).top.Wt? && Stk(s).top.wpc == WPark && Stk(s).top.what == w && Stk(s).top.dl == dl
    && (w.OnFutex? ==> Load(s.mem, w.addr) == w.val)
  }

  /** Step a of state s is a scan or a FUTEX_WAKE that may wake t for reason r. */
  predicate WakesFor(s: State, a: Action, t: nat, r: Reason)
  {
    && Sized(s) && t < ALL_THREADS
    && a == Run && Stk(s).Push?
    && ((Stk(s).top == Sc(Body) && Caused(s.sc.threads[t], Scan(s.clock), r))
        || (Stk(s).top.Wk? && Stk(s).top.sec == Body && Caused(s.sc.threads[t], FutexWake(Stk(s).top.addr), r)))
  }

  // --- what each function leaves alone -----------------------------------------------------

  /** Records and stacks of the other threads, queue, current thread, clock. */
  ghost predicate OthersKept(s: State, s': State)
    requires Sized(s) && Sized(s')
  {
    && s'.sc.queue == s.sc.queue && s'.sc.current == s.sc.current && s'.clock == s.clock
    && forall t :: 0 <= t < ALL_THREADS && t != s.sc.current ==>
         s'.sc.threads[t] == s.sc.threads[t] && s'.stacks[t] == s.stacks[t]
  }

  /** Stacks of the other threads, all signal masks and actions, clock. */
  ghost predicate MasksKept(s: State, s': State)
    requires Sized(s) && Sized(s')
  {
    && s'.clock == s.clock && s'.acts == s.acts
    && (forall t :: 0 <= t < ALL_THREADS && t != s.sc.current ==> s'.stacks[t] == s.stacks[t])
    && forall t :: 0 <= t < ALL_THREADS ==>
         && s'.sc.threads[t].pending == s.sc.threads[t].pending
         && s'.sc.threads[t].blocked == s.sc.threads[t].blocked
  }

  lemma WaitFrame(s: State)
    requires Live(s) && Stk(s).top.Wt? && Sized(RunWait(s))
    ensures OthersKept(s, RunWait(s)) && MasksKept(s, RunWait(s))
  {
    match Stk(s).top.wpc
    case WCheck => case WSig => case WClock => case WLock => case WPark =>
    case WFail => case WUnlock => case WCall => case WWait => case WClear =>
  }

  lemma ReschedFrame(s: State)
    requires Live(s) && Stk(s).top.Rs? && Sized(RunResched(s))
    ensures MasksKept(s, RunResched(s))
  {
    match Stk(s).top.rpc
    case RTop => case RBody => case RSelf => case RResume => case RNone => case RIdle => case RSleep =>
  }

  lemma DeliverFrame(s: State)
    requires Live(s) && Stk(s).top.Dl? && !IsUser(Stk(s).top) && Sized(RunDeliver(s))
    ensures OthersKept(s, RunDeliver(s))
  {
    match Stk(s).top.dpc
    case DCheck => case DLock => case DClear => case DUnlock => case DAct =>
    case DMask => case DSelf => case DReset => case DRestore =>
  }

  lemma ExitFrame(s: State)
    requires Live(s) && Stk(s).top.Ex? && Sized(RunExit(s))
    ensures MasksKept(s, RunExit(s))
  {
    match Stk(s).top.xpc
    case XLock => case XPark => case XUnlock => case XCtid => case XWake =>
    case XLock2 => case XSwitch => case XNone => case XIdle => case XSleep =>
  }

  /** A request pushes a frame, or does not touch the stack. */
  lemma EnterFrame(s: State, req: Request)
    requires Live(s) && Sized(Enter(s, req))
    ensures Enter(s, req).sc == s.sc && OthersKept(s, Enter(s, req))
    ensures var st, st' := Stk(s), Enter(s, req).stacks[s.sc.current]; st' == st || (st'.Push? && st'.below == st)
  {
    match req
    case FutexWait(_, _, _) => case FutexWakeup(_, _) => case Yield => case SleepUntil(_) => case Clone(_) =>
    case Exit => case Tkill(_, _) => case Sigprocmask(_, _) => case Sigaction(_, _) => case Store(_, _) =>
  }

  /** How a step changes the stack of the current thread. */
  predicate Moves(st: Stack, st': Stack) {
    || st' == st
    || st' == Empty
    || (st.Push? && st' == st.below)
    || (st.Push? && st'.Push? && st'.below == st.below && (st'.top.Wt? ==> st.top.Wt?))
    || (st.Push? && st'.Push? && st'.below.Push? && st'.below.below == st.below && !st'.top.Wt?
        && (st'.below.top.Wt? ==> st'.below.top == st.top || st.top.Wt?))
  }

  lemma MovesRun(s: State)
    requires Live(s) && !IsUser(Stk(s).top) && !Stk(s).top.Wt? && Sized(RunTop(s))
    requires Stk(s).top.Cl? && Stk(s).top.lpc == LBody ==> Stk(s).top.slot != s.sc.current
    ensures Moves(Stk(s), RunTop(s).stacks[s.sc.current])
  {
    match Stk(s).top
    case Tramp =>
    case Rs(_, _) => MovesResched(s);
    case Sc(_) =>
    case Wk(_, _, _, _) =>
    case Tk(_, _) =>
    case Dl(_, _, _) => MovesDeliver(s);
    case Cs(_, _) => MovesCritical(s);
    case Cl(_, _, _) => MovesClone(s);
    case Ex(_) =>
      if Stk(s).top.xpc in {XSwitch, XNone, XIdle, XSleep} { MovesExitSwitch(s); } else { MovesExitPark(s); }
  }

  lemma MovesResched(s: State)
    requires Live(s) && Stk(s).top.Rs? && Sized(RunResched(s))
    ensures Moves(Stk(s), RunResched(s).stacks[s.sc.current])
  {
    match Stk(s).top.rpc
    case RTop => case RBody => case RSelf => case RResume => case RNone => case RIdle => case RSleep =>
  }

  lemma MovesDeliver(s: State)
    requires Live(s) && Stk(s).top.Dl? && !IsUser(Stk(s).top) && Sized(RunDeliver(s))
    ensures Moves(Stk(s), RunDeliver(s).stacks[s.sc.current])
  {
    match Stk(s).top.dpc
    case DCheck => case DLock => case DClear => case DUnlock => case DAct =>
    case DMask => case DSelf => case DReset => case DRestore =>
  }

  lemma MovesCritical(s: State)
    requires Live(s) && Stk(s).top.Cs? && Sized(RunCritical(s))
    ensures Moves(Stk(s), RunCritical(s).stacks[s.sc.current])
  {
  }

  lemma MovesClone(s: State)
    requires Live(s) && Stk(s).top.Cl? && Sized(RunClone(s))
    requires Stk(s).top.lpc == LBody ==> Stk(s).top.slot != s.sc.current
    ensures Moves(Stk(s), RunClone(s).stacks[s.sc.current])
  {
  }

  lemma MovesExitPark(s: State)
    requires Live(s) && Stk(s).top.Ex? && Stk(s).top.xpc in {XLock, XPark, XUnlock, XCtid, XWake, XLock2}
    requires Sized(RunExit(s))
    ensures Moves(Stk(s), RunExit(s).stacks[s.sc.current])
  {
  }

  lemma MovesExitSwitch(s: State)
    requires Live(s) && Stk(s).top.Ex? && Stk(s).top.xpc in {XSwitch, XNone, XIdle, XSleep} && Sized(RunExit(s))
    ensures Moves(Stk(s), RunExit(s).stacks[s.sc.current])
  {
  }

  /** Other functions leave a wait in progress below them alone. */
  lemma BaseMoves(st: Stack, st': Stack)
    requires Moves(st, st') && Shape(st) && !(st.Push? && st.top.Wt?) && Base(st').Wt?
    ensures Base(st') == Base(st)
  {
    if st' == st || st' == Empty {
    } else if st.below.Push? && st' == st.below {
      BaseGoto(st.top, st.top, st.below);
    } else if st'.below == st.below {
      if st.below.Push? { BaseGoto(st.top, st'.top, st.below); }
    } else {
      BaseCall(st.top, st'.below.top, st'.top, st.below);
    }
  }

  /** How a step moves a wait on, if b is the base frame before and b' the one after. */
  predicate BaseOK(s: State, a: Action, b: Frame, b': Frame)
    requires Sized(s)
  {
    b'.Wt? ==>
      || b' == b
      || (a.User? && (b'.wpc == WCheck || b'.wpc == WSig))
      || (&& a == Run && b.Wt? && b'.what == b.what && Stk(s).Push? && Stk(s).top == b
          && (InWait(b') ==> (InWait(b) && b'.dl == b.dl) || ParksOn(s, a, s.sc.current, b'.what, b'.dl))
          && (b'.wpc == WClear ==> b.wpc == WWait && b'.dl == b.dl && b'.why == s.sc.threads[s.sc.current].reason))
  }

  /** How one instruction moves the frame of a wait on. */
  predicate WaitMoves(s: State, f: Frame, f': Frame)
    requires Sized(s) && f.Wt? && f'.Wt?
  {
    && f'.what == f.what && f'.timeout == f.timeout && (f.wpc != WClock ==> f'.dl == f.dl)
    && (f.wpc == WCheck ==> f'.wpc == WSig) && (f.wpc == WSig ==> f'.wpc == WClock)
    && (InWait(f') ==> InWait(f) || ParksOn(s, Run, s.sc.current, f'.what, f'.dl))
       && (f.wpc == WClock ==> f'.wpc == WLock)
    && (f'.wpc == WClear ==> f.wpc == WWait && f'.why == s.sc.threads[s.sc.current].reason)
    && (f'.wpc == WFail ==> f.wpc == WPark && WordDiffers(s, f'.what))
  }

  /** The futex word is not what the wait expects. */
  predicate WordDiffers(s: State, w: Park) {
    w.OnFutex? && Load(s.mem, w.addr) != w.val
  }

  lemma WaitNext(s: State)
    requires Live(s) && Stk(s).top.Wt? && Sized(RunWait(s))
    ensures var f, st, st' := Stk(s).top, Stk(s), RunWait(s).stacks[s.sc.current];
            if f.wpc == WCall then st' == Push(Rs(RTop, false), Push(f.(wpc := WWait), st.below))
            else st' == st.below || (st'.Push? && st'.below == st.below && st'.top.Wt? && WaitMoves(s, f, st'.top))
  {
    match Stk(s).top.wpc
    case WCheck => case WSig => case WClock => case WLock => case WPark =>
    case WFail => case WUnlock => case WCall => case WWait => case WClear =>
  }

  /** The base frame of a stack of a wait and what it calls. */
  lemma BaseAbove(f: Frame, rest: Stack, st': Stack)
    requires rest.Push? && rest.below.Empty?
    requires st' == rest || (st'.Push? && st'.below == rest)
             || (f.Wt? && st' == Push(Rs(RTop, false), Push(f.(wpc := WWait), rest)))
    ensures Base(st') == if st' == rest then App else if st'.below == rest then st'.top else st'.below.top
  {
  }

  /** A step of the wait itself. */
  lemma BaseWait(s: State)
    requires LocalOK(s) && Live(s) && Stk(s).top.Wt? && Sized(RunWait(s))
    ensures BaseOK(s, Run, Base(Stk(s)), Base(RunWait(s).stacks[s.sc.current]))
  {
    WaitNext(s);
    AppIsBottom(Stk(s).below);
    BaseAbove(Stk(s).top, Stk(s).below, Stk(s));
    BaseAbove(Stk(s).top, Stk(s).below, RunWait(s).stacks[s.sc.current]);
  }

  lemma BaseRun(s: State)
    requires LocalOK(s) && Live(s) && !IsUser(Stk(s).top) && Sized(RunTop(s))
    requires Stk(s).top.Cl? && Stk(s).top.lpc == LBody ==> Stk(s).top.slot != s.sc.current
    ensures BaseOK(s, Run, Base(Stk(s)), Base(RunTop(s).stacks[s.sc.current]))
  {
    if Stk(s).top.Wt? {
      BaseWait(s);
    } else {
      MovesRun(s);
      if Base(RunTop(s).stacks[s.sc.current]).Wt? {
        BaseMoves(Stk(s), RunTop(s).stacks[s.sc.current]);
      }
    }
  }

  lemma BaseUser(s: State, req: Request)
    requires LocalOK(s) && Live(s) && IsUser(Stk(s).top) && (IsHandler(Stk(s).top) ==> HandlerMay(req))
    requires Sized(Enter(s, req))
    ensures BaseOK(s, User(req), Base(Stk(s)), Base(Enter(s, req).stacks[s.sc.current]))
  {
    var st' := Enter(s, req).stacks[s.sc.current];
    if st' != Stk(s) {
      BaseCall(Stk(s).top, Stk(s).top, st'.top, Stk(s).below);
    }
  }

  /** Only a park starts a wait, and what a wait is for does not change. */
  lemma BaseStep(s: State, a: Action)
    requires Inv(s) && Enabled(s, a) && Sized(Step(s, a))
    ensures BaseOK(s, a, Base(Stk(s)), Base(Step(s, a).stacks[s.sc.current]))
  {
    match a
    case Advance(_) =>
    case Tick => BaseCall(Stk(s).top, Stk(s).top, Tk(TScan, Cur(s).blocked), Stk(s).below);
    case HandlerReturn => BaseGoto(Stk(s).top, Stk(s).top.(dpc := DReset), Stk(s).below);
    case User(req) => BaseUser(s, req);
    case Run =>
      if Stk(s).top.Cl? {
        CloneFrame(Cur(s), Stk(s).top, Stk(s).top, Stk(s).below);
      }
      BaseRun(s);
  }

  /** What one step may do to the record of thread t: wake it, park it, or leave its wait alone. */
  predicate RecOK(s: State, a: Action, t: nat, th': Thread)
    requires Sized(s) && t < ALL_THREADS
  {
    var th := s.sc.threads[t];
    || ((th'.state == Blocked <==> th.state == Blocked) && th'.reason == th.reason)
    || (th.state == Blocked && th'.state == Ready && WakesFor(s, a, t, th'.reason))
    || (t == s.sc.current && th'.state == Blocked && a == Run && Stk(s).Push?
        && ((Stk(s).top.Wt? && ParksOn(s, a, t, Stk(s).top.what, Stk(s).top.dl)) || Stk(s).top == Ex(XPark)))
    || (t == s.sc.current && th'.state == Free && Stk(s).Push? && Stk(s).top == Ex(XSwitch))
    || (th.state == Free && th'.state == Free)
  }

  lemma RecWakes(s: State, t: nat)
    requires Sized(s) && SchedOK(s.sc) && Live(s) && t < ALL_THREADS && (Stk(s).top.Sc? || Stk(s).top.Wk?)
    requires Sized(RunTop(s))
    ensures RecOK(s, Run, t, RunTop(s).sc.threads[t])
  {
    if Stk(s).top == Sc(Body) {
      ScanEffect(s.sc, 0, s.clock);
    } else if Stk(s).top.Wk? && Stk(s).top.sec == Body {
      WakeEffect(s.sc, 0, Stk(s).top.addr, Stk(s).top.n);
    }
  }

  lemma RecWait(s: State, t: nat)
    requires Live(s) && t < ALL_THREADS && Stk(s).top.Wt? && Sized(RunWait(s))
    ensures RecOK(s, Run, t, RunWait(s).sc.threads[t])
  {
    match Stk(s).top.wpc
    case WCheck => case WSig => case WClock => case WLock => case WPark =>
    case WFail => case WUnlock => case WCall => case WWait => case WClear =>
  }

  lemma RecResched(s: State, t: nat)
    requires Live(s) && SchedOK(s.sc) && t < ALL_THREADS && Stk(s).top.Rs? && Sized(RunResched(s))
    requires Stk(s).top == Rs(RBody, true) ==> Cur(s).state == Running
    ensures RecOK(s, Run, t, RunResched(s).sc.threads[t])
  {
    if Stk(s).top == Rs(RBody, true) {
      RequeueKeeps(s.sc);
    }
  }

  lemma RecTick(s: State)
    requires Live(s) && (Stk(s).top.Tk? || Stk(s).top == Tramp)
    ensures RunTop(s).sc == s.sc
  {
  }

  lemma RecDeliver(s: State, t: nat)
    requires Live(s) && t < ALL_THREADS && Stk(s).top.Dl? && !IsUser(Stk(s).top) && Sized(RunDeliver(s))
    ensures RecOK(s, Run, t, RunDeliver(s).sc.threads[t])
  {
    match Stk(s).top.dpc
    case DCheck => case DLock => case DClear => case DUnlock => case DAct =>
    case DMask => case DSelf => case DReset => case DRestore =>
  }

  lemma RecCritical(s: State, t: nat)
    requires Live(s) && t < ALL_THREADS && Stk(s).top.Cs? && Sized(RunCritical(s))
    ensures RecOK(s, Run, t, RunCritical(s).sc.threads[t])
  {
  }

  lemma RecClone(s: State, t: nat)
    requires Live(s) && t < ALL_THREADS && Stk(s).top.Cl? && Sized(RunClone(s))
    requires Stk(s).top.lpc == LBody ==> s.sc.threads[Stk(s).top.slot].state == Free
    ensures RecOK(s, Run, t, RunClone(s).sc.threads[t])
  {
  }

  lemma RecExit(s: State, t: nat)
    requires Live(s) && SchedOK(s.sc) && t < ALL_THREADS && Stk(s).top.Ex? && Sized(RunExit(s))
    ensures RecOK(s, Run, t, RunExit(s).sc.threads[t])
  {
    match Stk(s).top.xpc
    case XLock => case XPark => case XUnlock => case XCtid => case XWake =>
    case XLock2 => case XSwitch => case XNone => case XIdle => case XSleep =>
  }

  lemma RecStep(s: State, a: Action, t: nat)
    requires Inv(s) && Enabled(s, a) && Sized(Step(s, a)) && t < ALL_THREADS
    ensures RecOK(s, a, t, Step(s, a).sc.threads[t])
  {
    match a
    case Run =>
      CloneSlotFree(s);
      assert Stk(s).top == Rs(RBody, true) ==> !HasParked(Stk(s));
      RecRun(s, t);
    case Tick => case Advance(_) => case HandlerReturn =>
    case User(req) => EnterFrame(s, req);
  }

  /** What a step may do to the record of a parked thread that is not running: set a pending bit, or
      wake it for a reason it justifies. */
  predicate ParkedOK(s: State, a: Action, t: nat, th': Thread)
    requires Sized(s) && t < ALL_THREADS
  {
    var th := s.sc.threads[t];
    || (th' == th.(pending := th'.pending) && th.pending <= th'.pending)
    || (th' == th.(waitAddr := 0, reason := th'.reason, state := Ready) && WakesFor(s, a, t, th'.reason))
  }

  lemma ParkedStep(s: State, a: Action, t: nat)
    requires Inv(s) && Enabled(s, a) && Sized(Step(s, a)) && t < ALL_THREADS && t != s.sc.current
    requires s.sc.threads[t].state == Blocked
    ensures ParkedOK(s, a, t, Step(s, a).sc.threads[t])
  {
    match a
    case Run =>
      CloneSlotFree(s);
      ParkedRun(s, t);
    case Tick => case Advance(_) => case HandlerReturn =>
    case User(req) => EnterFrame(s, req);
  }

  lemma ParkedRun(s: State, t: nat)
    requires Live(s) && SchedOK(s.sc) && !IsUser(Stk(s).top) && Sized(RunTop(s)) && t < ALL_THREADS && t != s.sc.current
    requires s.sc.threads[t].state == Blocked
    requires Stk(s).top.Cl? && Stk(s).top.lpc == LBody ==> s.sc.threads[Stk(s).top.slot].state == Free
    ensures ParkedOK(s, Run, t, RunTop(s).sc.threads[t])
  {
    match Stk(s).top
    case Wt(_, _, _, _, _) => WaitFrame(s);
    case Rs(_, _) => ParkedResched(s, t);
    case Sc(_) => ParkedWakes(s, t);
    case Wk(_, _, _, _) => ParkedWakes(s, t);
    case Cl(_, _, _) => ParkedClone(s, t);
    case Ex(_) => ParkedExit(s, t);
    case Dl(_, _, _) => DeliverFrame(s);
    case Cs(_, _) =>
    case Tk(_, _) => RecTick(s);
    case Tramp => RecTick(s);
    case App =>
  }

  lemma ParkedWakes(s: State, t: nat)
    requires Live(s) && SchedOK(s.sc) && t < ALL_THREADS && (Stk(s).top.Sc? || Stk(s).top.Wk?) && Sized(RunTop(s))
    requires s.sc.threads[t].state == Blocked
    ensures ParkedOK(s, Run, t, RunTop(s).sc.threads[t])
  {
    if Stk(s).top == Sc(Body) {
      ScanEffect(s.sc, 0, s.clock);
    } else if Stk(s).top.Wk? && Stk(s).top.sec == Body {
      WakeEffect(s.sc, 0, Stk(s).top.addr, Stk(s).top.n);
    }
  }

  lemma ParkedResched(s: State, t: nat)
    requires Live(s) && SchedOK(s.sc) && t < ALL_THREADS && t != s.sc.current && Stk(s).top.Rs? && Sized(RunResched(s))
    requires s.sc.threads[t].state == Blocked
    ensures RunResched(s).sc.threads[t] == s.sc.threads[t]
  {
    match Stk(s).top.rpc
    case RTop => case RSelf => case RResume => case RNone => case RIdle => case RSleep =>
    case RBody => NotQueuedHead(s.sc, t);
  }

  lemma NotQueuedHead(sc: Sched, t: nat)
    requires SchedOK(sc) && t < ALL_THREADS && sc.threads[t].state == Blocked && t != sc.current
    ensures sc.queue != [] ==> sc.queue[0] != t && SwitchToHead(sc).threads[t] == sc.threads[t]
    ensures var sc' := Requeue(sc); sc'.queue[0] != t && SwitchToHead(sc').threads[t] == sc.threads[t]
  {
  }

  lemma ParkedClone(s: State, t: nat)
    requires Live(s) && t < ALL_THREADS && t != s.sc.current && Stk(s).top.Cl? && Sized(RunClone(s))
    requires s.sc.threads[t].state == Blocked
    requires Stk(s).top.lpc == LBody ==> s.sc.threads[Stk(s).top.slot].state == Free
    ensures RunClone(s).sc.threads[t] == s.sc.threads[t]
  {
  }

  lemma ParkedExit(s: State, t: nat)
    requires Live(s) && SchedOK(s.sc) && t < ALL_THREADS && t != s.sc.current && Stk(s).top.Ex? && Sized(RunExit(s))
    requires s.sc.threads[t].state == Blocked
    ensures RunExit(s).sc.threads[t] == s.sc.threads[t]
  {
    match Stk(s).top.xpc
    case XLock => case XPark => case XUnlock => case XCtid => case XWake => case XLock2 =>
    case XSwitch => NotQueuedHead(s.sc, t);
    case XNone => case XIdle => case XSleep =>
  }

  lemma RecRun(s: State, t: nat)
    requires Live(s) && SchedOK(s.sc) && !IsUser(Stk(s).top) && Sized(RunTop(s)) && t < ALL_THREADS
    requires Stk(s).top == Rs(RBody, true) ==> Cur(s).state == Running
    requires Stk(s).top.Cl? && Stk(s).top.lpc == LBody ==> s.sc.threads[Stk(s).top.slot].state == Free
    ensures RecOK(s, Run, t, RunTop(s).sc.threads[t])
  {
    match Stk(s).top
    case Wt(_, _, _, _, _) => RecWait(s, t);
    case Rs(_, _) => RecResched(s, t);
    case Sc(_) => RecWakes(s, t);
    case Wk(_, _, _, _) => RecWakes(s, t);
    case Cl(_, _, _) => RecClone(s, t);
    case Ex(_) => RecExit(s, t);
    case Dl(_, _, _) => RecDeliver(s, t);
    case Cs(_, _) => RecCritical(s, t);
    case Tk(_, _) => RecTick(s);
    case Tramp => RecTick(s);
    case App =>
  }

  /** Stacks of threads that do not run stay as they are. */
  lemma OtherStack(s: State, a: Action, t: nat)
    requires Inv(s) && Enabled(s, a) && Sized(Step(s, a)) && t < ALL_THREADS && t != s.sc.current
    ensures Step(s, a).stacks[t] == s.stacks[t]
            || (s.sc.threads[t].state == Free && Step(s, a).stacks[t] == Push(Tramp, Empty))
  {
    match a
    case Run =>
      CloneSlotFree(s);
      OtherRun(s, t);
    case Tick => case Advance(_) => case HandlerReturn =>
    case User(req) => EnterFrame(s, req);
  }

  lemma CloneSlotFree(s: State)
    requires Inv(s) && Live(s)
    ensures Stk(s).top.Cl? && Stk(s).top.lpc == LBody ==> s.sc.threads[Stk(s).top.slot].state == Free
  {
    if Stk(s).top.Cl? {
      CloneFrame(Cur(s), Stk(s).top, Stk(s).top, Stk(s).below);
    }
  }

  lemma OtherRun(s: State, t: nat)
    requires Live(s) && !IsUser(Stk(s).top) && Sized(RunTop(s)) && t < ALL_THREADS && t != s.sc.current
    requires Stk(s).top.Cl? && Stk(s).top.lpc == LBody ==> s.sc.threads[Stk(s).top.slot].state == Free
    ensures RunTop(s).stacks[t] == s.stacks[t]
            || (s.sc.threads[t].state == Free && RunTop(s).stacks[t] == Push(Tramp, Empty))
  {
    match Stk(s).top
    case Wt(_, _, _, _, _) => WaitFrame(s);
    case Rs(_, _) => ReschedFrame(s);
    case Dl(_, _, _) => DeliverFrame(s);
    case Ex(_) => ExitFrame(s);
    case Cl(_, _, _) => OtherClone(s, t);
    case Cs(_, _) => OtherCritical(s, t);
    case _ => OtherSimple(s, t);
  }

  lemma OtherClone(s: State, t: nat)
    requires Live(s) && Stk(s).top.Cl? && Sized(RunClone(s)) && t < ALL_THREADS && t != s.sc.current
    requires Stk(s).top.lpc == LBody ==> s.sc.threads[Stk(s).top.slot].state == Free
    ensures RunClone(s).stacks[t] == s.stacks[t]
            || (s.sc.threads[t].state == Free && RunClone(s).stacks[t] == Push(Tramp, Empty))
  {
  }

  lemma OtherCritical(s: State, t: nat)
    requires Live(s) && Stk(s).top.Cs? && Sized(RunCritical(s)) && t < ALL_THREADS && t != s.sc.current
    ensures RunCritical(s).stacks[t] == s.stacks[t]
  {
  }

  lemma OtherSimple(s: State, t: nat)
    requires Live(s) && (Stk(s).top == App || Stk(s).top == Tramp || Stk(s).top.Sc? || Stk(s).top.Wk? || Stk(s).top.Tk?)
    requires Sized(RunTop(s)) && t < ALL_THREADS && t != s.sc.current
    ensures RunTop(s).stacks[t] == s.stacks[t]
  {
    match Stk(s).top
    case App => case Tramp => case Sc(_) => case Wk(_, _, _, _) => case Tk(_, _) =>
  }

  /** What one step does to a wait: nothing, begin it, or end it. */
  lemma WaitStep(s: State, a: Action, t: nat, w: Park, dl: nat)
    requires Inv(s) && Enabled(s, a) && Inv(Step(s, a)) && t < ALL_THREADS && Waits(Step(s, a), t, w, dl)
    ensures WaitOn(s, a, t, w, dl, Step(s, a).sc.threads[t])
  {
    if t == s.sc.current {
      WaitStepCurrent(s, a, w, dl);
    } else {
      RecStep(s, a, t);
      OtherStack(s, a, t);
      assert ThreadOK(s.sc.threads[t], s.stacks[t], false);
    }
  }

  /** A wait is begun, left alone, or ended by a wake. */
  predicate WaitOn(s: State, a: Action, t: nat, w: Park, dl: nat, th': Thread)
    requires Sized(s) && t < ALL_THREADS
  {
    var th := s.sc.threads[t];
    || (ParksOn(s, a, t, w, dl) && th'.state == Blocked)
    || (Waits(s, t, w, dl) && (th'.state == Blocked <==> th.state == Blocked) && th'.reason == th.reason)
    || (Waits(s, t, w, dl) && th.state == Blocked && th'.state != Blocked && WakesFor(s, a, t, th'.reason))
  }

  lemma WaitStepCurrent(s: State, a: Action, w: Park, dl: nat)
    requires Inv(s) && Enabled(s, a) && Inv(Step(s, a)) && Waits(Step(s, a), s.sc.current, w, dl)
    ensures WaitOn(s, a, s.sc.current, w, dl, Step(s, a).sc.threads[s.sc.current])
  {
    RecStep(s, a, s.sc.current);
    BaseStep(s, a);
    if Stk(s).top.Wt? || Stk(s).top.Ex? {
      AppIsBottom(Stk(s).below);
      BaseGoto(Stk(s).top, Stk(s).top, Stk(s).below);
    }
    if ParksOn(s, a, s.sc.current, w, dl) {
      assert Step(s, a).sc.threads[s.sc.current].state == Blocked;
    }
  }

  // --- whole runs --------------------------------------------------------------------------

  /** Thread t is T_BLOCKED on addr, having parked because the word held v. */
  predicate BlockedOn(s: State, t: nat, addr: nat, v: int) {
    && Sized(s) && t < ALL_THREADS && s.sc.threads[t].state == Blocked
    && InWait(Base(s.stacks[t])) && Base(s.stacks[t]).what == OnFutex(addr, v)
  }

  lemma BlockedOnStep(s: State, a: Action, t: nat, addr: nat, v: int)
    requires Inv(s) && Enabled(s, a) && Inv(Step(s, a)) && BlockedOn(Step(s, a), t, addr, v)
    ensures BlockedOn(s, t, addr, v) || Load(s.mem, addr) == v
  {
    WaitStep(s, a, t, OnFutex(addr, v), Base(Step(s, a).stacks[t]).dl);
  }

  lemma RunStep(ss: seq<State>, acts: seq<Action>, k: nat)
    requires IsRun(ss, acts) && k < |acts|
    ensures Inv(ss[k]) && Enabled(ss[k], acts[k]) && ss[k + 1] == Step(ss[k], acts[k]) && Inv(ss[k + 1])
  {
    RunInv(ss, acts, k);
    assert StepAt(ss, acts, k);
    StepKeeps(ss[k], acts[k]);
  }

  /** Nobody comes to be parked on addr with an expected value the word does not have, whatever ticks,
      parks, signals and exits come in between. */
  lemma {:induction false} NotBlockedLater(ss: seq<State>, acts: seq<Action>, i: nat, j: nat, addr: nat, v: int, t: nat)
    requires IsRun(ss, acts) && i <= j < |ss| && !BlockedOn(ss[i], t, addr, v)
    requires forall k :: i <= k < j ==> Load(ss[k].mem, addr) != v
    ensures !BlockedOn(ss[j], t, addr, v)
    decreases j
  {
    if i < j {
      var m := j - 1;
      NotBlockedLater(ss, acts, i, m, addr, v, t);
      BlockedOnRunStep(ss, acts, m, t, addr, v);
    }
  }

  lemma BlockedOnRunStep(ss: seq<State>, acts: seq<Action>, k: nat, t: nat, addr: nat, v: int)
    requires IsRun(ss, acts) && k < |acts|
    ensures BlockedOn(ss[k + 1], t, addr, v) ==> BlockedOn(ss[k], t, addr, v) || Load(ss[k].mem, addr) == v
  {
    RunStep(ss, acts, k);
    if BlockedOn(ss[k + 1], t, addr, v) {
      BlockedOnStep(ss[k], acts[k], t, addr, v);
    }
  }

  /** What a wait looks like from outside, state by state. */
  datatype View = View(waits: bool, parked: bool, reason: Reason)

  function ViewOf(s: State, t: nat, w: Park, dl: nat): View {
    if Sized(s) && t < ALL_THREADS
    then View(Waits(s, t, w, dl), s.sc.threads[t].state == Blocked, s.sc.threads[t].reason)
    else View(false, false, NoReason)
  }

  /** From one view to the next: not waiting, just parked, unchanged, or woken. */
  predicate ViewStep(v: View, v': View, parks: bool, wakes: bool) {
    v'.waits ==>
      || (parks && v'.parked)
      || (v.waits && v'.parked == v.parked && v'.reason == v.reason)
      || (v.waits && v.parked && !v'.parked && wakes)
  }

  lemma {:induction false} Story(v: seq<View>, parks: seq<bool>, wakes: seq<bool>, n: nat) returns (i: nat, j: nat)
    requires |parks| == |wakes| && |v| == |parks| + 1 && n < |v| && v[n].waits && !v[0].waits
    requires forall k :: 0 <= k < n ==> ViewStep(v[k], v[k + 1], parks[k], wakes[k])
    ensures i < j <= n && parks[i]
    ensures forall k :: i < k <= n ==> v[k].waits
    ensures forall k :: i < k <= j ==> v[k].parked
    ensures forall k :: j < k <= n ==> !v[k].parked && v[k].reason == v[n].reason
    ensures j < n ==> wakes[j]
  {
    assert ViewStep(v[n - 1], v[n], parks[n - 1], wakes[n - 1]);
    if parks[n - 1] && v[n].parked {
      i, j := n - 1, n;
    } else {
      i, j := Story(v, parks, wakes, n - 1);
      if v[n].parked {
        j := n;
      }
    }
  }

  lemma ViewSteps(ss: seq<State>, acts: seq<Action>, k: nat, t: nat, w: Park, dl: nat)
    requires IsRun(ss, acts) && k < |acts|
    ensures ViewStep(ViewOf(ss[k], t, w, dl), ViewOf(ss[k + 1], t, w, dl), ParksOn(ss[k], acts[k], t, w, dl),
                     WakesFor(ss[k], acts[k], t, ViewOf(ss[k + 1], t, w, dl).reason))
  {
    RunStep(ss, acts, k);
    if ViewOf(ss[k + 1], t, w, dl).waits {
      WaitStep(ss[k], acts[k], t, w, dl);
    }
  }

  lemma StoryOf(ss: seq<State>, acts: seq<Action>, n: nat, t: nat, w: Park, dl: nat) returns (i: nat, j: nat)
    requires |ss| == |acts| + 1 && n < |ss| && ViewOf(ss[n], t, w, dl).waits && !ViewOf(ss[0], t, w, dl).waits
    requires forall k :: 0 <= k < n ==>
               ViewStep(ViewOf(ss[k], t, w, dl), ViewOf(ss[k + 1], t, w, dl), ParksOn(ss[k], acts[k], t, w, dl),
                        WakesFor(ss[k], acts[k], t, ViewOf(ss[k + 1], t, w, dl).reason))
    ensures i < j <= n && OneWake(ss, acts, i, j, n, t, w, dl)
  {
    var v := seq(|ss|, k requires 0 <= k < |ss| => ViewOf(ss[k], t, w, dl));
    var parks := seq(|acts|, k requires 0 <= k < |acts| => ParksOn(ss[k], acts[k], t, w, dl));
    var wakes := seq(|acts|, k requires 0 <= k < |acts| => WakesFor(ss[k], acts[k], t, v[k + 1].reason));
    i, j := Story(v, parks, wakes, n);
    forall k | i < k <= n ensures ViewOf(ss[k], t, w, dl).waits { assert v[k].waits; }
    forall k | i < k <= j ensures ViewOf(ss[k], t, w, dl).parked { assert v[k].parked; }
    forall k | j < k <= n
      ensures !ViewOf(ss[k], t, w, dl).parked && ViewOf(ss[k], t, w, dl).reason == ViewOf(ss[n], t, w, dl).reason
    {
      assert !v[k].parked && v[k].reason == v[n].reason;
    }
  }

  /** One park of t at i, parked from then up to j, and, unless that is n, one wake at j, whose
      reason stays on record up to n. */
  ghost predicate OneWake(ss: seq<State>, acts: seq<Action>, i: nat, j: nat, n: nat, t: nat, w: Park, dl: nat)
    requires |ss| == |acts| + 1 && i < j <= n < |ss|
  {
    && ParksOn(ss[i], acts[i], t, w, dl)
    && (forall k :: i < k <= n ==> ViewOf(ss[k], t, w, dl).waits)
    && (forall k :: i < k <= j ==> ViewOf(ss[k], t, w, dl).parked)
    && (forall k :: j < k <= n ==>
          !ViewOf(ss[k], t, w, dl).parked && ViewOf(ss[k], t, w, dl).reason == ViewOf(ss[n], t, w, dl).reason)
    && (j < n ==> WakesFor(ss[j], acts[j], t, ViewOf(ss[n], t, w, dl).reason))
  }

  /** The history of any wait in progress. */
  lemma WaitStory(ss: seq<State>, acts: seq<Action>, n: nat, t: nat, w: Park, dl: nat) returns (i: nat, j: nat)
    requires IsRun(ss, acts) && n < |ss| && ViewOf(ss[n], t, w, dl).waits
    ensures i < j <= n && OneWake(ss, acts, i, j, n, t, w, dl)
  {
    forall k | 0 <= k < n
      ensures ViewStep(ViewOf(ss[k], t, w, dl), ViewOf(ss[k + 1], t, w, dl), ParksOn(ss[k], acts[k], t, w, dl),
                       WakesFor(ss[k], acts[k], t, ViewOf(ss[k + 1], t, w, dl).reason))
    {
      ViewSteps(ss, acts, k, t, w, dl);
    }
    assert !ViewOf(ss[0], t, w, dl).waits;
    i, j := StoryOf(ss, acts, n, t, w, dl);
  }

  // --- return values -----------------------------------------------------------------------

  /** The frame of a wait whose reason has been read. */
  predicate Cleared(s: State, t: nat, f: Frame) {
    Sized(s) && t < ALL_THREADS && f.Wt? && f.wpc == WClear && Base(s.stacks[t]) == f
  }

  lemma ClearedStep(s: State, a: Action, t: nat, f: Frame)
    requires Inv(s) && Enabled(s, a) && Inv(Step(s, a)) && Cleared(Step(s, a), t, f) && !Cleared(s, t, f)
    ensures ViewOf(s, t, f.what, f.dl) == View(true, false, f.why)
  {
    if t == s.sc.current {
      BaseStep(s, a);
      AppIsBottom(Stk(s).below);
      assert !HasParked(Stk(s).below);
    } else {
      OtherStack(s, a, t);
    }
  }

  lemma {:induction false} FirstTrue(b: seq<bool>, n: nat) returns (m: nat)
    requires n < |b| && b[n] && !b[0]
    ensures m < n && !b[m] && forall k :: m < k <= n ==> b[k]
  {
    if b[n - 1] { m := FirstTrue(b, n - 1); } else { m := n - 1; }
  }

  /** The reason a wait is about to return for is the one it was woken for, long ago. */
  lemma ClearedStory(ss: seq<State>, acts: seq<Action>, n: nat, t: nat, f: Frame) returns (i: nat, j: nat, m: nat)
    requires IsRun(ss, acts) && n < |ss| && Cleared(ss[n], t, f)
    ensures i < j < m < n && OneWake(ss, acts, i, j, m, t, f.what, f.dl)
    ensures ViewOf(ss[m], t, f.what, f.dl).reason == f.why
    ensures forall k :: m < k <= n ==> Cleared(ss[k], t, f)
  {
    var b := seq(|ss|, k requires 0 <= k < |ss| => Cleared(ss[k], t, f));
    m := FirstTrue(b, n);
    assert b[m + 1];
    forall k | m < k <= n ensures Cleared(ss[k], t, f) { assert b[k]; }
    RunStep(ss, acts, m);
    ClearedStep(ss[m], acts[m], t, f);
    i, j := WaitStory(ss, acts, m, t, f.what, f.dl);
  }

  lemma ClockStep(s: State, a: Action)
    requires Live(s) && (a.HandlerReturn? ==> IsHandler(Stk(s).top)) && Sized(Step(s, a))
    ensures Step(s, a).clock >= s.clock
  {
    match a
    case Advance(_) => case Tick => case HandlerReturn =>
    case User(req) => EnterFrame(s, req);
    case Run =>
      if !IsUser(Stk(s).top) { ClockRun(s); }
  }

  lemma ClockRun(s: State)
    requires Live(s) && !IsUser(Stk(s).top) && Sized(RunTop(s))
    ensures RunTop(s).clock == s.clock
  {
    match Stk(s).top
    case Wt(_, _, _, _, _) => WaitFrame(s);
    case Rs(_, _) => ReschedFrame(s);
    case Dl(_, _, _) => DeliverFrame(s);
    case Ex(_) => ExitFrame(s);
    case App => case Tramp => case Sc(_) => case Wk(_, _, _, _) => case Tk(_, _) => case Cs(_, _) => case Cl(_, _, _) =>
  }

  lemma {:induction false} Monotone(c: seq<nat>, i: nat, j: nat)
    requires i <= j < |c| && forall k :: i <= k < j ==> c[k] <= c[k + 1]
    ensures c[i] <= c[j]
  {
    if i < j {
      var k := j - 1;
      Monotone(c, i, k);
      assert c[k] <= c[k + 1];
    }
  }

  lemma ClockGrows(ss: seq<State>, acts: seq<Action>, i: nat, j: nat)
    requires IsRun(ss, acts) && i <= j < |ss|
    ensures ss[i].clock <= ss[j].clock
  {
    var c := seq(|ss|, k requires 0 <= k < |ss| => ss[k].clock);
    forall k | i <= k < j ensures c[k] <= c[k + 1] {
      RunStep(ss, acts, k);
      ClockStep(ss[k], acts[k]);
    }
    Monotone(c, i, j);
  }

  /** Thread t is about to return from futex_wait() or thread_shim_sleep_until(). */
  predicate Returns(s: State, a: Action, f: Frame) {
    && Sized(s) && a == Run && Stk(s).Push? && Stk(s).top == f && f.Wt?
    && (f.wpc == WClear || f.wpc == WFail
        || (Stk(s).below.Push? && FrameOK(f) && RunWait(s).stacks[s.sc.current] == Stk(s).below
           && f.wpc in {WCheck, WSig, WClock}))
  }

  /** A wait that is about to return from the re-check still sees another word: with IRQs off nobody
      can have changed it. */
  predicate CheckHolds(s: State) {
    Sized(s) && Stk(s).Push? && Stk(s).top.Wt? && Stk(s).top.wpc == WFail ==> WordDiffers(s, Stk(s).top.what)
  }

  lemma BaseIrqOff(st: Stack)
    requires Shape(st) && !IrqOn(Base(st))
    ensures st.Push? && st.top == Base(st)
  {
    if st.Push? && st.below.Push? && st.below.below.Push? {
      BaseIrqOff(st.below);
      OnlyTopIrqOff(st.top, st.below);
    }
  }

  lemma CheckStep(s: State, a: Action)
    requires Inv(s) && Enabled(s, a) && Inv(Step(s, a)) && CheckHolds(s)
    ensures CheckHolds(Step(s, a))
  {
    var s' := Step(s, a);
    if s'.sc.current != s.sc.current {
      OtherNotWaiting(s, a, s'.sc.current);
    } else if Stk(s').top.Wt? && Stk(s').top.wpc == WFail {
      AppIsBottom(Stk(s').below);
      BaseGoto(Stk(s').top, Stk(s').top, Stk(s').below);
      BaseStep(s, a);
      if Base(Stk(s)) == Stk(s').top {
        BaseIrqOff(Stk(s));
        CheckStays(s, a);
      } else {
        WaitNext(s);
        WaitMemory(s);
        AppIsBottom(Stk(s).below);
      }
    }
  }

  lemma WaitMemory(s: State)
    requires Live(s) && Stk(s).top.Wt?
    ensures RunWait(s).mem == s.mem
  {
    match Stk(s).top.wpc
    case WCheck => case WSig => case WClock => case WLock => case WPark =>
    case WFail => case WUnlock => case WCall => case WWait => case WClear =>
  }

  /** A thread that does not run is inside reschedule(), or has not started. */
  lemma OtherNotWaiting(s: State, a: Action, t: nat)
    requires Inv(s) && Enabled(s, a) && Sized(Step(s, a)) && t < ALL_THREADS && t != s.sc.current
    ensures var st := Step(s, a).stacks[t]; st.Push? ==> !st.top.Wt?
  {
    OtherStack(s, a, t);
    assert ThreadOK(s.sc.threads[t], s.stacks[t], false);
  }

  /** Between the re-check and the return only the clock moves. */
  lemma CheckStays(s: State, a: Action)
    requires Inv(s) && Enabled(s, a) && Sized(Step(s, a)) && Stk(s).top.Wt? && Stk(s).top.wpc == WFail
    ensures a.Advance? || Step(s, a).stacks == s.stacks[s.sc.current := Stk(s).below]
  {
  }

  lemma {:induction false} Checked(ss: seq<State>, acts: seq<Action>, n: nat)
    requires IsRun(ss, acts) && n < |ss|
    ensures CheckHolds(ss[n])
    decreases n
  {
    if n > 0 {
      Checked(ss, acts, n - 1);
      RunStep(ss, acts, n - 1);
      CheckStep(ss[n - 1], acts[n - 1]);
    }
  }

  /** Return value r of a wait in frame f, returning in state s, if it was woken by step a of
      state waker. */
  predicate Justified(s: State, f: Frame, r: int, waker: State, a: Action)
    requires Sized(s) && Sized(waker) && f.Wt?
  {
    var t, slept := s.sc.current, f.wpc == WClear;
    && (f.what.OnFutex? ==> r in {0, -EINTR, -ETIMEDOUT, -EAGAIN})
    && (f.what.OnClock? ==> r in {0, -EINTR})
    && (r == -ETIMEDOUT ==> (slept && WakesFor(waker, a, t, ByTimeout) && f.dl != 0 && s.clock >= f.dl))
    && (r == -EINTR ==> (
          if slept then WakesFor(waker, a, t, ByIntr) && waker.sc.threads[t].Deliverable()
          else f.wpc == WSig && Cur(s).Deliverable()))
    && (f.what.OnFutex? && r == 0 ==> (
          slept && WakesFor(waker, a, t, BySignal) && Stk(waker).top.Wk? && Stk(waker).top.addr == f.what.addr))
    && (f.what.OnClock? && r == 0 ==> s.clock >= f.dl)
    && (r == -EAGAIN ==> (f.wpc == WCheck || f.wpc == WFail) && WordDiffers(s, f.what))
  }

  /** The value a wait returns is justified by what happened.  When it had parked, `i` is the
      step of the park and `j` that of the one wake.
      -ETIMEDOUT: a scan saw the deadline passed, and it has passed now.
      0 from futex_wait(): a futex_wake() on its own address.
      -EINTR: a deliverable signal, at entry or at the wake.
      -EAGAIN: the word differs, at the entry check or since the re-check with IRQs off.
      0 from sleep: the clock has reached the target. */
  lemma ReturnValue(ss: seq<State>, acts: seq<Action>, n: nat, f: Frame) returns (i: nat, j: nat)
    requires IsRun(ss, acts) && n < |acts| && Returns(ss[n], acts[n], f) && Sized(ss[n + 1])
    ensures f.wpc == WClear ==> i < j < n && Sized(ss[j]) && ParksOn(ss[i], acts[i], ss[n].sc.current, f.what, f.dl)
    ensures Justified(ss[n], f, ss[n + 1].rets[ss[n].sc.current], if f.wpc == WClear then ss[j] else ss[n],
                      if f.wpc == WClear then acts[j] else Run)
  {
    i, j := 0, 0;
    if f.wpc == WClear {
      i, j := SleptReturn(ss, acts, n, f);
    } else {
      RunStep(ss, acts, n);
      Checked(ss, acts, n);
      EarlyReturn(ss[n], f);
    }
  }

  lemma SleptReturn(ss: seq<State>, acts: seq<Action>, n: nat, f: Frame) returns (i: nat, j: nat)
    requires IsRun(ss, acts) && n < |acts| && Returns(ss[n], acts[n], f) && Sized(ss[n + 1]) && f.wpc == WClear
    ensures i < j < n && Sized(ss[j]) && ParksOn(ss[i], acts[i], ss[n].sc.current, f.what, f.dl)
    ensures Justified(ss[n], f, ss[n + 1].rets[ss[n].sc.current], ss[j], acts[j])
  {
    var m: nat;
    i, j, m := ReturnStory(ss, acts, n, f);
    ClockGrows(ss, acts, j, n);
    RunStep(ss, acts, n);
    ReturnStep(ss[n], f);
  }

  lemma ReturnStory(ss: seq<State>, acts: seq<Action>, n: nat, f: Frame) returns (i: nat, j: nat, m: nat)
    requires IsRun(ss, acts) && n < |acts| && Returns(ss[n], acts[n], f) && f.wpc == WClear
    ensures var t := ss[n].sc.current;
            && i < j < m < n && ParksOn(ss[i], acts[i], t, f.what, f.dl) && WakesFor(ss[j], acts[j], t, f.why)
            && (f.why == BySignal ==> Stk(ss[j]).top.Wk? && Stk(ss[j]).top.addr == AddrOf(f.what))
            && (f.why == ByTimeout ==> ss[j].clock >= f.dl && f.dl != 0) && ReasonFor(f.what, f.dl, f.why)
  {
    RunStep(ss, acts, n);
    ReturnClears(ss[n], f);
    i, j, m := ClearedStory(ss, acts, n, ss[n].sc.current, f);
    RunStep(ss, acts, j);
    WokenFacts(ss[j], acts[j], ss[n].sc.current, f.what, f.dl, f.why);
  }

  lemma ReturnClears(s: State, f: Frame)
    requires Inv(s) && Returns(s, Run, f) && f.wpc == WClear
    ensures Cleared(s, s.sc.current, f) && ReasonFor(f.what, f.dl, f.why)
  {
    AppIsBottom(Stk(s).below);
    BaseGoto(f, f, Stk(s).below);
  }

  lemma WokenFacts(s: State, a: Action, t: nat, w: Park, dl: nat, r: Reason)
    requires Inv(s) && ViewOf(s, t, w, dl).waits && ViewOf(s, t, w, dl).parked && WakesFor(s, a, t, r)
    ensures r == BySignal ==> Stk(s).top.Wk? && Stk(s).top.addr == AddrOf(w)
    ensures r == ByTimeout ==> s.clock >= dl && dl != 0
  {
    assert ThreadOK(s.sc.threads[t], s.stacks[t], t == s.sc.current);
  }

  lemma ReturnStep(s: State, f: Frame)
    requires Inv(s) && Enabled(s, Run) && Returns(s, Run, f) && f.wpc == WClear && Sized(RunWait(s))
    ensures RunWait(s).rets[s.sc.current] == Result(f.what, f.why)
  {
  }

  lemma EarlyReturn(s: State, f: Frame)
    requires Inv(s) && Enabled(s, Run) && Returns(s, Run, f) && f.wpc != WClear && Sized(RunWait(s)) && CheckHolds(s)
    ensures var r := RunWait(s).rets[s.sc.current];
            || (r == -EAGAIN && (f.wpc == WCheck || f.wpc == WFail) && WordDiffers(s, f.what))
            || (r == -EINTR && f.wpc == WSig && Cur(s).Deliverable())
            || (r == 0 && f.what.OnClock? && s.clock >= f.dl)
  {
  }
}
