/** Every step of the scheduler keeps its invariant. */
module ThreadPreserved {
  import opened Options
  import opened ThreadModel
  import opened ThreadSteps
  import opened ThreadInvariant

  // --- steps of the current thread alone --------------------------------------------------

  lemma TickCallsLocal(s: State)
    requires LocalOK(s) && Live(s) && Stk(s).top.Tk? && Stk(s).top.tpc in {TScan, TDeliver}
    ensures LocalOK(RunTick(s)) && OnlyCurrent(s, RunTick(s))
  {
    var th, f, rest, s' := Cur(s), Stk(s).top, Stk(s).below, RunTick(s);
    if f.tpc == TScan {
      WaitCall(th, f, f.(tpc := TDeliver), Sc(Lock), rest);
      CallOK(s, s', f.(tpc := TDeliver), Sc(Lock));
    } else {
      WaitCall(th, f, f.(tpc := TState), Dl(DCheck, 0, {}), rest);
      CallOK(s, s', f.(tpc := TState), Dl(DCheck, 0, {}));
    }
  }

  lemma TickPreemptsLocal(s: State)
    requires LocalOK(s) && Live(s) && Stk(s).top.Tk? && Stk(s).top.tpc in {TState, THead, TEnd}
    ensures LocalOK(RunTick(s)) && OnlyCurrent(s, RunTick(s))
  {
    var th, f, rest, s' := Cur(s), Stk(s).top, Stk(s).below, RunTick(s);
    if f.tpc == TState && th.state == Running {
      WaitGoto(th, th, f, f.(tpc := THead), rest);
      GotoOK(s, s', f.(tpc := THead));
    } else if f.tpc == THead && s.sc.queue != [] {
      WaitCall(th, f, f.(tpc := TEnd), Rs(RTop, true), rest);
      CallOK(s, s', f.(tpc := TEnd), Rs(RTop, true));
    } else {
      WaitPop(th, th, f, rest);
      PopOK(s, s');
    }
  }

  /** A move between two points of deliver_pending_signals(). */
  lemma DeliverGoto(s: State, s': State, f': Frame)
    requires LocalOK(s) && Stk(s).top.Dl?
    requires Sized(s')
    requires s'.sc == SetCur(s, Cur(s).(pending := s'.sc.threads[s.sc.current].pending,
             blocked := s'.sc.threads[s.sc.current].blocked)).sc
    requires s'.stacks == Goto(s, f').stacks && (s'.irqOn <==> IrqOn(f'))
    requires Signals(Cur(s').pending) && Signals(Cur(s').blocked)
    requires f'.Dl? && f'.dpc != DCheck && Sane(f') && MaskOK(Push(f', Stk(s).below), Cur(s').blocked)
    requires Stk(s).top.dpc == DCheck ==> Cur(s).Deliverable()
    ensures LocalOK(s') && OnlyCurrent(s, s')
  {
    WaitGoto(Cur(s), Cur(s'), Stk(s).top, f', Stk(s).below);
    GotoOK(s, s', f');
  }

  lemma DeliverPop(s: State, s': State)
    requires LocalOK(s) && Stk(s).top.Dl?
    requires Sized(s') && s'.sc == SetCur(s, Cur(s).(blocked := s'.sc.threads[s.sc.current].blocked)).sc
    requires s'.stacks == Pop(s).stacks && s'.irqOn
    requires Signals(Cur(s').blocked) && MaskOK(Stk(s).below, Cur(s').blocked)
    requires Stk(s).top.dpc == DCheck ==> Cur(s').blocked == Cur(s).blocked
    ensures LocalOK(s') && OnlyCurrent(s, s')
  {
    WaitPop(Cur(s), Cur(s'), Stk(s).top, Stk(s).below);
    PopOK(s, s');
  }

  lemma DeliverLocal(s: State)
    requires LocalOK(s) && Live(s) && Stk(s).top.Dl? && Stk(s).top.dpc != DHandler && !RunDeliver(s).halted
    requires Stk(s).top.dpc != DCheck ==> Signals(s.acts[Stk(s).top.sig - 1].mask)
    ensures LocalOK(RunDeliver(s)) && OnlyCurrent(s, RunDeliver(s))
  {
    match Stk(s).top.dpc
    case DCheck => DeliverCheck(s);
    case DAct => DeliverAct(s);
    case DMask => DeliverMask(s);
    case DSelf => DeliverSelf(s);
    case DReset => DeliverResetLocal(s);
    case DRestore => DeliverRestoreLocal(s);
    case _ => DeliverClearLocal(s);
  }

  lemma DeliverCheck(s: State)
    requires LocalOK(s) && Live(s) && Stk(s).top.Dl? && Stk(s).top.dpc == DCheck
    ensures LocalOK(RunDeliver(s)) && OnlyCurrent(s, RunDeliver(s))
  {
    var s' := RunDeliver(s);
    if Stk(s') == Stk(s).below {
      DeliverPop(s, s');
    } else {
      DeliverGoto(s, s', Stk(s').top);
    }
  }

  lemma DeliverAct(s: State)
    requires LocalOK(s) && Live(s) && Stk(s).top.Dl? && Stk(s).top.dpc == DAct && !RunDeliver(s).halted
    ensures LocalOK(RunDeliver(s)) && OnlyCurrent(s, RunDeliver(s))
  {
    var s' := RunDeliver(s);
    if Stk(s') == Stk(s).below {
      DeliverPop(s, s');
    } else {
      DeliverGoto(s, s', Stk(s).top.(dpc := DMask, saved := Cur(s).blocked));
    }
  }

  lemma DeliverClearLocal(s: State)
    requires LocalOK(s) && Live(s) && Stk(s).top.Dl? && Stk(s).top.dpc in {DLock, DClear, DUnlock}
    ensures LocalOK(RunDeliver(s)) && OnlyCurrent(s, RunDeliver(s))
  {
    DeliverGoto(s, RunDeliver(s), Stk(RunDeliver(s)).top);
  }

  lemma DeliverMask(s: State)
    requires LocalOK(s) && Live(s) && Stk(s).top.Dl? && Stk(s).top.dpc == DMask
    requires Signals(s.acts[Stk(s).top.sig - 1].mask)
    ensures LocalOK(RunDeliver(s)) && OnlyCurrent(s, RunDeliver(s))
  {
    DeliverGoto(s, RunDeliver(s), Stk(s).top.(dpc := DSelf));
  }

  lemma DeliverSelf(s: State)
    requires LocalOK(s) && Live(s) && Stk(s).top.Dl? && Stk(s).top.dpc == DSelf
    ensures LocalOK(RunDeliver(s)) && OnlyCurrent(s, RunDeliver(s))
  {
    DeliverGoto(s, RunDeliver(s), Stk(s).top.(dpc := DHandler));
  }

  lemma DeliverResetLocal(s: State)
    requires LocalOK(s) && Live(s) && Stk(s).top.Dl? && Stk(s).top.dpc == DReset
    ensures LocalOK(RunDeliver(s)) && OnlyCurrent(s, RunDeliver(s))
  {
    DeliverGoto(s, RunDeliver(s), Stk(s).top.(dpc := DRestore));
  }

  lemma DeliverRestoreLocal(s: State)
    requires LocalOK(s) && Live(s) && Stk(s).top.Dl? && Stk(s).top.dpc == DRestore
    ensures LocalOK(RunDeliver(s)) && OnlyCurrent(s, RunDeliver(s))
  {
    DeliverPop(s, RunDeliver(s));
  }

  /** The checks of futex_wait() and thread_shim_sleep_until() before anything is set up. */
  lemma EntryChecksLocal(s: State)
    requires LocalOK(s) && Live(s) && Stk(s).top.Wt? && Stk(s).top.wpc in {WCheck, WSig}
    ensures LocalOK(RunWait(s)) && OnlyCurrent(s, RunWait(s))
  {
    WaitMovesLocal(s, RunWait(s));
  }

  /** The deadline, and the way into the IRQ-off section. */
  lemma BeforeParkLocal(s: State)
    requires LocalOK(s) && Live(s) && Stk(s).top.Wt? && Stk(s).top.wpc in {WClock, WLock}
    ensures LocalOK(RunWait(s)) && OnlyCurrent(s, RunWait(s))
  {
    WaitMovesLocal(s, RunWait(s));
  }

  /** A wait that has not parked returns or moves on. */
  lemma WaitMovesLocal(s: State, s': State)
    requires LocalOK(s) && Live(s) && Stk(s).top.Wt? && Plain(Stk(s).top) && Sized(s') && s'.sc == s.sc
    requires if Stk(s') == Stk(s).below then s'.stacks == Pop(s).stacks && s'.irqOn
             else Stk(s').Push? && s'.stacks == Goto(s, Stk(s').top).stacks && (s'.irqOn <==> IrqOn(Stk(s').top))
                  && Stk(s').top.Wt? && Plain(Stk(s').top) && Sane(Stk(s').top)
    ensures LocalOK(s') && OnlyCurrent(s, s')
  {
    var th, f, rest := Cur(s), Stk(s).top, Stk(s).below;
    AppIsBottom(rest);
    if Stk(s') == rest {
      WaitPop(th, th, f, rest);
      PopOK(s, s');
    } else {
      WaitGoto(th, th, f, Stk(s').top, rest);
      GotoOK(s, s', Stk(s').top);
    }
  }

  lemma AfterParkLocal(s: State)
    requires LocalOK(s) && Live(s) && Stk(s).top.Wt? && Stk(s).top.wpc in {WFail, WUnlock, WCall}
    ensures LocalOK(RunWait(s)) && OnlyCurrent(s, RunWait(s))
  {
    var th, f, rest, s' := Cur(s), Stk(s).top, Stk(s).below, RunWait(s);
    AppIsBottom(rest);
    if f.wpc == WCall {
      WaitCall(th, f, f.(wpc := WWait), Rs(RTop, false), rest);
      CallOK(s, s', f.(wpc := WWait), Rs(RTop, false));
    } else if f.wpc == WFail {
      WaitPop(th, th, f, rest);
      PopOK(s, s');
    } else {
      WaitGoto(th, th, f, Stk(s').top, rest);
      GotoOK(s, s', Stk(s').top);
    }
  }

  /** Reading the wake reason and returning. */
  lemma ReasonReadLocal(s: State)
    requires LocalOK(s) && Live(s) && Stk(s).top.Wt? && Stk(s).top.wpc in {WWait, WClear}
    ensures LocalOK(RunWait(s)) && OnlyCurrent(s, RunWait(s))
  {
    var th, f, rest, s' := Cur(s), Stk(s).top, Stk(s).below, RunWait(s);
    AppIsBottom(rest);
    BaseGoto(f, f, rest);
    assert !HasParked(rest);
    if f.wpc == WWait {
      GotoOK(s, s', Stk(s').top);
    } else {
      PopOK(s, s');
    }
  }

  /** The park itself. */
  lemma ParkLocal(s: State)
    requires LocalOK(s) && Live(s) && Stk(s).top.Wt? && Stk(s).top.wpc == WPark
    ensures LocalOK(RunWait(s)) && OnlyCurrent(s, RunWait(s))
  {
    var th, f, rest, s' := Cur(s), Stk(s).top, Stk(s).below, RunWait(s);
    AppIsBottom(rest);
    BaseGoto(f, Stk(s').top, rest);
    assert !HasParked(rest);
    if Stk(s').top.wpc == WFail {
      GotoOK(s, s', Stk(s').top);
    }
  }

  /** reschedule() outside its IRQ-off body. */
  lemma ReschedLocal(s: State)
    requires LocalOK(s) && Live(s) && Stk(s).top.Rs? && Stk(s).top.rpc in {RTop, RSelf, RResume}
    ensures LocalOK(RunResched(s)) && OnlyCurrent(s, RunResched(s))
  {
    var th, f, rest, s' := Cur(s), Stk(s).top, Stk(s).below, RunResched(s);
    if f.rpc == RTop {
      WaitGoto(th, th, f, Stk(s').top, rest);
      GotoOK(s, s', Stk(s').top);
    } else {
      WaitPop(th, th, f, rest);
      PopOK(s, s');
    }
  }

  /** Idling in reschedule(0). */
  lemma IdleLocal(s: State)
    requires LocalOK(s) && Live(s) && Stk(s).top.Rs? && Stk(s).top.rpc in {RNone, RSleep} && !Stk(s).top.rq
    ensures LocalOK(RunResched(s)) && OnlyCurrent(s, RunResched(s))
  {
    var th, f, rest, s' := Cur(s), Stk(s).top, Stk(s).below, RunResched(s);
    WaitGoto(th, th, f, Stk(s').top, rest);
    GotoOK(s, s', Stk(s').top);
  }

  lemma IdleScanLocal(s: State)
    requires LocalOK(s) && Live(s) && Stk(s).top == Rs(RIdle, false)
    ensures LocalOK(RunResched(s)) && OnlyCurrent(s, RunResched(s))
  {
    WaitCall(Cur(s), Stk(s).top, Rs(RSleep, false), Sc(Lock), Stk(s).below);
    CallOK(s, RunResched(s), Rs(RSleep, false), Sc(Lock));
  }

  lemma ScanLocal(s: State)
    requires LocalOK(s) && Live(s) && Stk(s).top.Sc? && Stk(s).top.sec != Body
    ensures LocalOK(RunScan(s)) && OnlyCurrent(s, RunScan(s))
  {
    var th, f, rest, s' := Cur(s), Stk(s).top, Stk(s).below, RunScan(s);
    if f.sec == Lock {
      WaitGoto(th, th, f, Stk(s').top, rest);
      GotoOK(s, s', Stk(s').top);
    } else {
      WaitPop(th, th, f, rest);
      PopOK(s, s');
    }
  }

  lemma WakeLocal(s: State)
    requires LocalOK(s) && Live(s) && Stk(s).top.Wk? && Stk(s).top.sec != Body
    ensures LocalOK(RunWake(s)) && OnlyCurrent(s, RunWake(s))
  {
    var th, f, rest, s' := Cur(s), Stk(s).top, Stk(s).below, RunWake(s);
    if f.sec == Lock {
      WaitGoto(th, th, f, Stk(s').top, rest);
      GotoOK(s, s', Stk(s').top);
    } else {
      WaitPop(th, th, f, rest);
      PopOK(s, s');
    }
  }

  /** A thread in a raise_pending() or rt_sigprocmask() call is not exiting. */
  lemma CriticalBase(st: Stack)
    requires Shape(st) && st.Push? && st.top.Cs?
    ensures ExParked(Base(st)) ==> !NoDl(st)
  {
    if st.below.top == App {
      AppIsBottom(st.below);
    } else {
      assert st.below.top.dpc == DHandler;
    }
  }

  lemma CriticalLocal(s: State)
    requires LocalOK(s) && Live(s) && Stk(s).top.Cs? && Stk(s).top.sec != Body
    ensures LocalOK(RunCritical(s)) && OnlyCurrent(s, RunCritical(s))
  {
    var th, f, rest, s' := Cur(s), Stk(s).top, Stk(s).below, RunCritical(s);
    if f.sec == Unlock {
      WaitPop(th, th, f, rest);
      PopOK(s, s');
    } else {
      WaitGoto(th, th, f, Stk(s').top, rest);
      GotoOK(s, s', Stk(s').top);
    }
  }

  /** A call made by a handler is not made by an exiting thread. */
  lemma NotExiting(th: Thread, st: Stack)
    requires st.Push? && st.top.Cs? && st.below.Push? && IsUser(st.below.top) && WaitOK(th, st)
    requires st.below.top == App ==> st.below.below == Empty
    ensures !ExParked(Base(st))
  {
    if st.below.top != App {
      assert !NoDl(st.below);
    }
  }

  /** rt_sigprocmask() changes the mask of code that runs inside no unfinished tick but its own. */
  lemma SetMaskLocal(s: State)
    requires LocalOK(s) && Live(s) && Stk(s).top.Cs? && Stk(s).top.sec == Body && Stk(s).top.act.SetMask?
    ensures LocalOK(RunCritical(s)) && OnlyCurrent(s, RunCritical(s))
  {
    var th, f, rest, s' := Cur(s), Stk(s).top, Stk(s).below, RunCritical(s);
    CriticalBase(Stk(s));
    if rest.top == App {
      AppIsBottom(rest);
    }
    assert MaskOK(rest, th.blocked);
    assert MaskOK(rest, Cur(s').blocked);
    NotExiting(th, Stk(s));
    WaitGoto(th, Cur(s'), f, Cs(Unlock, f.act), rest);
    GotoOK(s, s', Cs(Unlock, f.act));
  }

  lemma CloneLocal(s: State)
    requires LocalOK(s) && Live(s) && Stk(s).top.Cl? && Stk(s).top.lpc in {LLock, LUnlock}
    ensures LocalOK(RunClone(s)) && OnlyCurrent(s, RunClone(s))
  {
    var th, f, rest, s' := Cur(s), Stk(s).top, Stk(s).below, RunClone(s);
    AppIsBottom(rest);
    if f.lpc == LUnlock {
      WaitPop(th, th, f, rest);
      PopOK(s, s');
    } else {
      WaitGoto(th, th, f, Stk(s').top, rest);
      GotoOK(s, s', Stk(s').top);
    }
  }

  /** thread_shim_exit_current() around its switch. */
  lemma ExitLocal(s: State)
    requires LocalOK(s) && Live(s) && Stk(s).top.Ex? && Stk(s).top.xpc != XSwitch
    requires Stk(s).top.xpc == XPark ==> !Cur(s).Deliverable()
    ensures LocalOK(RunExit(s)) && OnlyCurrent(s, RunExit(s)) && RunExit(s).acts == s.acts
  {
    match Stk(s).top.xpc
    case XPark => ExitParkLocal(s);
    case XCtid => ExitCtidLocal(s);
    case XWake => ExitCallsLocal(s);
    case XIdle => ExitCallsLocal(s);
    case XLock => ExitEntersLocal(s);
    case XUnlock => ExitEntersLocal(s);
    case _ => ExitIdlesLocal(s);
  }

  lemma ExitEntersLocal(s: State)
    requires LocalOK(s) && Live(s) && Stk(s).top.Ex? && Stk(s).top.xpc in {XLock, XUnlock}
    ensures LocalOK(RunExit(s)) && OnlyCurrent(s, RunExit(s))
  {
    ExitGoto(s, RunExit(s), if Stk(s).top.xpc == XLock then Ex(XPark) else Ex(XCtid));
  }

  lemma ExitIdlesLocal(s: State)
    requires LocalOK(s) && Live(s) && Stk(s).top.Ex? && Stk(s).top.xpc in {XLock2, XNone, XSleep}
    ensures LocalOK(RunExit(s)) && OnlyCurrent(s, RunExit(s))
  {
    var pc := Stk(s).top.xpc;
    ExitGoto(s, RunExit(s), Ex(if pc == XLock2 then XSwitch else if pc == XNone then XIdle else XLock2));
  }

  lemma ExitCtidLocal(s: State)
    requires LocalOK(s) && Live(s) && Stk(s).top == Ex(XCtid)
    ensures LocalOK(RunExit(s)) && OnlyCurrent(s, RunExit(s))
  {
    ExitGoto(s, RunExit(s), Stk(RunExit(s)).top);
  }

  lemma ExitGoto(s: State, s': State, f': Frame)
    requires LocalOK(s) && Live(s) && Stk(s).top.Ex?
    requires Sized(s') && s'.sc == s.sc && s'.stacks == Goto(s, f').stacks && (s'.irqOn <==> IrqOn(f'))
    requires f'.Ex? && (f' == Ex(XWake) ==> Cur(s).ctid != 0) && (ExParked(f') <==> ExParked(Stk(s).top))
    ensures LocalOK(s') && OnlyCurrent(s, s')
  {
    AppIsBottom(Stk(s).below);
    WaitGoto(Cur(s), Cur(s), Stk(s).top, f', Stk(s).below);
    GotoOK(s, s', f');
  }

  lemma ExitCallsLocal(s: State)
    requires LocalOK(s) && Live(s) && Stk(s).top.Ex? && Stk(s).top.xpc in {XWake, XIdle}
    ensures LocalOK(RunExit(s)) && OnlyCurrent(s, RunExit(s))
  {
    if Stk(s).top.xpc == XWake {
      ExitCall(s, RunExit(s), Ex(XLock2), Wk(Lock, Cur(s).ctid, 1, 0));
    } else {
      ExitCall(s, RunExit(s), Ex(XSleep), Sc(Lock));
    }
  }

  lemma ExitCall(s: State, s': State, f': Frame, g: Frame)
    requires LocalOK(s) && Live(s) && Stk(s).top.Ex? && ExParked(Stk(s).top) && ExParked(f') && f' != Ex(XWake)
    requires Sized(s') && s'.sc == s.sc && s'.stacks == Call(s, f', g).stacks && s'.irqOn
    requires (f' == Ex(XSleep) && g == Sc(Lock))
             || (f' == Ex(XLock2) && Stk(s).top == Ex(XWake) && g == Wk(Lock, Cur(s).ctid, 1, 0))
    ensures LocalOK(s') && OnlyCurrent(s, s')
  {
    var rest := Stk(s).below;
    AppIsBottom(rest);
    BaseGoto(Stk(s).top, Stk(s).top, rest);
    WaitCall(Cur(s), Stk(s).top, f', g, rest);
    CallOK(s, s', f', g);
  }

  /** The exiting thread takes itself off every queue. */
  lemma ExitParkLocal(s: State)
    requires LocalOK(s) && Live(s) && Stk(s).top == Ex(XPark) && !Cur(s).Deliverable()
    ensures LocalOK(RunExit(s)) && OnlyCurrent(s, RunExit(s))
  {
    var th, f, rest, s' := Cur(s), Stk(s).top, Stk(s).below, RunExit(s);
    AppIsBottom(rest);
    BaseGoto(f, Ex(XUnlock), rest);
    assert !HasParked(rest);
  }

  /** A timer tick lands on whatever the current thread is doing. */
  lemma TickArrives(s: State)
    requires LocalOK(s) && Live(s) && s.irqOn
    ensures LocalOK(Step(s, Tick)) && OnlyCurrent(s, Step(s, Tick))
  {
    var th, f, rest, s' := Cur(s), Stk(s).top, Stk(s).below, Step(s, Tick);
    WaitCall(th, f, f, Tk(TScan, th.blocked), rest);
    CallOK(s, s', f, Tk(TScan, th.blocked));
  }

  lemma HandlerReturnLocal(s: State)
    requires LocalOK(s) && Live(s) && IsHandler(Stk(s).top)
    ensures LocalOK(Step(s, HandlerReturn)) && OnlyCurrent(s, Step(s, HandlerReturn))
  {
    DeliverGoto(s, Step(s, HandlerReturn), Stk(s).top.(dpc := DReset));
  }

  /** The frame a request pushes, if it pushes one. */
  lemma EnterCall(s: State, s': State, g: Frame)
    requires LocalOK(s) && IsUser(Stk(s).top) && Sized(s')
    requires s'.sc == s.sc && s'.stacks == Call(s, Stk(s).top, g).stacks && s'.irqOn == s.irqOn
    requires g.Wt? || g.Wk? || g == Rs(RTop, true) || g.Cs? || g == Ex(XLock)
    requires Plain(g) && Sane(g) && IrqOn(g) && Above(Stk(s).top, g) && !ParkedFrame(g)
    ensures LocalOK(s') && OnlyCurrent(s, s')
  {
    var f, rest := Stk(s).top, Stk(s).below;
    if f == App {
      AppIsBottom(Stk(s));
      assert !HasParked(Stk(s));
    }
    WaitCall(Cur(s), f, f, g, rest);
    CallOK(s, s', f, g);
  }

  // --- steps that reach other threads -----------------------------------------------------

  /** Waking a parked thread agrees with what its stack says. */
  lemma ThreadWoken(th: Thread, th': Thread, st: Stack, isCur: bool, w: Waker)
    requires ThreadOK(th, st, isCur) && SameOrWoken(th, th', w)
    requires w.FutexWake? ==> w.addr != 0
    ensures ThreadOK(th', st, isCur)
  {
    if th' != th {
      assert InWait(Base(st));
      BaseSane(st);
    }
  }

  lemma BaseSane(st: Stack)
    requires AllSane(st)
    ensures Sane(Base(st))
  {
  }

  /** scan_timeouts() and futex_wake(): the threads in sc are s's, some of them woken. */
  lemma WakesKeep(s: State, s': State, sc: Sched, w: Waker, f': Frame)
    requires Inv(s) && Live(s) && (Stk(s).top.Sc? || Stk(s).top.Wk?) && !IrqOn(Stk(s).top)
    requires SchedOK(sc) && WakesOnly(s.sc, sc, w) && (w.FutexWake? ==> w.addr != 0)
    requires s' == Goto(s, f').(sc := sc) && !IrqOn(f') && Sane(f')
    requires (f'.Sc? && Stk(s).top.Sc?) || (f'.Wk? && Stk(s).top.Wk?)
    ensures Inv(s')
  {
    SectionMoves(s, f');
    WokenOK(Goto(s, f'), s', sc, w);
  }

  /** Inside an IRQ-off section, the frame alone moves on. */
  lemma SectionMoves(s: State, f': Frame)
    requires Inv(s) && Live(s) && !IrqOn(Stk(s).top) && !IrqOn(f') && Sane(f')
    requires (f'.Sc? && Stk(s).top.Sc?) || (f'.Wk? && Stk(s).top.Wk?)
             || (f'.Cs? && Stk(s).top.Cs? && f'.act == Stk(s).top.act)
    ensures Inv(Goto(s, f'))
  {
    WaitGoto(Cur(s), Cur(s), Stk(s).top, f', Stk(s).below);
    GotoOK(s, Goto(s, f'), f');
    LocalKeeps(s, Goto(s, f'));
  }

  /** Some threads are woken, and nothing else happens. */
  lemma WokenOK(s: State, s': State, sc: Sched, w: Waker)
    requires Inv(s) && SchedOK(sc) && WakesOnly(s.sc, sc, w) && (w.FutexWake? ==> w.addr != 0)
    requires s' == s.(sc := sc)
    ensures Inv(s')
  {
    forall i | 0 <= i < ALL_THREADS ensures ThreadOK(sc.threads[i], s.stacks[i], i == sc.current) {
      ThreadWoken(s.sc.threads[i], sc.threads[i], s.stacks[i], i == sc.current, w);
    }
  }

  /** A ready thread can go on from where it was switched out, with IRQs still off. */
  lemma Resumes(th: Thread, st: Stack)
    requires ThreadOK(th, st, false) && th.state == Ready
    ensures ThreadOK(th.(state := Running), st, true) && !IrqOn(st.top)
  {
  }

  /** Thread i, when the current thread becomes (th, st) and `next` goes on. */
  lemma HandedOn(threads: seq<Thread>, stacks: seq<Stack>, cur: nat, next: nat, th: Thread, st: Stack, i: nat)
    requires |threads| == |stacks| == ALL_THREADS && cur < ALL_THREADS && next < ALL_THREADS && cur != next
    requires i < ALL_THREADS
    requires ThreadOK(threads[i], stacks[i], i == cur) && ThreadOK(th, st, false) && threads[next].state == Ready
    ensures ThreadOK(threads[cur := th][next := threads[next].(state := Running)][i], stacks[cur := st][i], i == next)
    ensures i == next ==> !IrqOn(stacks[i].top)
  {
    if i == next {
      Resumes(threads[i], stacks[i]);
    }
  }

  /** The CPU goes from the current thread, now (th, st), to `next`. */
  lemma Handover(s: State, s': State, next: nat, th: Thread, st: Stack)
    requires Inv(s) && next < ALL_THREADS && next != s.sc.current && s.sc.threads[next].state == Ready
    requires ThreadOK(th, st, false)
    requires SchedOK(s'.sc) && s'.sc.current == next && s'.acts == s.acts && !s'.irqOn
    requires s'.sc.threads == s.sc.threads[s.sc.current := th][next := s.sc.threads[next].(state := Running)]
    requires s'.stacks == s.stacks[s.sc.current := st] && |s'.rets| == ALL_THREADS && CloneOK(s'.sc.threads, s'.stacks)
    ensures Inv(s')
  {
    forall i | 0 <= i < ALL_THREADS ensures ThreadOK(s'.sc.threads[i], s'.stacks[i], i == next) {
      assert ThreadOK(s.sc.threads[i], s.stacks[i], i == s.sc.current);
      HandedOn(s.sc.threads, s.stacks, s.sc.current, next, th, st, i);
    }
    assert ThreadOK(s.sc.threads[next], s.stacks[next], false);
    HandedOn(s.sc.threads, s.stacks, s.sc.current, next, th, st, next);
  }

  /** The outgoing thread stops in reschedule(), the next one goes on. */
  lemma SwitchThreads(s: State, s': State, sc: Sched, th: Thread, st: Stack)
    requires Inv(s) && SchedOK(sc) && sc.queue != [] && sc.queue[0] != s.sc.current && sc.current == s.sc.current
    requires sc.threads == s.sc.threads[s.sc.current := th] && th.state != Running
    requires ThreadOK(th, st, false) && Cloning(st) == Cloning(Stk(s)) && CloneSlot(st) == CloneSlot(Stk(s))
    requires s' == SetStk(s, st).(sc := SwitchToHead(sc)) && !s.irqOn
    ensures Inv(s')
  {
    SwitchKeeps(sc);
    assert s.sc.threads[sc.queue[0]].state == Ready;
    CloneKept(s.sc.threads, s.stacks, s.sc.current, sc.queue[0], th, st);
    Handover(s, s', sc.queue[0], th, st);
  }

  lemma CloneKept(threads: seq<Thread>, stacks: seq<Stack>, cur: nat, next: nat, th: Thread, st: Stack)
    requires |threads| == |stacks| == ALL_THREADS && CloneOK(threads, stacks) && cur < ALL_THREADS && next < ALL_THREADS
    requires cur != next
    requires threads[next].state == Ready && (threads[cur].state == Free ==> th.state == Free)
    requires (Cloning(st) ==> Cloning(stacks[cur])) && (CloneSlot(st) != 0 ==> CloneSlot(st) == CloneSlot(stacks[cur]))
    ensures CloneOK(threads[cur := th][next := threads[next].(state := Running)], stacks[cur := st])
  {
  }

  /** What reschedule(0) leaves behind, whether or not the thread picks itself. */
  lemma ParkedOut(th: Thread, f: Frame, rest: Stack)
    requires ThreadOK(th, Push(f, rest), true) && f == Rs(RBody, false)
    ensures th.state != Running && ThreadOK(th, Push(Rs(RResume, false), rest), false)
    ensures th.state == Ready ==> ThreadOK(th.(state := Running), Push(Rs(RSelf, false), rest), true)
    ensures Base(Push(Rs(RSelf, false), rest)) == Base(Push(Rs(RResume, false), rest)) == Base(Push(f, rest))
  {
    assert Shape(rest);
    AppIsBottom(rest.below);
    assert !HasParked(rest.below);
    BaseGoto(f, Rs(RResume, false), rest);
    BaseGoto(f, Rs(RSelf, false), rest);
  }

  lemma RunningOut(th: Thread, f: Frame, rest: Stack)
    requires ThreadOK(th, Push(f, rest), true) && f == Rs(RBody, true)
    ensures th.state == Running && ThreadOK(th.(state := Ready), Push(Rs(RResume, true), rest), false)
    ensures ThreadOK(th, Push(Rs(RSelf, true), rest), true)
    ensures ExParked(Base(Push(Rs(RSelf, true), rest))) <==> ExParked(Base(Push(f, rest)))
    ensures Cloning(Push(Rs(RSelf, true), rest)) == Cloning(Push(Rs(RResume, true), rest)) == Cloning(Push(f, rest))
    ensures CloneSlot(Push(Rs(RSelf, true), rest)) == CloneSlot(Push(Rs(RResume, true), rest))
            == CloneSlot(Push(f, rest))
  {
    assert !HasParked(Push(f, rest));
    BaseGoto(f, Rs(RResume, true), rest);
    BaseGoto(f, Rs(RSelf, true), rest);
    WaitGoto(th, th, f, Rs(RResume, true), rest);
    WaitGoto(th, th, f, Rs(RSelf, true), rest);
  }

  lemma NobodyReady(s: State)
    requires Inv(s) && Live(s) && Stk(s).top == Rs(RBody, false) && s.sc.queue == []
    ensures Inv(RunResched(s))
  {
    WaitGoto(Cur(s), Cur(s), Stk(s).top, Rs(RNone, false), Stk(s).below);
    GotoOK(s, RunResched(s), Rs(RNone, false));
    LocalKeeps(s, RunResched(s));
  }

  /** reschedule(0): a parked thread gives up the CPU. */
  lemma ReschedParkedKeeps(s: State)
    requires Inv(s) && Live(s) && Stk(s).top == Rs(RBody, false)
    ensures Inv(RunResched(s))
  {
    if s.sc.queue == [] {
      NobodyReady(s);
    } else if s.sc.queue[0] == s.sc.current {
      ParkedSelfKeeps(s);
    } else {
      ParkedOut(Cur(s), Stk(s).top, Stk(s).below);
      SwitchThreads(s, RunResched(s), s.sc, Cur(s), Push(Rs(RResume, false), Stk(s).below));
    }
  }

  /** The current thread's record and stack change, and the queue with it. */
  lemma CurrentChanges(s: State, s': State, th: Thread, st: Stack)
    requires Inv(s) && SchedOK(s'.sc) && s'.sc.current == s.sc.current && s'.acts == s.acts && |s'.rets| == ALL_THREADS
    requires s'.sc.threads == s.sc.threads[s.sc.current := th] && s'.stacks == s.stacks[s.sc.current := st]
    requires ThreadOK(th, st, true) && (s'.irqOn <==> IrqOn(st.top)) && th.state != Free
    requires (Cloning(st) ==> Cloning(Stk(s))) && (CloneSlot(st) != 0 ==> CloneSlot(st) == CloneSlot(Stk(s)))
    ensures Inv(s')
  {
    forall i | 0 <= i < ALL_THREADS ensures ThreadOK(s'.sc.threads[i], s'.stacks[i], i == s'.sc.current) {
      assert ThreadOK(s.sc.threads[i], s.stacks[i], i == s.sc.current);
    }
    CurrentClone(s.sc.threads, s.stacks, s.sc.current, th, st);
  }

  lemma CurrentClone(threads: seq<Thread>, stacks: seq<Stack>, cur: nat, th: Thread, st: Stack)
    requires |threads| == |stacks| == ALL_THREADS && CloneOK(threads, stacks) && cur < ALL_THREADS
    requires threads[cur].state == Free ==> th.state == Free
    requires forall i :: 0 <= i < ALL_THREADS && CloneSlot(stacks[i]) != 0 ==> CloneSlot(stacks[i]) != cur
    requires (Cloning(st) ==> Cloning(stacks[cur])) && (CloneSlot(st) != 0 ==> CloneSlot(st) == CloneSlot(stacks[cur]))
    ensures CloneOK(threads[cur := th], stacks[cur := st])
  {
  }

  /** It was woken before it switched away, and is first in the queue. */
  lemma ParkedSelfKeeps(s: State)
    requires Inv(s) && Live(s) && Stk(s).top == Rs(RBody, false) && s.sc.queue != [] && s.sc.queue[0] == s.sc.current
    ensures Inv(RunResched(s))
  {
    ParkedOut(Cur(s), Stk(s).top, Stk(s).below);
    SwitchKeeps(s.sc);
    CurrentChanges(s, RunResched(s), Cur(s).(state := Running), Push(Rs(RSelf, false), Stk(s).below));
  }

  /** reschedule(1): the running thread goes to the back of the queue. */
  lemma ReschedRunningKeeps(s: State)
    requires Inv(s) && Live(s) && Stk(s).top == Rs(RBody, true)
    ensures Inv(RunResched(s))
  {
    RequeueKeeps(s.sc);
    if Requeue(s.sc).queue[0] == s.sc.current {
      ReschedSelfKeeps(s);
    } else {
      RunningOut(Cur(s), Stk(s).top, Stk(s).below);
      SwitchThreads(s, RunResched(s), Requeue(s.sc), Cur(s).(state := Ready), Push(Rs(RResume, true), Stk(s).below));
    }
  }

  /** It was the only ready thread. */
  lemma ReschedSelfKeeps(s: State)
    requires Inv(s) && Live(s) && Stk(s).top == Rs(RBody, true)
    requires SchedOK(Requeue(s.sc)) && Requeue(s.sc).queue[0] == s.sc.current
    ensures Inv(RunResched(s))
  {
    RunningOut(Cur(s), Stk(s).top, Stk(s).below);
    SwitchKeeps(Requeue(s.sc));
    CurrentChanges(s, RunResched(s), Cur(s), Push(Rs(RSelf, true), Stk(s).below));
  }

  /** The current thread moves on and one other thread changes. */
  lemma OneOther(s: State, s': State, st: Stack, k: nat, th': Thread, st': Stack)
    requires Inv(s) && Sized(s') && SchedOK(s'.sc) && k < ALL_THREADS && k != s.sc.current
    requires s'.sc.current == s.sc.current && s'.sc.threads == s.sc.threads[k := th']
    requires s'.stacks == s.stacks[s.sc.current := st][k := st'] && s'.acts == s.acts
    requires ThreadOK(Cur(s), st, true) && ThreadOK(th', st', false)
    requires (s'.irqOn <==> IrqOn(st.top)) && CloneOK(s'.sc.threads, s'.stacks)
    ensures Inv(s')
  {
    forall i | 0 <= i < ALL_THREADS ensures ThreadOK(s'.sc.threads[i], s'.stacks[i], i == s'.sc.current) {
      assert ThreadOK(s.sc.threads[i], s.stacks[i], i == s.sc.current);
    }
  }

  lemma BaseParked(st: Stack)
    requires ParkedFrame(Base(st))
    ensures HasParked(st)
  {
  }

  /** Another thread's pending set only matters to it while it runs. */
  lemma RaisedOK(th: Thread, st: Stack, sig: nat, isCur: bool)
    requires ThreadOK(th, st, isCur) && 1 <= sig <= 64 && (isCur ==> !ExParked(Base(st)))
    ensures ThreadOK(th.(pending := th.pending + {sig}), st, isCur)
  {
    if ExParked(Base(st)) {
      BaseParked(st);
    }
  }

  /** raise_pending() on any thread. */
  lemma RaiseKeeps(s: State)
    requires Inv(s) && Live(s) && Stk(s).top.Cs? && Stk(s).top.sec == Body && Stk(s).top.act.Raise?
    ensures Inv(RunCritical(s))
  {
    var f := Stk(s).top;
    var t, m := f.act.t, Goto(s, Cs(Unlock, f.act));
    SectionMoves(s, Cs(Unlock, f.act));
    CriticalBase(Stk(m));
    RaisePending(m, t, f.act.sig);
  }

  lemma RaisePending(s: State, t: nat, sig: nat)
    requires Inv(s) && t < ALL_THREADS && 1 <= sig <= 64 && !ExParked(Base(Stk(s)))
    ensures var th := s.sc.threads[t];
            Inv(s.(sc := s.sc.(threads := s.sc.threads[t := th.(pending := th.pending + {sig})])))
  {
    var th := s.sc.threads[t].(pending := s.sc.threads[t].pending + {sig});
    assert ThreadOK(s.sc.threads[t], s.stacks[t], t == s.sc.current);
    RaisedOK(s.sc.threads[t], s.stacks[t], sig, t == s.sc.current);
    RecordChanges(s, t, th);
  }

  /** One thread's record changes, not its state. */
  lemma RecordChanges(s: State, t: nat, th: Thread)
    requires Inv(s) && t < ALL_THREADS && th.state == s.sc.threads[t].state
    requires ThreadOK(th, s.stacks[t], t == s.sc.current)
    ensures Inv(s.(sc := s.sc.(threads := s.sc.threads[t := th])))
  {
    SameStates(s.sc, t, th);
  }

  lemma SameStates(sc: Sched, t: nat, th: Thread)
    requires SchedOK(sc) && t < ALL_THREADS && th.state == sc.threads[t].state
    ensures SchedOK(sc.(threads := sc.threads[t := th]))
  {
  }

  /** clone() picks a free slot and fills its record. */
  lemma AllocKeeps(s: State)
    requires Inv(s) && Live(s) && Stk(s).top.Cl? && Stk(s).top.lpc == LAlloc
    ensures Inv(RunClone(s))
  {
    var th, f, rest, s' := Cur(s), Stk(s).top, Stk(s).below, RunClone(s);
    AppIsBottom(rest);
    if AllocFrom(s.sc.threads, 1) == ALL_THREADS {
      WaitPop(th, th, f, rest);
      PopOK(s, s');
      LocalKeeps(s, s');
    } else {
      FillSlot(s, s', AllocFrom(s.sc.threads, 1), Thread(s.nextTid, Free, f.ctid, 0, 0, NoReason, {}, th.blocked));
    }
  }

  /** The clone() frame of a thread whose own code is at the bottom. */
  lemma CloneFrame(th: Thread, f: Frame, f': Frame, rest: Stack)
    requires ThreadOK(th, Push(f, rest), true) && f.Cl? && f'.Cl? && FrameOK(f')
    ensures rest == Push(App, Empty) && ThreadOK(th, Push(f', rest), true)
    ensures Base(Push(f, rest)) == f && Base(Push(f', rest)) == f'
  {
    AppIsBottom(rest);
    BaseGoto(f, f', rest);
    WaitGoto(th, th, f, f', rest);
  }

  /** The one clone() under way moves on, and its slot's record changes. */
  lemma CloneMoves(threads: seq<Thread>, stacks: seq<Stack>, cur: nat, st: Stack, slot: nat, th': Thread, st': Stack)
    requires |threads| == |stacks| == ALL_THREADS && CloneOK(threads, stacks) && cur < ALL_THREADS && slot < ALL_THREADS
    requires slot != cur
    requires Cloning(stacks[cur]) && !Cloning(st')
    requires (CloneSlot(st) != 0 ==> CloneSlot(st) == slot && th'.state == Free)
    ensures CloneOK(threads[slot := th'], stacks[cur := st][slot := st'])
  {
    var after := stacks[cur := st][slot := st'];
    forall i | 0 <= i < ALL_THREADS && i != cur ensures !Cloning(after[i]) && CloneSlot(after[i]) == 0 {
      assert i != slot ==> !Cloning(stacks[i]);
    }
  }

  lemma FillSlot(s: State, s': State, slot: nat, th: Thread)
    requires Inv(s) && Live(s) && Stk(s).top.Cl? && Stk(s).top.lpc == LAlloc
    requires 1 <= slot < ALL_THREADS && s.sc.threads[slot].state == Free
    requires th.state == Free && th.waitAddr == th.deadline == 0 && th.pending == {} && Signals(th.blocked)
    requires s' == Goto(s, Stk(s).top.(lpc := LLock, slot := slot)).(
                     sc := s.sc.(threads := s.sc.threads[slot := th]), nextTid := s.nextTid + 1)
    ensures Inv(s')
  {
    var f' := Stk(s).top.(lpc := LLock, slot := slot);
    CloneFrame(Cur(s), Stk(s).top, f', Stk(s).below);
    assert ThreadOK(s.sc.threads[slot], s.stacks[slot], slot == s.sc.current);
    CloneMoves(s.sc.threads, s.stacks, s.sc.current, Push(f', Stk(s).below), slot, th, Empty);
    FillSched(s.sc, slot, th);
    OneOther(s, s', Push(f', Stk(s).below), slot, th, Empty);
  }

  lemma FillSched(sc: Sched, slot: nat, th: Thread)
    requires SchedOK(sc) && slot < ALL_THREADS && sc.threads[slot].state == Free && th.state == Free
    ensures SchedOK(sc.(threads := sc.threads[slot := th]))
  {
  }

  /** clone() publishes the new thread. */
  lemma PublishKeeps(s: State)
    requires Inv(s) && Live(s) && Stk(s).top.Cl? && Stk(s).top.lpc == LBody
    ensures Inv(RunClone(s))
  {
    var f, s' := Stk(s).top, RunClone(s);
    var f' := f.(lpc := LUnlock);
    CloneFrame(Cur(s), f, f', Stk(s).below);
    assert Cloning(Stk(s)) && CloneSlot(Stk(s)) == f.slot;
    assert ThreadOK(s.sc.threads[f.slot], s.stacks[f.slot], f.slot == s.sc.current);
    PublishSched(s.sc, f.slot);
    FreshOK(s.sc.threads[f.slot]);
    CloneMoves(s.sc.threads, s.stacks, s.sc.current, Push(f', Stk(s).below), f.slot, s'.sc.threads[f.slot],
        Push(Tramp, Empty));
    OneOther(s, s', Push(f', Stk(s).below), f.slot, s'.sc.threads[f.slot], Push(Tramp, Empty));
  }

  lemma FreshOK(th: Thread)
    requires ThreadOK(th, Empty, false)
    ensures ThreadOK(th.(state := Ready), Push(Tramp, Empty), false)
  {
  }

  lemma PublishSched(sc: Sched, slot: nat)
    requires SchedOK(sc) && slot < ALL_THREADS && sc.threads[slot].state == Free
    ensures SchedOK(Enqueue(sc.(threads := sc.threads[slot := sc.threads[slot].(state := Ready)]), slot))
  {
    var sc' := Enqueue(sc.(threads := sc.threads[slot := sc.threads[slot].(state := Ready)]), slot);
    assert sc'.queue[|sc.queue|] == slot;
    forall k | 0 <= k < ALL_THREADS && sc'.threads[k].state == Ready ensures k in sc'.queue {
      if k != slot { assert k in sc.queue; }
    }
  }

  /** thread_shim_exit_current() hands the CPU on and frees its slot. */
  lemma ExitSwitchKeeps(s: State)
    requires Inv(s) && Live(s) && Stk(s).top == Ex(XSwitch)
    ensures Inv(RunExit(s))
  {
    var th, f, rest, s' := Cur(s), Stk(s).top, Stk(s).below, RunExit(s);
    AppIsBottom(rest);
    BaseGoto(f, Ex(XNone), rest);
    assert th.state == Blocked;
    if s.sc.queue == [] {
      ExitGoto(s, s', Ex(XNone));
      LocalKeeps(s, s');
    } else {
      SwitchKeeps(s.sc);
      ExitThreads(s, s');
    }
  }

  lemma ExitThreads(s: State, s': State)
    requires Inv(s) && s.sc.queue != [] && SchedOK(SwitchToHead(s.sc)) && Cur(s).state == Blocked && !s.irqOn
    requires Cur(s).waitAddr == 0 && Cur(s).deadline == 0
    requires var sc := SwitchToHead(s.sc);
             s' == SetStk(s, Empty).(sc := sc.(threads := sc.threads[s.sc.current := Cur(s).(state := Free)]))
    ensures Inv(s')
  {
    var next, th := s.sc.queue[0], Cur(s).(state := Free);
    assert next != s.sc.current && s.sc.threads[next].state == Ready;
    ExitSched(s.sc, s'.sc);
    CloneKept(s.sc.threads, s.stacks, s.sc.current, next, th, Empty);
    assert s'.sc.threads == s.sc.threads[s.sc.current := th][next := s.sc.threads[next].(state := Running)];
    Handover(s, s', next, th, Empty);
  }

  lemma ExitSched(sc: Sched, sc': Sched)
    requires SchedOK(sc) && sc.threads[sc.current].state == Blocked && sc.queue != [] && SchedOK(SwitchToHead(sc))
    requires var threads, cur := SwitchToHead(sc).threads, sc.current;
             sc' == SwitchToHead(sc).(threads := threads[cur := sc.threads[cur].(state := Free)])
    ensures SchedOK(sc')
  {
    assert sc.queue[0] != sc.current;
  }

  // --- all steps ---------------------------------------------------------------------------

  lemma RunWaitKeeps(s: State)
    requires Inv(s) && Enabled(s, Run) && Stk(s).top.Wt?
    ensures Inv(RunWait(s))
  {
    var pc := Stk(s).top.wpc;
    if pc == WPark { ParkLocal(s); }
    else if pc in {WCheck, WSig} { EntryChecksLocal(s); }
    else if pc in {WClock, WLock} { BeforeParkLocal(s); }
    else if pc in {WFail, WUnlock, WCall} { AfterParkLocal(s); }
    else { ReasonReadLocal(s); }
    LocalKeeps(s, RunWait(s));
  }

  lemma RunReschedKeeps(s: State)
    requires Inv(s) && Enabled(s, Run) && Stk(s).top.Rs?
    ensures Inv(RunResched(s))
  {
    var pc := Stk(s).top.rpc;
    if pc == RBody {
      if Stk(s).top.rq { ReschedRunningKeeps(s); } else { ReschedParkedKeeps(s); }
    } else {
      if pc in {RTop, RSelf, RResume} { ReschedLocal(s); }
      else if pc == RIdle { IdleScanLocal(s); }
      else { IdleLocal(s); }
      LocalKeeps(s, RunResched(s));
    }
  }

  lemma RunTickKeeps(s: State)
    requires Inv(s) && Enabled(s, Run) && Stk(s).top.Tk?
    ensures Inv(RunTick(s))
  {
    if Stk(s).top.tpc in {TScan, TDeliver} { TickCallsLocal(s); } else { TickPreemptsLocal(s); }
    LocalKeeps(s, RunTick(s));
  }

  lemma RunScanKeeps(s: State)
    requires Inv(s) && Enabled(s, Run) && Stk(s).top.Sc?
    ensures Inv(RunScan(s))
  {
    if Stk(s).top.sec == Body {
      ScanEffect(s.sc, 0, s.clock);
      WakesKeep(s, RunScan(s), ScanFrom(s.sc, 0, s.clock), Scan(s.clock), Sc(Unlock));
    } else {
      ScanLocal(s);
      LocalKeeps(s, RunScan(s));
    }
  }

  lemma RunWakeKeeps(s: State)
    requires Inv(s) && Enabled(s, Run) && Stk(s).top.Wk?
    ensures Inv(RunWake(s))
  {
    var f := Stk(s).top;
    if f.sec == Body {
      WakeEffect(s.sc, 0, f.addr, f.n);
      var (sc, woken) := WakeFrom(s.sc, 0, f.addr, f.n);
      WakesKeep(s, RunWake(s), sc, FutexWake(f.addr), Wk(Unlock, f.addr, f.n, woken));
    } else {
      WakeLocal(s);
      LocalKeeps(s, RunWake(s));
    }
  }

  lemma RunCriticalKeeps(s: State)
    requires Inv(s) && Enabled(s, Run) && Stk(s).top.Cs?
    ensures Inv(RunCritical(s))
  {
    if Stk(s).top.sec == Body && Stk(s).top.act.Raise? {
      RaiseKeeps(s);
    } else {
      if Stk(s).top.sec == Body { SetMaskLocal(s); } else { CriticalLocal(s); }
      LocalKeeps(s, RunCritical(s));
    }
  }

  lemma RunDeliverKeeps(s: State)
    requires Inv(s) && Enabled(s, Run) && Stk(s).top.Dl?
    ensures Inv(RunDeliver(s))
  {
    DeliverActs(s);
    if RunDeliver(s).halted {
      assert RunDeliver(s) == s.(halted := true);
    } else {
      DeliverLocal(s);
      LocalKeeps(s, RunDeliver(s));
    }
  }

  lemma DeliverActs(s: State)
    requires Live(s) && Stk(s).top.Dl? && Stk(s).top.dpc != DHandler
    requires forall i :: 0 <= i < 64 ==> Signals(s.acts[i].mask)
    ensures forall i :: 0 <= i < 64 ==> Signals(RunDeliver(s).acts[i].mask)
    ensures RunDeliver(s).halted && !s.halted ==> RunDeliver(s) == s.(halted := true)
    ensures Stk(s).top.dpc != DCheck ==> Signals(s.acts[Stk(s).top.sig - 1].mask)
  {
    match Stk(s).top.dpc
    case DCheck => case DLock => case DClear => case DUnlock => case DAct =>
    case DMask => case DSelf => case DReset => case DRestore =>
  }

  lemma RunCloneKeeps(s: State)
    requires Inv(s) && Enabled(s, Run) && Stk(s).top.Cl?
    ensures Inv(RunClone(s))
  {
    if Stk(s).top.lpc == LAlloc { AllocKeeps(s); }
    else if Stk(s).top.lpc == LBody { PublishKeeps(s); }
    else { CloneLocal(s); LocalKeeps(s, RunClone(s)); }
  }

  lemma RunExitKeeps(s: State)
    requires Inv(s) && Enabled(s, Run) && Stk(s).top.Ex?
    ensures Inv(RunExit(s))
  {
    if Stk(s).top.xpc == XSwitch {
      ExitSwitchKeeps(s);
    } else {
      ExitLocal(s);
      LocalKeeps(s, RunExit(s));
    }
  }

  lemma TrampKeeps(s: State)
    requires Inv(s) && Live(s) && Stk(s).top == Tramp
    ensures Inv(RunTop(s))
  {
    AppIsBottom(Stk(s));
    assert !HasParked(Stk(s));
    LocalKeeps(s, RunTop(s));
  }

  lemma EnterKeeps(s: State, req: Request)
    requires Inv(s) && Enabled(s, User(req))
    ensures Inv(Enter(s, req))
  {
    var s' := Enter(s, req);
    if req.Clone? {
      EnterClone(s, s', req.ctid);
    } else if s'.stacks != s.stacks {
      EnterCalls(s, req);
    }
  }

  lemma EnterCalls(s: State, req: Request)
    requires Inv(s) && Enabled(s, User(req)) && !req.Clone? && Enter(s, req).stacks != s.stacks
    ensures Inv(Enter(s, req))
  {
    EnterLocal(s, req);
    LocalKeeps(s, Enter(s, req));
  }

  lemma EnterLocal(s: State, req: Request)
    requires LocalOK(s) && Live(s) && IsUser(Stk(s).top) && !req.Clone? && Enter(s, req).stacks != s.stacks
    requires Stk(s).top == App || HandlerMay(req)
    requires (req.FutexWait? ==> req.addr != 0) && (req.FutexWakeup? ==> req.addr != 0)
    ensures LocalOK(Enter(s, req)) && OnlyCurrent(s, Enter(s, req)) && Enter(s, req).acts == s.acts
  {
    match req
    case FutexWait(_, _, _) => EnterFromApp(s, req);
    case Yield => EnterFromApp(s, req);
    case SleepUntil(_) => EnterFromApp(s, req);
    case Exit => EnterFromApp(s, req);
    case FutexWakeup(a, n) => EnterCall(s, Enter(s, req), Wk(Lock, a, n, 0));
    case Tkill(_, _) => EnterCritical(s, req);
    case Sigprocmask(_, _) => EnterCritical(s, req);
    case Sigaction(_, _) => case Store(_, _) => case Clone(_) =>
  }

  lemma EnterCritical(s: State, req: Request)
    requires LocalOK(s) && Live(s) && IsUser(Stk(s).top) && Enter(s, req).stacks != s.stacks
    requires req.Tkill? || req.Sigprocmask?
    ensures LocalOK(Enter(s, req)) && OnlyCurrent(s, Enter(s, req)) && Enter(s, req).acts == s.acts
  {
    var s' := Enter(s, req);
    match req
    case Tkill(tid, sig) => EnterCall(s, s', Cs(Lock, Raise(FindTidFrom(s.sc.threads, tid, 0), sig)));
    case Sigprocmask(how, m) =>
      EnterCall(s, s', Cs(Lock, SetMask(how, set x | x in m && 1 <= x <= 64 && x != SIGKILL && x != SIGSTOP)));
  }

  lemma EnterFromApp(s: State, req: Request)
    requires LocalOK(s) && Live(s) && Stk(s).top == App
    requires req.FutexWait? || req.Yield? || req.SleepUntil? || req.Exit?
    requires req.FutexWait? ==> req.addr != 0
    ensures LocalOK(Enter(s, req)) && OnlyCurrent(s, Enter(s, req)) && Enter(s, req).acts == s.acts
  {
    var s' := Enter(s, req);
    match req
    case FutexWait(a, v, t) => EnterCall(s, s', Wt(WCheck, OnFutex(a, v), t, 0, NoReason));
    case Yield => EnterCall(s, s', Rs(RTop, true));
    case SleepUntil(target) => EnterCall(s, s', Wt(WSig, OnClock, None, target, NoReason));
    case Exit => EnterCall(s, s', Ex(XLock));
  }

  lemma EnterClone(s: State, s': State, ctid: nat)
    requires Inv(s) && Live(s) && Stk(s).top == App
    requires forall i :: 0 <= i < ALL_THREADS ==> !Cloning(s.stacks[i])
    requires s' == Call(s, App, Cl(LAlloc, ctid, 0))
    ensures Inv(s')
  {
    AppIsBottom(Stk(s));
    assert !HasParked(Stk(s));
    assert Stk(s') == Push(Cl(LAlloc, ctid, 0), Push(App, Empty));
    assert ThreadOK(Cur(s), Stk(s'), true);
  }

  /** Every step of every thread, and a tick anywhere it can land, keeps the invariant. */
  lemma StepKeeps(s: State, a: Action)
    requires Inv(s) && Enabled(s, a)
    ensures Inv(Step(s, a))
  {
    match a
    case Advance(_) =>
    case Tick => TickArrives(s); LocalKeeps(s, Step(s, a));
    case HandlerReturn => HandlerReturnLocal(s); LocalKeeps(s, Step(s, a));
    case User(req) => EnterKeeps(s, req);
    case Run =>
      match Stk(s).top
      case App =>
      case Tramp => TrampKeeps(s);
      case Wt(_, _, _, _, _) => RunWaitKeeps(s);
      case Rs(_, _) => RunReschedKeeps(s);
      case Sc(_) => RunScanKeeps(s);
      case Wk(_, _, _, _) => RunWakeKeeps(s);
      case Tk(_, _) => RunTickKeeps(s);
      case Dl(_, _, _) => RunDeliverKeeps(s);
      case Cs(_, _) => RunCriticalKeeps(s);
      case Cl(_, _, _) => RunCloneKeeps(s);
      case Ex(_) => RunExitKeeps(s);
  }

  lemma {:induction false} RunInv(ss: seq<State>, acts: seq<Action>, i: nat)
    requires IsRun(ss, acts) && i < |ss|
    ensures Inv(ss[i])
  {
    if i == 0 {
      InitInv(ss[0]);
    } else {
      RunInv(ss, acts, i - 1);
      assert StepAt(ss, acts, i - 1);
      StepKeeps(ss[i - 1], acts[i - 1]);
    }
  }
}
