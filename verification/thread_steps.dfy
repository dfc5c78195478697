/** The scheduler as a step system (port/thread_shim.c).

    Every thread owns a stack of shim activations; a frame names the function and the point
    it has reached.  The CPU executes the top frame of g_current.  Code between
    irq_disable() and irq_enable() is one step because nothing else can run there; the
    steps that disable and enable are separate, so a timer tick can land on either side of
    them.  A tick is possible in every state with IRQs on and pushes a call of
    thread_shim_timer_tick_c() on whatever the current thread is doing. */
module ThreadSteps {
  import opened Options
  import opened ThreadModel

  /** What a thread parks on: futex_wait() or thread_shim_sleep_until(). */
  datatype Park = OnFutex(addr: nat, val: int) | OnClock

  datatype How = SigBlock | SigUnblock | SigSetmask

  /** Work done in a short critical section: raise_pending() and rt_sigprocmask(). */
  datatype Critical = Raise(t: nat, sig: nat) | SetMask(how: How, set_: set<nat>)

  // Where an activation has got to.  `Lock` is just before irq_disable(), `Body` inside the
  // IRQ-off section and `Unlock` just before irq_enable().
  datatype Section = Lock | Body | Unlock
  datatype WaitPc =
    | WCheck | WSig | WClock | WLock | WPark | WFail | WUnlock | WCall | WWait | WClear
  datatype ReschedPc = RTop | RBody | RSelf | RResume | RNone | RIdle | RSleep
  datatype TickPc = TScan | TDeliver | TState | THead | TEnd
  datatype DeliverPc =
    | DCheck | DLock | DClear | DUnlock | DAct | DMask | DSelf | DHandler | DReset | DRestore
  datatype ClonePc = LAlloc | LLock | LBody | LUnlock
  datatype ExitPc = XLock | XPark | XUnlock | XCtid | XWake | XLock2 | XSwitch | XNone | XIdle | XSleep

  /** One activation.  Fields a function has not assigned yet hold an arbitrary value. */
  datatype Frame =
    | App                                                     // the thread's own code
    | Tramp                                                   // bmos_thread_trampoline()
    // futex_wait(), thread_shim_sleep_until()
    | Wt(wpc: WaitPc, what: Park, timeout: Option<nat>, dl: nat, why: Reason)
    | Rs(rpc: ReschedPc, rq: bool)                            // reschedule(rq)
    | Sc(sec: Section)                                        // scan_timeouts()
    | Wk(sec: Section, addr: nat, n: nat, woken: nat)         // futex_wake()
    | Tk(tpc: TickPc, mask: set<nat>)                         // thread_shim_timer_tick_c(); mask found on entry
    | Dl(dpc: DeliverPc, sig: nat, saved: set<nat>)           // deliver_pending_signals()
    | Cs(sec: Section, act: Critical)                         // raise_pending(), rt_sigprocmask()
    | Cl(lpc: ClonePc, ctid: nat, slot: nat)                  // thread_shim_clone()
    | Ex(xpc: ExitPc)                                         // thread_shim_exit_current()

  /** A call stack, innermost activation on top. */
  datatype Stack = Empty | Push(top: Frame, below: Stack)

  datatype Disposition = Dfl | Ign | Fn

  datatype SigAct = SigAct(disp: Disposition, mask: set<nat>, nodefer: bool, resethand: bool)

  datatype State = State(
    sc: Sched, stacks: seq<Stack>, irqOn: bool, clock: nat, mem: map<nat, int>,
    acts: seq<SigAct>, rets: seq<int>, nextTid: int, halted: bool)

  /** What application code, or a signal handler, may ask for. */
  datatype Request =
    | FutexWait(addr: nat, val: int, timeout: Option<nat>)
    | FutexWakeup(addr: nat, n: int)
    | Yield
    | SleepUntil(target: nat)
    | Clone(ctid: nat)
    | Exit
    | Tkill(tid: int, sig: int)
    | Sigprocmask(how: How, set_: set<nat>)
    | Sigaction(signo: nat, act: SigAct)
    | Store(addr: nat, v: int)

  datatype Action = Tick | Run | User(req: Request) | HandlerReturn | Advance(d: nat)

  const EAGAIN: int := 11
  const EINTR: int := 4
  const ETIMEDOUT: int := 110
  const ESRCH: int := 3
  const EINVAL: int := 22
  const U64: nat := 0x1_0000_0000_0000_0000

  function Load(mem: map<nat, int>, addr: nat): int {
    if addr in mem then mem[addr] else 0
  }

  function Cur(s: State): Thread
    requires Sized(s)
  {
    s.sc.threads[s.sc.current]
  }

  function Stk(s: State): Stack
    requires Sized(s)
  {
    s.stacks[s.sc.current]
  }

  predicate Sized(s: State) {
    && |s.sc.threads| == |s.stacks| == |s.rets| == ALL_THREADS
    && |s.acts| == 64
    && s.sc.current < ALL_THREADS
  }

  function SetCur(s: State, th: Thread): State
    requires Sized(s)
  {
    s.(sc := s.sc.(threads := s.sc.threads[s.sc.current := th]))
  }

  function SetStk(s: State, st: Stack): State
    requires Sized(s)
  {
    s.(stacks := s.stacks[s.sc.current := st])
  }

  /** The top activation moves on to f. */
  function Goto(s: State, f: Frame): State
    requires Sized(s) && Stk(s).Push?
  {
    SetStk(s, Push(f, Stk(s).below))
  }

  /** The top activation moves on to f and calls g. */
  function Call(s: State, f: Frame, g: Frame): State
    requires Sized(s) && Stk(s).Push?
  {
    SetStk(s, Push(g, Push(f, Stk(s).below)))
  }

  function Pop(s: State): State
    requires Sized(s) && Stk(s).Push?
  {
    SetStk(s, Stk(s).below)
  }

  function Ret(s: State, v: int): State
    requires Sized(s) && Stk(s).Push?
  {
    Pop(s).(rets := s.rets[s.sc.current := v])
  }

  /** Indices held by a frame are in range. */
  predicate FrameOK(f: Frame) {
    match f
    case Dl(pc, sig, _) => pc != DCheck ==> 1 <= sig <= 64
    case Cs(_, act) => CriticalOK(act)
    case Cl(pc, _, slot) => pc != LAlloc ==> 1 <= slot < ALL_THREADS
    case _ => true
  }

  predicate CriticalOK(act: Critical) {
    match act
    case Raise(t, sig) => t < ALL_THREADS && 1 <= sig <= 64
    case SetMask(_, m) => forall x | x in m :: 1 <= x <= 64 && x != SIGKILL && x != SIGSTOP
  }

  /** What the wait primitives return for each wake reason. */
  function Result(what: Park, why: Reason): int {
    if why == ByIntr then -EINTR
    else if what.OnFutex? && why == ByTimeout then -ETIMEDOUT
    else 0
  }

  function AddrOf(what: Park): nat {
    if what.OnFutex? then what.addr else 0
  }

  function Expected(what: Park): int {
    if what.OnFutex? then what.val else 0
  }

  /** alloc_thread_slot(): the lowest free slot from i on, or ALL_THREADS. */
  function AllocFrom(threads: seq<Thread>, i: nat): (slot: nat)
    requires 1 <= i <= |threads|
    ensures i <= slot <= |threads|
    ensures slot < |threads| ==> threads[slot].state == Free
    ensures forall k :: i <= k < slot ==> threads[k].state != Free
    decreases |threads| - i
  {
    if i == |threads| || threads[i].state == Free then i else AllocFrom(threads, i + 1)
  }

  /** find_thread_by_tid(): the first live thread with that tid from i on, or ALL_THREADS. */
  function FindTidFrom(threads: seq<Thread>, tid: int, i: nat): (t: nat)
    requires i <= |threads|
    ensures i <= t <= |threads|
    ensures t < |threads| ==> threads[t].state != Free && threads[t].tid == tid
    ensures forall k :: i <= k < t ==> threads[k].state == Free || threads[k].tid != tid
    decreases |threads| - i
  {
    if i == |threads| || (threads[i].state != Free && threads[i].tid == tid) then i
    else FindTidFrom(threads, tid, i + 1)
  }

  function ApplyMask(how: How, m: set<nat>, blocked: set<nat>): set<nat> {
    match how
    case SigBlock => blocked + m
    case SigUnblock => blocked - m
    case SigSetmask => m
  }

  /** A state in which the current thread has something to execute. */
  predicate Live(s: State) {
    Sized(s) && Stk(s).Push? && FrameOK(Stk(s).top)
  }

  // --- the steps of each function -------------------------------------------------------

  /** futex_wait() and thread_shim_sleep_until() */
  function RunWait(s: State): State
    requires Live(s) && Stk(s).top.Wt?
  {
    var f := Stk(s).top;
    match f.wpc
    case WCheck => if Load(s.mem, AddrOf(f.what)) != Expected(f.what) then Ret(s, -EAGAIN) else Goto(s, f.(wpc := WSig))
    case WSig => if Cur(s).Deliverable() then Ret(s, -EINTR) else Goto(s, f.(wpc := WClock))
    case WClock =>
      if f.what.OnFutex? then
        Goto(s, f.(wpc := WLock, dl := if f.timeout.None? then 0 else (s.clock + f.timeout.value) % U64))
      else if s.clock >= f.dl then Ret(s, 0)
      else Goto(s, f.(wpc := WLock))
    case WLock => Goto(s, f.(wpc := WPark)).(irqOn := false)
    case WPark =>
      if f.what.OnFutex? && Load(s.mem, f.what.addr) != f.what.val then Goto(s, f.(wpc := WFail))
      else Goto(SetCur(s, Cur(s).(state := Blocked, waitAddr := AddrOf(f.what), deadline := f.dl, reason := NoReason)),
                f.(wpc := WUnlock))
    case WFail => Ret(s, -EAGAIN).(irqOn := true)
    case WUnlock => Goto(s, f.(wpc := WCall)).(irqOn := true)
    case WCall => Call(s, f.(wpc := WWait), Rs(RTop, false))
    case WWait => Goto(s, f.(wpc := WClear, why := Cur(s).reason))
    case WClear => Ret(SetCur(s, Cur(s).(deadline := 0)), Result(f.what, f.why))
  }

  /** reschedule() */
  function RunResched(s: State): State
    requires Live(s) && Stk(s).top.Rs?
  {
    var f := Stk(s).top;
    match f.rpc
    case RTop => Goto(s, f.(rpc := RBody)).(irqOn := false)
    case RBody =>
      var sc := if f.rq then Requeue(s.sc) else s.sc;
      if sc.queue == [] then Goto(s, f.(rpc := RNone))
      else if sc.queue[0] >= |sc.threads| then s
      else Goto(s, f.(rpc := if sc.queue[0] == s.sc.current then RSelf else RResume)).(sc := SwitchToHead(sc))
    case RSelf => Pop(s).(irqOn := true)
    case RResume => Pop(s).(irqOn := true)
    case RNone => (if f.rq then Pop(s) else Goto(s, f.(rpc := RIdle))).(irqOn := true)
    case RIdle => Call(s, f.(rpc := RSleep), Sc(Lock))
    case RSleep => Goto(s, f.(rpc := RTop))
  }

  /** scan_timeouts() */
  function RunScan(s: State): State
    requires Live(s) && Stk(s).top.Sc?
  {
    match Stk(s).top.sec
    case Lock => Goto(s, Sc(Body)).(irqOn := false)
    case Body => Goto(s, Sc(Unlock)).(sc := ScanFrom(s.sc, 0, s.clock))
    case Unlock => Pop(s).(irqOn := true)
  }

  /** futex_wake() */
  function RunWake(s: State): State
    requires Live(s) && Stk(s).top.Wk?
  {
    var f := Stk(s).top;
    match f.sec
    case Lock => Goto(s, Wk(Body, f.addr, f.n, 0)).(irqOn := false)
    case Body =>
      var (sc, woken) := WakeFrom(s.sc, 0, f.addr, f.n);
      Goto(s, Wk(Unlock, f.addr, f.n, woken)).(sc := sc)
    case Unlock => Ret(s, f.woken).(irqOn := true)
  }

  /** thread_shim_timer_tick_c() */
  function RunTick(s: State): State
    requires Live(s) && Stk(s).top.Tk?
  {
    var f := Stk(s).top;
    match f.tpc
    case TScan => Call(s, f.(tpc := TDeliver), Sc(Lock))
    case TDeliver => Call(s, f.(tpc := TState), Dl(DCheck, 0, {}))
    case TState => if Cur(s).state == Running then Goto(s, f.(tpc := THead)) else Pop(s)
    case THead => if s.sc.queue != [] then Call(s, f.(tpc := TEnd), Rs(RTop, true)) else Pop(s)
    case TEnd => Pop(s)
  }

  /** deliver_pending_signals() */
  function RunDeliver(s: State): State
    requires Live(s) && Stk(s).top.Dl? && Stk(s).top.dpc != DHandler
  {
    var f, th := Stk(s).top, Cur(s);
    match f.dpc
    case DCheck =>
      var d := th.pending - th.blocked;
      if exists x | x in d :: 1 <= x <= 64 then Goto(s, Dl(DLock, LowestFrom(d, 1), {})) else Pop(s)
    case DLock => Goto(s, f.(dpc := DClear)).(irqOn := false)
    case DClear => Goto(SetCur(s, th.(pending := th.pending - {f.sig})), f.(dpc := DUnlock))
    case DUnlock => Goto(s, f.(dpc := DAct)).(irqOn := true)
    case DAct =>
      var a := s.acts[f.sig - 1];
      if f.sig == SIGKILL then s.(halted := true)
      else if a.disp == Ign then Pop(s)
      else if a.disp == Dfl then (if DefaultIsIgnore(f.sig) then Pop(s) else s.(halted := true))
      else Goto(s, f.(dpc := DMask, saved := th.blocked))
    case DMask =>
      Goto(SetCur(s, th.(blocked := th.blocked + s.acts[f.sig - 1].mask)), f.(dpc := DSelf))
    case DSelf =>
      var add := if s.acts[f.sig - 1].nodefer then {} else {f.sig};
      Goto(SetCur(s, th.(blocked := th.blocked + add)), f.(dpc := DHandler))
    case DReset =>
      var a := s.acts[f.sig - 1];
      var acts := if a.resethand then s.acts[f.sig - 1 := a.(disp := Dfl, nodefer := false, resethand := false)]
          else s.acts;
      Goto(s, f.(dpc := DRestore)).(acts := acts)
    case DRestore => Pop(SetCur(s, th.(blocked := f.saved)))
  }

  /** raise_pending() and rt_sigprocmask() */
  function RunCritical(s: State): State
    requires Live(s) && Stk(s).top.Cs?
  {
    var f := Stk(s).top;
    match f.sec
    case Lock => Goto(s, Cs(Body, f.act)).(irqOn := false)
    case Body => (
      match f.act
      case Raise(t, sig) =>
        var th := s.sc.threads[t];
        Goto(s, Cs(Unlock, f.act)).(sc := s.sc.(threads := s.sc.threads[t := th.(pending := th.pending + {sig})]))
      case SetMask(how, m) =>
        Goto(SetCur(s, Cur(s).(blocked := ApplyMask(how, m, Cur(s).blocked))), Cs(Unlock, f.act)))
    case Unlock => Ret(s, 0).(irqOn := true)
  }

  /** thread_shim_clone() */
  function RunClone(s: State): State
    requires Live(s) && Stk(s).top.Cl?
  {
    var f := Stk(s).top;
    match f.lpc
    case LAlloc =>
      var slot := AllocFrom(s.sc.threads, 1);
      if slot == ALL_THREADS then Ret(s, -EAGAIN)
      else
        var th := Thread(s.nextTid, Free, f.ctid, 0, 0, NoReason, {}, Cur(s).blocked);
        Goto(s, f.(lpc := LLock, slot := slot))
        .(sc := s.sc.(threads := s.sc.threads[slot := th]), nextTid := s.nextTid + 1)
    case LLock => Goto(s, f.(lpc := LBody)).(irqOn := false)
    case LBody =>
      var s' := Goto(s, f.(lpc := LUnlock));
      s'.(sc := Enqueue(s.sc.(threads := s.sc.threads[f.slot := s.sc.threads[f.slot].(state := Ready)]), f.slot),
          stacks := s'.stacks[f.slot := Push(Tramp, Empty)])
    case LUnlock => Ret(s, s.sc.threads[f.slot].tid).(irqOn := true)
  }

  /** thread_shim_exit_current() */
  function RunExit(s: State): State
    requires Live(s) && Stk(s).top.Ex?
  {
    match Stk(s).top.xpc
    case XLock => Goto(s, Ex(XPark)).(irqOn := false)
    case XPark => Goto(SetCur(s, Cur(s).(state := Blocked, waitAddr := 0)), Ex(XUnlock))
    case XUnlock => Goto(s, Ex(XCtid)).(irqOn := true)
    case XCtid =>
      if Cur(s).ctid == 0 then Goto(s, Ex(XLock2))
      else Goto(s, Ex(XWake)).(mem := s.mem[Cur(s).ctid := 0])
    case XWake => Call(s, Ex(XLock2), Wk(Lock, Cur(s).ctid, 1, 0))
    case XLock2 => Goto(s, Ex(XSwitch)).(irqOn := false)
    case XSwitch =>
      if s.sc.queue == [] then Goto(s, Ex(XNone))
      else if s.sc.queue[0] >= ALL_THREADS then s
      else
        var sc := SwitchToHead(s.sc);
        var self := s.sc.current;
        SetStk(s, Empty).(sc := sc.(threads := sc.threads[self := sc.threads[self].(state := Free)]))
    case XNone => Goto(s, Ex(XIdle)).(irqOn := true)
    case XIdle => Call(s, Ex(XSleep), Sc(Lock))
    case XSleep => Goto(s, Ex(XLock2))
  }

  /** Frames in which user code runs, rather than the shim's. */
  predicate IsUser(f: Frame) {
    f == App || IsHandler(f)
  }

  predicate IsHandler(f: Frame) {
    f.Dl? && f.dpc == DHandler
  }

  /** The current thread executes the next instruction of the shim. */
  function RunTop(s: State): State
    requires Live(s)
  {
    var f := Stk(s).top;
    if IsUser(f) then s else
    match f
    case App => s
    case Tramp => Goto(s, App).(irqOn := true)
    case Wt(_, _, _, _, _) => RunWait(s)
    case Rs(_, _) => RunResched(s)
    case Sc(_) => RunScan(s)
    case Wk(_, _, _, _) => RunWake(s)
    case Tk(_, _) => RunTick(s)
    case Dl(_, _, _) => RunDeliver(s)
    case Cs(_, _) => RunCritical(s)
    case Cl(_, _, _) => RunClone(s)
    case Ex(_) => RunExit(s)
  }

  /** Entry of a system call made by application code or by a handler. */
  function Enter(s: State, req: Request): State
    requires Live(s)
  {
    var self := Stk(s).top;
    match req
    case FutexWait(a, v, t) => Call(s, self, Wt(WCheck, OnFutex(a, v), t, 0, NoReason))
    case FutexWakeup(a, n) =>
      if n <= 0 then s.(rets := s.rets[s.sc.current := 0]) else Call(s, self, Wk(Lock, a, n, 0))
    case Yield => Call(s, self, Rs(RTop, true))
    case SleepUntil(target) => Call(s, self, Wt(WSig, OnClock, None, target, NoReason))
    case Clone(ctid) => Call(s, self, Cl(LAlloc, ctid, 0))
    case Exit => Call(s, self, Ex(XLock))
    case Tkill(tid, sig) =>
      var t := FindTidFrom(s.sc.threads, tid, 0);
      if t == ALL_THREADS then s.(rets := s.rets[s.sc.current := -ESRCH])
      else if sig < 0 || sig > 64 then s.(rets := s.rets[s.sc.current := -EINVAL])
      else if sig == 0 then s.(rets := s.rets[s.sc.current := 0])
      else Call(s, self, Cs(Lock, Raise(t, sig)))
    case Sigprocmask(how, m) =>
      Call(s, self, Cs(Lock, SetMask(how, set x | x in m && 1 <= x <= 64 && x != SIGKILL && x != SIGSTOP)))
    case Sigaction(signo, act) =>
      if signo < 1 || signo > 64 || signo == SIGKILL || signo == SIGSTOP
      then s.(rets := s.rets[s.sc.current := -EINVAL])
      else s.(acts := s.acts[signo - 1 := act.(mask := set x | x in act.mask && 1 <= x <= 64)],
              rets := s.rets[s.sc.current := 0])
    case Store(a, v) => s.(mem := s.mem[a := v])
  }

  /** The system call, or tick, that interrupted the thread's own code (App if none). */
  function Base(st: Stack): Frame {
    if st.Empty? || st.below.Empty? then App
    else if st.below.below.Empty? then st.top
    else Base(st.below)
  }

  /** Whether a clone() that has not published its slot yet is under way. */
  predicate Cloning(st: Stack) {
    var b := Base(st);
    b.Cl? && b.lpc != LUnlock
  }

  /** A handler is opaque code that does not yield, block, clone or exit. */
  predicate HandlerMay(req: Request) {
    req.FutexWakeup? || req.Tkill? || req.Sigprocmask? || req.Sigaction? || req.Store?
  }

  ghost predicate MayRequest(s: State, req: Request)
    requires Live(s)
  {
    && (Stk(s).top == App || (IsHandler(Stk(s).top) && HandlerMay(req)))
    // futex words are never at address 0
    && (req.FutexWait? ==> req.addr != 0)
    && (req.FutexWakeup? ==> req.addr != 0)
    // posix_shim.c exits a single thread only if it is a worker
    && (req.Exit? ==> s.sc.current != 0)
    // pthread_create() holds musl's thread-list lock
    && (req.Clone? ==> forall i :: 0 <= i < ALL_THREADS ==> !Cloning(s.stacks[i]))
  }

  ghost predicate Enabled(s: State, a: Action) {
    && !s.halted
    && Live(s)
    && match a
       case Advance(_) => true
       case Tick => s.irqOn
       case User(req) => MayRequest(s, req)
       case HandlerReturn => IsHandler(Stk(s).top)
       case Run =>
         && !IsUser(Stk(s).top)
         // musl blocks every signal before a thread exits
         && (Stk(s).top == Ex(XPark) ==> !Cur(s).Deliverable())
  }

  function Step(s: State, a: Action): State
    requires Live(s)
    requires a.HandlerReturn? ==> IsHandler(Stk(s).top)
  {
    match a
    case Advance(d) => s.(clock := s.clock + d)
    case Tick => Call(s, Stk(s).top, Tk(TScan, Cur(s).blocked))
    case User(req) => Enter(s, req)
    case HandlerReturn => Goto(s, Stk(s).top.(dpc := DReset))
    case Run => RunTop(s)
  }

  /** The state right after thread_shim_init(). */
  ghost predicate Init(s: State) {
    && Sized(s)
    && s.sc.queue == [] && s.sc.current == 0 && s.irqOn && !s.halted
    && (var m := s.sc.threads[0];
        && m.state == Running && m.waitAddr == 0 && m.deadline == 0
        && Signals(m.pending) && Signals(m.blocked))
    && (forall i :: 0 <= i < ALL_THREADS ==> s.stacks[i] == if i == 0 then Push(App, Empty) else Empty)
    && (forall i :: 1 <= i < ALL_THREADS ==> (
          && s.sc.threads[i].state == Free && s.sc.threads[i].pending == s.sc.threads[i].blocked == {}
          && s.sc.threads[i].waitAddr == s.sc.threads[i].deadline == 0 && s.sc.threads[i].tid == 0))
    && s.sc.threads[0].tid == 1 && s.nextTid == 2
    && (forall i :: 0 <= i < 64 ==> s.acts[i].disp == Dfl && s.acts[i].mask == {})
  }

  /** Action i is possible in state i and leads to the next. */
  ghost predicate StepAt(ss: seq<State>, acts: seq<Action>, i: nat)
    requires |ss| == |acts| + 1 && i < |acts|
  {
    Enabled(ss[i], acts[i]) && ss[i + 1] == Step(ss[i], acts[i])
  }

  /** A run: states joined by actions. */
  ghost predicate IsRun(ss: seq<State>, acts: seq<Action>) {
    && |ss| == |acts| + 1
    && Init(ss[0])
    && (forall i {:trigger StepAt(ss, acts, i)} :: 0 <= i < |acts| ==> StepAt(ss, acts, i))
  }
}
