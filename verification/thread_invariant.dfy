/** The invariant of the scheduler's step system. */
module ThreadInvariant {
  import opened ThreadModel
  import opened ThreadSteps

  /** Whether IRQs are on while a thread executes this frame. */
  predicate IrqOn(f: Frame) {
    match f
    case App => true
    case Tramp => false
    case Wt(pc, _, _, _, _) => pc != WPark && pc != WFail && pc != WUnlock
    case Rs(pc, _) => pc == RTop || pc == RIdle || pc == RSleep
    case Sc(sec) => sec == Lock
    case Wk(sec, _, _, _) => sec == Lock
    case Tk(_, _) => true
    case Dl(pc, _, _) => pc != DClear && pc != DUnlock
    case Cs(sec, _) => sec == Lock
    case Cl(pc, _, _) => pc != LBody && pc != LUnlock
    case Ex(pc) => pc != XPark && pc != XUnlock && pc != XSwitch && pc != XNone
  }

  /** The current thread has parked itself (or is exiting) and has not switched away yet. */
  predicate ParkedFrame(f: Frame) {
    match f
    case Wt(pc, _, _, _, _) => pc == WUnlock || pc == WCall
    case Rs(pc, rq) => !rq && pc != RSelf && pc != RResume
    case Ex(pc) => pc != XLock && pc != XPark
    case _ => false
  }

  predicate ExParked(f: Frame) {
    f.Ex? && f.xpc != XLock && f.xpc != XPark
  }

  /** The thread is committed to reschedule(1). */
  predicate PreemptFrame(f: Frame) {
    (f.Tk? && f.tpc == THead) || (f.Rs? && f.rq && f.rpc != RSelf && f.rpc != RResume)
  }

  /** Which callee may sit directly on which caller. */
  predicate Above(f: Frame, g: Frame) {
    match g
    case App => false
    case Tramp => false
    case Wt(_, _, _, _, _) => f == App
    case Rs(pc, rq) =>
      if rq then (f == App || (f.Tk? && f.tpc == TEnd)) && pc != RNone && pc != RIdle && pc != RSleep
      else f.Wt? && f.wpc == WWait
    case Sc(_) => (f.Rs? && f.rpc == RSleep) || (f.Tk? && f.tpc == TDeliver) || f == Ex(XSleep)
    case Wk(_, _, _, _) => IsUser(f) || f == Ex(XLock2)
    case Tk(_, _) => IrqOn(f)
    case Dl(_, _, _) => f.Tk? && f.tpc == TState
    case Cs(_, _) => IsUser(f)
    case Cl(_, _, _) => f == App
    case Ex(_) => f == App
  }

  predicate Shape(st: Stack) {
    match st
    case Empty => true
    case Push(f, rest) => if rest.Empty? then f == App || f == Tramp else Above(rest.top, f) && Shape(rest)
  }

  predicate HasParked(st: Stack) {
    st.Push? && (ParkedFrame(st.top) || HasParked(st.below))
  }

  predicate HasPreempt(st: Stack) {
    st.Push? && (PreemptFrame(st.top) || HasPreempt(st.below))
  }

  /** No signal is being delivered in this stack. */
  predicate NoDl(st: Stack) {
    st.Push? ==> (st.top.Dl? ==> st.top.dpc == DCheck) && NoDl(st.below)
  }

  ghost predicate Sane(f: Frame) {
    && FrameOK(f)
    && match f
       case Wt(pc, w, _, dl, _) =>
         if w.OnFutex? then w.addr != 0
         else pc != WCheck && pc != WFail && (pc != WSig && pc != WClock ==> dl != 0)
       case Wk(_, a, _, _) => a != 0
       case Dl(_, _, saved) => Signals(saved)
       case _ => true
  }

  ghost predicate AllSane(st: Stack) {
    st.Push? ==> Sane(st.top) && AllSane(st.below)
  }

  /** A reason the wait `w` with deadline `dl` can have been ended for. */
  predicate ReasonFor(w: Park, dl: nat, why: Reason) {
    why != NoReason && (why == BySignal ==> w.OnFutex?) && (why == ByTimeout ==> dl != 0)
  }

  /** What the system call in progress says about the thread record. */
  predicate WaitOK(th: Thread, st: Stack) {
    var b := Base(st);
    if InWait(b) then
      && th.deadline == b.dl
      && if th.state == Blocked then th.waitAddr == AddrOf(b.what) && th.reason == NoReason
         else th.waitAddr == 0 && ReasonFor(b.what, b.dl, th.reason)
    else
      && th.waitAddr == 0
      && (th.state == Blocked <==> ExParked(b))
      && (ExParked(b) ==> !th.Deliverable() && NoDl(st))
      && (b == Ex(XWake) ==> th.ctid != 0)
      && if b.Wt? && b.wpc == WClear then th.deadline == b.dl && ReasonFor(b.what, b.dl, b.why)
         else th.deadline == 0
  }

  /** Every tick and delivery in progress will restore the mask it found: `actual` is the
      blocked mask as the frames of st see it. */
  predicate MaskOK(st: Stack, actual: set<nat>) {
    match st
    case Empty => true
    case Push(f, rest) =>
      match f
      case Tk(_, m) => actual == m && MaskOK(rest, actual)
      case Dl(pc, sig, saved) =>
        if pc == DCheck then MaskOK(rest, actual)
        else if pc == DLock || pc == DClear || pc == DUnlock || pc == DAct then sig !in actual && MaskOK(rest, actual)
        else (pc == DMask ==> actual == saved) && sig !in saved && MaskOK(rest, saved)
      case _ => MaskOK(rest, actual)
  }

  /** A switched-out thread stopped inside reschedule(), or has never run. */
  predicate Suspended(th: Thread, st: Stack) {
    && st.Push?
    && ((st.top.Rs? && st.top.rpc == RResume) || st.top == Tramp)
    && (th.state == Ready || th.state == Blocked)
    && (th.state == Blocked ==> st.top == Rs(RResume, false))
    && !HasParked(st)
  }

  ghost predicate StackOK(th: Thread, st: Stack) {
    Shape(st) && AllSane(st) && WaitOK(th, st) && MaskOK(st, th.blocked) && !(HasParked(st) && HasPreempt(st))
  }

  ghost predicate ThreadOK(th: Thread, st: Stack, isCur: bool) {
    && (th.state == Free <==> st == Empty)
    && (th.state == Free ==> th.waitAddr == 0 && th.deadline == 0)
    && Signals(th.pending) && Signals(th.blocked)
    && (st.Push? ==> StackOK(th, st))
    && (isCur ==> st.Push? && (th.state == Running <==> !HasParked(st)))
    && (!isCur && st.Push? ==> Suspended(th, st))
  }

  function CloneSlot(st: Stack): nat {
    var b := Base(st);
    if b.Cl? && (b.lpc == LLock || b.lpc == LBody) then b.slot else 0
  }

  /** A slot being filled by clone() is still FREE, and only one clone() is filling. */
  ghost predicate CloneOK(threads: seq<Thread>, stacks: seq<Stack>)
    requires |threads| == |stacks| == ALL_THREADS
  {
    && (forall i :: 0 <= i < ALL_THREADS && CloneSlot(stacks[i]) != 0 ==>
          CloneSlot(stacks[i]) < ALL_THREADS && threads[CloneSlot(stacks[i])].state == Free)
    && (forall i, j :: 0 <= i < j < ALL_THREADS ==> !(Cloning(stacks[i]) && Cloning(stacks[j])))
  }

  ghost predicate Inv(s: State) {
    && Sized(s)
    && SchedOK(s.sc)
    && (forall i :: 0 <= i < ALL_THREADS ==> ThreadOK(s.sc.threads[i], s.stacks[i], i == s.sc.current))
    && (s.irqOn <==> IrqOn(Stk(s).top))
    && CloneOK(s.sc.threads, s.stacks)
    && (forall i :: 0 <= i < 64 ==> Signals(s.acts[i].mask))
  }

  lemma InitInv(s: State)
    requires Init(s)
    ensures Inv(s)
  {
    forall i | 0 <= i < ALL_THREADS ensures ThreadOK(s.sc.threads[i], s.stacks[i], i == s.sc.current) {
      assert s.stacks[i] == if i == 0 then Push(App, Empty) else Empty;
    }
  }

  /** The current thread's own part of the invariant. */
  ghost predicate LocalOK(s: State) {
    && Sized(s)
    && ThreadOK(Cur(s), Stk(s), true)
    && (s.irqOn <==> IrqOn(Stk(s).top))
  }

  /** s' differs from s in the current thread's record and stack only. */
  ghost predicate OnlyCurrent(s: State, s': State)
    requires Sized(s)
  {
    && Sized(s')
    && s'.sc == SetCur(s, s'.sc.threads[s.sc.current]).sc
    && s'.stacks == s.stacks[s.sc.current := s'.stacks[s.sc.current]]
    && (Cur(s').state == Ready <==> Cur(s).state == Ready)
    && (Cloning(Stk(s')) ==> Cloning(Stk(s)))
    && (CloneSlot(Stk(s')) != 0 ==> CloneSlot(Stk(s')) == CloneSlot(Stk(s)))
  }

  lemma LocalKeeps(s: State, s': State)
    requires Inv(s) && LocalOK(s') && OnlyCurrent(s, s')
    requires forall i :: 0 <= i < 64 ==> Signals(s'.acts[i].mask)
    ensures Inv(s')
  {
  }

  lemma AppIsBottom(st: Stack)
    requires Shape(st) && st.Push? && (st.top == App || st.top == Tramp)
    ensures st.below == Empty
  {
  }

  /** Base and what depends on it, when the top of the stack changes. */
  lemma BaseGoto(f: Frame, f': Frame, rest: Stack)
    requires rest.Push?
    ensures rest.below.Push? ==> Base(Push(f', rest)) == Base(Push(f, rest)) == Base(rest)
    ensures rest.below.Empty? ==> Base(Push(f', rest)) == f' && Base(Push(f, rest)) == f && Base(rest) == App
  {
  }

  lemma BaseCall(f: Frame, f': Frame, g: Frame, rest: Stack)
    ensures rest.Empty? ==> Base(Push(g, Push(f', rest))) == g && Base(Push(f, rest)) == App
    ensures rest.Push? && rest.below.Empty? ==> Base(Push(g, Push(f', rest))) == f' && Base(Push(f, rest)) == f
    ensures rest.Push? && rest.below.Push? ==> Base(Push(g, Push(f', rest))) == Base(Push(f, rest)) == Base(rest)
  {
    if rest.Push? {
      BaseGoto(f, f', rest);
      BaseGoto(g, g, Push(f', rest));
    }
  }

  /** The frame is between the park and the reading of the wake reason. */
  predicate InWait(f: Frame) {
    f.Wt? && (f.wpc == WUnlock || f.wpc == WCall || f.wpc == WWait)
  }

  /** Frames that, as Base, say the thread is in no system call that has parked. */
  predicate Plain(f: Frame) {
    !ExParked(f) && !InWait(f) && (f.Wt? ==> f.wpc != WClear)
  }

  /** As Base, f' says the same of th as f. */
  predicate SameSay(th: Thread, f: Frame, f': Frame) {
    || (Plain(f) && Plain(f'))
    || f == f'
    || (ExParked(f) && ExParked(f') && (f' == Ex(XWake) ==> th.ctid != 0))
    || (InWait(f) && InWait(f') && f.what == f'.what && f.dl == f'.dl)
  }

  lemma WaitGoto(th: Thread, th': Thread, f: Frame, f': Frame, rest: Stack)
    requires WaitOK(th, Push(f, rest)) && rest.Push?
    requires th' == th.(pending := th'.pending, blocked := th'.blocked)
    requires rest.below.Empty? ==> SameSay(th, f, f')
    requires ExParked(Base(Push(f, rest))) ==> !th'.Deliverable() && (f'.Dl? ==> f'.dpc == DCheck)
    ensures WaitOK(th', Push(f', rest))
  {
    BaseGoto(f, f', rest);
  }

  lemma WaitPop(th: Thread, th': Thread, f: Frame, rest: Stack)
    requires WaitOK(th, Push(f, rest)) && rest.Push?
    requires th' == th.(pending := th'.pending, blocked := th'.blocked)
    requires rest.below.Empty? ==> Plain(f)
    requires ExParked(Base(rest)) ==> !th'.Deliverable()
    ensures WaitOK(th', rest)
  {
    BaseGoto(f, f, rest);
  }

  lemma WaitCall(th: Thread, f: Frame, f': Frame, g: Frame, rest: Stack)
    requires WaitOK(th, Push(f, rest))
    requires rest.Empty? ==> Plain(g)
    requires rest.Push? && rest.below.Empty? ==> SameSay(th, f, f')
    requires f'.Dl? ==> f' == f
    requires g.Dl? ==> g == Dl(DCheck, 0, {})
    ensures WaitOK(th, Push(g, Push(f', rest)))
  {
    BaseCall(f, f', g, rest);
  }

  /** The top activation moves from f to f'. */
  lemma GotoOK(s: State, s': State, f': Frame)
    requires LocalOK(s) && Stk(s).below.Push?
    requires Sized(s') && s'.sc == SetCur(s, s'.sc.threads[s.sc.current]).sc
    requires s'.stacks == Goto(s, f').stacks && (s'.irqOn <==> IrqOn(f'))
    requires Cur(s').state == Cur(s).state && Signals(Cur(s').pending) && Signals(Cur(s').blocked)
    requires Above(Stk(s).below.top, f') && Sane(f') && MaskOK(Push(f', Stk(s).below), Cur(s').blocked)
    requires ParkedFrame(f') == ParkedFrame(Stk(s).top) && (PreemptFrame(f') ==> Cur(s).state == Running)
    requires WaitOK(Cur(s'), Push(f', Stk(s).below))
    requires f'.Cl? ==> Stk(s).top == f'.(lpc := LLock)
    ensures LocalOK(s') && OnlyCurrent(s, s')
  {
    BaseGoto(Stk(s).top, f', Stk(s).below);
  }

  /** The top activation moves from f to f' and calls g. */
  lemma CallOK(s: State, s': State, f': Frame, g: Frame)
    requires LocalOK(s)
    requires Sized(s') && s'.sc == s.sc && s'.stacks == Call(s, f', g).stacks && (s'.irqOn <==> IrqOn(g))
    requires Sane(f') && Sane(g) && Above(f', g) && MaskOK(Push(g, Push(f', Stk(s).below)), Cur(s).blocked)
    requires if Stk(s).below.Empty? then f' == App || f' == Tramp else Above(Stk(s).below.top, f')
    requires ParkedFrame(Stk(s).top) == (ParkedFrame(f') || ParkedFrame(g))
    requires PreemptFrame(f') || PreemptFrame(g) ==> Cur(s).state == Running
    requires WaitOK(Cur(s), Push(g, Push(f', Stk(s).below))) && (f'.Cl? ==> f' == Stk(s).top) && !g.Cl?
    ensures LocalOK(s') && OnlyCurrent(s, s')
  {
    BaseCall(Stk(s).top, f', g, Stk(s).below);
    assert HasParked(Stk(s')) == HasParked(Stk(s));
  }

  /** The top activation returns. */
  lemma PopOK(s: State, s': State)
    requires LocalOK(s) && Stk(s).below.Push?
    requires Sized(s') && s'.sc == SetCur(s, s'.sc.threads[s.sc.current]).sc
    requires s'.stacks == Pop(s).stacks && s'.irqOn
    requires Cur(s').state == Cur(s).state && Signals(Cur(s').pending) && Signals(Cur(s').blocked)
    requires !ParkedFrame(Stk(s).top) && MaskOK(Stk(s).below, Cur(s').blocked) && WaitOK(Cur(s'), Stk(s).below)
    ensures LocalOK(s') && OnlyCurrent(s, s')
  {
    BaseGoto(Stk(s).top, Stk(s).top, Stk(s).below);
    OnlyTopIrqOff(Stk(s).top, Stk(s).below);
  }

  /** A frame with another one above it was left with IRQs on. */
  lemma OnlyTopIrqOff(f: Frame, rest: Stack)
    requires Shape(Push(f, rest)) && rest.Push?
    ensures IrqOn(rest.top)
  {
  }
}
