/** The answers to the signal calls and to the calls that wait (port/thread_shim.c:832-984, 987-1081),
    in terms of what was asked. */
module ThreadRequests {
  import opened Options
  import opened ThreadModel
  import opened ThreadSteps
  import opened ThreadInvariant
  import opened ThreadPreserved
  import opened ThreadWaits
  import opened ThreadSignals
  import opened ThreadDelivery
  import opened ThreadDeadlines
  import opened ThreadCalls

  // --- critical sections -----------------------------------------------------------------------

  lemma CriticalEnds(s: State, base: Stack, act: Critical)
    requires Live(s)
    ensures Stk(s) == Push(Cs(Lock, act), base) ==>
              RunTop(s).stacks[s.sc.current] == Push(Cs(Body, act), base) && RunTop(s).sc == s.sc
    ensures Stk(s) == Push(Cs(Body, act), base) ==> RunTop(s).stacks[s.sc.current] == Push(Cs(Unlock, act), base)
    ensures Stk(s) == Push(Cs(Unlock, act), base) ==>
              RunTop(s).stacks[s.sc.current] == base && RunTop(s).rets[s.sc.current] == 0 && RunTop(s).sc == s.sc
  {
  }

  lemma CriticalEndsAt(ss: seq<State>, acts: seq<Action>, j: nat, t: nat, base: Stack, act: Critical)
    requires IsRun(ss, acts) && j < |acts| && acts[j] == Run
    ensures At(ss[j], Run, t, Push(Cs(Lock, act), base)) ==>
              StackOf(ss[j + 1], t) == Push(Cs(Body, act), base) && MaskOf(ss[j + 1], t) == MaskOf(ss[j], t)
    ensures At(ss[j], Run, t, Push(Cs(Body, act), base)) ==> StackOf(ss[j + 1], t) == Push(Cs(Unlock, act), base)
    ensures At(ss[j], Run, t, Push(Cs(Unlock, act), base)) ==>
              && StackOf(ss[j + 1], t) == base && MaskOf(ss[j + 1], t) == MaskOf(ss[j], t)
              && RetOf(ss[j + 1], t) == 0
  {
    RunStep(ss, acts, j);
    CriticalEnds(ss[j], base, act);
  }

  /** A critical section called on top of `base` does its work at some step j, with the mask as it was on entry,
      and leaves the mask as it is after j. */
  lemma CriticalRuns(ss: seq<State>, acts: seq<Action>, i: nat, m: nat, t: nat, base: Stack, act: Critical)
      returns (j: nat)
    requires IsRun(ss, acts) && i < m < |ss|
    requires StackOf(ss[i], t) == Push(Cs(Lock, act), base) && StackOf(ss[m], t) == base
    requires forall k :: i <= k < m ==> StackOf(ss[k], t) != base
    ensures i < j < m && At(ss[j], Run, t, Push(Cs(Body, act), base)) && acts[j] == Run
    ensures MaskOf(ss[j], t) == MaskOf(ss[i], t) && MaskOf(ss[m], t) == MaskOf(ss[j + 1], t) && RetOf(ss[m], t) == 0
  {
    var j1 := Proceeds(ss, acts, i, m, t, Push(Cs(Lock, act), base), MaskOf(ss[i], t));
    CriticalEndsAt(ss, acts, j1, t, base, act);
    j := Proceeds(ss, acts, j1 + 1, m, t, Push(Cs(Body, act), base), MaskOf(ss[i], t));
    CriticalEndsAt(ss, acts, j, t, base, act);
    var e := Proceeds(ss, acts, j + 1, m, t, Push(Cs(Unlock, act), base), MaskOf(ss[j + 1], t));
    CriticalEndsAt(ss, acts, e, t, base, act);
  }

  // --- rt_sigprocmask() --------------------------------------------------------------------------

  /** Whether x is blocked after a change of a mask in which it was, or was not. */
  predicate BlockedAfter(how: How, listed: bool, was: bool) {
    match how
    case SigBlock => was || listed
    case SigUnblock => was && !listed
    case SigSetmask => listed
  }

  lemma MaskAsked(s: State, how: How, set_: set<nat>) returns (f: set<nat>)
    requires Live(s)
    ensures Enter(s, Sigprocmask(how, set_)) == Call(s, Stk(s).top, Cs(Lock, SetMask(how, f)))
    ensures forall x :: x in f <==> x in set_ && 1 <= x <= 64 && x != 9 && x != 19
  {
    f := set x | x in set_ && 1 <= x <= 64 && x != SIGKILL && x != SIGSTOP;
  }

  lemma MaskAskedAt(ss: seq<State>, acts: seq<Action>, i: nat, how: How, set_: set<nat>) returns (f: set<nat>)
    requires IsRun(ss, acts) && i < |acts| && acts[i] == User(Sigprocmask(how, set_))
    ensures forall x :: x in f <==> x in set_ && 1 <= x <= 64 && x != 9 && x != 19
    ensures var t := ss[i].sc.current;
            && StackOf(ss[i + 1], t) == Push(Cs(Lock, SetMask(how, f)), StackOf(ss[i], t))
            && MaskOf(ss[i + 1], t) == MaskOf(ss[i], t)
  {
    RunStep(ss, acts, i);
    f := MaskAsked(ss[i], how, set_);
  }

  lemma MaskSet(ss: seq<State>, acts: seq<Action>, j: nat, t: nat, base: Stack, how: How, f: set<nat>)
    requires IsRun(ss, acts) && j < |acts| && acts[j] == Run && At(ss[j], Run, t, Push(Cs(Body, SetMask(how, f)), base))
    ensures forall x :: x in MaskOf(ss[j + 1], t) <==> BlockedAfter(how, x in f, x in MaskOf(ss[j], t))
  {
    RunStep(ss, acts, j);
  }

  /** What rt_sigprocmask() leaves blocked: the signals listed are added to the mask the caller had, taken out of it,
      or replace it; SIGKILL (9), SIGSTOP (19) and numbers that are no signal do not count. */
  lemma MaskAnswer(ss: seq<State>, acts: seq<Action>, i: nat, m: nat, t: nat, how: How, set_: set<nat>)
    requires IsRun(ss, acts) && Answered(ss, acts, i, m, t, Sigprocmask(how, set_))
    ensures RetOf(ss[m], t) == 0
    ensures forall x :: x in MaskOf(ss[m], t)
                        <==> BlockedAfter(how, x in set_ && 1 <= x <= 64 && x != 9 && x != 19, x in MaskOf(ss[i], t))
  {
    var f := MaskAskedAt(ss, acts, i, how, set_);
    NotPush(StackOf(ss[i + 1], t));
    var j := CriticalRuns(ss, acts, i + 1, m, t, StackOf(ss[i], t), SetMask(how, f));
    MaskSet(ss, acts, j, t, StackOf(ss[i], t), how, f);
  }

  // --- tkill() and sigaction() ---------------------------------------------------------------------

  predicate LiveTid(s: State, x: nat, tid: int) {
    Sized(s) && x < ALL_THREADS && s.sc.threads[x].state != Free && s.sc.threads[x].tid == tid
  }

  lemma KillAsked(s: State, tid: int, sig: int) returns (x: nat)
    requires Live(s)
    ensures x <= ALL_THREADS && (x < ALL_THREADS ==> LiveTid(s, x, tid))
    ensures forall k :: 0 <= k < x ==> !LiveTid(s, k, tid)
    ensures var s' := Enter(s, Tkill(tid, sig));
            && s'.sc == s.sc
            && if x < ALL_THREADS && 1 <= sig <= 64
               then s'.stacks[s.sc.current] == Push(Cs(Lock, Raise(x, sig)), Stk(s))
               else s'.stacks == s.stacks && s'.rets[s.sc.current] == if x == ALL_THREADS then -3
                                                                      else if sig == 0 then 0 else -22
  {
    x := FindTidFrom(s.sc.threads, tid, 0);
  }

  lemma KillAskedAt(ss: seq<State>, acts: seq<Action>, i: nat, tid: int, sig: int) returns (x: nat)
    requires IsRun(ss, acts) && i < |acts| && acts[i] == User(Tkill(tid, sig))
    ensures x <= ALL_THREADS && (x < ALL_THREADS ==> LiveTid(ss[i], x, tid))
    ensures forall k :: 0 <= k < x ==> !LiveTid(ss[i], k, tid)
    ensures var t := ss[i].sc.current;
            && MaskOf(ss[i + 1], t) == MaskOf(ss[i], t)
            && if x < ALL_THREADS && 1 <= sig <= 64
               then StackOf(ss[i + 1], t) == Push(Cs(Lock, Raise(x, sig)), StackOf(ss[i], t))
               else && StackOf(ss[i + 1], t) == StackOf(ss[i], t)
                    && RetOf(ss[i + 1], t) == if x == ALL_THREADS then -3 else if sig == 0 then 0 else -22
  {
    RunStep(ss, acts, i);
    x := KillAsked(ss[i], tid, sig);
  }

  /** The answer to tkill(): ESRCH (3) if no live thread has the tid, EINVAL (22) for a number that is no signal,
      nothing done for 0; otherwise the signal was made pending, at step j, for the first thread that has it. */
  lemma KillAnswer(ss: seq<State>, acts: seq<Action>, i: nat, m: nat, t: nat, tid: int, sig: int)
      returns (x: nat, j: nat)
    requires IsRun(ss, acts) && Answered(ss, acts, i, m, t, Tkill(tid, sig))
    ensures forall k :: 0 <= k < x && k < ALL_THREADS ==> !LiveTid(ss[i], k, tid)
    ensures x < ALL_THREADS ==> LiveTid(ss[i], x, tid)
    ensures RetOf(ss[m], t) == if x >= ALL_THREADS then -3 else if 0 <= sig <= 64 then 0 else -22
    ensures x < ALL_THREADS && 1 <= sig <= 64 ==>
              i < j < m && PendingOf(ss[j + 1], x) == PendingOf(ss[j], x) + {sig as nat}
    ensures x >= ALL_THREADS || sig < 1 || sig > 64 ==> m == i + 1
    ensures MaskOf(ss[m], t) == MaskOf(ss[i], t)
  {
    x := KillAskedAt(ss, acts, i, tid, sig);
    j := i;
    if x < ALL_THREADS && 1 <= sig <= 64 {
      NotPush(StackOf(ss[i + 1], t));
      j := CriticalRuns(ss, acts, i + 1, m, t, StackOf(ss[i], t), Raise(x, sig));
      Raised(ss, acts, j, t, StackOf(ss[i], t), x, sig);
    }
  }

  lemma Raised(ss: seq<State>, acts: seq<Action>, j: nat, t: nat, base: Stack, x: nat, sig: nat)
    requires IsRun(ss, acts) && j < |acts| && acts[j] == Run && At(ss[j], Run, t, Push(Cs(Body, Raise(x, sig)), base))
    ensures PendingOf(ss[j + 1], x) == PendingOf(ss[j], x) + {sig} && MaskOf(ss[j + 1], t) == MaskOf(ss[j], t)
  {
    RunStep(ss, acts, j);
  }

  /** rt_sigaction() sets what is asked for, its mask less what is no signal, and nothing else; EINVAL (22) for
      SIGKILL (9), SIGSTOP (19) and numbers that are no signal, which changes nothing. */
  lemma ActionAnswer(ss: seq<State>, acts: seq<Action>, i: nat, signo: nat, act: SigAct)
    requires IsRun(ss, acts) && i < |acts| && acts[i] == User(Sigaction(signo, act))
    ensures var s, s' := ss[i], ss[i + 1];
            && |s.acts| == |s'.acts| == 64 && s'.sc == s.sc && s'.stacks == s.stacks && s'.mem == s.mem
            && (forall k :: 0 <= k < 64 && k + 1 != signo ==> s'.acts[k] == s.acts[k])
            && if 1 <= signo <= 64 && signo != 9 && signo != 19
               then && RetOf(s', s.sc.current) == 0 && s'.acts[signo - 1] == act.(mask := s'.acts[signo - 1].mask)
                    && forall x :: x in s'.acts[signo - 1].mask <==> x in act.mask && 1 <= x <= 64
               else RetOf(s', s.sc.current) == -22 && s'.acts == s.acts
  {
    RunStep(ss, acts, i);
  }

  lemma Stored(mem: map<nat, int>, addr: nat, v: int)
    ensures Load(mem[addr := v], addr) == v
    ensures forall a: nat :: a != addr ==> Load(mem[addr := v], a) == Load(mem, a)
  {
  }

  /** A store to memory is seen by the next load, and nothing else changes. */
  lemma StoreAnswer(ss: seq<State>, acts: seq<Action>, i: nat, addr: nat, v: int)
    requires IsRun(ss, acts) && i < |acts| && acts[i] == User(Store(addr, v))
    ensures ss[i + 1] == ss[i].(mem := ss[i + 1].mem)
    ensures Load(ss[i + 1].mem, addr) == v
    ensures forall a: nat :: a != addr ==> Load(ss[i + 1].mem, a) == Load(ss[i].mem, a)
  {
    RunStep(ss, acts, i);
    Stored(ss[i].mem, addr, v);
  }

  // --- the calls that wait -------------------------------------------------------------------------

  /** g is the frame of a wait that f was before: for the same thing and as long. */
  predicate SameWait(f: Frame, g: Frame) {
    f.Wt? && g.Wt? && g.what == f.what && g.timeout == f.timeout && (f.what.OnClock? ==> g.dl == f.dl)
  }

  /** What one instruction of a wait in frame f leaves: it returns, calls reschedule(), or goes on. */
  predicate Continues(f: Frame, base: Stack, st': Stack)
    requires f.Wt?
  {
    || (st' == base && f.wpc in {WCheck, WSig, WClock, WFail, WClear})
    || (f.wpc == WCall && st' == Push(Rs(RTop, false), Push(f.(wpc := WWait), base)))
    || (st'.Push? && st'.below == base && SameWait(f, st'.top))
  }

  lemma WaitEntry(s: State)
    requires Live(s) && Stk(s).top.Wt? && Stk(s).top.wpc in {WCheck, WSig, WClock} && Sized(RunWait(s))
    ensures Continues(Stk(s).top, Stk(s).below, RunWait(s).stacks[s.sc.current])
  {
  }

  lemma WaitParks(s: State)
    requires Live(s) && Stk(s).top.Wt? && Stk(s).top.wpc in {WLock, WPark, WFail, WUnlock, WCall} && Sized(RunWait(s))
    ensures Continues(Stk(s).top, Stk(s).below, RunWait(s).stacks[s.sc.current])
  {
  }

  lemma WaitClears(s: State)
    requires Live(s) && Stk(s).top.Wt? && Stk(s).top.wpc in {WWait, WClear} && Sized(RunWait(s))
    ensures Continues(Stk(s).top, Stk(s).below, RunWait(s).stacks[s.sc.current])
  {
  }

  lemma WaitOnTop(s: State)
    requires Live(s) && Stk(s).top.Wt? && Sized(RunTop(s))
    ensures Continues(Stk(s).top, Stk(s).below, RunTop(s).stacks[s.sc.current])
    ensures RunTop(s) == RunWait(s)
  {
    match Stk(s).top.wpc
    case WCheck => WaitEntry(s); case WSig => WaitEntry(s); case WClock => WaitEntry(s);
    case WLock => WaitParks(s); case WPark => WaitParks(s); case WFail => WaitParks(s);
    case WUnlock => WaitParks(s); case WCall => WaitParks(s);
    case WWait => WaitClears(s); case WClear => WaitClears(s);
  }

  lemma NotTwice(base: Stack, f: Frame, g: Frame)
    ensures base != Push(f, Push(g, base))
  {
    assert Size(base) != Size(Push(f, Push(g, base)));
  }

  /** A wait that goes on is not back at its base. */
  lemma LeavesBase(f: Frame, base: Stack)
    requires f.Wt? && Continues(f, base, base)
    ensures f.wpc in {WCheck, WSig, WClock, WFail, WClear}
  {
    if base.Push? {
      NotPush(base);
      if base.below.Push? { NotTwice(base, base.top, base.below.top); }
    }
  }

  /** The frame of the wait after one step of it. */
  lemma WaitOnTopAt(ss: seq<State>, acts: seq<Action>, k: nat, t: nat, base: Stack, f: Frame) returns (g: Frame)
    requires IsRun(ss, acts) && k < |acts| && At(ss[k], acts[k], t, Push(f, base)) && f.Wt?
    ensures acts[k] == Run && (StackOf(ss[k + 1], t) == base || On(StackOf(ss[k + 1], t), base, g)) && SameWait(f, g)
  {
    RunStep(ss, acts, k);
    WaitOnTop(ss[k]);
    var st' := StackOf(ss[k + 1], t);
    g := if f.wpc == WCall then f.(wpc := WWait) else if st' == base then f else st'.top;
  }

  /** The frame a wait returns from. */
  lemma {:induction false} WaitEnds(ss: seq<State>, acts: seq<Action>, i: nat, m: nat, t: nat, base: Stack, f: Frame)
      returns (g: Frame)
    requires IsRun(ss, acts) && i < m < |ss| && base.Push? && f.Wt? && On(StackOf(ss[i], t), base, f)
    requires StackOf(ss[m], t) == base && forall k :: i <= k < m ==> StackOf(ss[k], t) != base
    ensures At(ss[m - 1], acts[m - 1], t, Push(g, base)) && acts[m - 1] == Run && SameWait(f, g)
    decreases m - i
  {
    OnRunStep(ss, acts, i, t, base, f);
    NotOn(base, base, f);
    if On(StackOf(ss[i + 1], t), base, f) {
      g := WaitEnds(ss, acts, i + 1, m, t, base, f);
    } else {
      g := WaitOnTopAt(ss, acts, i, t, base, f);
      if i + 1 < m {
        g := WaitEnds(ss, acts, i + 1, m, t, base, g);
      } else {
        g := f;
      }
    }
  }

  /** A call that waits, asked for at i and answered at m: the frame it returned from, just before. */
  lemma WaitReturns(ss: seq<State>, acts: seq<Action>, i: nat, m: nat, t: nat, req: Request, f: Frame)
      returns (g: Frame)
    requires IsRun(ss, acts) && Answered(ss, acts, i, m, t, req) && WaitFor(req) == f && f.Wt?
    ensures i < m - 1 && Returns(ss[m - 1], acts[m - 1], g) && ss[m - 1].sc.current == t && SameWait(f, g)
    ensures BaseOf(ss[i + 1], t) == f && BaseOf(ss[m - 1], t) == g
  {
    WaitAskedAt(ss, acts, i, req);
    NotPush(StackOf(ss[i + 1], t));
    g := WaitEnds(ss, acts, i + 1, m, t, StackOf(ss[i], t), f);
    WaitLastAt(ss, acts, m - 1, t, StackOf(ss[i], t), g);
  }

  /** The frame a call that waits starts with. */
  function WaitFor(req: Request): Frame {
    match req
    case FutexWait(addr, val, timeout) => Wt(WCheck, OnFutex(addr, val), timeout, 0, NoReason)
    case SleepUntil(target) => Wt(WSig, OnClock, None, target, NoReason)
    case _ => App
  }

  lemma WaitAskedAt(ss: seq<State>, acts: seq<Action>, i: nat, req: Request)
    requires IsRun(ss, acts) && i < |acts| && acts[i] == User(req) && WaitFor(req).Wt?
    ensures var t := ss[i].sc.current;
            && StackOf(ss[i], t) == Push(App, Empty) && StackOf(ss[i + 1], t) == Push(WaitFor(req), Push(App, Empty))
            && BaseOf(ss[i + 1], t) == WaitFor(req)
  {
    RunStep(ss, acts, i);
    AppIsBottom(Stk(ss[i]));
  }

  lemma WaitLastAt(ss: seq<State>, acts: seq<Action>, k: nat, t: nat, base: Stack, f: Frame)
    requires IsRun(ss, acts) && k < |acts| && At(ss[k], acts[k], t, Push(f, base)) && acts[k] == Run && f.Wt?
    requires base.Push? && StackOf(ss[k + 1], t) == base
    ensures Returns(ss[k], acts[k], f)
  {
    RunStep(ss, acts, k);
    WaitOnTop(ss[k]);
    LeavesBase(f, base);
  }

  // --- futex_wait() and sleep_until() ---------------------------------------------------------------

  /** Step a of state s is a FUTEX_WAKE on addr that ends t's park there. */
  predicate WokenBy(s: State, a: Action, s': State, t: nat, addr: nat) {
    && a == Run && Sized(s) && Stk(s).Push? && Stk(s).top.Wk? && Stk(s).top.sec == Body && Stk(s).top.addr == addr
    && ParkedOn(s, t, addr) && !ParkedOn(s', t, addr)
  }

  lemma AboutToReturn(ss: seq<State>, acts: seq<Action>, n: nat, t: nat, f: Frame)
    requires IsRun(ss, acts) && n < |acts| && Returns(ss[n], acts[n], f) && ss[n].sc.current == t && f.wpc == WClear
    ensures ReasonFor(f.what, f.dl, f.why) && Cleared(ss[n], t, f) && Timed(BaseOf(ss[n], t), f.what, f.timeout, f.dl)
  {
    RunStep(ss, acts, n);
    ReturnClears(ss[n], f);
  }

  /** A wait that has parked and is about to return at n: it parked at p and was woken at j, both after step i, at
      which it had not begun. */
  lemma SleptSince(ss: seq<State>, acts: seq<Action>, i: nat, n: nat, t: nat, f: Frame) returns (p: nat, j: nat)
    requires IsRun(ss, acts) && i < n < |acts| && Returns(ss[n], acts[n], f) && ss[n].sc.current == t && f.wpc == WClear
    requires BaseOf(ss[i], t).Wt? ==> !InWait(BaseOf(ss[i], t)) && BaseOf(ss[i], t).wpc != WClear
    ensures i <= p < j < n && ParksOn(ss[p], acts[p], t, f.what, f.dl) && WakesFor(ss[j], acts[j], t, f.why)
    ensures ViewOf(ss[p + 1], t, f.what, f.dl).waits && ViewOf(ss[p + 1], t, f.what, f.dl).parked
    ensures ViewOf(ss[j], t, f.what, f.dl).waits && ViewOf(ss[j], t, f.what, f.dl).parked
    ensures ViewOf(ss[j + 1], t, f.what, f.dl).waits && !ViewOf(ss[j + 1], t, f.what, f.dl).parked
  {
    AboutToReturn(ss, acts, n, t, f);
    var m: nat;
    p, j, m := ClearedStory(ss, acts, n, t, f);
    assert !Cleared(ss[i], t, f);
    assert !ViewOf(ss[i], t, f.what, f.dl).waits;
  }

  lemma SleptResult(ss: seq<State>, acts: seq<Action>, n: nat, t: nat, f: Frame)
    requires IsRun(ss, acts) && n < |acts| && Returns(ss[n], acts[n], f) && ss[n].sc.current == t && f.wpc == WClear
    ensures RetOf(ss[n + 1], t)
            == if f.why == ByIntr then -4 else if f.what.OnFutex? && f.why == ByTimeout then -110 else 0
  {
    RunStep(ss, acts, n);
    ReturnStep(ss[n], f);
  }

  /** Why a wait that returns at n was woken at j. */
  lemma SleptFacts(ss: seq<State>, acts: seq<Action>, j: nat, n: nat, t: nat, f: Frame)
    requires IsRun(ss, acts) && j < n < |acts| && Returns(ss[n], acts[n], f) && ss[n].sc.current == t && f.wpc == WClear
    requires WakesFor(ss[j], acts[j], t, f.why)
    requires ViewOf(ss[j], t, f.what, f.dl).waits && ViewOf(ss[j], t, f.what, f.dl).parked
    ensures f.why == ByIntr ==> SignalDue(ss[j], t)
    ensures f.why == BySignal ==>
              f.what.OnFutex? && Stk(ss[j]).top.Wk? && Stk(ss[j]).top.sec == Body && Stk(ss[j]).top.addr == f.what.addr
    ensures f.why == ByTimeout ==> ss[j].clock >= f.dl && f.dl != 0
    ensures f.why in {ByIntr, BySignal, ByTimeout}
  {
    AboutToReturn(ss, acts, n, t, f);
    RunStep(ss, acts, j);
    WokenFacts(ss[j], acts[j], t, f.what, f.dl, f.why);
  }

  /** A wait that returned at n without having parked. */
  lemma EarlyFacts(ss: seq<State>, acts: seq<Action>, n: nat, t: nat, f: Frame)
    requires IsRun(ss, acts) && n < |acts| && Returns(ss[n], acts[n], f) && ss[n].sc.current == t && f.wpc != WClear
    ensures var r := RetOf(ss[n + 1], t);
            || (r == -11 && f.what.OnFutex? && Load(ss[n].mem, f.what.addr) != f.what.val)
            || (r == -4 && SignalDue(ss[n], t))
            || (r == 0 && f.what.OnClock? && ss[n].clock >= f.dl)
  {
    RunStep(ss, acts, n);
    Checked(ss, acts, n);
    EarlyReturn(ss[n], f);
  }

  /** How long a futex wait that returns at n has lasted, if its deadline had passed. */
  lemma Lasted(ss: seq<State>, acts: seq<Action>, i: nat, n: nat, t: nat, f: Frame) returns (d: nat)
    requires IsRun(ss, acts) && i < n < |acts| && Returns(ss[n], acts[n], f) && ss[n].sc.current == t && f.wpc == WClear
    requires f.what.OnFutex? && f.dl != 0 && ss[n].clock >= f.dl
    requires BaseOf(ss[i], t).Wt? && BaseOf(ss[i], t).wpc == WCheck
    ensures i <= d < n && f.timeout.Some?
    ensures ss[d].clock + f.timeout.value < 0x1_0000_0000_0000_0000 ==> ss[n].clock >= ss[i].clock + f.timeout.value
  {
    AboutToReturn(ss, acts, n, t, f);
    d := DeadlineStory(ss, acts, n, t, f.what, f.timeout, f.dl);
    assert !Timed(BaseOf(ss[i], t), f.what, f.timeout, f.dl);
    ClockGrows(ss, acts, i, d);
  }

  /** What a futex wait that has parked returns, and why. */
  lemma SleptAnswer(ss: seq<State>, acts: seq<Action>, i: nat, n: nat, t: nat, f: Frame) returns (p: nat, j: nat)
    requires IsRun(ss, acts) && i < n < |acts| && Returns(ss[n], acts[n], f) && ss[n].sc.current == t && f.wpc == WClear
    requires f.what.OnFutex? && BaseOf(ss[i], t).Wt? && BaseOf(ss[i], t).wpc == WCheck
    ensures i <= p && i <= j < n && RetOf(ss[n + 1], t) in {0, -4, -110}
    ensures RetOf(ss[n + 1], t) == -4 ==> SignalDue(ss[j], t)
    ensures RetOf(ss[n + 1], t) == -110 ==>
              && f.timeout.Some?
              && (ss[j].clock + f.timeout.value < 0x1_0000_0000_0000_0000 ==>
                    ss[n].clock >= ss[i].clock + f.timeout.value)
    ensures RetOf(ss[n + 1], t) == 0 ==>
              && p < j && acts[p] == Run && Load(ss[p].mem, f.what.addr) == f.what.val
              && ParkedOn(ss[p + 1], t, f.what.addr) && WokenBy(ss[j], acts[j], ss[j + 1], t, f.what.addr)
  {
    p, j := SleptSince(ss, acts, i, n, t, f);
    SleptFacts(ss, acts, j, n, t, f);
    SleptResult(ss, acts, n, t, f);
    if f.why == ByTimeout {
      ClockGrows(ss, acts, j, n);
      j := Lasted(ss, acts, i, n, t, f);
    }
  }

  /** The answers to FUTEX_WAIT on addr for val:
      EAGAIN (11): the word differed just before the return.
      EINTR (4): at some step j since the request a signal that is not blocked was pending.
      ETIMEDOUT (110): a timeout was given and has passed, unless it overflowed the clock at step j.
      0: the caller parked, at step p, while the word was val, and a FUTEX_WAKE on addr woke it, at step j. */
  lemma WaitAnswer(ss: seq<State>, acts: seq<Action>, i: nat, m: nat, t: nat, addr: nat, val: int, timeout: Option<nat>)
      returns (p: nat, j: nat)
    requires IsRun(ss, acts) && Answered(ss, acts, i, m, t, FutexWait(addr, val, timeout))
    ensures RetOf(ss[m], t) in {0, -4, -11, -110}
    ensures RetOf(ss[m], t) == -11 ==> Load(ss[m - 1].mem, addr) != val
    ensures RetOf(ss[m], t) == -4 ==> i < j < m && SignalDue(ss[j], t)
    ensures RetOf(ss[m], t) == -110 ==>
              && i < j < m && timeout.Some?
              && (ss[j].clock + timeout.value < 0x1_0000_0000_0000_0000 ==>
                    ss[m].clock >= ss[i].clock + timeout.value)
    ensures RetOf(ss[m], t) == 0 ==>
              && i < p < j < m && acts[p] == Run && Load(ss[p].mem, addr) == val && ParkedOn(ss[p + 1], t, addr)
              && WokenBy(ss[j], acts[j], ss[j + 1], t, addr)
  {
    var f := WaitReturns(ss, acts, i, m, t, FutexWait(addr, val, timeout), WaitFor(FutexWait(addr, val, timeout)));
    p, j := WaitOver(ss, acts, i + 1, m - 1, t, f);
    ClockGrows(ss, acts, i, i + 1);
    ClockGrows(ss, acts, m - 1, m);
  }

  lemma WaitOver(ss: seq<State>, acts: seq<Action>, i: nat, n: nat, t: nat, f: Frame) returns (p: nat, j: nat)
    requires IsRun(ss, acts) && i <= n < |acts| && Returns(ss[n], acts[n], f) && ss[n].sc.current == t
    requires f.what.OnFutex?
    requires BaseOf(ss[i], t).Wt? && BaseOf(ss[i], t).wpc == WCheck && BaseOf(ss[n], t) == f
    ensures i <= p && i <= j <= n && RetOf(ss[n + 1], t) in {0, -4, -11, -110}
    ensures RetOf(ss[n + 1], t) == -11 ==> Load(ss[n].mem, f.what.addr) != f.what.val
    ensures RetOf(ss[n + 1], t) == -4 ==> SignalDue(ss[j], t)
    ensures RetOf(ss[n + 1], t) == -110 ==>
              && f.timeout.Some?
              && (ss[j].clock + f.timeout.value < 0x1_0000_0000_0000_0000 ==>
                    ss[n].clock >= ss[i].clock + f.timeout.value)
    ensures RetOf(ss[n + 1], t) == 0 ==>
              && p < j && acts[p] == Run && Load(ss[p].mem, f.what.addr) == f.what.val
              && ParkedOn(ss[p + 1], t, f.what.addr) && WokenBy(ss[j], acts[j], ss[j + 1], t, f.what.addr)
  {
    if f.wpc == WClear {
      p, j := SleptAnswer(ss, acts, i, n, t, f);
    } else {
      p, j := i, n;
      EarlyFacts(ss, acts, n, t, f);
    }
  }

  /** The answers to a sleep until `target`: 0 once the clock has reached it, or EINTR (4) for a signal. */
  lemma SleepAnswer(ss: seq<State>, acts: seq<Action>, i: nat, m: nat, t: nat, target: nat) returns (j: nat)
    requires IsRun(ss, acts) && Answered(ss, acts, i, m, t, SleepUntil(target))
    ensures RetOf(ss[m], t) in {0, -4}
    ensures RetOf(ss[m], t) == 0 ==> ss[m].clock >= target
    ensures RetOf(ss[m], t) == -4 ==> i < j < m && SignalDue(ss[j], t)
  {
    var f := WaitReturns(ss, acts, i, m, t, SleepUntil(target), WaitFor(SleepUntil(target)));
    j := SleepOver(ss, acts, i + 1, m - 1, t, f);
    ClockGrows(ss, acts, m - 1, m);
  }

  lemma SleepOver(ss: seq<State>, acts: seq<Action>, i: nat, n: nat, t: nat, f: Frame) returns (j: nat)
    requires IsRun(ss, acts) && i <= n < |acts| && Returns(ss[n], acts[n], f) && ss[n].sc.current == t
    requires f.what.OnClock?
    requires BaseOf(ss[i], t).Wt? && BaseOf(ss[i], t).wpc == WSig && BaseOf(ss[n], t) == f
    ensures i <= j <= n && RetOf(ss[n + 1], t) in {0, -4}
    ensures RetOf(ss[n + 1], t) == 0 ==> ss[n].clock >= f.dl
    ensures RetOf(ss[n + 1], t) == -4 ==> SignalDue(ss[j], t)
  {
    if f.wpc == WClear {
      var p;
      p, j := SleptSince(ss, acts, i, n, t, f);
      SleptFacts(ss, acts, j, n, t, f);
      SleptResult(ss, acts, n, t, f);
      ClockGrows(ss, acts, j, n);
    } else {
      j := n;
      EarlyFacts(ss, acts, n, t, f);
    }
  }

  // --- what keeps a call from waiting -----------------------------------------------------------------

  lemma EntryLooks(s: State, base: Stack, f: Frame)
    requires Live(s) && Stk(s) == Push(f, base) && f.Wt? && Sized(RunWait(s))
    ensures f.wpc == WCheck && f.what.OnFutex? ==>
              if Load(s.mem, f.what.addr) != f.what.val
              then RunWait(s).stacks[s.sc.current] == base && RunWait(s).rets[s.sc.current] == -11
              else RunWait(s).stacks[s.sc.current] == Push(f.(wpc := WSig), base)
    ensures f.wpc == WSig ==>
              if Cur(s).Deliverable()
              then RunWait(s).stacks[s.sc.current] == base && RunWait(s).rets[s.sc.current] == -4
              else RunWait(s).stacks[s.sc.current] == Push(f.(wpc := WClock), base)
    ensures f.wpc == WClock && f.what.OnClock? && s.clock >= f.dl ==>
              RunWait(s).stacks[s.sc.current] == base && RunWait(s).rets[s.sc.current] == 0
    ensures f.wpc in {WCheck, WSig, WClock} ==> RunWait(s).sc.threads[s.sc.current].blocked == Cur(s).blocked
  {
  }

  lemma EntryLooksAt(ss: seq<State>, acts: seq<Action>, k: nat, t: nat, base: Stack, f: Frame)
    requires IsRun(ss, acts) && k < |acts| && At(ss[k], acts[k], t, Push(f, base)) && acts[k] == Run && f.Wt?
    ensures f.wpc == WCheck && f.what.OnFutex? ==>
              if Load(ss[k].mem, f.what.addr) != f.what.val
              then StackOf(ss[k + 1], t) == base && RetOf(ss[k + 1], t) == -11
              else StackOf(ss[k + 1], t) == Push(f.(wpc := WSig), base)
    ensures f.wpc == WSig ==>
              if SignalDue(ss[k], t)
              then StackOf(ss[k + 1], t) == base && RetOf(ss[k + 1], t) == -4
              else StackOf(ss[k + 1], t) == Push(f.(wpc := WClock), base)
    ensures f.wpc == WClock && f.what.OnClock? && ss[k].clock >= f.dl ==>
              StackOf(ss[k + 1], t) == base && RetOf(ss[k + 1], t) == 0
    ensures f.wpc in {WCheck, WSig, WClock} ==> MaskOf(ss[k + 1], t) == MaskOf(ss[k], t)
  {
    RunStep(ss, acts, k);
    EntryLooks(ss[k], base, f);
  }

  /** FUTEX_WAIT looks at the word first, at step c, and returns EAGAIN (11) at once if it is not `val`; then for a
      signal, at step e, and returns EINTR (4) at once if one is pending that is not blocked. */
  lemma WaitRefused(ss: seq<State>, acts: seq<Action>, i: nat, m: nat, t: nat, addr: nat, val: int,
                    timeout: Option<nat>) returns (c: nat, e: nat)
    requires IsRun(ss, acts) && Answered(ss, acts, i, m, t, FutexWait(addr, val, timeout))
    ensures i < c < m && (Load(ss[c].mem, addr) != val ==> m == c + 1 && RetOf(ss[m], t) == -11)
    ensures Load(ss[c].mem, addr) == val ==>
              c < e < m && (SignalDue(ss[e], t) ==> m == e + 1 && RetOf(ss[m], t) == -4)
  {
    var f, base := WaitFor(FutexWait(addr, val, timeout)), StackOf(ss[i], t);
    WaitAskedAt(ss, acts, i, FutexWait(addr, val, timeout));
    NotPush(Push(f, base));
    c := Proceeds(ss, acts, i + 1, m, t, Push(f, base), MaskOf(ss[i + 1], t));
    EntryLooksAt(ss, acts, c, t, base, f);
    e := c;
    if Load(ss[c].mem, addr) == val {
      NotPush(Push(f.(wpc := WSig), base));
      e := Proceeds(ss, acts, c + 1, m, t, Push(f.(wpc := WSig), base), MaskOf(ss[c + 1], t));
      EntryLooksAt(ss, acts, e, t, base, f.(wpc := WSig));
    }
  }

  /** A sleep looks for a signal first, at step e, and returns EINTR (4) at once if one is pending that is not blocked;
      then at the clock, at step k, and returns 0 at once if the target has been reached. */
  lemma SleepRefused(ss: seq<State>, acts: seq<Action>, i: nat, m: nat, t: nat, target: nat) returns (e: nat, k: nat)
    requires IsRun(ss, acts) && Answered(ss, acts, i, m, t, SleepUntil(target))
    ensures i < e < m && (SignalDue(ss[e], t) ==> m == e + 1 && RetOf(ss[m], t) == -4)
    ensures !SignalDue(ss[e], t) ==> e < k < m && (ss[k].clock >= target ==> m == k + 1 && RetOf(ss[m], t) == 0)
  {
    var f, base := WaitFor(SleepUntil(target)), StackOf(ss[i], t);
    WaitAskedAt(ss, acts, i, SleepUntil(target));
    NotPush(Push(f, base));
    e := Proceeds(ss, acts, i + 1, m, t, Push(f, base), MaskOf(ss[i + 1], t));
    EntryLooksAt(ss, acts, e, t, base, f);
    k := e;
    if !SignalDue(ss[e], t) {
      NotPush(Push(f.(wpc := WClock), base));
      k := Proceeds(ss, acts, e + 1, m, t, Push(f.(wpc := WClock), base), MaskOf(ss[e + 1], t));
      EntryLooksAt(ss, acts, k, t, base, f.(wpc := WClock));
    }
  }
}
