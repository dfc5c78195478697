/** The deadline of a futex wait (port/thread_shim.c:840-856): the time asked for, unless adding it to
    the clock wraps around at 64 bits. */
module ThreadDeadlines {
  import opened Options
  import opened ThreadModel
  import opened ThreadSteps
  import opened ThreadInvariant
  import opened ThreadPreserved
  import opened ThreadWaits

  /** The frame is a wait past the setting of its deadline. */
  predicate Timed(b: Frame, w: Park, timeout: Option<nat>, dl: nat) {
    b.Wt? && b.wpc != WCheck && b.wpc != WSig && b.wpc != WClock && b.what == w && b.timeout == timeout && b.dl == dl
  }

  /** Step a of state s is t setting the deadline. */
  predicate SetsDeadline(s: State, a: Action, t: nat, w: Park, timeout: Option<nat>, dl: nat) {
    && Sized(s) && a == Run && s.sc.current == t && Stk(s).Push?
    && Stk(s).top.Wt? && Stk(s).top.wpc == WClock && Stk(s).top.what == w && Stk(s).top.timeout == timeout
    && dl == if timeout.None? then 0 else (s.clock + timeout.value) % U64
  }

  function BaseOf(s: State, t: nat): Frame {
    if Sized(s) && t < ALL_THREADS then Base(s.stacks[t]) else App
  }

  /** What a wait sets its deadline to. */
  lemma ClockSets(s: State)
    requires Live(s) && Stk(s).top.Wt? && Stk(s).top.wpc == WClock && Stk(s).top.what.OnFutex? && Sized(RunWait(s))
    ensures var f, st' := Stk(s).top, RunWait(s).stacks[s.sc.current];
            && st'.Push? && st'.below == Stk(s).below && st'.top.Wt?
            && SetsDeadline(s, Run, s.sc.current, f.what, f.timeout, st'.top.dl)
  {
  }

  lemma TimedWait(s: State, w: Park, timeout: Option<nat>, dl: nat)
    requires LocalOK(s) && Live(s) && Stk(s).top.Wt? && Sized(RunWait(s)) && w.OnFutex?
    requires Timed(Base(RunWait(s).stacks[s.sc.current]), w, timeout, dl) && !Timed(Stk(s).top, w, timeout, dl)
    ensures SetsDeadline(s, Run, s.sc.current, w, timeout, dl)
  {
    WaitNext(s);
    AppIsBottom(Stk(s).below);
    BaseAbove(Stk(s).top, Stk(s).below, RunWait(s).stacks[s.sc.current]);
    if Stk(s).top.wpc == WClock && Stk(s).top.what.OnFutex? {
      ClockSets(s);
    }
  }

  lemma TimedCurrent(s: State, a: Action, w: Park, timeout: Option<nat>, dl: nat)
    requires Inv(s) && Enabled(s, a) && Sized(Step(s, a)) && w.OnFutex?
    requires Timed(Base(Step(s, a).stacks[s.sc.current]), w, timeout, dl) && !Timed(Base(Stk(s)), w, timeout, dl)
    ensures SetsDeadline(s, a, s.sc.current, w, timeout, dl)
  {
    BaseStep(s, a);
    TimedWait(s, w, timeout, dl);
  }

  lemma TimedStep(s: State, a: Action, t: nat, w: Park, timeout: Option<nat>, dl: nat)
    requires Inv(s) && Enabled(s, a) && Sized(Step(s, a)) && t < ALL_THREADS && w.OnFutex?
    requires Timed(Base(Step(s, a).stacks[t]), w, timeout, dl) && !Timed(Base(s.stacks[t]), w, timeout, dl)
    ensures SetsDeadline(s, a, t, w, timeout, dl)
  {
    if t == s.sc.current {
      TimedCurrent(s, a, w, timeout, dl);
    } else {
      OtherStack(s, a, t);
    }
  }

  /** Every wait past that point set its deadline at some step i and has been past it since. */
  lemma {:induction false} DeadlineStory(ss: seq<State>, acts: seq<Action>, n: nat, t: nat, w: Park,
                                         timeout: Option<nat>, dl: nat)
      returns (i: nat)
    requires IsRun(ss, acts) && n < |ss| && w.OnFutex? && Timed(BaseOf(ss[n], t), w, timeout, dl)
    ensures i < n && SetsDeadline(ss[i], acts[i], t, w, timeout, dl)
    ensures forall k :: i < k <= n ==> Timed(BaseOf(ss[k], t), w, timeout, dl)
    decreases n
  {
    NotTimed(ss[0], t, w, timeout, dl);
    var j := n - 1;
    TimedRunStep(ss, acts, j, t, w, timeout, dl);
    if Timed(BaseOf(ss[j], t), w, timeout, dl) {
      i := DeadlineStory(ss, acts, j, t, w, timeout, dl);
    } else {
      i := j;
    }
  }

  lemma TimedRunStep(ss: seq<State>, acts: seq<Action>, k: nat, t: nat, w: Park, timeout: Option<nat>, dl: nat)
    requires IsRun(ss, acts) && k < |acts| && w.OnFutex? && Timed(BaseOf(ss[k + 1], t), w, timeout, dl)
    ensures Timed(BaseOf(ss[k], t), w, timeout, dl) || SetsDeadline(ss[k], acts[k], t, w, timeout, dl)
  {
    RunStep(ss, acts, k);
    if !Timed(BaseOf(ss[k], t), w, timeout, dl) {
      TimedStep(ss[k], acts[k], t, w, timeout, dl);
    }
  }

  lemma NotTimed(s: State, t: nat, w: Park, timeout: Option<nat>, dl: nat)
    requires Init(s)
    ensures !Timed(BaseOf(s, t), w, timeout, dl)
  {
    assert t < ALL_THREADS ==> s.stacks[t] == if t == 0 then Push(App, Empty) else Empty;
  }

  /** A futex_wait() that returns -ETIMEDOUT at step n, its deadline set at step i, has waited as long as
      it was asked to, if the sum did not wrap; it never had a deadline if it was given no timeout. */
  lemma TimedOutInTime(ss: seq<State>, acts: seq<Action>, n: nat, f: Frame) returns (i: nat)
    requires IsRun(ss, acts) && n < |acts| && Returns(ss[n], acts[n], f) && Sized(ss[n + 1]) && f.what.OnFutex?
    requires ss[n + 1].rets[ss[n].sc.current] == -ETIMEDOUT
    ensures i < n && SetsDeadline(ss[i], acts[i], ss[n].sc.current, f.what, f.timeout, f.dl)
    ensures f.timeout.Some? && (ss[i].clock + f.timeout.value < U64 ==> ss[n].clock >= ss[i].clock + f.timeout.value)
  {
    var _, _ := ReturnValue(ss, acts, n, f);
    i := DeadlineOf(ss, acts, n, f);
  }

  /** Where a wait that is about to return set its deadline. */
  lemma DeadlineOf(ss: seq<State>, acts: seq<Action>, n: nat, f: Frame) returns (i: nat)
    requires IsRun(ss, acts) && n < |acts| && Returns(ss[n], acts[n], f) && f.what.OnFutex? && f.wpc == WClear
    ensures i < n && SetsDeadline(ss[i], acts[i], ss[n].sc.current, f.what, f.timeout, f.dl)
  {
    RunStep(ss, acts, n);
    ReturnClears(ss[n], f);
    i := DeadlineStory(ss, acts, n, ss[n].sc.current, f.what, f.timeout, f.dl);
  }

  /** The deadline is the time asked for exactly if the sum does not wrap.  If it does, the deadline is
      due already: any scan may end the park with a timeout, unless the sum came out as 0, which means
      no deadline at all. */
  lemma WrappedDeadline(s: State, f: Frame, th: Thread)
    requires Live(s) && Stk(s).top == f && f.Wt? && f.wpc == WClock && f.what.OnFutex? && f.timeout.Some?
    requires Sized(RunWait(s)) && Stk(RunWait(s)).Push? && Stk(RunWait(s)).top.Wt? && !th.Deliverable()
    requires s.clock < U64 && f.timeout.value < U64 && th.deadline == Stk(RunWait(s)).top.dl
    ensures th.deadline == s.clock + f.timeout.value <==> s.clock + f.timeout.value < U64
    ensures s.clock + f.timeout.value >= U64 ==>
              forall now :: now >= s.clock ==> (Caused(th, Scan(now), ByTimeout) <==> s.clock + f.timeout.value != U64)
  {
    var sum := s.clock + f.timeout.value;
    assert sum < U64 ==> sum % U64 == sum;
    assert U64 <= sum ==> sum % U64 == sum - U64;
  }
}
