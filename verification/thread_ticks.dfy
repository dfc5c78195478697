/** What a yield and a timer tick come to (port/thread_shim.c:343-396, 563-573, 813-819). */
module ThreadTicks {
  import opened ThreadModel
  import opened ThreadSteps
  import opened ThreadInvariant
  import opened ThreadPreserved
  import opened ThreadWaits
  import opened ThreadSignals
  import opened ThreadDelivery
  import opened ThreadCalls

  // --- sched_yield() ---------------------------------------------------------------------------

  /** Step a of state s is t going to the back of the queue, and the thread at its head becoming g_current. */
  ghost predicate HandsOver(s: State, a: Action, s': State, t: nat) {
    && Sized(s) && Sized(s') && a == Run && s.sc.current == t
    && s'.sc.current == (s.sc.queue + [t])[0] && s'.sc.queue == (s.sc.queue + [t])[1..]
    && s'.sc.threads[s'.sc.current].state == Running
  }

  lemma Hands(s: State, base: Stack)
    requires Inv(s) && Live(s) && Stk(s) == Push(Rs(RBody, true), base) && Sized(RunTop(s))
    ensures HandsOver(s, Run, RunTop(s), s.sc.current)
    ensures var st' := RunTop(s).stacks[s.sc.current];
            st' == Push(Rs(RSelf, true), base) || st' == Push(Rs(RResume, true), base)
    ensures RunTop(s).sc.threads[s.sc.current].blocked == Cur(s).blocked
  {
    assert !HasParked(Stk(s));
    RequeueKeeps(s.sc);
    ReschedFrame(s);
  }

  lemma HandsAt(ss: seq<State>, acts: seq<Action>, j: nat, t: nat, base: Stack) returns (f: Frame)
    requires IsRun(ss, acts) && j < |acts| && acts[j] == Run && At(ss[j], Run, t, Push(Rs(RBody, true), base))
    ensures HandsOver(ss[j], acts[j], ss[j + 1], t) && (f == Rs(RSelf, true) || f == Rs(RResume, true))
    ensures StackOf(ss[j + 1], t) == Push(f, base) && MaskOf(ss[j + 1], t) == MaskOf(ss[j], t)
  {
    RunStep(ss, acts, j);
    Hands(ss[j], base);
    f := StackOf(ss[j + 1], t).top;
  }

  lemma ReschedEnds(s: State, base: Stack)
    requires Live(s)
    ensures Stk(s) == Push(Rs(RTop, true), base) ==>
              RunTop(s) == s.(stacks := s.stacks[s.sc.current := Push(Rs(RBody, true), base)], irqOn := false)
    ensures Stk(s) == Push(Rs(RSelf, true), base) || Stk(s) == Push(Rs(RResume, true), base) ==>
              RunTop(s) == s.(stacks := s.stacks[s.sc.current := base], irqOn := true)
  {
  }

  lemma ReschedEndsAt(ss: seq<State>, acts: seq<Action>, j: nat, t: nat, base: Stack)
    requires IsRun(ss, acts) && j < |acts| && acts[j] == Run
    ensures At(ss[j], Run, t, Push(Rs(RTop, true), base)) ==>
              StackOf(ss[j + 1], t) == Push(Rs(RBody, true), base) && MaskOf(ss[j + 1], t) == MaskOf(ss[j], t)
    ensures At(ss[j], Run, t, Push(Rs(RSelf, true), base)) || At(ss[j], Run, t, Push(Rs(RResume, true), base)) ==>
              StackOf(ss[j + 1], t) == base && MaskOf(ss[j + 1], t) == MaskOf(ss[j], t)
  {
    RunStep(ss, acts, j);
    ReschedEnds(ss[j], base);
  }

  /** A reschedule(1) called on top of `base` hands over at some step j. */
  lemma Reschedules(ss: seq<State>, acts: seq<Action>, i: nat, m: nat, t: nat, base: Stack) returns (j: nat, e: nat)
    requires IsRun(ss, acts) && i < m < |ss|
    requires StackOf(ss[i], t) == Push(Rs(RTop, true), base) && Size(StackOf(ss[m], t)) <= Size(base)
    ensures i < j < e < m && HandsOver(ss[j], acts[j], ss[j + 1], t)
    ensures StackOf(ss[e + 1], t) == base && MaskOf(ss[e + 1], t) == MaskOf(ss[i], t)
  {
    var mask := MaskOf(ss[i], t);
    var j1 := Proceeds(ss, acts, i, m, t, Push(Rs(RTop, true), base), mask);
    ReschedEndsAt(ss, acts, j1, t, base);
    j := Proceeds(ss, acts, j1 + 1, m, t, Push(Rs(RBody, true), base), mask);
    var f := HandsAt(ss, acts, j, t, base);
    e := Proceeds(ss, acts, j + 1, m, t, Push(f, base), mask);
    ReschedEndsAt(ss, acts, e, t, base);
  }

  lemma YieldAskedAt(ss: seq<State>, acts: seq<Action>, i: nat)
    requires IsRun(ss, acts) && i < |acts| && acts[i] == User(Yield)
    ensures var t := ss[i].sc.current;
            StackOf(ss[i + 1], t) == Push(Rs(RTop, true), StackOf(ss[i], t)) && MaskOf(ss[i + 1], t) == MaskOf(ss[i], t)
  {
    RunStep(ss, acts, i);
  }

  /** A thread that has yielded went to the back of the queue once, and the thread at the head ran. */
  lemma YieldAnswer(ss: seq<State>, acts: seq<Action>, i: nat, m: nat, t: nat) returns (j: nat)
    requires IsRun(ss, acts) && Answered(ss, acts, i, m, t, Yield)
    ensures i < j < m && HandsOver(ss[j], acts[j], ss[j + 1], t) && MaskOf(ss[m], t) == MaskOf(ss[i], t)
  {
    YieldAskedAt(ss, acts, i);
    NotPush(StackOf(ss[i + 1], t));
    var e;
    j, e := Reschedules(ss, acts, i + 1, m, t, StackOf(ss[i], t));
  }

  // --- scan_timeouts() ---------------------------------------------------------------------------

  /** From s to s' every parked thread with a signal it does not block is READY for that reason, else every one whose
      deadline the clock has reached for that reason, and every other record is as it was. */
  ghost predicate Scanned(s: State, s': State) {
    && Sized(s) && Sized(s')
    && forall x :: 0 <= x < ALL_THREADS ==>
         var th, th' := s.sc.threads[x], s'.sc.threads[x];
         if th.state == Blocked && th.pending - th.blocked != {} then
           th' == th.(waitAddr := 0, reason := ByIntr, state := Ready)
         else if th.state == Blocked && th.deadline != 0 && s.clock >= th.deadline then
           th' == th.(waitAddr := 0, reason := ByTimeout, state := Ready)
         else th' == th
  }

  lemma Scans(s: State, base: Stack)
    requires Live(s) && SchedOK(s.sc) && Stk(s) == Push(Sc(Body), base) && Sized(RunTop(s))
    ensures Scanned(s, RunTop(s)) && RunTop(s).stacks[s.sc.current] == Push(Sc(Unlock), base)
    ensures RunTop(s).sc.threads[s.sc.current].blocked == Cur(s).blocked
  {
    ScanEffect(s.sc, 0, s.clock);
    var s' := RunTop(s);
    forall x | 0 <= x < ALL_THREADS
      ensures SameOrWoken(s.sc.threads[x], s'.sc.threads[x], Scan(s.clock))
      ensures s'.sc.threads[x].state == Blocked ==> !Due(s.sc.threads[x], s.clock)
    {
    }
  }

  lemma ScansAt(ss: seq<State>, acts: seq<Action>, j: nat, t: nat, base: Stack)
    requires IsRun(ss, acts) && j < |acts| && acts[j] == Run && At(ss[j], Run, t, Push(Sc(Body), base))
    ensures Scanned(ss[j], ss[j + 1])
    ensures StackOf(ss[j + 1], t) == Push(Sc(Unlock), base) && MaskOf(ss[j + 1], t) == MaskOf(ss[j], t)
  {
    RunStep(ss, acts, j);
    Scans(ss[j], base);
  }

  lemma ScanEndsAt(ss: seq<State>, acts: seq<Action>, j: nat, t: nat, base: Stack)
    requires IsRun(ss, acts) && j < |acts| && acts[j] == Run
    ensures At(ss[j], Run, t, Push(Sc(Lock), base)) ==>
              StackOf(ss[j + 1], t) == Push(Sc(Body), base) && MaskOf(ss[j + 1], t) == MaskOf(ss[j], t)
    ensures At(ss[j], Run, t, Push(Sc(Unlock), base)) ==>
              StackOf(ss[j + 1], t) == base && MaskOf(ss[j + 1], t) == MaskOf(ss[j], t)
  {
    RunStep(ss, acts, j);
  }

  /** A scan_timeouts() called on top of `base` scans at some step j. */
  lemma ScanRuns(ss: seq<State>, acts: seq<Action>, i: nat, m: nat, t: nat, base: Stack) returns (j: nat, e: nat)
    requires IsRun(ss, acts) && i < m < |ss|
    requires StackOf(ss[i], t) == Push(Sc(Lock), base) && Size(StackOf(ss[m], t)) <= Size(base)
    ensures i < j < e < m && acts[j] == Run && Scanned(ss[j], ss[j + 1])
    ensures StackOf(ss[e + 1], t) == base && MaskOf(ss[e + 1], t) == MaskOf(ss[i], t)
  {
    var mask := MaskOf(ss[i], t);
    var j1 := Proceeds(ss, acts, i, m, t, Push(Sc(Lock), base), mask);
    ScanEndsAt(ss, acts, j1, t, base);
    j := Proceeds(ss, acts, j1 + 1, m, t, Push(Sc(Body), base), mask);
    ScansAt(ss, acts, j, t, base);
    e := Proceeds(ss, acts, j + 1, m, t, Push(Sc(Unlock), base), mask);
    ScanEndsAt(ss, acts, e, t, base);
  }

  /** The loops that find nobody READY: at `none` the queue was empty, at `again` it is looked at once more. */
  predicate IdleLoop(none: Frame, idle: Frame, sleep: Frame, again: Frame) {
    || (none == Rs(RNone, false) && idle == Rs(RIdle, false) && sleep == Rs(RSleep, false) && again == Rs(RBody, false))
    || (none == Ex(XNone) && idle == Ex(XIdle) && sleep == Ex(XSleep) && again == Ex(XSwitch))
  }

  lemma IdlesInResched(s: State, base: Stack)
    requires Live(s)
    ensures Stk(s) == Push(Rs(RNone, false), base) ==>
              RunTop(s) == s.(stacks := s.stacks[s.sc.current := Push(Rs(RIdle, false), base)], irqOn := true)
    ensures Stk(s) == Push(Rs(RIdle, false), base) ==>
              RunTop(s) == s.(stacks := s.stacks[s.sc.current := Push(Sc(Lock), Push(Rs(RSleep, false), base))])
  {
  }

  lemma IdlesInExit(s: State, base: Stack)
    requires Live(s)
    ensures Stk(s) == Push(Ex(XNone), base) ==>
              RunTop(s) == s.(stacks := s.stacks[s.sc.current := Push(Ex(XIdle), base)], irqOn := true)
    ensures Stk(s) == Push(Ex(XIdle), base) ==>
              RunTop(s) == s.(stacks := s.stacks[s.sc.current := Push(Sc(Lock), Push(Ex(XSleep), base))])
  {
  }

  lemma Idles(s: State, base: Stack, none: Frame, idle: Frame, sleep: Frame, again: Frame)
    requires Live(s) && IdleLoop(none, idle, sleep, again)
    ensures Stk(s) == Push(none, base) ==>
              RunTop(s) == s.(stacks := s.stacks[s.sc.current := Push(idle, base)], irqOn := true)
    ensures Stk(s) == Push(idle, base) ==>
              RunTop(s) == s.(stacks := s.stacks[s.sc.current := Push(Sc(Lock), Push(sleep, base))])
  {
    if none.Rs? { IdlesInResched(s, base); } else { IdlesInExit(s, base); }
  }

  lemma FoundNoneAt(ss: seq<State>, acts: seq<Action>, j: nat, t: nat, base: Stack, none: Frame, idle: Frame,
                    sleep: Frame, again: Frame)
    requires IsRun(ss, acts) && j < |acts| && IdleLoop(none, idle, sleep, again)
    requires At(ss[j], acts[j], t, Push(none, base))
    ensures StackOf(ss[j + 1], t) == Push(idle, base) && MaskOf(ss[j + 1], t) == MaskOf(ss[j], t)
  {
    RunStep(ss, acts, j);
    Idles(ss[j], base, none, idle, sleep, again);
  }

  lemma IdlesAt(ss: seq<State>, acts: seq<Action>, j: nat, t: nat, base: Stack, none: Frame, idle: Frame,
                sleep: Frame, again: Frame)
    requires IsRun(ss, acts) && j < |acts| && IdleLoop(none, idle, sleep, again)
    requires At(ss[j], acts[j], t, Push(idle, base))
    ensures StackOf(ss[j + 1], t) == Push(Sc(Lock), Push(sleep, base)) && MaskOf(ss[j + 1], t) == MaskOf(ss[j], t)
  {
    RunStep(ss, acts, j);
    Idles(ss[j], base, none, idle, sleep, again);
  }

  /** Between finding nobody READY and looking again, in reschedule() and in an exit, the table is scanned. */
  lemma IdleScans(ss: seq<State>, acts: seq<Action>, i: nat, m: nat, t: nat, base: Stack, none: Frame, idle: Frame,
                  sleep: Frame, again: Frame)
      returns (j: nat)
    requires IsRun(ss, acts) && i < m < |ss| && IdleLoop(none, idle, sleep, again)
    requires At(ss[i], acts[i], t, Push(none, base)) && StackOf(ss[m], t) == Push(again, base)
    ensures i < j < m && acts[j] == Run && Scanned(ss[j], ss[j + 1])
  {
    FoundNoneAt(ss, acts, i, t, base, none, idle, sleep, again);
    var mask := MaskOf(ss[i], t);
    var k := Leaves(ss, acts, i + 1, m, t, Push(idle, base), mask);
    if k == m {
      OneOn(StackOf(ss[m], t), base, idle, again, mask);
      assert false;
    } else {
      IdlesAt(ss, acts, k, t, base, none, idle, sleep, again);
      assert Size(Push(Sc(Lock), Push(sleep, base))) > Size(Push(again, base));
      var e;
      j, e := ScanRuns(ss, acts, k + 1, m, t, Push(sleep, base));
    }
  }

  // --- the tick ------------------------------------------------------------------------------------

  lemma TickCalls(s: State, mask: set<nat>, base: Stack)
    requires Live(s)
    ensures Stk(s) == Push(Tk(TScan, mask), base) ==>
              RunTop(s) == s.(stacks := s.stacks[s.sc.current := Push(Sc(Lock), Push(Tk(TDeliver, mask), base))])
    ensures Stk(s) == Push(Tk(TDeliver, mask), base) ==>
              RunTop(s) == s.(stacks := s.stacks[s.sc.current := Push(Dl(DCheck, 0, {}), Push(Tk(TState, mask), base))])
    ensures Stk(s) == Push(Tk(TState, mask), base) && Cur(s).state == Running ==>
              RunTop(s) == s.(stacks := s.stacks[s.sc.current := Push(Tk(THead, mask), base)])
    ensures Stk(s) == Push(Tk(TState, mask), base) && Cur(s).state != Running ==>
              RunTop(s) == s.(stacks := s.stacks[s.sc.current := base])
    ensures Stk(s) == Push(Tk(THead, mask), base) && s.sc.queue != [] ==>
              RunTop(s) == s.(stacks := s.stacks[s.sc.current := Push(Rs(RTop, true), Push(Tk(TEnd, mask), base))])
    ensures Stk(s) == Push(Tk(THead, mask), base) && s.sc.queue == [] ==>
              RunTop(s) == s.(stacks := s.stacks[s.sc.current := base])
  {
  }

  /** A tick arrives at step a, and the code of t it landed on goes on at m. */
  ghost predicate Ticked(ss: seq<State>, acts: seq<Action>, a: nat, m: nat, t: nat) {
    && |ss| == |acts| + 1 && a < m < |ss| && acts[a] == Tick && Sized(ss[a]) && ss[a].sc.current == t
    && StackOf(ss[m], t) == StackOf(ss[a], t) && forall k :: a < k < m ==> StackOf(ss[k], t) != StackOf(ss[a], t)
  }

  lemma TickStarts(ss: seq<State>, acts: seq<Action>, a: nat)
    requires IsRun(ss, acts) && a < |acts| && acts[a] == Tick
    ensures var t := ss[a].sc.current;
            && StackOf(ss[a + 1], t) == Push(Tk(TScan, MaskOf(ss[a], t)), StackOf(ss[a], t)) && StackOf(ss[a], t).Push?
            && MaskOf(ss[a + 1], t) == MaskOf(ss[a], t)
  {
    RunStep(ss, acts, a);
  }

  lemma TickCallsAt(ss: seq<State>, acts: seq<Action>, j: nat, t: nat, mask: set<nat>, base: Stack)
    requires IsRun(ss, acts) && j < |acts| && acts[j] == Run && MaskOf(ss[j], t) == mask
    ensures At(ss[j], Run, t, Push(Tk(TScan, mask), base)) ==>
              StackOf(ss[j + 1], t) == Push(Sc(Lock), Push(Tk(TDeliver, mask), base)) && MaskOf(ss[j + 1], t) == mask
    ensures At(ss[j], Run, t, Push(Tk(TDeliver, mask), base)) ==>
              && StackOf(ss[j + 1], t) == Push(Dl(DCheck, 0, {}), Push(Tk(TState, mask), base))
              && MaskOf(ss[j + 1], t) == mask
  {
    RunStep(ss, acts, j);
    TickCalls(ss[j], mask, base);
  }

  lemma TickLooksAt(ss: seq<State>, acts: seq<Action>, j: nat, t: nat, mask: set<nat>, base: Stack)
    requires IsRun(ss, acts) && j < |acts| && base.Push?
    ensures At(ss[j], acts[j], t, Push(Tk(TState, mask), base)) ==>
              && MaskOf(ss[j + 1], t) == MaskOf(ss[j], t)
              && StackOf(ss[j + 1], t) == if HasParked(base) then base else Push(Tk(THead, mask), base)
    ensures At(ss[j], acts[j], t, Push(Tk(THead, mask), base)) ==>
              StackOf(ss[j + 1], t)
              == if ss[j].sc.queue == [] then base else Push(Rs(RTop, true), Push(Tk(TEnd, mask), base))
  {
    RunStep(ss, acts, j);
    TickCalls(ss[j], mask, base);
  }

  /** deliver_pending_signals() looking for a signal. */
  lemma ChecksAt(ss: seq<State>, acts: seq<Action>, c: nat, t: nat, base: Stack) returns (x: nat)
    requires IsRun(ss, acts) && c < |acts| && acts[c] == Run && At(ss[c], Run, t, Push(Dl(DCheck, 0, {}), base))
    ensures SignalDue(ss[c], t) ==>
              Chooses(ss[c], acts[c], t, base, x) && StackOf(ss[c + 1], t) == Push(Dl(DLock, x, {}), base)
    ensures !SignalDue(ss[c], t) ==> StackOf(ss[c + 1], t) == base
  {
    RunStep(ss, acts, c);
    LowestFirst(ss[c]);
    x := if StackOf(ss[c + 1], t).Push? && StackOf(ss[c + 1], t).top.Dl? then StackOf(ss[c + 1], t).top.sig else 0;
    if SignalDue(ss[c], t) { ChoosesAt(ss[c]); }
  }

  lemma ChoosesAt(s: State)
    requires Inv(s) && Live(s) && Stk(s).top == Dl(DCheck, 0, {}) && SignalDue(s, s.sc.current)
    ensures var st' := RunTop(s).stacks[s.sc.current];
            && st'.Push? && st'.top.Dl? && st' == Push(Dl(DLock, st'.top.sig, {}), Stk(s).below)
            && Chooses(s, Run, s.sc.current, Stk(s).below, st'.top.sig)
  {
    assert Signals(Cur(s).pending);
    var x :| x in Cur(s).pending - Cur(s).blocked;
    assert 1 <= x <= 64;
  }

  /** The first half of a tick: it scans, at k, and then looks for a signal, at c. */
  lemma TickChecks(ss: seq<State>, acts: seq<Action>, i: nat, m: nat, t: nat, mask: set<nat>, base: Stack)
      returns (k: nat, c: nat, x: nat)
    requires IsRun(ss, acts) && i < m < |ss| && StackOf(ss[m], t) == base && base.Push?
    requires StackOf(ss[i], t) == Push(Tk(TScan, mask), base) && MaskOf(ss[i], t) == mask
    ensures i < k < c < m && acts[k] == Run && Scanned(ss[k], ss[k + 1])
    ensures SignalDue(ss[c], t) ==>
              && Chooses(ss[c], acts[c], t, Push(Tk(TState, mask), base), x)
              && StackOf(ss[c + 1], t) == Push(Dl(DLock, x, {}), Push(Tk(TState, mask), base))
    ensures !SignalDue(ss[c], t) ==> StackOf(ss[c + 1], t) == Push(Tk(TState, mask), base)
  {
    var j := Proceeds(ss, acts, i, m, t, Push(Tk(TScan, mask), base), mask);
    TickCallsAt(ss, acts, j, t, mask, base);
    var e;
    k, e := ScanRuns(ss, acts, j + 1, m, t, Push(Tk(TDeliver, mask), base));
    c, x := TickDelivers(ss, acts, e + 1, m, t, mask, base);
  }

  lemma TickDelivers(ss: seq<State>, acts: seq<Action>, i: nat, m: nat, t: nat, mask: set<nat>, base: Stack)
      returns (c: nat, x: nat)
    requires IsRun(ss, acts) && i <= m < |ss| && StackOf(ss[m], t) == base && base.Push?
    requires StackOf(ss[i], t) == Push(Tk(TDeliver, mask), base) && MaskOf(ss[i], t) == mask
    ensures i < c < m
    ensures SignalDue(ss[c], t) ==>
              && Chooses(ss[c], acts[c], t, Push(Tk(TState, mask), base), x)
              && StackOf(ss[c + 1], t) == Push(Dl(DLock, x, {}), Push(Tk(TState, mask), base))
    ensures !SignalDue(ss[c], t) ==> StackOf(ss[c + 1], t) == Push(Tk(TState, mask), base)
  {
    NotPush(StackOf(ss[i], t));
    var j := Proceeds(ss, acts, i, m, t, Push(Tk(TDeliver, mask), base), mask);
    TickCallsAt(ss, acts, j, t, mask, base);
    assert Size(Push(Dl(DCheck, 0, {}), Push(Tk(TState, mask), base))) == Size(base) + 2;
    c := Proceeds(ss, acts, j + 1, m, t, Push(Dl(DCheck, 0, {}), Push(Tk(TState, mask), base)), mask);
    x := ChecksAt(ss, acts, c, t, Push(Tk(TState, mask), base));
  }

  /** The second half: unless the thread has parked, it looks at the queue, at q, and hands over, at j, if somebody
      is READY. */
  lemma TickEnds(ss: seq<State>, acts: seq<Action>, i: nat, m: nat, t: nat, mask: set<nat>, base: Stack)
      returns (q: nat, j: nat)
    requires IsRun(ss, acts) && i < m < |ss| && StackOf(ss[m], t) == base && base.Push?
    requires On(StackOf(ss[i], t), base, Tk(TState, mask))
    requires forall k :: i <= k < m ==> StackOf(ss[k], t) != base
    ensures i <= q < m && Sized(ss[q]) && ss[q].sc.current == t
    ensures !HasParked(base) && ss[q].sc.queue != [] ==> q < j < m && HandsOver(ss[j], acts[j], ss[j + 1], t)
    ensures HasParked(base) || ss[q].sc.queue == [] ==> m == q + 1
  {
    q := Executes(ss, acts, i, m, t, base, Tk(TState, mask));
    TickLooksAt(ss, acts, q, t, mask, base);
    j := q;
    if !HasParked(base) {
      q := Proceeds(ss, acts, q + 1, m, t, Push(Tk(THead, mask), base), MaskOf(ss[q + 1], t));
      TickLooksAt(ss, acts, q, t, mask, base);
      if ss[q].sc.queue != [] {
        var e;
        j, e := Reschedules(ss, acts, q + 1, m, t, Push(Tk(TEnd, mask), base));
      }
    }
  }

  lemma RunningIs(ss: seq<State>, acts: seq<Action>, k: nat)
    requires IsRun(ss, acts) && k < |ss|
    ensures Sized(ss[k]) && (Cur(ss[k]).state == Running <==> !HasParked(Stk(ss[k])))
  {
    RunInv(ss, acts, k);
  }

  /** A tick that is over has scanned the table, at k, and then started the delivery of the lowest signal t had
      pending and not blocked, at c, if there was one.  If it found its thread RUNNING it looked at the queue, at q,
      and if anybody was READY it handed the CPU over, at j; otherwise it did not. */
  lemma TickAnswer(ss: seq<State>, acts: seq<Action>, a: nat, m: nat, t: nat)
      returns (k: nat, c: nat, x: nat, q: nat, j: nat)
    requires IsRun(ss, acts) && Ticked(ss, acts, a, m, t)
    ensures a < k < c < q < m && acts[k] == Run && Scanned(ss[k], ss[k + 1])
    ensures var base := Push(Tk(TState, MaskOf(ss[a], t)), StackOf(ss[a], t));
            if SignalDue(ss[c], t)
            then Chooses(ss[c], acts[c], t, base, x) && StackOf(ss[c + 1], t) == Push(Dl(DLock, x, {}), base)
            else StackOf(ss[c + 1], t) == base
    ensures Sized(ss[q]) && ss[q].sc.current == t
    ensures Cur(ss[a]).state == Running && ss[q].sc.queue != [] ==>
              q < j < m && HandsOver(ss[j], acts[j], ss[j + 1], t)
    ensures Cur(ss[a]).state != Running || ss[q].sc.queue == [] ==> m == q + 1
  {
    var mask, base := MaskOf(ss[a], t), StackOf(ss[a], t);
    TickStarts(ss, acts, a);
    NotPush(StackOf(ss[a + 1], t));
    k, c, x := TickChecks(ss, acts, a + 1, m, t, mask, base);
    RunningIs(ss, acts, a);
    q, j := TickEnds(ss, acts, c + 1, m, t, mask, base);
  }
}
