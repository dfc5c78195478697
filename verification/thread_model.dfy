/** Thread records, the ready queue, and what the scheduler's IRQ-off sections do to them
    (port/thread_shim.c).

    Thread 0 is g_main_thread and thread i is g_threads[i - 1].  Signal masks are sets of
    signal numbers 1..64 rather than 64-bit words; futex addresses are numbers, 0 being null. */
module ThreadModel {
  const ALL_THREADS: nat := 33

  datatype TState = Free | Ready | Running | Blocked

  /** enum wake_reason. */
  datatype Reason = NoReason | BySignal | ByTimeout | ByIntr

  datatype Thread = Thread(
    tid: int, state: TState, ctid: nat, waitAddr: nat, deadline: nat, reason: Reason,
    pending: set<nat>, blocked: set<nat>)
  {
    predicate Deliverable() {
      pending - blocked != {}
    }
  }

  datatype Sched = Sched(threads: seq<Thread>, queue: seq<nat>, current: nat)

  /** The ready list holds exactly the READY threads, once each; only g_current is RUNNING. */
  ghost predicate SchedOK(s: Sched) {
    && |s.threads| == ALL_THREADS
    && s.current < ALL_THREADS
    && (forall i :: 0 <= i < |s.queue| ==> s.queue[i] < ALL_THREADS && s.threads[s.queue[i]].state == Ready)
    && (forall i, j :: 0 <= i < j < |s.queue| ==> s.queue[i] != s.queue[j])
    && (forall k :: 0 <= k < ALL_THREADS && s.threads[k].state == Ready ==> k in s.queue)
    && (forall k :: 0 <= k < ALL_THREADS && s.threads[k].state == Running ==> k == s.current)
  }

  /** Who ends a park: a scan at some clock value, or a FUTEX_WAKE on some address. */
  datatype Waker = Scan(now: nat) | FutexWake(addr: nat)

  /** Whether waker w may end the park of th, giving reason r. */
  predicate Caused(th: Thread, w: Waker, r: Reason) {
    match w
    case Scan(now) =>
      (r == ByIntr && th.Deliverable())
      || (r == ByTimeout && !th.Deliverable() && th.deadline != 0 && now >= th.deadline)
    case FutexWake(addr) =>
      r == BySignal && th.waitAddr == addr
  }

  /** th' is th, or th taken out of its park by w. */
  predicate SameOrWoken(th: Thread, th': Thread, w: Waker) {
    || th' == th
    || (&& th.state == Blocked
        && Caused(th, w, th'.reason)
        && th' == th.(waitAddr := 0, reason := th'.reason, state := Ready))
  }

  /** s' is s after w woke some of the parked threads. */
  ghost predicate WakesOnly(s: Sched, s': Sched, w: Waker) {
    && |s'.threads| == |s.threads|
    && s'.current == s.current
    && s.queue <= s'.queue
    && (forall k :: 0 <= k < |s.threads| ==> SameOrWoken(s.threads[k], s'.threads[k], w))
  }

  function Enqueue(s: Sched, t: nat): Sched {
    s.(queue := s.queue + [t])
  }

  /** wake_thread_locked() */
  function Wake(s: Sched, t: nat, r: Reason): Sched
    requires t < |s.threads|
  {
    Enqueue(s.(threads := s.threads[t := s.threads[t].(waitAddr := 0, reason := r, state := Ready)]), t)
  }

  lemma WakeKeeps(s: Sched, t: nat, r: Reason)
    requires SchedOK(s) && t < ALL_THREADS && s.threads[t].state == Blocked
    ensures SchedOK(Wake(s, t, r))
  {
    var s' := Wake(s, t, r);
    forall k | 0 <= k < ALL_THREADS && s'.threads[k].state == Ready ensures k in s'.queue {
      if k == t { assert s'.queue[|s.queue|] == t; } else { assert k in s.queue; }
    }
  }

  /** One iteration of the loop in scan_timeouts(). */
  function ScanOne(s: Sched, i: nat, now: nat): Sched
    requires i < |s.threads|
  {
    var t := s.threads[i];
    if t.state != Blocked then s
    else if t.Deliverable() then Wake(s, i, ByIntr)
    else if t.deadline != 0 && now >= t.deadline then Wake(s, i, ByTimeout)
    else s
  }

  /** The IRQ-off body of scan_timeouts(), from thread i on. */
  function ScanFrom(s: Sched, i: nat, now: nat): Sched
    requires i <= |s.threads|
    decreases |s.threads| - i
  {
    if i == |s.threads| then s else ScanFrom(ScanOne(s, i, now), i + 1, now)
  }

  lemma ScanOneEffect(s: Sched, i: nat, now: nat)
    requires SchedOK(s) && i < |s.threads|
    ensures SchedOK(ScanOne(s, i, now)) && s.queue <= ScanOne(s, i, now).queue
    ensures ScanOne(s, i, now).current == s.current
    ensures SameOrWoken(s.threads[i], ScanOne(s, i, now).threads[i], Scan(now))
    ensures forall k :: 0 <= k < |s.threads| && k != i ==> ScanOne(s, i, now).threads[k] == s.threads[k]
    ensures ScanOne(s, i, now).threads[i].state == Blocked ==> !Due(s.threads[i], now)
  {
    var m := ScanOne(s, i, now);
    if m != s {
      WakeKeeps(s, i, m.threads[i].reason);
    }
  }

  /** Whether scan_timeouts() at clock value now ends the park of th. */
  predicate Due(th: Thread, now: nat) {
    th.Deliverable() || (th.deadline != 0 && now >= th.deadline)
  }

  lemma {:induction false} ScanEffect(s: Sched, i: nat, now: nat)
    requires SchedOK(s) && i <= |s.threads|
    ensures SchedOK(ScanFrom(s, i, now)) && WakesOnly(s, ScanFrom(s, i, now), Scan(now))
    ensures forall k :: 0 <= k < i ==> ScanFrom(s, i, now).threads[k] == s.threads[k]
    // Nobody who is due stays parked.
    ensures forall k :: i <= k < |s.threads| && ScanFrom(s, i, now).threads[k].state == Blocked ==>
              !Due(s.threads[k], now)
    decreases |s.threads| - i
  {
    if i < |s.threads| {
      ScanOneEffect(s, i, now);
      ScanEffect(ScanOne(s, i, now), i + 1, now);
      Scanned(s, ScanOne(s, i, now), ScanFrom(ScanOne(s, i, now), i + 1, now), i, now);
    }
  }

  /** One iteration gives m, the others s'. */
  lemma Scanned(s: Sched, m: Sched, s': Sched, i: nat, now: nat)
    requires i < |s.threads| == |m.threads| && s.queue <= m.queue && m.current == s.current
    requires WakesOnly(m, s', Scan(now))
    requires SameOrWoken(s.threads[i], m.threads[i], Scan(now)) && s'.threads[i] == m.threads[i]
    requires forall k :: 0 <= k < |s.threads| && k != i ==> m.threads[k] == s.threads[k]
    ensures WakesOnly(s, s', Scan(now))
  {
  }

  /** The IRQ-off body of futex_wake(), from thread i on: at most n threads are woken. */
  function WakeFrom(s: Sched, i: nat, addr: nat, n: nat): (r: (Sched, nat))
    requires i <= |s.threads|
    ensures r.1 <= n
    decreases |s.threads| - i
  {
    if i == |s.threads| || n == 0 then (s, 0)
    else if s.threads[i].state == Blocked && s.threads[i].waitAddr == addr then
      var (s', woken) := WakeFrom(Wake(s, i, BySignal), i + 1, addr, n - 1);
      (s', woken + 1)
    else WakeFrom(s, i + 1, addr, n)
  }

  /** s' is s after `woken` wakes for addr, none of a thread below i. */
  ghost predicate Woken(s: Sched, s': Sched, woken: nat, i: nat, addr: nat) {
    && SchedOK(s') && WakesOnly(s, s', FutexWake(addr)) && |s'.queue| == |s.queue| + woken
    && forall k :: 0 <= k < i && k < |s.threads| ==> s'.threads[k] == s.threads[k]
  }

  lemma {:induction false} WakeWakes(s: Sched, i: nat, addr: nat, n: nat)
    requires SchedOK(s) && i <= |s.threads|
    ensures Woken(s, WakeFrom(s, i, addr, n).0, WakeFrom(s, i, addr, n).1, i, addr)
    decreases |s.threads| - i
  {
    if i == |s.threads| || n == 0 {
    } else if s.threads[i].state == Blocked && s.threads[i].waitAddr == addr {
      WakeKeeps(s, i, BySignal);
      WakeWakes(Wake(s, i, BySignal), i + 1, addr, n - 1);
      var (s', woken) := WakeFrom(Wake(s, i, BySignal), i + 1, addr, n - 1);
      WokenHit(s, s', woken, i, addr);
    } else {
      WakeWakes(s, i + 1, addr, n);
    }
  }

  lemma WokenHit(s: Sched, s': Sched, woken: nat, i: nat, addr: nat)
    requires SchedOK(s) && i < |s.threads| && s.threads[i].state == Blocked && s.threads[i].waitAddr == addr
    requires Woken(Wake(s, i, BySignal), s', woken, i + 1, addr)
    ensures Woken(s, s', woken + 1, i, addr)
  {
    WakesTwice(s, Wake(s, i, BySignal), s', i, FutexWake(addr));
  }

  /** Waking fewer than asked means no waiter on addr is left. */
  lemma {:induction false} WakeExhausts(s: Sched, i: nat, addr: nat, n: nat)
    requires i <= |s.threads| && WakeFrom(s, i, addr, n).1 < n
    ensures |WakeFrom(s, i, addr, n).0.threads| == |s.threads|
    ensures forall k :: 0 <= k < i ==> WakeFrom(s, i, addr, n).0.threads[k] == s.threads[k]
    ensures forall k :: i <= k < |s.threads| && WakeFrom(s, i, addr, n).0.threads[k].state == Blocked ==>
              WakeFrom(s, i, addr, n).0.threads[k].waitAddr != addr
    decreases |s.threads| - i
  {
    if i == |s.threads| {
    } else if s.threads[i].state == Blocked && s.threads[i].waitAddr == addr {
      WakeExhausts(Wake(s, i, BySignal), i + 1, addr, n - 1);
    } else {
      WakeExhausts(s, i + 1, addr, n);
    }
  }

  /** What futex_wake() does: at most n waiters on addr are woken, and all of them if fewer are. */
  lemma WakeEffect(s: Sched, i: nat, addr: nat, n: nat)
    requires SchedOK(s) && i <= |s.threads|
    ensures SchedOK(WakeFrom(s, i, addr, n).0)
    ensures WakesOnly(s, WakeFrom(s, i, addr, n).0, FutexWake(addr))
    ensures forall k :: 0 <= k < i ==> WakeFrom(s, i, addr, n).0.threads[k] == s.threads[k]
    ensures |WakeFrom(s, i, addr, n).0.queue| == |s.queue| + WakeFrom(s, i, addr, n).1
    ensures WakeFrom(s, i, addr, n).1 < n ==>
              forall k :: i <= k < |s.threads| && WakeFrom(s, i, addr, n).0.threads[k].state == Blocked ==>
                WakeFrom(s, i, addr, n).0.threads[k].waitAddr != addr
  {
    WakeWakes(s, i, addr, n);
    if WakeFrom(s, i, addr, n).1 < n {
      WakeExhausts(s, i, addr, n);
    }
  }

  /** The waiters on addr, from thread i on, that are READY in s' and were parked in s. */
  function Roused(s: Sched, s': Sched, i: nat, addr: nat): set<nat>
    requires |s'.threads| == |s.threads|
  {
    set k: nat | i <= k < |s.threads| && s.threads[k].state == Blocked && s.threads[k].waitAddr == addr
                 && s'.threads[k].state == Ready
  }

  /** From s to s' as many waiters on addr were woken as `woken` says, those lowest in the table. */
  ghost predicate Counted(s: Sched, s': Sched, woken: nat, i: nat, addr: nat) {
    && |s'.threads| == |s.threads| && woken == |Roused(s, s', i, addr)|
    && (forall a, b ::
          (i <= a < b && b in Roused(s, s', i, addr) && s.threads[a].state == Blocked && s.threads[a].waitAddr == addr)
          ==> a in Roused(s, s', i, addr))
  }

  /** The count futex_wake() returns is the number of threads it woke, and it woke those lowest in the table. */
  lemma {:induction false} WakeCounts(s: Sched, i: nat, addr: nat, n: nat)
    requires SchedOK(s) && i <= |s.threads|
    ensures Counted(s, WakeFrom(s, i, addr, n).0, WakeFrom(s, i, addr, n).1, i, addr)
    decreases |s.threads| - i
  {
    if i == |s.threads| || n == 0 {
      assert Roused(s, s, i, addr) == {};
    } else if s.threads[i].state == Blocked && s.threads[i].waitAddr == addr {
      var m := Wake(s, i, BySignal);
      WakeKeeps(s, i, BySignal);
      WakeCounts(m, i + 1, addr, n - 1);
      WakesNoneBelow(m, i + 1, addr, n - 1, i);
      RousedHit(s, m, WakeFrom(s, i, addr, n).0, WakeFrom(s, i, addr, n).1, i, addr);
    } else {
      WakeCounts(s, i + 1, addr, n);
      RousedMiss(s, WakeFrom(s, i, addr, n).0, i, addr);
    }
  }

  lemma WakesNoneBelow(s: Sched, i: nat, addr: nat, n: nat, k: nat)
    requires SchedOK(s) && k < i <= |s.threads|
    ensures |WakeFrom(s, i, addr, n).0.threads| == |s.threads| && WakeFrom(s, i, addr, n).0.threads[k] == s.threads[k]
  {
    WakeEffect(s, i, addr, n);
  }

  lemma RousedHit(s: Sched, m: Sched, s': Sched, woken: nat, i: nat, addr: nat)
    requires i < |s.threads| == |s'.threads| && s.threads[i].state == Blocked && s.threads[i].waitAddr == addr
    requires m == Wake(s, i, BySignal) && s'.threads[i] == m.threads[i]
    requires woken > 0 && Counted(m, s', woken - 1, i + 1, addr)
    ensures Counted(s, s', woken, i, addr)
  {
    assert Roused(s, s', i, addr) == {i} + Roused(m, s', i + 1, addr);
    forall a, b | i <= a < b && b in Roused(s, s', i, addr)
                  && s.threads[a].state == Blocked && s.threads[a].waitAddr == addr
      ensures a in Roused(s, s', i, addr)
    {
      if a > i { assert m.threads[a] == s.threads[a]; }
    }
  }

  lemma RousedMiss(s: Sched, s': Sched, i: nat, addr: nat)
    requires i < |s.threads| == |s'.threads| && !(s.threads[i].state == Blocked && s.threads[i].waitAddr == addr)
    ensures Roused(s, s', i, addr) == Roused(s, s', i + 1, addr)
  {
  }

  /** Waking thread i first and others after it. */
  lemma WakesTwice(s: Sched, m: Sched, s': Sched, i: nat, w: Waker)
    requires i < |s.threads| == |m.threads| && WakesOnly(m, s', w) && s'.threads[i] == m.threads[i]
    requires m == Wake(s, i, m.threads[i].reason) && s.threads[i].state == Blocked
    requires Caused(s.threads[i], w, m.threads[i].reason)
    ensures WakesOnly(s, s', w)
  {
    assert s.queue <= m.queue;
  }

  /** dequeue_ready_locked() followed by "next becomes g_current, RUNNING". */
  function SwitchToHead(s: Sched): Sched
    requires s.queue != [] && s.queue[0] < |s.threads|
  {
    var next := s.queue[0];
    s.(threads := s.threads[next := s.threads[next].(state := Running)], queue := s.queue[1..], current := next)
  }

  /** Switching keeps the queue exact once the outgoing thread is no longer RUNNING. */
  lemma SwitchKeeps(s: Sched)
    requires SchedOK(s) && s.queue != [] && s.threads[s.current].state != Running
    ensures SchedOK(SwitchToHead(s))
  {
    var s' := SwitchToHead(s);
    forall k | 0 <= k < ALL_THREADS && s'.threads[k].state == Ready ensures k in s'.queue {
      assert k in s.queue;
      var i :| 0 <= i < |s.queue| && s.queue[i] == k;
      assert s'.queue[i - 1] == k;
    }
  }

  /** reschedule(1) first puts the running thread at the back. */
  function Requeue(s: Sched): Sched
    requires s.current < |s.threads|
  {
    Enqueue(s.(threads := s.threads[s.current := s.threads[s.current].(state := Ready)]), s.current)
  }

  lemma RequeueKeeps(s: Sched)
    requires SchedOK(s) && s.threads[s.current].state == Running
    ensures SchedOK(Requeue(s)) && Requeue(s).queue != []
  {
    var s' := Requeue(s);
    assert s'.queue[|s.queue|] == s.current;
    forall k | 0 <= k < ALL_THREADS && s'.threads[k].state == Ready ensures k in s'.queue {
      if k != s.current { assert k in s.queue; }
    }
  }

  /** __builtin_ctzl: the lowest signal number at or above i. */
  function LowestFrom(s: set<nat>, i: nat): (sig: nat)
    requires i <= 65 && (exists x :: x in s && i <= x <= 64)
    ensures sig in s && i <= sig <= 64
    ensures forall x :: x in s && x >= i ==> sig <= x
    decreases 65 - i
  {
    if i in s then i else LowestFrom(s, i + 1)
  }

  ghost predicate Signals(s: set<nat>) {
    forall x :: x in s ==> 1 <= x <= 64
  }

  const SIGKILL: nat := 9
  const SIGSTOP: nat := 19

  /** default_is_ignore() */
  predicate DefaultIsIgnore(sig: nat) {
    sig in {17, 23, 28, 18, 19, 20, 21, 22}
  }
}
