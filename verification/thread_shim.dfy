/** The scheduler's data structures as the source keeps them (port/thread_shim.c): thread
    records linked through `next` into a ready queue, changed in place.  Each method is one
    IRQ-off section, or a scan of the table, and is proved to do what the step system says. */
module ThreadShim {
  import opened ThreadModel
  import opened ThreadSteps

  /** struct bmos_thread, without saved registers. */
  class BmosThread {
    var tid: int
    var state: TState
    var ctid: nat
    var waitAddr: nat
    var waitDeadline: nat
    var wakeReason: Reason
    var next: BmosThread?
    var sigPending: set<nat>
    var sigBlocked: set<nat>

    function Record(): Thread
      reads this
    {
      Thread(tid, state, ctid, waitAddr, waitDeadline, wakeReason, sigPending, sigBlocked)
    }
  }

  lemma NotQueued(sc: Sched, k: nat)
    requires SchedOK(sc) && k < ALL_THREADS && sc.threads[k].state != Ready
    ensures k !in sc.queue
  {
  }

  /** The loop of futex_wake(), having woken `woken` of n threads below i, still comes to WakeFrom. */
  ghost predicate WakeReaches(start: Sched, addr: nat, n: nat, sc: Sched, i: nat, woken: nat)
    requires |start.threads| == |sc.threads| == ALL_THREADS
  {
    && i <= ALL_THREADS && woken <= n
    && WakeFrom(start, 0, addr, n) ==
       (WakeFrom(sc, i, addr, n - woken).0, woken + WakeFrom(sc, i, addr, n - woken).1)
  }

  lemma WakeReachesStep(start: Sched, addr: nat, n: nat, sc: Sched, i: nat, woken: nat, hit: bool)
    requires |start.threads| == |sc.threads| == ALL_THREADS
    requires WakeReaches(start, addr, n, sc, i, woken) && i < ALL_THREADS && woken < n
    requires hit == (sc.threads[i].state == Blocked && sc.threads[i].waitAddr == addr)
    ensures WakeReaches(start, addr, n, if hit then Wake(sc, i, BySignal) else sc, i + 1,
                        if hit then woken + 1 else woken)
  {
    if hit {
      assert n - woken - 1 == n - (woken + 1);
    }
  }

  lemma WakeReachesEnd(start: Sched, addr: nat, n: nat, sc: Sched, i: nat, woken: nat)
    requires |start.threads| == |sc.threads| == ALL_THREADS
    requires WakeReaches(start, addr, n, sc, i, woken) && (i == ALL_THREADS || woken == n)
    ensures (sc, woken) == WakeFrom(start, 0, addr, n)
  {
  }

  datatype Outcome = Resumed | Switched | Idle

  /** The interrupt flag that irq_disable() and irq_enable() change. */
  class Cpu {
    var irqOn: bool
  }

  class Scheduler {
    const all: seq<BmosThread>          // g_main_thread, then g_threads[]
    ghost const repr: set<BmosThread>   // the same, as a set
    var active: bool                    // thread_shim_init() has run
    var current: BmosThread
    var readyHead: BmosThread?
    var readyTail: BmosThread?
    const cpu: Cpu
    ghost var queue: seq<nat>           // the ready list, as indices into `all`
    ghost var cur: nat

    ghost predicate Valid()
      reads this`current, this`readyHead, this`readyTail, this`queue, this`cur, repr
    {
      && |all| == ALL_THREADS && Listed()
      && (forall i, j :: 0 <= i < j < |all| ==> all[i] != all[j])
      && cur < |all| && current == all[cur]
      && Linked(queue, readyHead, readyTail)
    }

    ghost predicate Listed() {
      forall i :: 0 <= i < |all| ==> all[i] in repr
    }

    /** The `next` links from head to tail spell out q. */
    ghost predicate Linked(q: seq<nat>, head: BmosThread?, tail: BmosThread?)
      requires Listed()
      reads repr
    {
      && (forall i :: 0 <= i < |q| ==> q[i] < |all|)
      && (forall i, j :: 0 <= i < j < |q| ==> q[i] != q[j])
      && (q == [] ==> head == null && tail == null)
      && (q != [] ==> head == all[q[0]] && tail == all[q[|q| - 1]] && all[q[|q| - 1]].next == null)
      && (forall i, j :: 0 <= i < j < |q| && j == i + 1 ==> all[q[i]].next == all[q[j]])
    }

    ghost function Threads(): (r: seq<Thread>)
      requires Listed()
      reads repr
      ensures |r| == |all| && forall i :: 0 <= i < |all| ==> r[i] == all[i].Record()
    {
      seq(|all|, i requires 0 <= i < |all| && all[i] in repr reads repr => all[i].Record())
    }

    ghost function Abs(): Sched
      requires Listed()
      reads this`queue, this`cur, repr
    {
      Sched(Threads(), queue, cur)
    }

    /** Before thread_shim_init(): no record is in use and the scheduler is not active. */
    constructor (table: seq<BmosThread>, cpu: Cpu)
      requires |table| == ALL_THREADS && forall i, j :: 0 <= i < j < |table| ==> table[i] != table[j]
      ensures Valid() && !active && all == table && this.cpu == cpu && queue == [] && cur == 0
    {
      all := table;
      repr := set t | t in table;
      current := table[0];
      readyHead, readyTail := null, null;
      this.cpu := cpu;
      active := false;
      queue, cur := [], 0;
    }

    /** The first call makes the only context there is thread 1; later ones do nothing. */
    method ThreadShimInit()
      requires Valid() && (!active ==> cur == 0)
      modifies this`active, repr
      ensures Valid() && active
      ensures Abs() == if old(active) then old(Abs())
                       else old(Abs()).(threads := old(Threads())[0 := old(Threads())[0].(tid := 1, state := Running)])
    {
      if active {
        return;
      }
      current.tid := 1;
      current.state := Running;
      active := true;
      assert Threads() == old(Threads())[0 := old(Threads())[0].(tid := 1, state := Running)];
    }

    method IrqDisable()
      requires Valid()
      modifies cpu
      ensures !cpu.irqOn && Valid() && Abs() == old(Abs()) && Threads() == old(Threads())
    {
      cpu.irqOn := false;
    }

    method IrqEnable()
      requires Valid()
      modifies cpu
      ensures cpu.irqOn && Valid() && Abs() == old(Abs()) && Threads() == old(Threads())
    {
      cpu.irqOn := true;
    }

    /** t->state = st */
    method SetState(t: BmosThread, ghost k: nat, st: TState)
      requires Valid() && k < |all| && t == all[k]
      modifies t`state
      ensures Valid() && Abs() == old(Abs()).(threads := old(Threads())[k := old(Threads())[k].(state := st)])
    {
      t.state := st;
      assert Threads() == old(Threads())[k := old(Threads())[k].(state := st)];
    }

    method EnqueueReadyLocked(t: BmosThread, ghost k: nat)
      requires Valid() && k < |all| && t == all[k] && k !in queue
      modifies this`readyHead, this`readyTail, this`queue, repr
      ensures Valid() && Abs() == Enqueue(old(Abs()), k)
    {
      t.next := null;
      if readyTail != null {
        readyTail.next := t;
      } else {
        readyHead := t;
      }
      readyTail := t;
      queue := queue + [k];
      assert Threads() == old(Threads());
    }

    method DequeueReadyLocked() returns (t: BmosThread?)
      requires Valid()
      modifies this`readyHead, this`readyTail, this`queue
      ensures Valid()
      ensures old(queue) == [] ==> t == null && Abs() == old(Abs())
      ensures old(queue) != [] ==> t == all[old(queue)[0]] && Abs() == old(Abs()).(queue := old(queue)[1..])
    {
      t := readyHead;
      if t != null {
        readyHead := t.next;
        queue := queue[1..];
        if readyHead == null {
          readyTail := null;
        }
      }
      assert Threads() == old(Threads());
    }

    /** g_current = t */
    method SetCurrent(t: BmosThread, ghost k: nat)
      requires Valid() && k < |all| && t == all[k]
      modifies this`current, this`cur
      ensures Valid() && Abs() == old(Abs()).(current := k)
    {
      current, cur := t, k;
      assert Threads() == old(Threads());
    }

    method WakeThreadLocked(t: BmosThread, ghost k: nat, reason: Reason)
      requires Valid() && k < |all| && t == all[k] && k !in queue
      modifies this`readyHead, this`readyTail, this`queue, repr
      ensures Valid() && Abs() == Wake(old(Abs()), k, reason)
    {
      t.waitAddr := 0;
      t.wakeReason := reason;
      t.state := Ready;
      assert Threads() == old(Threads())[k := old(Threads())[k].(waitAddr := 0, reason := reason, state := Ready)];
      EnqueueReadyLocked(t, k);
    }

    /** One thread of scan_timeouts(); the clock is read when the first deadline is met. */
    method ScanThread(i: nat, seen: bool, clock: nat, timecounter: nat) returns (haveNow: bool, now: nat)
      requires Valid() && SchedOK(Abs()) && i < ALL_THREADS && (seen ==> clock == timecounter)
      modifies this`readyHead, this`readyTail, this`queue, repr
      ensures Valid() && (haveNow ==> now == timecounter)
      ensures Abs() == ScanOne(old(Abs()), i, timecounter)
    {
      haveNow, now := seen, clock;
      var t := all[i];
      if t.state != Blocked {
        return;
      }
      NotQueued(Abs(), i);
      if t.sigPending - t.sigBlocked != {} {
        WakeThreadLocked(t, i, ByIntr);
        return;
      }
      if t.waitDeadline != 0 {
        if !haveNow {
          now, haveNow := timecounter, true;
        }
        if now >= t.waitDeadline {
          WakeThreadLocked(t, i, ByTimeout);
        }
      }
    }

    /** scan_timeouts() */
    method ScanTimeouts(timecounter: nat)
      requires Valid() && SchedOK(Abs()) && cpu.irqOn
      modifies this`readyHead, this`readyTail, this`queue, cpu, repr
      ensures Valid() && cpu.irqOn
      ensures Abs() == ScanFrom(old(Abs()), 0, timecounter) && SchedOK(Abs())
    {
      IrqDisable();
      ScanTable(timecounter);
      IrqEnable();
    }

    /** Its loop over the table, the clock being read at most once. */
    method ScanTable(timecounter: nat)
      requires Valid() && SchedOK(Abs())
      modifies this`readyHead, this`readyTail, this`queue, repr
      ensures Valid() && Abs() == ScanFrom(old(Abs()), 0, timecounter) && SchedOK(Abs())
    {
      ghost var end := ScanFrom(Abs(), 0, timecounter);
      var now, haveNow, i := 0, false, 0;
      while i < ALL_THREADS
        invariant 0 <= i <= ALL_THREADS && Valid() && SchedOK(Abs()) && (haveNow ==> now == timecounter)
        invariant ScanFrom(Abs(), i, timecounter) == end
      {
        haveNow, now := ScanTurn(i, haveNow, now, timecounter);
        i := i + 1;
      }
    }

    /** One iteration of that loop. */
    method ScanTurn(i: nat, seen: bool, clock: nat, timecounter: nat) returns (haveNow: bool, now: nat)
      requires Valid() && SchedOK(Abs()) && i < ALL_THREADS && (seen ==> clock == timecounter)
      modifies this`readyHead, this`readyTail, this`queue, repr
      ensures Valid() && SchedOK(Abs()) && (haveNow ==> now == timecounter)
      ensures ScanFrom(Abs(), i + 1, timecounter) == ScanFrom(old(Abs()), i, timecounter)
    {
      ScanOneEffect(Abs(), i, timecounter);
      haveNow, now := ScanThread(i, seen, clock, timecounter);
    }

    /** One thread of futex_wake(). */
    method FutexWakeThread(i: nat, addr: nat) returns (hit: bool)
      requires Valid() && SchedOK(Abs()) && i < ALL_THREADS
      modifies this`readyHead, this`readyTail, this`queue, repr
      ensures Valid() && SchedOK(Abs())
      ensures hit == (old(Abs()).threads[i].state == Blocked && old(Abs()).threads[i].waitAddr == addr)
      ensures Abs() == if hit then Wake(old(Abs()), i, BySignal) else old(Abs())
    {
      var t := all[i];
      hit := t.state == Blocked && t.waitAddr == addr;
      if hit {
        NotQueued(Abs(), i);
        WakeKeeps(Abs(), i, BySignal);
        WakeThreadLocked(t, i, BySignal);
      }
    }

    /** The scan of futex_wake(). */
    method FutexWakeScan(addr: nat, n: nat) returns (woken: nat)
      requires Valid() && SchedOK(Abs())
      modifies this`readyHead, this`readyTail, this`queue, repr
      ensures Valid() && SchedOK(Abs())
      ensures (Abs(), woken) == WakeFrom(old(Abs()), 0, addr, n)
    {
      ghost var start := Abs();
      woken := 0;
      var i := 0;
      while i < ALL_THREADS && woken < n
        invariant 0 <= i <= ALL_THREADS && woken <= n && Valid() && SchedOK(Abs())
        invariant WakeReaches(start, addr, n, Abs(), i, woken)
      {
        ghost var before := Abs();
        var hit := FutexWakeThread(i, addr);
        WakeReachesStep(start, addr, n, before, i, woken, hit);
        i, woken := i + 1, if hit then woken + 1 else woken;
      }
      WakeReachesEnd(start, addr, n, Abs(), i, woken);
    }

    /** futex_wake() */
    method FutexWake(addr: nat, n: int) returns (woken: nat)
      requires Valid() && SchedOK(Abs()) && cpu.irqOn
      modifies this`readyHead, this`readyTail, this`queue, cpu, repr
      ensures Valid() && cpu.irqOn && SchedOK(Abs())
      ensures !active || n <= 0 ==> woken == 0 && Abs() == old(Abs())
      ensures active && n > 0 ==> (Abs(), woken) == WakeFrom(old(Abs()), 0, addr, n)
    {
      if !active || n <= 0 {
        return 0;
      }
      IrqDisable();
      woken := FutexWakeScan(addr, n);
      IrqEnable();
    }

    /** reschedule(1): the running thread goes back on the ready queue first. */
    method RequeueSelf()
      requires Valid() && SchedOK(Abs()) && current.state == Running
      modifies this`readyHead, this`readyTail, this`queue, repr
      ensures Valid() && Abs() == Requeue(old(Abs()))
    {
      NotQueued(Abs(), cur);
      SetState(current, cur, Ready);
      EnqueueReadyLocked(current, cur);
    }

    /** Takes the head of the ready queue and makes it g_current, RUNNING; null when there is none. */
    method TakeHead() returns (next: BmosThread?)
      requires Valid() && SchedOK(Abs())
      modifies this, repr
      ensures Valid()
      ensures old(queue) == [] ==> next == null && Abs() == old(Abs())
      ensures old(queue) != [] ==> next == all[old(queue)[0]] && Abs() == SwitchToHead(old(Abs()))
    {
      ghost var k := if queue == [] then 0 else queue[0];
      next := DequeueReadyLocked();
      if next != null {
        SetState(next, k, Running);
        SetCurrent(next, k);
      }
    }

    /** One round of reschedule(): up to the context switch, or to idling. */
    method Reschedule(requeue: bool) returns (outcome: Outcome)
      requires Valid() && SchedOK(Abs()) && cpu.irqOn
      requires current.state == Running <==> requeue
      modifies this, cpu, repr
      ensures Valid() && SchedOK(Abs())
      // the switch happens with IRQs off; every other way out has them on
      ensures cpu.irqOn <==> outcome != Switched
      ensures var sc := if requeue then Requeue(old(Abs())) else old(Abs());
              if sc.queue == [] then outcome == Idle && Abs() == sc
              else Abs() == SwitchToHead(sc) && (outcome == Resumed <==> sc.queue[0] == old(cur))
    {
      IrqDisable();
      if requeue {
        RequeueKeeps(Abs());
        RequeueSelf();
      }
      outcome := PickNext();
    }

    /** The rest of the round: the head of the queue goes on. */
    method PickNext() returns (outcome: Outcome)
      requires Valid() && SchedOK(Abs()) && !cpu.irqOn && current.state != Running
      modifies this, cpu, repr
      ensures Valid() && SchedOK(Abs()) && (cpu.irqOn <==> outcome != Switched)
      ensures var sc := old(Abs());
              if sc.queue == [] then outcome == Idle && Abs() == sc
              else Abs() == SwitchToHead(sc) && (outcome == Resumed <==> sc.queue[0] == old(cur)) && outcome != Idle
    {
      var self := current;
      if queue != [] {
        SwitchKeeps(Abs());
      }
      var next := TakeHead();
      if next == null {
        IrqEnable();
        return Idle;
      }
      if next == self {
        IrqEnable();
        return Resumed;
      }
      outcome := Switched;
    }

    /** futex_wait() / thread_shim_sleep_until(): the re-check and the park, with IRQs off. */
    method Park(what: Park, word: int, deadline: nat) returns (parked: bool)
      requires Valid() && cpu.irqOn
      modifies cpu, current
      ensures Valid() && cpu.irqOn
      ensures parked <==> (what.OnFutex? ==> word == what.val)
      ensures Abs() == if !parked then old(Abs())
                       else old(Abs()).(threads := old(Abs()).threads[cur := old(Abs()).threads[cur].(
                         state := Blocked, waitAddr := AddrOf(what), deadline := deadline, reason := NoReason)])
    {
      IrqDisable();
      parked := !(what.OnFutex? && word != what.val);
      if parked {
        SetWait(if what.OnFutex? then what.addr else 0, deadline);
      }
      IrqEnable();
    }

    /** The four assignments of the park. */
    method SetWait(addr: nat, deadline: nat)
      requires Valid()
      modifies current
      ensures Valid()
      ensures Abs() == old(Abs()).(threads := old(Abs()).threads[cur := old(Abs()).threads[cur].(
                         state := Blocked, waitAddr := addr, deadline := deadline, reason := NoReason)])
    {
      current.state := Blocked;
      current.waitAddr := addr;
      current.waitDeadline := deadline;
      current.wakeReason := NoReason;
      assert Threads() == old(Threads())[cur := old(Threads())[cur].(
          state := Blocked, waitAddr := addr, deadline := deadline, reason := NoReason)];
    }

    /** alloc_thread_slot() */
    method AllocThreadSlot() returns (t: BmosThread?, ghost slot: nat)
      requires Valid()
      ensures slot == AllocFrom(Threads(), 1)
      ensures t == null <==> slot == ALL_THREADS
      ensures t != null ==> t == all[slot]
    {
      var i := 1;
      while i < ALL_THREADS
        invariant 1 <= i <= ALL_THREADS && AllocFrom(Threads(), i) == AllocFrom(Threads(), 1)
      {
        if all[i].state == Free {
          return all[i], i;
        }
        i := i + 1;
      }
      t, slot := null, ALL_THREADS;
    }

    /** find_thread_by_tid(): before the scheduler is active, the main thread goes by 1. */
    method FindThreadByTid(tid: int) returns (t: BmosThread?, ghost k: nat)
      requires Valid()
      ensures k == if active then FindTidFrom(Threads(), tid, 0) else if tid == 1 then 0 else ALL_THREADS
      ensures t == null <==> k == ALL_THREADS
      ensures t != null ==> t == all[k]
    {
      if !active {
        if tid == 1 {
          return all[0], 0;
        }
        return null, ALL_THREADS;
      }
      var i := 0;
      while i < ALL_THREADS
        invariant 0 <= i <= ALL_THREADS && FindTidFrom(Threads(), tid, i) == FindTidFrom(Threads(), tid, 0)
      {
        if all[i].state != Free && all[i].tid == tid {
          return all[i], i;
        }
        i := i + 1;
      }
      t, k := null, ALL_THREADS;
    }

    /** The last section of thread_shim_clone(): the filled slot becomes ready. */
    method Publish(t: BmosThread, ghost slot: nat)
      requires Valid() && SchedOK(Abs()) && cpu.irqOn && slot < |all| && t == all[slot] && t.state == Free
      modifies this`readyHead, this`readyTail, this`queue, cpu, repr
      ensures Valid() && cpu.irqOn
      ensures var sc := old(Abs());
              Abs() == Enqueue(sc.(threads := sc.threads[slot := sc.threads[slot].(state := Ready)]), slot)
    {
      IrqDisable();
      NotQueued(Abs(), slot);
      SetState(t, slot, Ready);
      EnqueueReadyLocked(t, slot);
      IrqEnable();
    }

    /** The last section of thread_shim_exit_current(): hand the CPU on, then free the slot. */
    method ExitSwitch() returns (outcome: Outcome)
      requires Valid() && SchedOK(Abs()) && cpu.irqOn && current.state == Blocked
      modifies this, cpu, repr
      ensures Valid() && (cpu.irqOn <==> outcome != Switched)
      ensures var sc := old(Abs());
              if sc.queue == [] then outcome == Idle && Abs() == sc
              else outcome == Switched
                   && Abs() == SwitchToHead(sc).(
                        threads := SwitchToHead(sc).threads[sc.current := sc.threads[sc.current].(state := Free)])
    {
      var self := current;
      ghost var me := cur;
      IrqDisable();
      var next := TakeHead();
      if next == null {
        IrqEnable();
        return Idle;
      }
      SetState(self, me, Free);
      outcome := Switched;
    }
  }
}
