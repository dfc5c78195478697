/** Safety of the ready queue over whole runs, and round-robin bounded waiting. */
module ThreadFairness {
  import opened ThreadModel
  import opened ThreadSteps
  import opened ThreadInvariant
  import opened ThreadPreserved
  import opened ThreadWaits

  /** Step a of state s takes a thread off the head of the ready queue. */
  predicate Dequeues(s: State, a: Action) {
    && Sized(s) && a == Run && Stk(s).Push?
    && ((Stk(s).top.Rs? && Stk(s).top.rpc == RBody && (Stk(s).top.rq || s.sc.queue != []))
        || (Stk(s).top == Ex(XSwitch) && s.sc.queue != []))
  }

  /** The queue a dequeue looks at: reschedule(1) first appends the caller. */
  function QueueSeen(s: State): seq<nat>
    requires Sized(s)
  {
    if Stk(s).Push? && Stk(s).top == Rs(RBody, true) then s.sc.queue + [s.sc.current] else s.sc.queue
  }

  /** A step takes the head of the queue and makes it g_current, or only appends. */
  predicate QueueStep(q: seq<nat>, q': seq<nat>, cur: nat, cur': nat, seen: seq<nat>, dequeues: bool) {
    if dequeues then q <= seen && seen != [] && cur' == seen[0] && q' == seen[1..]
    else q <= q' && cur' == cur
  }

  lemma QueueSteps(s: State, a: Action)
    requires Inv(s) && Enabled(s, a) && Sized(Step(s, a))
    ensures QueueStep(s.sc.queue, Step(s, a).sc.queue, s.sc.current, Step(s, a).sc.current, QueueSeen(s),
            Dequeues(s, a))
  {
    match a
    case Run =>
      assert Stk(s).top == Rs(RBody, true) ==> !HasParked(Stk(s));
      QueueRun(s);
    case Tick => case Advance(_) => case HandlerReturn =>
    case User(req) => EnterFrame(s, req);
  }

  lemma QueueRun(s: State)
    requires Live(s) && SchedOK(s.sc) && !IsUser(Stk(s).top) && Sized(RunTop(s))
    requires Stk(s).top == Rs(RBody, true) ==> Cur(s).state == Running
    ensures QueueStep(s.sc.queue, RunTop(s).sc.queue, s.sc.current, RunTop(s).sc.current, QueueSeen(s),
            Dequeues(s, Run))
  {
    match Stk(s).top
    case Wt(_, _, _, _, _) => WaitFrame(s);
    case Rs(_, _) => QueueResched(s);
    case Sc(_) => if Stk(s).top.sec == Body { ScanEffect(s.sc, 0, s.clock); }
    case Wk(_, _, _, _) => if Stk(s).top.sec == Body { WakeEffect(s.sc, 0, Stk(s).top.addr, Stk(s).top.n); }
    case Ex(_) => QueueExit(s);
    case Dl(_, _, _) => DeliverFrame(s);
    case Tramp => case Tk(_, _) => case Cs(_, _) => case Cl(_, _, _) => case App =>
  }

  lemma QueueResched(s: State)
    requires Live(s) && SchedOK(s.sc) && Stk(s).top.Rs? && Sized(RunResched(s))
    requires Stk(s).top == Rs(RBody, true) ==> Cur(s).state == Running
    ensures QueueStep(s.sc.queue, RunResched(s).sc.queue, s.sc.current, RunResched(s).sc.current, QueueSeen(s),
            Dequeues(s, Run))
  {
    match Stk(s).top.rpc
    case RTop => case RSelf => case RResume => case RNone => case RIdle => case RSleep =>
    case RBody =>
      if Stk(s).top.rq { RequeueKeeps(s.sc); }
  }

  lemma QueueExit(s: State)
    requires Live(s) && SchedOK(s.sc) && Stk(s).top.Ex? && Sized(RunExit(s))
    ensures QueueStep(s.sc.queue, RunExit(s).sc.queue, s.sc.current, RunExit(s).sc.current, QueueSeen(s),
            Dequeues(s, Run))
  {
    match Stk(s).top.xpc
    case XLock => case XPark => case XUnlock => case XCtid => case XWake =>
    case XLock2 => case XSwitch => case XNone => case XIdle => case XSleep =>
  }

  /** How many threads were taken off the queue between steps i and j. */
  function Dequeued(ss: seq<State>, acts: seq<Action>, i: nat, j: nat): nat
    requires |ss| == |acts| + 1 && i <= j <= |acts|
  {
    if i == j then 0 else Dequeued(ss, acts, i, j - 1) + if Dequeues(ss[j - 1], acts[j - 1]) then 1 else 0
  }

  /** A thread at place p moves up by one with each dequeue, and is current after its own. */
  lemma Fifo(q: seq<nat>, q': seq<nat>, cur: nat, cur': nat, seen: seq<nat>, dequeues: bool, p: nat, t: nat)
    requires QueueStep(q, q', cur, cur', seen, dequeues) && p < |q| && q[p] == t
    ensures !dequeues ==> p < |q'| && q'[p] == t
    ensures dequeues && p > 0 ==> p - 1 < |q'| && q'[p - 1] == t
    ensures dequeues && p == 0 ==> cur' == t
  {
    if dequeues {
      assert seen[p] == q[p];
    }
  }

  /** Where the thread that was at place k at step i is at step j. */
  ghost predicate MovedUp(ss: seq<State>, acts: seq<Action>, i: nat, j: nat, k: nat)
    requires |ss| == |acts| + 1 && i <= j <= |acts| && k < |ss[i].sc.queue|
  {
    var d := Dequeued(ss, acts, i, j);
    && (d <= k ==> k - d < |ss[j].sc.queue| && ss[j].sc.queue[k - d] == ss[i].sc.queue[k])
    && (d == k + 1 && i < j && Dequeues(ss[j - 1], acts[j - 1]) ==> ss[j].sc.current == ss[i].sc.queue[k])
  }

  /** What one step does to the thread at place p. */
  ghost predicate StepMoves(s: State, s': State, dequeues: bool, p: nat)
    requires p < |s.sc.queue|
  {
    var t, q' := s.sc.queue[p], s'.sc.queue;
    if !dequeues then p < |q'| && q'[p] == t
    else if p > 0 then p - 1 < |q'| && q'[p - 1] == t
    else s'.sc.current == t
  }

  lemma MovesOn(ss: seq<State>, acts: seq<Action>, i: nat, m: nat, k: nat)
    requires |ss| == |acts| + 1 && i <= m < |acts| && k < |ss[i].sc.queue| && MovedUp(ss, acts, i, m, k)
    requires var d := Dequeued(ss, acts, i, m);
             d <= k ==> StepMoves(ss[m], ss[m + 1], Dequeues(ss[m], acts[m]), k - d)
    ensures MovedUp(ss, acts, i, m + 1, k)
  {
  }

  /** Whatever yields, wakes, clones, exits and ticks come in between, the thread at place k of
      the ready queue has moved up by exactly the number of dequeues, and the (k+1)st dequeue
      makes it g_current. */
  lemma {:induction false} BoundedWaiting(ss: seq<State>, acts: seq<Action>, i: nat, j: nat, k: nat)
    requires IsRun(ss, acts) && i <= j <= |acts| && k < |ss[i].sc.queue|
    ensures MovedUp(ss, acts, i, j, k)
    decreases j
  {
    if i < j {
      var m := j - 1;
      BoundedWaiting(ss, acts, i, m, k);
      if Dequeued(ss, acts, i, m) <= k {
        QueueRunStep(ss, acts, m, k - Dequeued(ss, acts, i, m));
      }
      MovesOn(ss, acts, i, m, k);
    }
  }

  /** One step of a run, for the thread at place p. */
  lemma QueueRunStep(ss: seq<State>, acts: seq<Action>, m: nat, p: nat)
    requires IsRun(ss, acts) && m < |acts| && p < |ss[m].sc.queue|
    ensures StepMoves(ss[m], ss[m + 1], Dequeues(ss[m], acts[m]), p)
  {
    RunStep(ss, acts, m);
    var s, s' := ss[m], ss[m + 1];
    QueueSteps(s, acts[m]);
    Fifo(s.sc.queue, s'.sc.queue, s.sc.current, s'.sc.current, QueueSeen(s), Dequeues(s, acts[m]), p, s.sc.queue[p]);
  }

  /** In every state of every run the ready list holds exactly the READY threads, once each;
      at most one thread is RUNNING, and that is g_current; whoever is back in its own code,
      or in a handler, has IRQs on; and g_current only changes with IRQs off. */
  lemma SchedulerSafe(ss: seq<State>, acts: seq<Action>, n: nat)
    requires IsRun(ss, acts) && n < |ss|
    ensures SchedOK(ss[n].sc) && Sized(ss[n]) && Stk(ss[n]).Push?
    ensures IsUser(Stk(ss[n]).top) ==> ss[n].irqOn
    ensures Stk(ss[n]).top == App ==> Cur(ss[n]).state == Running
    ensures n < |acts| && ss[n + 1].sc.current != ss[n].sc.current ==> !ss[n].irqOn && !ss[n + 1].irqOn
  {
    RunInv(ss, acts, n);
    if Stk(ss[n]).top == App {
      AppIsBottom(Stk(ss[n]));
      assert !HasParked(Stk(ss[n]));
    }
    if n < |acts| && ss[n + 1].sc.current != ss[n].sc.current {
      RunStep(ss, acts, n);
      SwitchMasked(ss[n], acts[n]);
    }
  }

  lemma SwitchMasked(s: State, a: Action)
    requires Inv(s) && Enabled(s, a) && Sized(Step(s, a)) && Step(s, a).sc.current != s.sc.current
    ensures !s.irqOn && !Step(s, a).irqOn
  {
    QueueSteps(s, a);
    SwitchStaysMasked(s);
  }

  lemma SwitchStaysMasked(s: State)
    requires Live(s) && ((Stk(s).top.Rs? && Stk(s).top.rpc == RBody) || Stk(s).top == Ex(XSwitch))
    ensures RunTop(s).irqOn == s.irqOn
  {
    if Stk(s).top.Rs? {
      assert RunTop(s) == RunResched(s);
    } else {
      assert RunTop(s) == RunExit(s);
    }
  }
}
