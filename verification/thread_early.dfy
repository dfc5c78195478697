/** A futex wait that times out at once (port/thread_shim.c:847-870): the program asks for a time so long
    that the deadline wraps around, and gets ETIMEDOUT before any time has passed. */
module ThreadEarly {
  import opened Options
  import opened ThreadModel
  import opened ThreadSteps
  import opened ThreadInvariant
  import opened ThreadWaits
  import opened ThreadDelivery

  /** Only the main thread is there, with this stack and record, at this time. */
  ghost predicate Lone(s: State, st: Stack, th: Thread, queue: seq<nat>, on: bool, now: nat, w: Park) {
    && Sized(s) && !s.halted && s.sc.current == 0 && s.sc.queue == queue && s.stacks[0] == st && s.irqOn == on
    && s.sc.threads[0] == th && !th.Deliverable() && s.clock == now
    && (forall k :: 1 <= k < ALL_THREADS ==> s.sc.threads[k].state == Free)
    && w.OnFutex? && Load(s.mem, w.addr) == w.val
  }

  /** The wait, at a point in futex_wait(). */
  function At(pc: WaitPc, w: Park, t: nat, dl: nat): Frame {
    Wt(pc, w, Some(t), dl, NoReason)
  }

  function Parked(th: Thread, w: Park, dl: nat): Thread {
    th.(state := Blocked, waitAddr := AddrOf(w), deadline := dl, reason := NoReason)
  }

  function TimedOut(th: Thread): Thread {
    th.(waitAddr := 0, reason := ByTimeout, state := Ready)
  }

  /** From the entry to the setting of the deadline. */
  lemma Enters(s: State, rest: Stack, th: Thread, now: nat, w: Park, t: nat) returns (path: seq<State>, s': State)
    requires Lone(s, Push(At(WCheck, w, t, 0), rest), th, [], true, now, w) && rest.Push?
    ensures Ends(path, s, s') && Lone(s', Push(At(WLock, w, t, (now + t) % U64), rest), th, [], true, now, w)
  {
    var s1 := RunTop(s);
    assert Lone(s1, Push(At(WSig, w, t, 0), rest), th, [], true, now, w);
    var s2 := RunTop(s1);
    assert Lone(s2, Push(At(WClock, w, t, 0), rest), th, [], true, now, w);
    s' := RunTop(s2);
    path := [s, s1, s2, s'];
  }

  /** From there to the call of reschedule(). */
  lemma Parks(s: State, rest: Stack, th: Thread, now: nat, w: Park, t: nat, dl: nat)
      returns (path: seq<State>, s': State)
    requires Lone(s, Push(At(WLock, w, t, dl), rest), th, [], true, now, w) && rest.Push?
    ensures Ends(path, s, s')
    ensures Lone(s', Push(Rs(RTop, false), Push(At(WWait, w, t, dl), rest)), Parked(th, w, dl), [], true, now, w)
  {
    var s1 := RunTop(s);
    assert Lone(s1, Push(At(WPark, w, t, dl), rest), th, [], false, now, w);
    var s2 := RunTop(s1);
    assert Lone(s2, Push(At(WUnlock, w, t, dl), rest), Parked(th, w, dl), [], false, now, w);
    var s3 := RunTop(s2);
    assert Lone(s3, Push(At(WCall, w, t, dl), rest), Parked(th, w, dl), [], true, now, w);
    s' := RunTop(s3);
    path := [s, s1, s2, s3, s'];
  }

  /** Nobody is ready, so reschedule() idles and scans. */
  lemma Idles(s: State, rest: Stack, th: Thread, now: nat, w: Park) returns (path: seq<State>, s': State)
    requires Lone(s, Push(Rs(RTop, false), rest), th, [], true, now, w) && rest.Push?
    ensures Ends(path, s, s') && Lone(s', Push(Sc(Lock), Push(Rs(RSleep, false), rest)), th, [], true, now, w)
  {
    var s1 := RunTop(s);
    assert Lone(s1, Push(Rs(RBody, false), rest), th, [], false, now, w);
    var s2 := RunTop(s1);
    assert Lone(s2, Push(Rs(RNone, false), rest), th, [], false, now, w);
    var s3 := RunTop(s2);
    assert Lone(s3, Push(Rs(RIdle, false), rest), th, [], true, now, w);
    s' := RunTop(s3);
    path := [s, s1, s2, s3, s'];
  }

  lemma ScanFirst(sc: Sched, now: nat)
    requires |sc.threads| == ALL_THREADS && forall k :: 1 <= k < ALL_THREADS ==> sc.threads[k].state == Free
    requires var th := sc.threads[0];
             th.state == Blocked && !th.Deliverable() && th.deadline != 0 && now >= th.deadline
    ensures ScanFrom(sc, 0, now) == Wake(sc, 0, ByTimeout)
  {
    ScanIdle(Wake(sc, 0, ByTimeout), 1, now);
  }

  /** The scan finds the deadline passed. */
  lemma Scans(s: State, f: Frame, rest: Stack, th: Thread, now: nat, w: Park) returns (path: seq<State>, s': State)
    requires Lone(s, Push(Sc(Lock), Push(f, rest)), th, [], true, now, w)
    requires th.state == Blocked && 0 < th.deadline <= now
    ensures Ends(path, s, s') && Lone(s', Push(f, rest), TimedOut(th), [0], true, now, w)
  {
    var s1 := RunTop(s);
    assert Lone(s1, Push(Sc(Body), Push(f, rest)), th, [], false, now, w);
    ScanFirst(s1.sc, s1.clock);
    var s2 := RunTop(s1);
    assert Lone(s2, Push(Sc(Unlock), Push(f, rest)), TimedOut(th), [0], false, now, w);
    s' := RunTop(s2);
    path := [s, s1, s2, s'];
  }

  /** It is first in the queue itself, and reschedule() returns. */
  lemma GoesOn(s: State, rest: Stack, th: Thread, now: nat, w: Park) returns (path: seq<State>, s': State)
    requires Lone(s, Push(Rs(RSleep, false), rest), th, [0], true, now, w) && rest.Push?
    ensures Ends(path, s, s') && Lone(s', rest, th.(state := Running), [], true, now, w)
  {
    var s1 := RunTop(s);
    assert Lone(s1, Push(Rs(RTop, false), rest), th, [0], true, now, w);
    var s2 := RunTop(s1);
    assert Lone(s2, Push(Rs(RBody, false), rest), th, [0], false, now, w);
    var s3 := RunTop(s2);
    assert [0][1..] == [];
    assert Lone(s3, Push(Rs(RSelf, false), rest), th.(state := Running), [], false, now, w);
    s' := RunTop(s3);
    path := [s, s1, s2, s3, s'];
  }

  /** The reason is read. */
  lemma Reads(s: State, rest: Stack, th: Thread, now: nat, w: Park, t: nat, dl: nat)
      returns (path: seq<State>, s': State)
    requires Lone(s, Push(At(WWait, w, t, dl), rest), th, [], true, now, w) && rest.Push?
    ensures Ends(path, s, s')
    ensures Lone(s', Push(Wt(WClear, w, Some(t), dl, th.reason), rest), th, [], true, now, w)
  {
    s' := RunTop(s);
    path := [s, s'];
  }

  /** The call, up to the park and the call of reschedule(). */
  lemma GoPark(s: State, now: nat, w: Park, t: nat, dl: nat) returns (ss: seq<State>, acts: seq<Action>)
    requires Init(s) && Lone(s, Push(App, Empty), s.sc.threads[0], [], true, now, w) && w.addr != 0
    requires dl == (now + t) % U64
    ensures Quietly(ss, acts, 0) && ss[0] == s && acts != [] && acts[0] == User(FutexWait(w.addr, w.val, Some(t)))
    ensures Lone(ss[|acts|], Push(Rs(RTop, false), Push(At(WWait, w, t, dl), Push(App, Empty))),
                 Parked(s.sc.threads[0], w, dl), [], true, now, w)
  {
    var app, th := Push(App, Empty), s.sc.threads[0];
    var call := User(FutexWait(w.addr, w.val, Some(t)));
    var ss0, acts0 := GoOne([s], [], 0, call);
    assert Lone(ss0[1], Push(At(WCheck, w, t, 0), app), th, [], true, now, w);
    var p, s1 := Enters(ss0[1], app, th, now, w, t);
    var ss1, acts1 := GoOn(ss0, acts0, 0, p, s1);
    var q, s2 := Parks(s1, app, th, now, w, t, dl);
    ss, acts := GoOn(ss1, acts1, 0, q, s2);
    ExtendsTwice(ss0, acts0, ss1, acts1, ss, acts);
  }

  /** The one scan, and the way out of reschedule(). */
  lemma GoWake(ss: seq<State>, acts: seq<Action>, rest: Stack, th: Thread, now: nat, w: Park)
      returns (ss': seq<State>, acts': seq<Action>)
    requires Quietly(ss, acts, 0) && rest.Push? && th.state == Blocked && 0 < th.deadline <= now
    requires Lone(ss[|acts|], Push(Rs(RTop, false), rest), th, [], true, now, w)
    ensures Quietly(ss', acts', 0) && Extends(ss, acts, ss', acts')
    ensures Lone(ss'[|acts'|], rest, TimedOut(th).(state := Running), [], true, now, w)
  {
    var p, s1 := Idles(ss[|acts|], rest, th, now, w);
    var ss1, acts1 := GoOn(ss, acts, 0, p, s1);
    var q, s2 := Scans(s1, Rs(RSleep, false), rest, th, now, w);
    var ss2, acts2 := GoOn(ss1, acts1, 0, q, s2);
    var r, s3 := GoesOn(s2, rest, TimedOut(th), now, w);
    ss', acts' := GoOn(ss2, acts2, 0, r, s3);
    ExtendsTwice(ss, acts, ss1, acts1, ss2, acts2);
    ExtendsTwice(ss, acts, ss2, acts2, ss', acts');
  }

  /** A program whose clock shows `now` waits for 2^64 - now + dl nanoseconds, dl being between 1 and now,
      and is told that the time is up while the clock still shows `now`. */
  lemma EarlyTimeout(s: State, addr: nat, dl: nat) returns (ss: seq<State>, acts: seq<Action>, n: nat)
    requires Init(s) && !s.sc.threads[0].Deliverable() && addr != 0 && 0 < dl <= s.clock < U64
    ensures IsRun(ss, acts) && ss[0] == s && |acts| == n + 1 && Sized(ss[n + 1])
    ensures acts[0] == User(FutexWait(addr, Load(s.mem, addr), Some(U64 - s.clock + dl)))
    ensures ss[n + 1].rets[0] == -ETIMEDOUT && ss[n + 1].clock == s.clock && ss[n + 1].stacks[0] == Push(App, Empty)
  {
    var w, t, th, app := OnFutex(addr, Load(s.mem, addr)), U64 - s.clock + dl, s.sc.threads[0], Push(App, Empty);
    var ss1, acts1 := GoPark(s, s.clock, w, t, dl);
    var wait := Push(At(WWait, w, t, dl), app);
    var ss2, acts2 := GoWake(ss1, acts1, wait, Parked(th, w, dl), s.clock, w);
    var p, s3 := Reads(ss2[|acts2|], app, TimedOut(Parked(th, w, dl)).(state := Running), s.clock, w, t, dl);
    var ss3, acts3 := GoOn(ss2, acts2, 0, p, s3);
    n := |acts3|;
    Returned(s3, app, TimedOut(Parked(th, w, dl)).(state := Running), s.clock, w, t, dl);
    ss, acts := GoOne(ss3, acts3, 0, Run);
    ExtendsTwice(ss1, acts1, ss2, acts2, ss3, acts3);
    ExtendsTwice(ss1, acts1, ss3, acts3, ss, acts);
  }

  /** The last instruction of futex_wait(). */
  lemma Returned(s: State, rest: Stack, th: Thread, now: nat, w: Park, t: nat, dl: nat)
    requires Lone(s, Push(Wt(WClear, w, Some(t), dl, ByTimeout), rest), th, [], true, now, w)
    ensures Enabled(s, Run) && !InCritical(s) && Sized(Step(s, Run))
    ensures Step(s, Run).rets[0] == -ETIMEDOUT && Step(s, Run).clock == now && Step(s, Run).stacks[0] == rest
  {
  }
}
