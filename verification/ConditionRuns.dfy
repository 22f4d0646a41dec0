/**
 * What the steps of `cond_wait` amount to, one after the other, and how the runs with condition variables are runs of
 * the kernel.
 */
module ConditionRuns {
  import opened Basics
  import opened Scheduler
  import opened SchedulerRuns
  import opened Conditions

  // ---------- The steps of a wait ----------

  /** The lock of the condition that the running thread waits for. */
  function LockOf(m: Monitor): Sid
    requires m.k.cur in m.waits && m.waits[m.k.cur].cond in m.conds
  {
    m.conds[m.waits[m.k.cur].cond].lock
  }

  ghost predicate AtStage(m: Monitor, stage: Stage) {
    MInv(m) && m.k.cur in m.waits && m.waits[m.k.cur].cond in m.conds && m.waits[m.k.cur].stage == stage
  }

  ghost predicate Inside(m: Monitor, t: Tid, stage: Stage) {
    t in m.waits && m.waits[t].stage == stage
  }

  /** A new condition has nobody waiting. */
  lemma NewCondIsEmpty(m: Monitor, c: Cid, lock: Sid)
    requires MInv(m) && Allowed(m, NewCond(c, lock))
    ensures var m' := Act(m, NewCond(c, lock)); c in m'.conds && m'.conds[c] == Cond(lock, [])
  {
    hide MInv;
  }

  /** Who begins to wait goes to the end of the list with a semaphore that is down, and still holds the lock. */
  lemma EnterQueues(m: Monitor, c: Cid, x: Sid)
    requires MInv(m) && Allowed(m, Enter(c, x))
    ensures var t, m' := m.k.cur, Act(m, Enter(c, x));
            && c in m'.conds && m'.conds[c] == Cond(m.conds[c].lock, m.conds[c].waiters + [x])
            && Inside(m', t, Queued) && m'.waits[t] == Wait(c, x, Queued) && m'.k.cur == t
            && x in m'.k.semas && m'.k.semas[x] == Semaphore(0, []) && Holds(m', c)
  {
    hide MInv;
    hide Inv;
    hide Do;
    KernelOf(m);
    NewSemaIs(m.k, x);
  }

  lemma NewSemaIs(s: State, x: Sid)
    requires Inv(s) && Enabled(s, NewSema(x, 0))
    ensures Do(s, NewSema(x, 0)) == s.(semas := s.semas[x := Semaphore(0, [])])
  {
    hide Inv;
  }

  /** From the list it clears the holder of the lock, and then lets the lock go. */
  lemma WaitReleases(m: Monitor)
    requires AtStage(m, Queued)
    ensures Allowed(m, GoOn)
    ensures var t, m' := m.k.cur, Act(m, GoOn);
            && m'.k.cur == t && Inside(m', t, Leaving) && LockOf(m) in m'.k.locks
            && m'.k.locks[LockOf(m)].holder == None && m'.k.semas == m.k.semas && m'.conds == m.conds
  {
    hide MInv;
    hide Inv;
    KernelOf(m);
    CondOf(m, m.k.cur);
    NextEnabled(m);
  }

  lemma WaitFrees(m: Monitor)
    requires AtStage(m, Leaving)
    ensures Allowed(m, GoOn)
    ensures var t, m', x := m.k.cur, Act(m, GoOn), LockOf(m);
            && m'.k.cur == t && Inside(m', t, Waiting) && x in m'.k.locks && m'.k.locks[x] == Lock(None, {})
            && x in m.k.semas && x in m'.k.semas && m'.k.semas[x].value == 1
            && (m.k.semas[x].waiters != [] ==> m.k.semas[x].waiters[0] in m'.k.ready)
  {
    hide MInv;
    hide Inv;
    hide Do;
    hide Enabled;
    KernelOf(m);
    CondOf(m, m.k.cur);
    NextEnabled(m);
    FreesLock(m.k);
  }

  /** The second half of a release leaves the lock free, and the first who waits for it ready. */
  lemma FreesLock(s: State)
    requires Inv(s) && Enabled(s, FinishRelease)
    ensures var x, s' := s.threads[s.cur].place.lock, Do(s, FinishRelease);
            && s'.cur == s.cur && x in s'.locks && s'.locks[x] == Lock(None, {}) && x in s.semas && x in s'.semas
            && s'.semas[x].value == 1 && (s.semas[x].waiters != [] ==> s.semas[x].waiters[0] in s'.ready)
  {
    var x := s.threads[s.cur].place.lock;
    assert Between(s, s.cur, x);
    KnownLock(s, s.cur, x);
    OnlyOwner(s, s.cur, x);
    Parts(s);
    KnownWaiter(s, x);
    hide Core;
    hide ReadyInv;
    hide WaitersInv;
    hide PlacesInv;
    hide LocksInv;
    assert {s.cur} - {s.cur} == {};
  }

  /** Then it sleeps on its own semaphore until that is raised; once it is, it passes. */
  lemma WaitSleepsOrPasses(m: Monitor)
    requires AtStage(m, Waiting)
    ensures Allowed(m, GoOn)
    ensures var t, m', x := m.k.cur, Act(m, GoOn), m.waits[m.k.cur].sema;
            && x in m.k.semas && x in m'.k.semas && t in m'.k.threads
            && if Unraised(m, t) then
                 && Inside(m', t, Waiting) && m'.k.semas[x] == Semaphore(0, [t])
                 && m'.k.threads[t] == Thread(Blocked, InDown(x)) && m'.k.cur != t
               else
                 Inside(m', t, Returning) && m'.k.semas[x] == Semaphore(0, []) && m'.k.cur == t
  {
    hide MInv;
    hide Inv;
    hide Do;
    KernelOf(m);
    CondOf(m, m.k.cur);
    NextEnabled(m);
    var x := m.waits[m.k.cur].sema;
    Awake(m.k, x);
    DownSleepsOrTakes(m.k, NextStep(m), x);
    hide Unraised;
  }

  /** At last it takes the lock, if need be after a sleep, and returns as its holder. */
  lemma WaitReturns(m: Monitor)
    requires AtStage(m, Returning)
    ensures Allowed(m, GoOn)
    ensures var t, m', x := m.k.cur, Act(m, GoOn), LockOf(m);
            && x in m.k.semas && x in m'.k.semas && x in m'.k.locks && t in m.k.threads && t in m'.k.threads
            && if m.k.threads[t].place == Got(x) then
                 t !in m'.waits && m'.k.cur == t && m'.k.locks[x] == Lock(Some(t), {t})
               else if m.k.semas[x].value == 0 then
                 && Inside(m', t, Returning) && m'.k.threads[t] == Thread(Blocked, InDown(x)) && m'.k.cur != t
                 && m'.k.semas[x] == Semaphore(0, m.k.semas[x].waiters + [t])
               else
                 Inside(m', t, Returning) && m'.k.threads[t] == Thread(Running, Got(x)) && m'.k.cur == t
  {
    hide MInv;
    hide Inv;
    hide Do;
    KernelOf(m);
    CondOf(m, m.k.cur);
    NextEnabled(m);
    var x := LockOf(m);
    LockSema(m.k, x);
    if m.k.threads[m.k.cur].place == Got(x) {
      HolderSelf(m.k);
      SetsHolder(m.k);
    } else {
      DownSleepsOrTakes(m.k, NextStep(m), x);
      LocksStay(m.k, NextStep(m));
    }
  }

  lemma SetsHolder(s: State)
    requires Inv(s) && Enabled(s, SetHolder)
    ensures var s' := Do(s, SetHolder); s'.cur == s.cur && s'.semas == s.semas && s.cur in s'.threads
  {
    hide Inv;
  }

  /** A signaller raises the semaphore that it took off the list, and the thread that waits there can pass. */
  lemma WakeLetsPass(m: Monitor, t: Tid)
    requires MInv(m) && m.k.cur in m.raising && t in m.waits && m.waits[t].sema == m.raising[m.k.cur].sema
    ensures Allowed(m, Wake)
    ensures var m' := Act(m, Wake);
            && m'.waits == m.waits && m.k.cur !in m'.raising && (t == m'.k.cur || t in m'.k.ready)
            && m.waits[t].sema in m'.k.semas && m'.k.semas[m.waits[t].sema] == Semaphore(1, [])
  {
    hide MInv;
    hide Conditions.Raises;
    hide Act;
    RaiserThere(m);
    SignalEndsInv(m);
    RaiseWakes(m, Act(m, Wake), t);
  }

  lemma RaiserThere(m: Monitor)
    requires MInv(m) && m.k.cur in m.raising
    ensures Allowed(m, Wake)
  {
    RaiserIs(m, m.k.cur);
  }

  // ---------- A whole wait ----------

  /** The running thread goes on inside cond_wait. */
  ghost predicate GoesOn(m: Monitor, m': Monitor) {
    MInv(m) && Allowed(m, GoOn) && m' == Act(m, GoOn)
  }

  /** A step inside cond_wait changes no list, nor what the thread waits for as long as it stays inside. */
  lemma WaitKept(m: Monitor, m': Monitor, t: Tid)
    requires t == m.k.cur && t in m.waits && GoesOn(m, m')
    ensures MInv(m') && m'.conds == m.conds && m'.raising == m.raising
    ensures t in m'.waits ==> m'.waits[t].cond == m.waits[t].cond && m'.waits[t].sema == m.waits[t].sema
  {
    hide MInv;
    hide Do;
    hide Enabled;
    hide NextStep;
    hide NextStage;
    ActInv(m, GoOn);
  }

  /** Without a signal in between the thread lets the lock go and is asleep three steps after it has entered. */
  lemma WaitSleeps(m: Monitor, c: Cid, x: Sid) returns (m1: Monitor, m2: Monitor, m3: Monitor, m4: Monitor)
    requires MInv(m) && Allowed(m, Enter(c, x))
    ensures m1 == Act(m, Enter(c, x)) && GoesOn(m1, m2) && GoesOn(m2, m3) && GoesOn(m3, m4)
    ensures var t, lock := m.k.cur, m.conds[c].lock;
            && m3.k.cur == t && lock in m3.k.locks && m3.k.locks[lock] == Lock(None, {})
            && t in m4.k.threads && m4.k.threads[t] == Thread(Blocked, InDown(x)) && m4.k.cur != t
            && c in m4.conds && m4.conds[c].waiters == m.conds[c].waiters + [x]
  {
    hide MInv;
    hide Allowed;
    hide Act;
    HoldsIts(m, c, x);
    m1 := Act(m, Enter(c, x));
    EnterQueues(m, c, x);
    ActInv(m, Enter(c, x));
    WaitReleases(m1);
    m2 := Act(m1, GoOn);
    WaitKept(m1, m2, m.k.cur);
    WaitFrees(m2);
    m3 := Act(m2, GoOn);
    WaitKept(m2, m3, m.k.cur);
    WaitSleepsOrPasses(m3);
    m4 := Act(m3, GoOn);
    WaitKept(m3, m4, m.k.cur);
    LastIsListed(m3, c, x);
  }

  lemma HoldsIts(m: Monitor, c: Cid, x: Sid)
    requires Allowed(m, Enter(c, x))
    ensures c in m.conds
  {}

  lemma LastIsListed(m: Monitor, c: Cid, x: Sid)
    requires m.k.cur in m.waits && m.waits[m.k.cur].cond == c && m.waits[m.k.cur].sema == x && c in m.conds
    requires m.conds[c].waiters != [] && m.conds[c].waiters[|m.conds[c].waiters| - 1] == x
    ensures Unraised(m, m.k.cur)
  {}

  /** A thread that was signalled and finds the lock free has returned with it three steps later. */
  lemma WaitEnds(m: Monitor) returns (m1: Monitor, m2: Monitor, m3: Monitor)
    requires AtStage(m, Waiting) && !Unraised(m, m.k.cur)
    requires LockOf(m) in m.k.semas && m.k.semas[LockOf(m)].value > 0
    ensures GoesOn(m, m1) && GoesOn(m1, m2) && GoesOn(m2, m3)
    ensures var t, lock := m.k.cur, LockOf(m);
            m3.k.cur == t && t !in m3.waits && lock in m3.k.locks && m3.k.locks[lock] == Lock(Some(t), {t})
  {
    hide MInv;
    hide Allowed;
    hide Act;
    WaitSleepsOrPasses(m);
    m1 := Act(m, GoOn);
    WaitKept(m, m1, m.k.cur);
    LockUntouched(m);
    WaitReturns(m1);
    m2 := Act(m1, GoOn);
    WaitKept(m1, m2, m.k.cur);
    WaitReturns(m2);
    m3 := Act(m2, GoOn);
  }

  /** On the way past its own semaphore the thread does not touch the lock. */
  lemma LockUntouched(m: Monitor)
    requires AtStage(m, Waiting) && Allowed(m, GoOn) && LockOf(m) in m.k.semas
    ensures LockOf(m) in Act(m, GoOn).k.semas && Act(m, GoOn).k.semas[LockOf(m)] == m.k.semas[LockOf(m)]
    ensures m.k.cur in Act(m, GoOn).k.threads && Act(m, GoOn).k.threads[m.k.cur].place != Got(LockOf(m))
  {
    hide MInv;
    hide Inv;
    hide Do;
    KernelOf(m);
    CondOf(m, m.k.cur);
    NextEnabled(m);
    Awake(m.k, m.waits[m.k.cur].sema);
    SemaKept(m.k, NextStep(m), LockOf(m));
    DownSleepsOrTakes(m.k, NextStep(m), m.waits[m.k.cur].sema);
  }

  // ---------- A broadcast ----------

  ghost predicate Acts(m: Monitor, a: Action, m': Monitor) {
    MInv(m) && Allowed(m, a) && m' == Act(m, a)
  }

  /** The loop of cond_broadcast: as long as there is somebody in the list, the first one is signalled. */
  ghost predicate IsBroadcast(run: seq<Monitor>, c: Cid, n: nat) {
    && |run| == 2 * n + 1
    && forall i :: 0 <= i < 2 * n ==> Acts(run[i], if i % 2 == 0 then Signal(c) else Wake, run[i + 1])
  }

  /** The running thread may signal the condition. */
  ghost predicate MaySignal(m: Monitor, c: Cid) {
    MInv(m) && Allowed(m, Signal(c)) && c in m.conds
  }

  /** One turn of the loop: the first one leaves the list, and the thread may signal again. */
  lemma SignalOnce(m: Monitor, c: Cid) returns (m1: Monitor, m2: Monitor)
    requires MaySignal(m, c) && m.conds[c].waiters != []
    ensures Acts(m, Signal(c), m1) && Acts(m1, Wake, m2) && MaySignal(m2, c)
    ensures m2.conds[c].waiters == m.conds[c].waiters[1..] && m2.k.cur == m.k.cur && m2.waits == m.waits
  {
    hide MInv;
    hide Do;
    hide Enabled;
    ActInv(m, Signal(c));
    m1 := Taken(m, c);
    RaiserThere(m1);
    ActInv(m1, Wake);
    KernelOf(m1);
    RaiseEnabled(m1);
    m2 := Act(m1, Wake);
    UpKeepsRunning(m1.k, m1.raising[m1.k.cur].sema);
    assert m2.raising == m.raising;
    SignalsAgain(m, m2, c);
    hide Allowed;
  }

  /** The right to signal rests on what the running thread is doing and on the lock that it holds. */
  lemma SignalsAgain(m: Monitor, m': Monitor, c: Cid)
    requires Allowed(m, Signal(c)) && c in m'.conds && m'.conds[c].lock == m.conds[c].lock
    requires m'.k.cur == m.k.cur && m'.k.idle == m.k.idle && m'.k.locks == m.k.locks
    requires m'.k.cur in m'.k.threads && m'.k.threads[m.k.cur] == m.k.threads[m.k.cur]
    requires m'.waits == m.waits && m'.raising == m.raising
    ensures Allowed(m', Signal(c))
  {}

  /** Raising a semaphore neither moves the running thread nor touches a lock. */
  lemma UpKeepsRunning(s: State, x: Sid)
    requires Inv(s) && Enabled(s, Up(x))
    ensures var s' := Do(s, Up(x));
            s'.cur == s.cur && s'.idle == s.idle && s'.locks == s.locks && s.cur in s'.threads
            && s'.threads[s.cur] == s.threads[s.cur]
  {
    KnownWaiter(s, x);
    Awake(s, x);
    hide Inv;
  }

  /** A broadcast takes everybody off the list, and all who wait for the condition can pass. */
  lemma {:induction false} Broadcast(m: Monitor, c: Cid) returns (run: seq<Monitor>)
    requires MaySignal(m, c)
    ensures IsBroadcast(run, c, |m.conds[c].waiters|) && run[0] == m
    ensures var m' := run[|run| - 1];
            MaySignal(m', c) && m'.conds[c].waiters == [] && m'.waits == m.waits && m'.k.cur == m.k.cur
    decreases |m.conds[c].waiters|
  {
    hide MaySignal;
    hide Acts;
    run := [m];
    CondThere(m, c);
    if m.conds[c].waiters != [] {
      var m1, m2 := SignalOnce(m, c);
      CondThere(m2, c);
      var rest := Broadcast(m2, c);
      run := [m, m1] + rest;
      var n := |m.conds[c].waiters|;
      forall i | 0 <= i < 2 * n ensures Acts(run[i], if i % 2 == 0 then Signal(c) else Wake, run[i + 1]) {
        if i >= 2 {
          assert Acts(rest[i - 2], if (i - 2) % 2 == 0 then Signal(c) else Wake, rest[i - 1]);
        }
      }
    }
  }

  lemma CondThere(m: Monitor, c: Cid)
    requires MaySignal(m, c)
    ensures c in m.conds
  {}

  /** Once the list is empty the semaphore of everybody who waits is up, and nobody is asleep there. */
  lemma AllCanPass(m: Monitor, c: Cid, t: Tid)
    requires MaySignal(m, c) && m.conds[c].waiters == []
    requires t in m.waits && m.waits[t].cond == c && m.waits[t].stage != Returning
    ensures m.waits[t].sema in m.k.semas && m.k.semas[m.waits[t].sema] == Semaphore(1, [])
    ensures t in m.k.ready
  {
    hide MInv;
    CondOf(m, t);
    KernelOf(m);
    NonePending(m, c, t);
    NotAsleep(m.k, t, m.waits[t].sema);
  }

  /** Who takes a semaphore off the list and has not raised it yet holds the lock. */
  lemma NonePending(m: Monitor, c: Cid, t: Tid)
    requires MaySignal(m, c) && t in m.waits && m.waits[t].cond == c
    ensures !Pending(m, m.waits[t].sema)
  {
    hide MInv;
    forall s | s in m.raising ensures m.raising[s].sema != m.waits[t].sema {
      if m.raising[s].sema == m.waits[t].sema {
        RaiserRuns(m, s, t);
      }
    }
  }

  // ---------- The kernel under a run ----------

  /** The step of the kernel that an action takes; creating a condition and taking from its list need none. */
  ghost function StepOf(m: Monitor, a: Action): Option<Step>
    requires MInv(m) && Allowed(m, a)
  {
    match a
    case Kernel(step) => Some(step)
    case Interrupt => Some(Yield)
    case NewCond(_, _) => None
    case Enter(_, x) => Some(NewSema(x, 0))
    case GoOn => NextEnabled(m); Some(NextStep(m))
    case Signal(_) => None
    case Wake => Some(Up(m.raising[m.k.cur].sema))
  }

  /** Every action is a step of the kernel, or leaves the kernel alone. */
  lemma ActIsStep(m: Monitor, a: Action)
    requires MInv(m) && Allowed(m, a)
    ensures match StepOf(m, a)
            case Some(step) => Inv(m.k) && Enabled(m.k, step) && Act(m, a).k == Do(m.k, step)
            case None => Act(m, a).k == m.k
  {
    hide Inv;
    hide Apart;
    hide WaitOk;
    hide CondOk;
    hide RaiseOk;
    if a.Wake? {
      RaiseEnabled(m);
    } else if a.GoOn? {
      NextEnabled(m);
    }
  }

  /** The kernel's part of a run with conditions is a run of the kernel, so whatever holds of those holds here. */
  lemma {:induction false} KernelRun(run: seq<Monitor>, acts: seq<Action>, first: Tid, idle: Tid, n: nat)
    returns (states: seq<State>, steps: seq<Step>)
    requires IsMRun(run, acts, first, idle) && n <= |acts|
    ensures IsRun(states, steps, first, idle) && states[|steps|] == run[n].k
  {
    hide MInv;
    hide Inv;
    hide Do;
    hide Act;
    hide Enabled;
    hide Allowed;
    if n == 0 {
      states, steps := [run[0].k], [];
    } else {
      var before, taken := KernelRun(run, acts, first, idle, n - 1);
      MRunStep(run, acts, first, idle, n - 1);
      ActIsStep(run[n - 1], acts[n - 1]);
      var step := StepOf(run[n - 1], acts[n - 1]);
      states, steps := before, taken;
      if step.Some? {
        states, steps := before + [run[n].k], taken + [step.value];
        assert forall i :: 0 <= i < |taken| ==> Follows(before[i], taken[i], before[i + 1]);
      }
    }
  }
}
