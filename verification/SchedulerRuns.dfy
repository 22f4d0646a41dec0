/**
 * What the kernel's steps amount to: a thread that is created and started gets the processor and is gone once it
 * exits, a `down` takes a unit or sleeps, and a lock or semaphore that nobody else wants is left as it was found.
 */
module SchedulerRuns {
  import opened Basics
  import opened Scheduler

  // ---------- The life of a thread ----------

  /** A thread that is started goes to the end of the ready list. */
  lemma StartMakesReady(s: State, t: Tid)
    requires Inv(s) && Enabled(s, Start(t))
    ensures var s' := Do(s, Start(t));
            && s'.ready == s.ready + [t] && t in s'.threads && s'.threads[t] == Thread(Ready, Plain)
            && s'.cur == s.cur && forall u :: u != t ==> (u in s'.threads <==> u in s.threads)
                                                         && (u in s.threads ==> s'.threads[u] == s.threads[u])
  {
    hide Inv;
  }

  /** A started thread has the processor by the time all threads that were ready before it have had it. */
  lemma StartedThreadRuns(run: seq<State>, steps: seq<Step>, first: Tid, idle: Tid, a: int, b: int, t: Tid)
    requires IsRun(run, steps, first, idle) && 0 <= a < b <= |steps| && steps[a] == Start(t)
    requires Times(run, steps, a + 1, b, Switch) > |run[a].ready|
    ensures exists k :: a + 1 < k <= b && run[k].cur == t
  {
    RunStep(run, steps, first, idle, a);
    StartMakesReady(run[a], t);
    ReadyThreadRuns(run, steps, first, idle, a + 1, b, |run[a].ready|);
  }

  /** Threads that are newborn, or not there at all, are left alone. */
  ghost predicate Spares(s: State, s': State, t: Tid) {
    && (t in s'.threads <==> t in s.threads)
    && (t in s.threads && s.threads[t].place == Newborn ==> s'.threads[t] == s.threads[t])
  }

  lemma NextIsStarted(s: State)
    requires ReadyInv(s) && PlacesInv(s)
    ensures NextThreadToRun(s) in s.threads && s.threads[NextThreadToRun(s)].place != Newborn
  {
    assert s.ready != [] ==> s.ready[0] in s.ready;
  }

  lemma ExitSpares(s: State, t: Tid)
    requires Inv(s) && Enabled(s, Exit) && t != s.cur
    ensures Spares(s, Do(s, Exit), t)
  {
    hide Inv;
    NextIsOther(s);
    NextNotNewborn(s);
  }

  lemma YieldSpares(s: State, t: Tid)
    requires Inv(s) && Enabled(s, Yield)
    ensures Spares(s, Do(s, Yield), t)
  {
    hide Inv;
    NextNotNewborn(s);
  }

  lemma BlockSpares(s: State, t: Tid)
    requires Inv(s) && Enabled(s, IdleBlock)
    ensures Spares(s, Do(s, IdleBlock), t)
  {
    hide Inv;
    NextNotNewborn(s);
  }

  lemma NextNotNewborn(s: State)
    requires Inv(s)
    ensures NextThreadToRun(s) in s.threads && s.threads[NextThreadToRun(s)].place != Newborn
    ensures s.cur in s.threads && s.threads[s.cur].place != Newborn
  {
    NextIsStarted(s);
    StartedRuns(s);
  }

  lemma DownSpares(s: State, x: Sid, t: Tid)
    requires s.cur in s.threads && x in s.semas && s.threads[s.cur].place != Newborn
    requires NextThreadToRun(s) in s.threads && s.threads[NextThreadToRun(s)].place != Newborn
    ensures Spares(s, DownLoop(s, x), t)
  {}

  lemma UpSpares(s: State, x: Sid, t: Tid)
    requires x in s.semas && (s.semas[x].waiters != [] ==> Sleeps(s, s.semas[x].waiters[0], x))
    ensures Spares(s, SemaUp(s, x), t)
  {}

  lemma StartedRuns(s: State)
    requires PlacesInv(s) && OneRuns(s)
    ensures s.cur in s.threads && s.threads[s.cur].place != Newborn
  {}

  /** Only creation, start and exit matter to a thread that is not there or not started. */
  lemma StepSpares(s: State, step: Step, t: Tid)
    requires Inv(s) && Enabled(s, step) && step != Create(t) && step != Start(t) && !(step.Exit? && t == s.cur)
    ensures Spares(s, Do(s, step), t)
  {
    hide ReadyInv;
    hide WaitersInv;
    hide PlacesInv;
    hide WakeInv;
    hide LocksInv;
    hide OneRuns;
    hide DownLoop;
    hide SemaUp;
    hide Schedule;
    Parts(s);
    NextIsStarted(s);
    StartedRuns(s);
    match step
    case Up(x) =>
      KnownWaiter(s, x);
      UpSpares(s, x, t);
    case FinishRelease => FinishSpares(s, t);
    case Down(x) => DownSpares(s, x, t);
    case Acquire(x) => DownSpares(s, x, t);
    case Recheck =>
      KnownSema(s, s.cur);
      DownSpares(s, s.threads[s.cur].place.sema, t);
    case Exit => ExitSpares(s, t);
    case Yield => YieldSpares(s, t);
    case IdleBlock => BlockSpares(s, t);
    case _ =>
  }

  lemma FinishSpares(s: State, t: Tid)
    requires Inv(s) && Enabled(s, FinishRelease)
    ensures Spares(s, Do(s, FinishRelease), t)
  {
    Parts(s);
    StartedRuns(s);
    var x := s.threads[s.cur].place.lock;
    KnownLock(s, s.cur, x);
    KnownWaiter(s, x);
    hide Inv;
    hide ReadyInv;
    hide WaitersInv;
    hide PlacesInv;
    hide LocksInv;
    assert Spares(s, Drop(s, x), t);
    UpSpares(Drop(s, x), x, t);
    hide SemaUp;
  }

  lemma CreateStep(s: State, t: Tid)
    requires Inv(s) && Enabled(s, Create(t))
    ensures t in Do(s, Create(t)).threads && Do(s, Create(t)).threads[t] == Thread(Blocked, Newborn)
  {
    hide Inv;
  }

  /** A created thread waits to be started, whatever else happens. */
  lemma {:induction false} CreatedWaits(run: seq<State>, steps: seq<Step>, first: Tid, idle: Tid, a: int, b: int,
                                        t: Tid)
    requires IsRun(run, steps, first, idle) && 0 <= a < b <= |steps| && steps[a] == Create(t)
    requires forall i :: a < i < b ==> steps[i] != Start(t)
    ensures t in run[b].threads && run[b].threads[t] == Thread(Blocked, Newborn)
    ensures run[b].cur in run[b].threads && !run[b].threads[run[b].cur].place.InDown? ==> Enabled(run[b], Start(t))
  {
    hide Inv;
    hide Do;
    RunStep(run, steps, first, idle, b - 1);
    if a == b - 1 {
      CreateStep(run[a], t);
    } else {
      CreatedWaits(run, steps, first, idle, a, b - 1, t);
      NewbornRests(run[b - 1], t);
      StepSpares(run[b - 1], steps[b - 1], t);
    }
    hide IsRun;
  }

  lemma NewbornRests(s: State, t: Tid)
    requires Inv(s) && t in s.threads && s.threads[t].place == Newborn
    ensures t != s.cur
  {}

  lemma ExitStep(s: State)
    requires Inv(s) && Enabled(s, Exit)
    ensures s.cur !in Do(s, Exit).threads
  {
    Parts(s);
    assert s.ready != [] ==> s.ready[0] in s.ready;
    hide WaitersInv;
    hide LocksInv;
    hide WakeInv;
  }

  lemma CurrentIsThere(s: State)
    requires Inv(s)
    ensures s.cur in s.threads
  {}

  lemma StaysGone(s: State, step: Step, t: Tid)
    requires Inv(s) && Enabled(s, step) && t !in s.threads && step != Create(t)
    ensures t !in Do(s, step).threads
  {
    hide Inv;
    CurrentIsThere(s);
    if step.Start? {
      StartMakesReady(s, step.t);
    } else {
      hide Do;
      StepSpares(s, step, t);
    }
  }

  /** A thread that exits is gone: it never has the processor again, unless a new thread gets its number. */
  lemma {:induction false} ExitedIsGone(run: seq<State>, steps: seq<Step>, first: Tid, idle: Tid, a: int, b: int)
    requires IsRun(run, steps, first, idle) && 0 <= a < b <= |steps| && steps[a] == Exit
    requires forall i :: a < i < b ==> steps[i] != Create(run[a].cur)
    ensures run[a].cur !in run[b].threads && run[b].cur != run[a].cur
  {
    hide Inv;
    hide Do;
    hide Enabled;
    RunStep(run, steps, first, idle, b - 1);
    RunInv(run, steps, first, idle, b);
    CurrentIsThere(run[b]);
    if a == b - 1 {
      ExitStep(run[a]);
    } else {
      ExitedIsGone(run, steps, first, idle, a, b - 1);
      StaysGone(run[b - 1], steps[b - 1], run[a].cur);
    }
    hide IsRun;
  }

  /**
   * The running thread always has a way on: out of the middle of a synchronization operation exactly the rest of that
   * operation, and outside of one any operation on any semaphore or lock, but for acquiring a lock that it holds and
   * releasing one that it does not hold.
   */
  lemma AlwaysAWayOn(s: State)
    requires Inv(s)
    ensures s.cur in s.threads
    ensures match s.threads[s.cur].place
            case InDown(_) => Enabled(s, Recheck) && !Enabled(s, Yield)
            case Got(_) => Enabled(s, SetHolder) && Enabled(s, Yield)
            case Releasing(_) => Enabled(s, FinishRelease) && Enabled(s, Yield)
            case Plain => Enabled(s, Yield)
            case Newborn => false
    ensures s.threads[s.cur].place == Plain && s.cur != s.idle ==>
              Enabled(s, Exit) && forall x :: x in s.semas ==> MayUse(s, x)
  {
    hide Inv;
    NextNotNewborn(s);
  }

  ghost predicate MayUse(s: State, x: Sid) {
    if x !in s.locks then Enabled(s, Down(x)) && Enabled(s, TryDown(x)) && Enabled(s, Up(x))
    else if s.locks[x].holder == Some(s.cur) then Enabled(s, Release(x))
    else Enabled(s, Acquire(x)) && Enabled(s, TryAcquire(x))
  }

  // ---------- Semaphores ----------

  /** The step is a turn of the loop of sema_down. */
  ghost predicate Lowers(s: State, step: Step, x: Sid)
    requires Inv(s) && Enabled(s, step)
  {
    step == Down(x) || step == Acquire(x) || (step.Recheck? && s.threads[s.cur].place.sema == x)
  }

  lemma SleepIs(s: State, x: Sid)
    requires s.cur in s.threads && x in s.semas && s.semas[x].value == 0
    requires NextThreadToRun(s) in s.threads && NextThreadToRun(s) != s.cur
    ensures var s' := DownLoop(s, x);
            && s'.semas == s.semas[x := Semaphore(0, s.semas[x].waiters + [s.cur])] && s.cur in s'.threads
            && s'.threads[s.cur] == Thread(Blocked, InDown(x)) && s'.cur == NextThreadToRun(s)
  {}

  lemma TakeIs(s: State, x: Sid)
    requires s.cur in s.threads && x in s.semas && s.semas[x].value > 0 && s.threads[s.cur].status == Running
    requires NextThreadToRun(s) in s.threads
    ensures var s' := DownLoop(s, x);
            && s'.semas == s.semas[x := Semaphore(s.semas[x].value - 1, s.semas[x].waiters)]
            && s'.threads == s.threads[s.cur := Thread(Running, if x in s.locks then Got(x) else Plain)]
            && s'.cur == s.cur && s'.ready == s.ready && s'.idle == s.idle
            && s'.locks == if x in s.locks
                           then s.locks[x := Lock(s.locks[x].holder, s.locks[x].owners + {s.cur})] else s.locks
  {}

  /** A lock that can be taken belongs to nobody. */
  lemma FreeLock(s: State, x: Sid)
    requires Inv(s) && x in s.locks
    ensures x in s.semas && (s.semas[x].value > 0 ==> s.semas[x].value == 1 && s.locks[x] == Lock(None, {}))
  {
    assert LockInv(s, x);
  }

  lemma LowersNotIdle(s: State, step: Step, x: Sid)
    requires Inv(s) && Enabled(s, step) && Lowers(s, step, x)
    ensures s.cur != s.idle
  {}

  /**
   * Without a unit the thread goes to sleep at the end of the semaphore's list, and the next thread runs. With one it
   * takes it and goes on; if the semaphore is that of a lock, it is then the only owner.
   */
  lemma DownSleepsOrTakes(s: State, step: Step, x: Sid)
    requires Inv(s) && Enabled(s, step) && x in s.semas && Lowers(s, step, x)
    ensures var s' := Do(s, step);
            && x in s'.semas && s.cur in s'.threads
            && if s.semas[x].value == 0 then
                 && s'.semas[x] == Semaphore(0, s.semas[x].waiters + [s.cur])
                 && s'.threads[s.cur] == Thread(Blocked, InDown(x))
                 && s'.cur == (if s.ready == [] then s.idle else s.ready[0]) != s.cur
               else
                 && s'.semas[x] == Semaphore(s.semas[x].value - 1, s.semas[x].waiters)
                 && s'.threads[s.cur] == Thread(Running, if x in s.locks then Got(x) else Plain) && s'.cur == s.cur
                 && (x in s.locks ==> x in s'.locks && s'.locks[x].owners == {s.cur})
  {
    hide Inv;
    hide DownLoop;
    LowersNotIdle(s, step, x);
    NextIsOther(s);
    if x in s.locks {
      FreeLock(s, x);
    }
    if s.semas[x].value == 0 {
      SleepIs(s, x);
    } else {
      TakeIs(s, x);
    }
  }

  /** Conservation from the beginning: the value is what it was made with, and what was raised and not yet taken. */
  lemma BalanceSinceNew(run: seq<State>, steps: seq<Step>, first: Tid, idle: Tid, a: int, b: int, x: Sid, v: nat)
    requires IsRun(run, steps, first, idle) && 0 <= a < b <= |steps| && steps[a] == NewSema(x, v)
    ensures x in run[b].semas
    ensures run[b].semas[x].value
            == v + Times(run, steps, a + 1, b, Raise(x)) - Times(run, steps, a + 1, b, Taking(x))
  {
    RunStep(run, steps, first, idle, a);
    hide Inv;
    assert x in run[a + 1].semas && run[a + 1].semas[x] == Semaphore(v, []);
    ValueBalance(run, steps, first, idle, a + 1, b, x);
  }

  /** Raising a semaphore that nobody sleeps on, and taking the unit again, changes nothing. */
  lemma UpThenDown(s: State, x: Sid)
    requires Inv(s) && Enabled(s, Up(x)) && Enabled(s, Down(x)) && s.semas[x].waiters == []
    ensures Inv(Do(s, Up(x))) && Enabled(Do(s, Up(x)), Down(x)) && Do(Do(s, Up(x)), Down(x)) == s
  {
    StepInv(s, Up(x));
    hide Inv;
    var s' := Do(s, Up(x));
    assert s'.semas[x := s.semas[x]] == s.semas;
    assert s'.threads[s.cur := s.threads[s.cur]] == s.threads;
  }

  // ---------- Locks ----------

  /** A new lock belongs to nobody. */
  lemma NewLockIsFree(s: State, x: Sid)
    requires Inv(s) && Enabled(s, NewLock(x))
    ensures var s' := Do(s, NewLock(x));
            x in s'.locks && s'.locks[x] == Lock(None, {}) && x in s'.semas && s'.semas[x] == Semaphore(1, [])
  {
    hide Inv;
  }

  ghost predicate Uncontended(s: State, x: Sid) {
    x in s.locks && x in s.semas && s.semas[x] == Semaphore(1, [])
  }

  /** A thread that acquires a free lock becomes its holder and may release it. */
  lemma AcquireHolds(s: State, x: Sid)
    requires Inv(s) && Enabled(s, Acquire(x)) && Uncontended(s, x)
    ensures var s1 := Do(s, Acquire(x));
            && Inv(s1) && Enabled(s1, SetHolder)
            && var s2 := Do(s1, SetHolder);
            && Inv(s2) && Enabled(s2, Release(x))
            && s2 == s.(semas := s.semas[x := Semaphore(0, [])], locks := s.locks[x := Lock(Some(s.cur), {s.cur})])
  {
    hide Inv;
    hide DownLoop;
    hide Hold;
    FreeLock(s, x);
    AcquireNotIdle(s, x);
    NextIsOther(s);
    TakeIs(s, x);
    StepInv(s, Acquire(x));
    var s1 := Do(s, Acquire(x));
    StepInv(s1, SetHolder);
    HolderIs(s, s1, x);
  }

  lemma AcquireNotIdle(s: State, x: Sid)
    requires Enabled(s, Acquire(x))
    ensures s.cur != s.idle && s.cur in s.threads && s.threads[s.cur].place == Plain
  {}

  lemma HolderIs(s: State, s1: State, x: Sid)
    requires s.cur in s.threads && s.threads[s.cur] == Thread(Running, Plain) && x in s.locks && x in s.semas
    requires s1 == s.(semas := s.semas[x := Semaphore(0, [])], threads := s.threads[s.cur := Thread(Running, Got(x))],
                      locks := s.locks[x := Lock(None, {} + {s.cur})])
    ensures Hold(s1, x, Plain, Some(s.cur)) ==
            s.(semas := s.semas[x := Semaphore(0, [])], locks := s.locks[x := Lock(Some(s.cur), {s.cur})])
  {
    assert s1.threads[s.cur := s.threads[s.cur]] == s.threads;
    assert {} + {s.cur} == {s.cur};
  }

  /** A thread that releases a lock that nobody waits for leaves it free. */
  lemma ReleaseFrees(s: State, x: Sid)
    requires Inv(s) && Enabled(s, Release(x)) && s.semas[x].waiters == []
    ensures var s1 := Do(s, Release(x));
            && Inv(s1) && Enabled(s1, FinishRelease)
            && Do(s1, FinishRelease) ==
               s.(semas := s.semas[x := Semaphore(1, [])], locks := s.locks[x := Lock(None, {})])
  {
    hide Inv;
    HolderOwns(s, x);
    AtRelease(s, x);
    StepInv(s, Release(x));
    var s1 := Do(s, Release(x));
    FreedIs(s, s1, x);
    hide SemaUp;
    hide Drop;
  }

  lemma AtRelease(s: State, x: Sid)
    requires Inv(s) && Enabled(s, Release(x))
    ensures s.cur in s.threads && s.threads[s.cur] == Thread(Running, Plain)
  {}

  lemma FreedIs(s: State, s1: State, x: Sid)
    requires s.cur in s.threads && s.threads[s.cur] == Thread(Running, Plain) && x in s.locks && x in s.semas
    requires s.semas[x] == Semaphore(0, []) && s.locks[x].owners == {s.cur}
    requires s1 == s.(threads := s.threads[s.cur := Thread(Running, Releasing(x))],
                      locks := s.locks[x := Lock(None, {s.cur})])
    ensures SemaUp(Drop(s1, x), x) == s.(semas := s.semas[x := Semaphore(1, [])], locks := s.locks[x := Lock(None, {})])
  {
    assert s1.threads[s.cur := s.threads[s.cur]] == s.threads;
    assert {s.cur} - {s.cur} == {};
  }

  lemma HolderOwns(s: State, x: Sid)
    requires Inv(s) && x in s.locks && s.locks[x].holder == Some(s.cur)
    ensures x in s.semas && s.locks[x].owners == {s.cur} && s.semas[x].value == 0
  {
    assert LockInv(s, x);
    OnlyOwner(s, s.cur, x);
  }

  /** Acquiring and releasing a free lock leaves everything as it was. */
  lemma LockRoundTrip(s: State, x: Sid)
    requires Inv(s) && Enabled(s, Acquire(x)) && Uncontended(s, x)
    ensures Acquired(s, x) && Released(Do(Do(s, Acquire(x)), SetHolder), x, s)
  {
    hide Inv;
    hide Do;
    hide Enabled;
    AcquireHolds(s, x);
    FreeLock(s, x);
    var s2 := Do(Do(s, Acquire(x)), SetHolder);
    ReleaseFrees(s2, x);
    assert s2.semas[x := Semaphore(1, [])] == s.semas;
    assert s2.locks[x := Lock(None, {})] == s.locks;
  }

  /** The two steps of an acquisition can be taken, and leave the running thread as holder. */
  ghost predicate Acquired(s: State, x: Sid)
    requires Inv(s) && Enabled(s, Acquire(x))
  {
    var s1 := Do(s, Acquire(x));
    Inv(s1) && Enabled(s1, SetHolder) && Inv(Do(s1, SetHolder)) && Enabled(Do(s1, SetHolder), Release(x))
  }

  /** The two steps of a release can be taken, and lead to the given state. */
  ghost predicate Released(s: State, x: Sid, end: State) {
    && Inv(s) && Enabled(s, Release(x))
    && var s1 := Do(s, Release(x));
    Inv(s1) && Enabled(s1, FinishRelease) && Do(s1, FinishRelease) == end
  }
}
