/**
 * The kernel's threads, semaphores and locks on one processor. A step is a stretch of code that runs with
 * interrupts disabled; between steps the timer may take the processor away. A thread that sleeps in `sema_down`
 * goes on inside its loop, with interrupts still disabled, when it is scheduled again.
 */
module Scheduler {
  import opened Basics

  type Tid = nat
  type Sid = nat

  datatype Status = Running | Ready | Blocked

  /** Where a thread is: the sections of the lock operations outside of the semaphore operations count as places. */
  datatype Place =
    | Newborn                              // created, not yet unblocked
    | Plain
    | InDown(sema: Sid)                    // asleep or awoken inside the loop of sema_down
    | Got(lock: Sid)                       // the lock's semaphore is down, the holder is not yet set
    | Releasing(lock: Sid)                 // the holder is cleared, the lock's semaphore is not yet up

  datatype Thread = Thread(status: Status, place: Place)

  datatype Semaphore = Semaphore(value: nat, waiters: seq<Tid>)

  /** The owners are the threads between the `down` and the `up` of the lock's semaphore. */
  datatype Lock = Lock(holder: Option<Tid>, owners: set<Tid>)

  datatype State = State(cur: Tid, idle: Tid, threads: map<Tid, Thread>, ready: seq<Tid>,
                         semas: map<Sid, Semaphore>, locks: map<Sid, Lock>)

  datatype Step =
    | Create(t: Tid) | Start(t: Tid) | Exit | Yield | IdleBlock
    | NewSema(s: Sid, v: nat) | NewLock(s: Sid)
    | Down(s: Sid) | TryDown(s: Sid) | Up(s: Sid) | Recheck
    | Acquire(s: Sid) | TryAcquire(s: Sid) | SetHolder | Release(s: Sid) | FinishRelease

  // ---------- What the steps do ----------

  function SetThread(s: State, t: Tid, th: Thread): State {
    s.(threads := s.threads[t := th])
  }

  function Unblock(s: State, t: Tid): State
    requires t in s.threads
  {
    SetThread(s, t, s.threads[t].(status := Ready)).(ready := s.ready + [t])
  }

  function NextThreadToRun(s: State): Tid {
    if s.ready == [] then s.idle else s.ready[0]
  }

  /** Switches to the next thread; the running thread has already given up being one. */
  function Schedule(s: State): State
    requires NextThreadToRun(s) in s.threads
  {
    var next := NextThreadToRun(s);
    SetThread(s, next, s.threads[next].(status := Running))
      .(cur := next, ready := if s.ready == [] then [] else s.ready[1..])
  }

  function SemaUp(s: State, x: Sid): State
    requires x in s.semas && (s.semas[x].waiters == [] || s.semas[x].waiters[0] in s.threads)
  {
    var sema := s.semas[x];
    if sema.waiters == [] then s.(semas := s.semas[x := sema.(value := sema.value + 1)])
    else Unblock(s, sema.waiters[0]).(semas := s.semas[x := Semaphore(sema.value + 1, sema.waiters[1..])])
  }

  /** The value goes down; a lock gets an owner. */
  function Take(s: State, x: Sid): State
    requires x in s.semas && s.semas[x].value > 0
  {
    var sema := s.semas[x];
    s.(semas := s.semas[x := sema.(value := sema.value - 1)],
       locks := if x in s.locks then s.locks[x := s.locks[x].(owners := s.locks[x].owners + {s.cur})] else s.locks)
  }

  function MoveTo(s: State, p: Place): State
    requires s.cur in s.threads
  {
    SetThread(s, s.cur, s.threads[s.cur].(place := p))
  }

  /** The running thread goes to sleep on the semaphore; it remains to schedule another one. */
  function Wait(s: State, x: Sid): State
    requires x in s.semas
  {
    SetThread(s, s.cur, Thread(Blocked, InDown(x)))
      .(semas := s.semas[x := s.semas[x].(waiters := s.semas[x].waiters + [s.cur])])
  }

  /** One turn of the loop of sema_down. */
  function DownLoop(s: State, x: Sid): State
    requires s.cur in s.threads && x in s.semas && NextThreadToRun(s) in s.threads
  {
    if s.semas[x].value == 0 then Schedule(Wait(s, x))
    else MoveTo(Take(s, x), if x in s.locks then Got(x) else Plain)
  }

  function Do(s: State, step: Step): State
    requires Inv(s) && Enabled(s, step)
  {
    KnownNext(s);
    var me := s.threads[s.cur];
    match step
    case Create(t) => SetThread(s, t, Thread(Blocked, Newborn))
    case Start(t) => Unblock(SetThread(s, t, Thread(Blocked, Plain)), t)
    case Exit => Schedule(s.(threads := s.threads - {s.cur}))
    case Yield =>
      var s' := if s.cur == s.idle then s else s.(ready := s.ready + [s.cur]);
      Schedule(SetThread(s', s.cur, me.(status := Ready)))
    case IdleBlock => Schedule(SetThread(s, s.cur, me.(status := Blocked)))
    case NewSema(x, v) => s.(semas := s.semas[x := Semaphore(v, [])])
    case NewLock(x) => s.(semas := s.semas[x := Semaphore(1, [])], locks := s.locks[x := Lock(None, {})])
    case Down(x) => DownLoop(s, x)
    case Acquire(x) => DownLoop(s, x)
    case Recheck => DownLoop(s, me.place.sema)
    case TryDown(x) => if s.semas[x].value > 0 then Take(s, x) else s
    case TryAcquire(x) => if s.semas[x].value > 0 then MoveTo(Take(s, x), Got(x)) else s
    case Up(x) => KnownWaiter(s, x); SemaUp(s, x)
    case SetHolder =>
      var x := me.place.lock;
      KnownLock(s, s.cur, x);
      Hold(s, x, Plain, Some(s.cur))
    case Release(x) => Hold(s, x, Releasing(x), None)
    case FinishRelease =>
      var x := me.place.lock;
      KnownLock(s, s.cur, x);
      KnownWaiter(s, x);
      SemaUp(Drop(s, x), x)
  }

  /** The running thread enters a holder into the lock or strikes it out, and goes on. */
  function Hold(s: State, x: Sid, p: Place, holder: Option<Tid>): State
    requires s.cur in s.threads && x in s.locks
  {
    MoveTo(s, p).(locks := s.locks[x := s.locks[x].(holder := holder)])
  }

  /** The running thread owns the lock no more; its semaphore is still down. */
  function Drop(s: State, x: Sid): State
    requires s.cur in s.threads && x in s.locks
  {
    MoveTo(s, Plain).(locks := s.locks[x := s.locks[x].(owners := s.locks[x].owners - {s.cur})])
  }

  /** What the source lets a thread do. While the running thread is in sema_down, interrupts are off. */
  predicate Enabled(s: State, step: Step) {
    && s.cur in s.threads
    && var me := s.threads[s.cur];
    && (me.place.InDown? <==> step.Recheck?)
    && (step.SetHolder? ==> me.place.Got?)
    && (step.FinishRelease? ==> me.place.Releasing?)
    && (step.Exit? || step.Down? || step.Acquire? || step.TryAcquire? || step.Release? ==>
          s.cur != s.idle && me.place == Plain)
    && match step
       case Create(t) => t !in s.threads
       case Start(t) => t in s.threads && s.threads[t].place == Newborn
       case IdleBlock => s.cur == s.idle
       case NewSema(x, v) => x !in s.semas
       case NewLock(x) => x !in s.semas
       case Down(x) => x in s.semas && x !in s.locks
       case TryDown(x) => x in s.semas && x !in s.locks
       case Up(x) => x in s.semas && x !in s.locks
       case Acquire(x) => x in s.semas && x in s.locks && s.locks[x].holder != Some(s.cur)
       case TryAcquire(x) => x in s.semas && x in s.locks && s.locks[x].holder != Some(s.cur)
       case Release(x) => x in s.semas && x in s.locks && s.locks[x].holder == Some(s.cur)
       case _ => true
  }

  // ---------- What every step keeps ----------

  /** The ready list holds the ready threads other than the idle thread, each once. */
  ghost predicate ReadyInv(s: State) {
    && NoDup(s.ready)
    && (forall t :: t in s.ready <==> t in s.threads && t != s.idle && s.threads[t].status == Ready)
  }

  ghost predicate Sleeps(s: State, t: Tid, x: Sid) {
    t in s.threads && s.threads[t] == Thread(Blocked, InDown(x))
  }

  /** A semaphore's list holds the threads that sleep on it, each once, so no thread is on two lists. */
  ghost predicate WaitersInv(s: State) {
    && (forall x :: x in s.semas ==> NoDup(s.semas[x].waiters))
    && (forall x, t :: x in s.semas ==> (t in s.semas[x].waiters <==> Sleeps(s, t, x)))
  }

  /** The idle thread takes part in no synchronization; only threads that were started take places in the code. */
  ghost predicate PlacesInv(s: State) {
    && s.idle in s.threads && s.threads[s.idle].place == Plain
    && (forall t :: t in s.threads && s.threads[t].place == Newborn ==> s.threads[t].status == Blocked)
    && (forall t :: t in s.threads && s.threads[t].place.InDown? ==> s.threads[t].place.sema in s.semas)
    && (forall t :: t in s.threads && s.threads[t].status == Blocked ==>
          t == s.idle || s.threads[t].place.InDown? || s.threads[t].place == Newborn)
  }

  /** The threads that were woken from their sleep on a semaphore and have not looked at it again yet. */
  ghost function Woken(s: State, x: Sid): set<Tid> {
    set t | t in s.threads && s.threads[t].place == InDown(x) && s.threads[t].status != Blocked
  }

  /** A semaphore with sleepers is no greater than the number of threads on their way to it. */
  ghost predicate WakeInv(s: State) {
    forall x :: x in s.semas && s.semas[x].waiters != [] ==> s.semas[x].value <= |Woken(s, x)|
  }

  ghost predicate Between(s: State, t: Tid, x: Sid) {
    t in s.threads && (s.threads[t].place == Got(x) || s.threads[t].place == Releasing(x))
  }

  /** A lock is free, or it has exactly one owner, who is its holder but for the moments before and after. */
  ghost predicate LockInv(s: State, x: Sid) {
    && x in s.semas && x in s.locks
    && var l := s.locks[x];
    && s.semas[x].value + |l.owners| == 1
    && (l.holder.Some? ==> l.owners == {l.holder.value})
    && (forall t :: Between(s, t, x) ==> t in l.owners && l.holder == None)
    && (forall t :: t in l.owners && l.holder == None ==> Between(s, t, x))
  }

  ghost predicate LocksInv(s: State) {
    && (forall x :: x in s.locks ==> LockInv(s, x))
    && (forall t, x :: Between(s, t, x) ==> x in s.locks)
  }

  ghost predicate Core(s: State) {
    ReadyInv(s) && WaitersInv(s) && PlacesInv(s) && WakeInv(s) && LocksInv(s)
  }

  /** Exactly the current thread is running. */
  ghost predicate OneRuns(s: State) {
    forall t :: t in s.threads && s.threads[t].status == Running <==> t == s.cur
  }

  ghost predicate Inv(s: State) {
    Core(s) && OneRuns(s)
  }

  /** In the middle of a switch nobody is running. */
  ghost predicate NobodyRuns(s: State) {
    forall t :: t in s.threads ==> s.threads[t].status != Running
  }

  lemma KnownNext(s: State)
    requires ReadyInv(s) && PlacesInv(s)
    ensures NextThreadToRun(s) in s.threads
  {
    assert s.ready != [] ==> s.ready[0] in s.ready;
  }

  lemma NextIsOther(s: State)
    requires Inv(s) && s.cur != s.idle
    ensures NextThreadToRun(s) in s.threads && NextThreadToRun(s) != s.cur && s.cur in s.threads
    ensures s.threads[s.cur].status == Running
  {
    assert s.ready != [] ==> s.ready[0] in s.ready;
  }

  lemma KnownWaiter(s: State, x: Sid)
    requires WaitersInv(s) && x in s.semas
    ensures s.semas[x].waiters != [] ==> Sleeps(s, s.semas[x].waiters[0], x)
  {
    assert s.semas[x].waiters != [] ==> s.semas[x].waiters[0] in s.semas[x].waiters;
  }

  lemma KnownSema(s: State, t: Tid)
    requires PlacesInv(s) && t in s.threads && s.threads[t].place.InDown?
    ensures s.threads[t].place.sema in s.semas
  {}

  lemma KnownLock(s: State, t: Tid, x: Sid)
    requires LocksInv(s) && Between(s, t, x)
    ensures LockInv(s, x)
  {}

  // ---------- What the invariants depend on ----------

  /** No thread moves, apart from the exceptions. */
  ghost predicate SamePlaces(s: State, s': State, except: set<Tid>) {
    forall t :: t !in except ==>
      && (t in s.threads <==> t in s'.threads)
      && (t in s.threads ==> s.threads[t].place == s'.threads[t].place)
  }

  ghost predicate SameLock(s: State, s': State, x: Sid) {
    x in s.semas && x in s'.semas && x in s.locks && x in s'.locks
    && s.semas[x].value == s'.semas[x].value && s.locks[x] == s'.locks[x]
  }

  lemma LockKept(s: State, s': State, x: Sid, except: set<Tid>)
    requires LockInv(s, x) && SameLock(s, s', x) && SamePlaces(s, s', except)
    requires forall t :: t in except ==> !Between(s, t, x) && !Between(s', t, x)
    ensures LockInv(s', x)
  {
    forall t ensures Between(s, t, x) <==> Between(s', t, x) {}
  }

  lemma LocksKept(s: State, s': State, except: set<Tid>)
    requires LocksInv(s) && SamePlaces(s, s', except) && s.locks == s'.locks
    requires forall x :: x in s.locks && x in s.semas ==> x in s'.semas && s.semas[x].value == s'.semas[x].value
    requires forall t, x :: t in except ==> !Between(s, t, x) && !Between(s', t, x)
    ensures LocksInv(s')
  {
    forall x | x in s'.locks ensures LockInv(s', x) {
      LockKept(s, s', x, except);
    }
    forall t, x | Between(s', t, x) ensures x in s'.locks {
      assert Between(s, t, x);
    }
  }

  lemma WokenKept(s: State, s': State, x: Sid)
    requires forall t :: t in Woken(s, x) <==> t in Woken(s', x)
    ensures |Woken(s, x)| == |Woken(s', x)|
  {
    assert Woken(s, x) == Woken(s', x);
  }

  // ---------- Scheduling ----------

  lemma ScheduleLists(s: State)
    requires ReadyInv(s) && WaitersInv(s) && PlacesInv(s) && NobodyRuns(s) && NextThreadToRun(s) in s.threads
    ensures var s' := Schedule(s); ReadyInv(s') && PlacesInv(s') && OneRuns(s')
  {
    assert s.ready != [] ==> s.ready[0] in s.ready;
    var s' := Schedule(s);
    forall t ensures t in s'.ready <==> t in s'.threads && t != s'.idle && s'.threads[t].status == Ready {
      if s.ready != [] {
        assert t in s.ready <==> t == s.ready[0] || t in s.ready[1..];
      }
    }
  }

  lemma ScheduleSleepers(s: State)
    requires ReadyInv(s) && WaitersInv(s) && PlacesInv(s) && WakeInv(s) && NextThreadToRun(s) in s.threads
    ensures var s' := Schedule(s); WaitersInv(s') && WakeInv(s')
  {
    assert s.ready != [] ==> s.ready[0] in s.ready;
    var s' := Schedule(s);
    forall x, t ensures Sleeps(s, t, x) <==> Sleeps(s', t, x) {}
    forall x | x in s'.semas ensures |Woken(s, x)| == |Woken(s', x)| {
      WokenKept(s, s', x);
    }
  }

  /** Scheduling completes a switch. */
  lemma ScheduleInv(s: State)
    requires Core(s) && NobodyRuns(s)
    ensures NextThreadToRun(s) in s.threads && Inv(Schedule(s))
  {
    KnownNext(s);
    ScheduleLists(s);
    ScheduleSleepers(s);
    LocksKept(s, Schedule(s), {});
  }

  // ---------- Semaphores ----------

  /** The running thread may start or go on with a `down` of the semaphore. */
  ghost predicate MayDown(s: State, x: Sid) {
    && Inv(s) && s.cur in s.threads && x in s.semas && s.cur != s.idle
    && (s.threads[s.cur].place == Plain || s.threads[s.cur].place == InDown(x))
  }

  lemma WaitLists(s: State, x: Sid)
    requires MayDown(s, x)
    ensures var s' := Wait(s, x); ReadyInv(s') && WaitersInv(s') && PlacesInv(s') && NobodyRuns(s')
  {
    hide WakeInv;
    hide LocksInv;
    var s' := Wait(s, x);
    assert s.cur !in s.ready;
    assert s.cur !in s.semas[x].waiters by {
      assert s.cur in s.semas[x].waiters <==> Sleeps(s, s.cur, x);
    }
    forall y, t | y in s'.semas ensures t in s'.semas[y].waiters <==> Sleeps(s', t, y) {
      assert t in s.semas[y].waiters <==> Sleeps(s, t, y);
    }
  }

  lemma WaitInv(s: State, x: Sid)
    requires MayDown(s, x) && s.semas[x].value == 0
    ensures Core(Wait(s, x)) && NobodyRuns(Wait(s, x))
  {
    var s' := Wait(s, x);
    WaitLists(s, x);
    forall y | y in s'.semas && s'.semas[y].waiters != [] ensures s'.semas[y].value <= |Woken(s', y)| {
      if y != x {
        WokenKept(s, s', y);
      }
    }
    LocksKept(s, s', {s.cur});
    hide *;
  }

  /** Taking the semaphore uses up the wakeup of the thread that takes it, if it was woken. */
  lemma TakeWakes(s: State, x: Sid, p: Place)
    requires MayDown(s, x) && s.semas[x].value > 0 && !p.InDown?
    ensures WakeInv(MoveTo(Take(s, x), p))
  {
    hide ReadyInv;
    hide WaitersInv;
    hide PlacesInv;
    hide LocksInv;
    var s' := MoveTo(Take(s, x), p);
    forall y | y in s'.semas && s'.semas[y].waiters != [] ensures s'.semas[y].value <= |Woken(s', y)| {
      assert s.semas[y].value <= |Woken(s, y)|;
      if y == x {
        assert Woken(s', x) == Woken(s, x) - {s.cur};
      } else {
        WokenKept(s, s', y);
      }
    }
  }

  lemma TakeLists(s: State, x: Sid, p: Place)
    requires MayDown(s, x) && s.semas[x].value > 0 && !p.InDown? && p != Newborn
    ensures var s' := MoveTo(Take(s, x), p); ReadyInv(s') && WaitersInv(s') && PlacesInv(s') && OneRuns(s')
  {
    hide WakeInv;
    hide LocksInv;
    var s' := MoveTo(Take(s, x), p);
    forall t, y ensures Sleeps(s', t, y) <==> Sleeps(s, t, y) {}
  }

  lemma TakeInv(s: State, x: Sid)
    requires MayDown(s, x) && s.semas[x].value > 0
    ensures Inv(MoveTo(Take(s, x), if x in s.locks then Got(x) else Plain))
  {
    var p := if x in s.locks then Got(x) else Plain;
    var s' := MoveTo(Take(s, x), p);
    TakeLists(s, x, p);
    TakeWakes(s, x, p);
    if x in s.locks {
      TakeLock(s, x);
    } else {
      LocksKept(s, s', {s.cur});
    }
    hide *;
  }

  /** A lock that is taken had no owner. */
  lemma TakeLock(s: State, x: Sid)
    requires MayDown(s, x) && s.semas[x].value > 0 && x in s.locks
    ensures LocksInv(MoveTo(Take(s, x), Got(x)))
  {
    hide WakeInv;
    hide ReadyInv;
    hide WaitersInv;
    hide PlacesInv;
    var s' := MoveTo(Take(s, x), Got(x));
    assert LockInv(s, x) && s.locks[x].owners == {};
    assert s'.locks[x].owners == {s.cur};
    forall y | y in s'.locks && y != x ensures LockInv(s', y) {
      assert LockInv(s, y);
      LockKept(s, s', y, {s.cur});
    }
    forall t, y | Between(s', t, y) ensures y in s'.locks {
      assert t != s.cur ==> Between(s, t, y);
    }
    forall t ensures Between(s', t, x) <==> t == s.cur {
      assert t != s.cur ==> (Between(s', t, x) <==> Between(s, t, x));
    }
  }

  lemma TryDownInv(s: State, x: Sid)
    requires Inv(s) && x in s.semas && x !in s.locks && s.semas[x].value > 0
    ensures Inv(Take(s, x))
  {
    var s' := Take(s, x);
    assert forall t, y :: Sleeps(s', t, y) <==> Sleeps(s, t, y);
    forall y | y in s'.semas && s'.semas[y].waiters != [] ensures s'.semas[y].value <= |Woken(s', y)| {
      assert s.semas[y].value <= |Woken(s, y)|;
      WokenKept(s, s', y);
    }
    LocksKept(s, s', {});
  }

  lemma DownInv(s: State, x: Sid)
    requires MayDown(s, x)
    ensures NextThreadToRun(s) in s.threads && Inv(DownLoop(s, x))
  {
    KnownNext(s);
    if s.semas[x].value == 0 {
      WaitInv(s, x);
      ScheduleInv(Wait(s, x));
    } else {
      TakeInv(s, x);
    }
    hide Inv;
  }

  /** Raising a semaphore: the first sleeper, if any, becomes ready; a lock's record is not looked at. */
  lemma UpLists(s: State, x: Sid)
    requires ReadyInv(s) && WaitersInv(s) && PlacesInv(s) && OneRuns(s) && x in s.semas
    requires s.semas[x].waiters != [] ==> Sleeps(s, s.semas[x].waiters[0], x)
    ensures var s' := SemaUp(s, x); ReadyInv(s') && WaitersInv(s') && PlacesInv(s') && OneRuns(s')
  {
    var s' := SemaUp(s, x);
    var q := s.semas[x].waiters;
    if q != [] {
      var w := q[0];
      assert w !in s.ready;
      forall t, y | y in s'.semas ensures t in s'.semas[y].waiters <==> Sleeps(s', t, y) {
        assert t in s.semas[y].waiters <==> Sleeps(s, t, y);
        assert t in q <==> t == w || t in q[1..];
      }
    } else {
      assert forall t, y :: Sleeps(s', t, y) <==> Sleeps(s, t, y);
    }
  }

  lemma UpWakes(s: State, x: Sid)
    requires WakeInv(s) && x in s.semas
    requires s.semas[x].waiters != [] ==> Sleeps(s, s.semas[x].waiters[0], x)
    ensures WakeInv(SemaUp(s, x))
  {
    var s' := SemaUp(s, x);
    var q := s.semas[x].waiters;
    forall y | y in s'.semas && s'.semas[y].waiters != [] ensures s'.semas[y].value <= |Woken(s', y)| {
      assert s.semas[y].value <= |Woken(s, y)|;
      if y == x {
        assert Woken(s', x) == Woken(s, x) + {q[0]} && q[0] !in Woken(s, x);
      } else {
        WokenKept(s, s', y);
      }
    }
  }

  lemma UpInv(s: State, x: Sid)
    requires Inv(s) && x in s.semas && x !in s.locks
    ensures s.semas[x].waiters != [] ==> Sleeps(s, s.semas[x].waiters[0], x)
    ensures Inv(SemaUp(s, x))
  {
    KnownWaiter(s, x);
    UpLists(s, x);
    UpWakes(s, x);
    LocksKept(s, SemaUp(s, x), {});
  }

  // ---------- Locks ----------

  /** Only the running thread moves, and it neither goes to sleep on a semaphore nor comes from there. */
  ghost predicate Steps(s: State, s': State) {
    && s.cur in s.threads && !s.threads[s.cur].place.InDown? && s.threads[s.cur].place != Newborn
    && s.cur in s'.threads && !s'.threads[s.cur].place.InDown? && s'.threads[s.cur].place != Newborn
    && s'.threads == s.threads[s.cur := s'.threads[s.cur]] && s'.threads[s.cur].status == s.threads[s.cur].status
    && s'.cur == s.cur && s'.idle == s.idle && s'.ready == s.ready && s'.semas == s.semas
    && s.cur != s.idle
  }

  lemma StepsLists(s: State, s': State)
    requires ReadyInv(s) && WaitersInv(s) && PlacesInv(s) && WakeInv(s) && OneRuns(s) && Steps(s, s')
    ensures ReadyInv(s') && WaitersInv(s') && PlacesInv(s') && WakeInv(s') && OneRuns(s')
  {
    assert forall t, y :: Sleeps(s', t, y) <==> Sleeps(s, t, y);
    forall y | y in s'.semas ensures |Woken(s', y)| == |Woken(s, y)| {
      WokenKept(s, s', y);
    }
  }

  /** The record of one lock changes together with the place of the running thread. */
  lemma OneLock(s: State, s': State, x: Sid)
    requires LocksInv(s) && SamePlaces(s, s', {s.cur}) && x in s.locks
    requires forall y :: y in s.locks && y != x ==> SameLock(s, s', y)
    requires s'.locks.Keys == s.locks.Keys && LockInv(s', x)
    requires forall y :: y != x ==> !Between(s, s.cur, y) && !Between(s', s.cur, y)
    ensures LocksInv(s')
  {
    forall y | y in s'.locks && y != x ensures LockInv(s', y) {
      LockKept(s, s', y, {s.cur});
    }
    forall t, y | Between(s', t, y) ensures y in s'.locks {
      assert y != x ==> Between(s, t, y);
    }
  }

  lemma HolderSet(s: State, x: Sid)
    requires LocksInv(s) && s.cur in s.threads && s.threads[s.cur].place == Got(x) && x in s.locks
    ensures LocksInv(Hold(s, x, Plain, Some(s.cur)))
  {
    var s' := Hold(s, x, Plain, Some(s.cur));
    assert Between(s, s.cur, x) && LockInv(s, x);
    OnlyOwner(s, s.cur, x);
    forall t ensures !Between(s', t, x) {
      assert Between(s', t, x) ==> t != s.cur && Between(s, t, x);
    }
    OneLock(s, s', x);
  }

  lemma HolderCleared(s: State, x: Sid)
    requires LocksInv(s) && s.cur in s.threads && s.threads[s.cur].place == Plain
    requires x in s.locks && s.locks[x].holder == Some(s.cur)
    ensures LocksInv(Hold(s, x, Releasing(x), None))
  {
    var s' := Hold(s, x, Releasing(x), None);
    assert LockInv(s, x);
    forall t ensures Between(s', t, x) <==> t == s.cur {
      assert t != s.cur ==> (Between(s', t, x) <==> Between(s, t, x));
    }
    OneLock(s, s', x);
  }

  lemma HoldInv(s: State, x: Sid, p: Place, holder: Option<Tid>)
    requires Inv(s) && s.cur in s.threads && x in s.locks && LocksInv(Hold(s, x, p, holder)) && s.cur != s.idle
    requires !s.threads[s.cur].place.InDown? && !p.InDown? && p != Newborn
    ensures Inv(Hold(s, x, p, holder))
  {
    hide LocksInv;
    StepsLists(s, Hold(s, x, p, holder));
  }

  lemma OnlyOwner(s: State, t: Tid, x: Sid)
    requires LockInv(s, x) && t in s.locks[x].owners
    ensures s.locks[x].owners == {t} && s.semas[x].value == 0
  {
    var o := s.locks[x].owners;
    assert |o - {t}| == |o| - 1;
    assert o == (o - {t}) + {t};
  }

  lemma FinishReleaseInv(s: State)
    requires Inv(s) && s.cur in s.threads && s.threads[s.cur].place.Releasing?
    ensures Inv(Do(s, FinishRelease))
  {
    hide ReadyInv;
    hide WaitersInv;
    hide PlacesInv;
    hide WakeInv;
    hide OneRuns;
    var x := s.threads[s.cur].place.lock;
    KnownLock(s, s.cur, x);
    hide LocksInv;
    var d := Drop(s, x);
    KnownWaiter(s, x);
    NotIdle(s);
    StepsLists(s, d);
    UpLists(d, x);
    UpWakes(d, x);
    ReleasedLock(s, x);
  }

  lemma NotIdle(s: State)
    requires PlacesInv(s) && s.cur in s.threads && s.threads[s.cur].place != Plain
    ensures s.cur != s.idle
  {}

  /** A lock that is released has no owner. */
  lemma ReleasedLock(s: State, x: Sid)
    requires Inv(s) && s.cur in s.threads && s.threads[s.cur].place == Releasing(x) && x in s.semas && x in s.locks
    requires s.semas[x].waiters != [] ==> Sleeps(s, s.semas[x].waiters[0], x)
    ensures LocksInv(SemaUp(Drop(s, x), x))
  {
    hide WaitersInv;
    hide WakeInv;
    hide ReadyInv;
    hide PlacesInv;
    var s' := SemaUp(Drop(s, x), x);
    assert Between(s, s.cur, x) && LockInv(s, x);
    OnlyOwner(s, s.cur, x);
    forall t ensures !Between(s', t, x) {
      assert Between(s', t, x) ==> t != s.cur && Between(s, t, x);
    }
    OneLock(s, s', x);
  }

  // ---------- Threads ----------

  ghost predicate Free(s: State, t: Tid) {
    t in s.threads ==> s.threads[t].place == Plain || s.threads[t].place == Newborn
  }

  /** Threads come, go and change their status, but not those that are busy with a semaphore or a lock. */
  ghost predicate Quiet(s: State, s': State, except: set<Tid>) {
    && s'.semas == s.semas && s'.locks == s.locks && SamePlaces(s, s', except)
    && (forall t :: t in except ==> Free(s, t) && Free(s', t))
    && (forall t :: t in s.threads && t in s'.threads && s.threads[t].place.InDown? ==>
          (s.threads[t].status == Blocked <==> s'.threads[t].status == Blocked))
  }

  lemma QuietKept(s: State, s': State, except: set<Tid>)
    requires WaitersInv(s) && WakeInv(s) && LocksInv(s) && Quiet(s, s', except)
    ensures WaitersInv(s') && WakeInv(s') && LocksInv(s')
  {
    forall u, y ensures Sleeps(s', u, y) <==> Sleeps(s, u, y) {}
    forall y | y in s'.semas ensures |Woken(s', y)| == |Woken(s, y)| {
      WokenKept(s, s', y);
    }
    LocksKept(s, s', except);
  }

  lemma CreateInv(s: State, t: Tid)
    requires Inv(s) && t !in s.threads
    ensures Inv(SetThread(s, t, Thread(Blocked, Newborn)))
  {
    hide WaitersInv;
    hide WakeInv;
    hide LocksInv;
    var s' := SetThread(s, t, Thread(Blocked, Newborn));
    assert ReadyInv(s') && PlacesInv(s') && OneRuns(s') by { hide Quiet; }
    QuietKept(s, s', {t});
  }

  lemma StartInv(s: State, t: Tid)
    requires Inv(s) && t in s.threads && s.threads[t].place == Newborn
    ensures Inv(Unblock(SetThread(s, t, Thread(Blocked, Plain)), t))
  {
    hide WaitersInv;
    hide WakeInv;
    hide LocksInv;
    StartLists(s, t);
    QuietKept(s, Unblock(SetThread(s, t, Thread(Blocked, Plain)), t), {t});
  }

  lemma StartLists(s: State, t: Tid)
    requires ReadyInv(s) && PlacesInv(s) && OneRuns(s) && t in s.threads && s.threads[t].place == Newborn
    ensures var s' := Unblock(SetThread(s, t, Thread(Blocked, Plain)), t); ReadyInv(s') && PlacesInv(s') && OneRuns(s')
  {
    assert t !in s.ready && t != s.idle;
  }

  lemma ExitInv(s: State)
    requires Inv(s) && Enabled(s, Exit)
    ensures Inv(Do(s, Exit))
  {
    hide WaitersInv;
    hide WakeInv;
    hide LocksInv;
    hide Schedule;
    var s' := s.(threads := s.threads - {s.cur});
    assert s.cur !in s.ready;
    QuietKept(s, s', {s.cur});
    ScheduleInv(s');
  }

  /** The running thread gives up the processor; it is ready or, if it is the idle thread, blocked. */
  lemma LeaveInv(s: State, status: Status, ready: seq<Tid>)
    requires Inv(s) && s.cur in s.threads && !s.threads[s.cur].place.InDown? && status != Running
    requires status == Blocked ==> s.cur == s.idle
    requires ready == if s.cur == s.idle then s.ready else s.ready + [s.cur]
    ensures var s' := SetThread(s.(ready := ready), s.cur, s.threads[s.cur].(status := status));
            Core(s') && NobodyRuns(s')
  {
    hide WaitersInv;
    hide WakeInv;
    hide LocksInv;
    var s' := SetThread(s.(ready := ready), s.cur, s.threads[s.cur].(status := status));
    LeaveLists(s, status, ready);
    QuietKept(s, s', {});
  }

  lemma LeaveLists(s: State, status: Status, ready: seq<Tid>)
    requires ReadyInv(s) && PlacesInv(s) && OneRuns(s) && s.cur in s.threads && status != Running
    requires !s.threads[s.cur].place.InDown? && (status == Blocked ==> s.cur == s.idle)
    requires ready == if s.cur == s.idle then s.ready else s.ready + [s.cur]
    ensures var s' := SetThread(s.(ready := ready), s.cur, s.threads[s.cur].(status := status));
            ReadyInv(s') && PlacesInv(s') && NobodyRuns(s')
  {
    assert s.cur !in s.ready;
  }

  lemma YieldInv(s: State)
    requires Inv(s) && Enabled(s, Yield)
    ensures Inv(Do(s, Yield))
  {
    hide Core;
    hide OneRuns;
    var ready := if s.cur == s.idle then s.ready else s.ready + [s.cur];
    LeaveInv(s, Ready, ready);
    ScheduleInv(SetThread(s.(ready := ready), s.cur, s.threads[s.cur].(status := Ready)));
  }

  lemma IdleBlockInv(s: State)
    requires Inv(s) && Enabled(s, IdleBlock)
    ensures Inv(Do(s, IdleBlock))
  {
    hide Core;
    hide OneRuns;
    LeaveInv(s, Blocked, s.ready);
    ScheduleInv(SetThread(s, s.cur, s.threads[s.cur].(status := Blocked)));
  }

  lemma NewInv(s: State, step: Step)
    requires Inv(s) && Enabled(s, step) && (step.NewSema? || step.NewLock?)
    ensures Inv(Do(s, step))
  {
    var x, s' := step.s, Do(s, step);
    forall t ensures !Sleeps(s', t, x) && !Between(s', t, x) {
      assert Between(s', t, x) ==> Between(s, t, x) && x in s.locks && LockInv(s, x);
    }
    forall u, y ensures Sleeps(s', u, y) <==> Sleeps(s, u, y) {}
    forall y | y in s'.semas ensures |Woken(s', y)| == |Woken(s, y)| {
      WokenKept(s, s', y);
    }
    forall y | y in s'.locks ensures LockInv(s', y) {
      if y != x || y in s.locks {
        LockKept(s, s', y, {});
      }
    }
    forall t, y | Between(s', t, y) ensures y in s'.locks {
      assert Between(s, t, y);
    }
  }

  // ---------- Every run ----------

  lemma StepInv(s: State, step: Step)
    requires Inv(s) && Enabled(s, step)
    ensures Inv(Do(s, step))
  {
    match step
    case Create(t) => CreateInv(s, t);
    case Start(t) => StartInv(s, t);
    case Exit => ExitInv(s);
    case Yield => YieldInv(s);
    case IdleBlock => IdleBlockInv(s);
    case NewSema(x, v) => NewInv(s, step);
    case NewLock(x) => NewInv(s, step);
    case Down(x) => DownInv(s, x);
    case Acquire(x) => DownInv(s, x);
    case Recheck => DownInv(s, s.threads[s.cur].place.sema);
    case TryDown(x) => if s.semas[x].value > 0 { TryDownInv(s, x); }
    case TryAcquire(x) => if s.semas[x].value > 0 { TakeInv(s, x); }
    case Up(x) => UpInv(s, x);
    case SetHolder =>
      var x := s.threads[s.cur].place.lock;
      KnownLock(s, s.cur, x);
      HolderSet(s, x);
      HoldInv(s, x, Plain, Some(s.cur));
    case Release(x) =>
      HolderCleared(s, x);
      HoldInv(s, x, Releasing(x), None);
    case FinishRelease => FinishReleaseInv(s);
  }

  /** After start-up: the main thread runs and the idle thread waits to be needed. */
  function Initial(first: Tid, idle: Tid): State {
    State(first, idle, map[first := Thread(Running, Plain), idle := Thread(Blocked, Plain)], [], map[], map[])
  }

  ghost predicate IsRun(run: seq<State>, steps: seq<Step>, first: Tid, idle: Tid) {
    && first != idle && |run| == |steps| + 1 && run[0] == Initial(first, idle)
    && (forall i :: 0 <= i < |steps| ==> Follows(run[i], steps[i], run[i + 1]))
  }

  /** The step is taken; it is defined wherever the invariant holds, and that is everywhere by `RunInv`. */
  ghost predicate Follows(s: State, step: Step, s': State) {
    Inv(s) ==> Enabled(s, step) && s' == Do(s, step)
  }

  lemma InitialInv(first: Tid, idle: Tid)
    requires first != idle
    ensures Inv(Initial(first, idle))
  {}

  lemma {:induction false} RunInv(run: seq<State>, steps: seq<Step>, first: Tid, idle: Tid, i: int)
    requires IsRun(run, steps, first, idle) && 0 <= i < |run|
    ensures Inv(run[i])
  {
    if i == 0 {
      InitialInv(first, idle);
    } else {
      RunInv(run, steps, first, idle, i - 1);
      assert Follows(run[i - 1], steps[i - 1], run[i - 1 + 1]);
      StepInv(run[i - 1], steps[i - 1]);
    }
  }

  /** No thread is on two lists, and the ready list misses nobody but the idle thread. */
  lemma ListsAreDisjoint(run: seq<State>, steps: seq<Step>, first: Tid, idle: Tid, i: int, t: Tid, x: Sid, y: Sid)
    requires IsRun(run, steps, first, idle) && 0 <= i < |run| && x in run[i].semas && y in run[i].semas
    ensures var s := run[i];
            && (t in s.ready <==> t in s.threads && t != s.idle && s.threads[t].status == Ready)
            && !(t in s.ready && t in s.semas[x].waiters)
            && (t in s.semas[x].waiters && t in s.semas[y].waiters ==> x == y)
            && NoDup(s.ready) && NoDup(s.semas[x].waiters)
  {
    RunInv(run, steps, first, idle, i);
    var s := run[i];
    assert t in s.semas[x].waiters ==> Sleeps(s, t, x);
    assert t in s.semas[y].waiters ==> Sleeps(s, t, y);
  }

  /** A lock has at most one owner; while it has one, its semaphore is down, and otherwise up. */
  lemma MutualExclusion(run: seq<State>, steps: seq<Step>, first: Tid, idle: Tid, i: int, x: Sid, t: Tid, u: Tid)
    requires IsRun(run, steps, first, idle) && 0 <= i < |run| && x in run[i].locks
    ensures x in run[i].semas
    ensures t in run[i].locks[x].owners && u in run[i].locks[x].owners ==> t == u
    ensures run[i].semas[x].value == if run[i].locks[x].owners == {} then 1 else 0
    ensures run[i].locks[x].holder == Some(t) ==> run[i].locks[x].owners == {t}
  {
    RunInv(run, steps, first, idle, i);
    assert LockInv(run[i], x);
    if t in run[i].locks[x].owners {
      OnlyOwner(run[i], t, x);
    }
  }

  /** No wakeup is lost: while the value is positive and threads sleep, a woken thread is on its way. */
  lemma NoLostWakeup(run: seq<State>, steps: seq<Step>, first: Tid, idle: Tid, i: int, x: Sid)
    requires IsRun(run, steps, first, idle) && 0 <= i < |run| && x in run[i].semas
    requires run[i].semas[x].value > 0 && run[i].semas[x].waiters != []
    ensures run[i].semas[x].value <= |Woken(run[i], x)|
    ensures exists t :: t in Woken(run[i], x) && (t in run[i].ready || t == run[i].cur)
  {
    RunInv(run, steps, first, idle, i);
    var s := run[i];
    assert Woken(s, x) != {};
    var t :| t in Woken(s, x);
    assert t in s.ready || t == s.cur;
  }

  /** The assertions in the source hold: whom `sema_up` unblocks is blocked, and who calls is running. */
  lemma AssertionsHold(run: seq<State>, steps: seq<Step>, first: Tid, idle: Tid, i: int, x: Sid)
    requires IsRun(run, steps, first, idle) && 0 <= i < |run|
    ensures var s := run[i];
            && s.cur in s.threads && s.threads[s.cur].status == Running
            && (x in s.semas && s.semas[x].waiters != [] ==>
                  var w := s.semas[x].waiters[0]; w in s.threads && s.threads[w].status == Blocked)
  {
    RunInv(run, steps, first, idle, i);
    if x in run[i].semas {
      KnownWaiter(run[i], x);
    }
  }

  // ---------- Order ----------

  /** The step gives the processor to another thread. */
  ghost predicate Switches(s: State, step: Step)
    requires Inv(s) && Enabled(s, step)
  {
    match step
    case Exit => true
    case Yield => true
    case IdleBlock => true
    case Down(x) => s.semas[x].value == 0
    case Acquire(x) => s.semas[x].value == 0
    case Recheck => s.semas[s.threads[s.cur].place.sema].value == 0
    case _ => false
  }

  /** The ready threads run in the order of the list. */
  lemma ReadyAdvances(s: State, step: Step, i: int)
    requires Inv(s) && Enabled(s, step) && 0 <= i < |s.ready|
    ensures var s' := Do(s, step);
            if !Switches(s, step) then i < |s'.ready| && s'.ready[i] == s.ready[i]
            else if i == 0 then s'.cur == s.ready[0]
            else i - 1 < |s'.ready| && s'.ready[i - 1] == s.ready[i]
  {
    hide Inv;
  }

  /** The step raises the semaphore. */
  ghost predicate Raises(s: State, step: Step, x: Sid)
    requires Inv(s) && Enabled(s, step)
  {
    step == Up(x) || (step.FinishRelease? && s.threads[s.cur].place.lock == x)
  }

  /** The step completes a `down` of the semaphore. */
  ghost predicate Takes(s: State, step: Step, x: Sid)
    requires Inv(s) && Enabled(s, step)
  {
    && x in s.semas && s.semas[x].value > 0
    && (step == Down(x) || step == Acquire(x) || step == TryDown(x) || step == TryAcquire(x)
        || (step.Recheck? && s.threads[s.cur].place.sema == x))
  }

  /** What a turn of the loop does to the semaphores: a unit is taken or a sleeper is added. */
  lemma DownLoopSemas(s: State, x: Sid, y: Sid)
    requires s.cur in s.threads && x in s.semas && NextThreadToRun(s) in s.threads && y in s.semas
    ensures y in DownLoop(s, x).semas
    ensures var was, now := s.semas[y], DownLoop(s, x).semas[y];
            now == if y != x then was
                   else if was.value == 0 then was.(waiters := was.waiters + [s.cur]) else was.(value := was.value - 1)
  {}

  lemma SemaUpSemas(s: State, x: Sid, y: Sid)
    requires x in s.semas && (s.semas[x].waiters == [] || s.semas[x].waiters[0] in s.threads) && y in s.semas
    ensures y in SemaUp(s, x).semas
    ensures var was, now := s.semas[y], SemaUp(s, x).semas[y];
            now == if y != x then was
                   else Semaphore(was.value + 1, if was.waiters == [] then [] else was.waiters[1..])
    ensures s.semas[x].waiters != [] ==> s.semas[x].waiters[0] in SemaUp(s, x).ready
  {}

  /** What a step may do to a semaphore. */
  ghost predicate Touches(s: State, step: Step, s': State, x: Sid)
    requires Inv(s) && Enabled(s, step) && x in s.semas
  {
    && x in s'.semas
    && var was, now := s.semas[x], s'.semas[x];
    if Raises(s, step, x) then
      && now == Semaphore(was.value + 1, if was.waiters == [] then [] else was.waiters[1..])
      && (was.waiters != [] ==> was.waiters[0] in s'.ready)
    else if Takes(s, step, x) then now == was.(value := was.value - 1)
    else now.value == was.value && (now.waiters == was.waiters || now.waiters == was.waiters + [s.cur])
  }

  lemma DownTouches(s: State, step: Step, x: Sid)
    requires Inv(s) && Enabled(s, step) && x in s.semas && (step.Down? || step.Acquire? || step.Recheck?)
    ensures Touches(s, step, Do(s, step), x)
  {
    hide DownLoop;
    hide Core;
    hide OneRuns;
    var y := if step.Recheck? then s.threads[s.cur].place.sema else step.s;
    assert y in s.semas && NextThreadToRun(s) in s.threads by {
      Parts(s);
      KnownNext(s);
      if step.Recheck? { KnownSema(s, s.cur); }
    }
    DownLoopSemas(s, y, x);
  }

  lemma UpTouches(s: State, step: Step, x: Sid)
    requires Inv(s) && Enabled(s, step) && x in s.semas && (step.Up? || step.FinishRelease?)
    ensures Touches(s, step, Do(s, step), x)
  {
    hide SemaUp;
    hide Core;
    hide OneRuns;
    Parts(s);
    if step.Up? {
      KnownWaiter(s, step.s);
      SemaUpSemas(s, step.s, x);
    } else {
      var y := s.threads[s.cur].place.lock;
      KnownLock(s, s.cur, y);
      KnownWaiter(s, y);
      SemaUpSemas(Drop(s, y), y, x);
    }
  }

  lemma Parts(s: State)
    requires Core(s)
    ensures ReadyInv(s) && WaitersInv(s) && PlacesInv(s) && LocksInv(s)
  {}

  lemma StepTouches(s: State, step: Step, x: Sid)
    requires Inv(s) && Enabled(s, step) && x in s.semas
    ensures Touches(s, step, Do(s, step), x)
  {
    hide Inv;
    if step.Down? || step.Acquire? || step.Recheck? {
      DownTouches(s, step, x);
    } else if step.Up? || step.FinishRelease? {
      UpTouches(s, step, x);
    }
  }

  /** The sleepers on a semaphore are woken in the order of its list. */
  lemma WaitersAdvance(s: State, step: Step, x: Sid, i: int)
    requires Inv(s) && Enabled(s, step) && x in s.semas && 0 <= i < |s.semas[x].waiters|
    ensures var s', q := Do(s, step), s.semas[x].waiters;
            && x in s'.semas
            && var q' := s'.semas[x].waiters;
            if !Raises(s, step, x) then i < |q'| && q'[i] == q[i]
            else if i == 0 then q[0] in s'.ready
            else i - 1 < |q'| && q'[i - 1] == q[i]
  {
    hide Inv;
    hide Do;
    hide Enabled;
    hide Raises;
    hide Takes;
    StepTouches(s, step, x);
  }

  /** The value counts what was raised and not yet taken. */
  lemma ValueMoves(s: State, step: Step, x: Sid)
    requires Inv(s) && Enabled(s, step) && x in s.semas
    ensures x in Do(s, step).semas
    ensures Do(s, step).semas[x].value
            == s.semas[x].value + (if Raises(s, step, x) then 1 else 0) - (if Takes(s, step, x) then 1 else 0)
  {
    StepTouches(s, step, x);
    assert !(Raises(s, step, x) && Takes(s, step, x));
    hide *;
  }

  datatype Event = Switch | Raise(x: Sid) | Taking(x: Sid)

  ghost predicate Happens(s: State, step: Step, e: Event) {
    && Inv(s) && Enabled(s, step)
    && match e
       case Switch => Switches(s, step)
       case Raise(x) => Raises(s, step, x)
       case Taking(x) => Takes(s, step, x)
  }

  /** How often something happens in the steps from `a` to `b`. */
  ghost function Times(run: seq<State>, steps: seq<Step>, a: int, b: int, e: Event): nat
    requires 0 <= a <= b <= |steps| == |run| - 1
    decreases b - a
  {
    if a == b then 0 else (if Happens(run[a], steps[a], e) then 1 else 0) + Times(run, steps, a + 1, b, e)
  }

  lemma RunShape(run: seq<State>, steps: seq<Step>, first: Tid, idle: Tid)
    requires IsRun(run, steps, first, idle)
    ensures |run| == |steps| + 1
  {}

  lemma RunStep(run: seq<State>, steps: seq<Step>, first: Tid, idle: Tid, a: int)
    requires IsRun(run, steps, first, idle) && 0 <= a < |steps|
    ensures Inv(run[a]) && Enabled(run[a], steps[a]) && run[a + 1] == Do(run[a], steps[a])
  {
    RunInv(run, steps, first, idle, a);
    assert Follows(run[a], steps[a], run[a + 1]);
  }

  /** A ready thread gets the processor by the time the threads before it have had it. */
  lemma {:induction false} ReadyThreadRuns(run: seq<State>, steps: seq<Step>, first: Tid, idle: Tid, a: int, b: int,
                                           i: int)
    requires IsRun(run, steps, first, idle) && 0 <= a <= b <= |steps| && 0 <= i < |run[a].ready|
    requires Times(run, steps, a, b, Switch) > i
    ensures exists k :: a < k <= b && run[k].cur == run[a].ready[i]
    decreases b - a
  {
    hide Inv;
    hide Do;
    hide Enabled;
    hide IsRun;
    hide Switches;
    hide Raises;
    RunShape(run, steps, first, idle);
    RunStep(run, steps, first, idle, a);
    ReadyAdvances(run[a], steps[a], i);
    if !Switches(run[a], steps[a]) {
      ReadyThreadRuns(run, steps, first, idle, a + 1, b, i);
    } else if i > 0 {
      ReadyThreadRuns(run, steps, first, idle, a + 1, b, i - 1);
    }
  }

  /** A sleeper is woken by the time its semaphore was raised once for every sleeper up to it. */
  lemma {:induction false} SleeperWakes(run: seq<State>, steps: seq<Step>, first: Tid, idle: Tid, a: int, b: int,
                                        x: Sid, i: int)
    requires IsRun(run, steps, first, idle) && 0 <= a <= b <= |steps| && x in run[a].semas
    requires 0 <= i < |run[a].semas[x].waiters| && Times(run, steps, a, b, Raise(x)) > i
    ensures exists k :: a < k <= b && run[a].semas[x].waiters[i] in run[k].ready
    decreases b - a
  {
    hide Inv;
    hide Do;
    hide Enabled;
    hide IsRun;
    hide Switches;
    hide Raises;
    RunShape(run, steps, first, idle);
    RunStep(run, steps, first, idle, a);
    WaitersAdvance(run[a], steps[a], x, i);
    if !Raises(run[a], steps[a], x) {
      SleeperWakes(run, steps, first, idle, a + 1, b, x, i);
    } else if i > 0 {
      SleeperWakes(run, steps, first, idle, a + 1, b, x, i - 1);
    }
  }

  /** Conservation: no `down` completes without an `up` or a unit of the value to pay for it. */
  lemma {:induction false} ValueBalance(run: seq<State>, steps: seq<Step>, first: Tid, idle: Tid, a: int, b: int,
                                        x: Sid)
    requires IsRun(run, steps, first, idle) && 0 <= a <= b <= |steps| && x in run[a].semas
    ensures x in run[b].semas
    ensures run[b].semas[x].value
            == run[a].semas[x].value + Times(run, steps, a, b, Raise(x)) - Times(run, steps, a, b, Taking(x))
    decreases b - a
  {
    hide Inv;
    hide Do;
    hide Enabled;
    hide Raises;
    hide Takes;
    hide IsRun;
    RunShape(run, steps, first, idle);
    if a < b {
      RunStep(run, steps, first, idle, a);
      ValueMoves(run[a], steps[a], x);
      ValueBalance(run, steps, first, idle, a + 1, b, x);
    }
  }
}
