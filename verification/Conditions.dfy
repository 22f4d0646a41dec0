/**
 * Condition variables on top of the kernel's semaphores and locks. A thread inside `cond_wait` has a semaphore of its
 * own, which is in the list of the condition until somebody signals. The steps are those of the kernel, so a thread
 * may lose the processor anywhere: before it releases the lock, between the release and its sleep, after it was woken.
 * A thread inside `cond_signal` may lose it too, between taking a semaphore off the list and raising it.
 */
module Conditions {
  import opened Basics
  import opened Scheduler

  type Cid = nat

  datatype Cond = Cond(lock: Sid, waiters: seq<Sid>)

  /** How far a thread is in `cond_wait`. */
  datatype Stage =
    | Queued                               // in the list, the lock is still held
    | Leaving                              // the holder is cleared, the lock's semaphore is not yet up
    | Waiting                              // on the way to its own semaphore, or asleep there
    | Returning                            // its own semaphore is down, the lock is being acquired

  datatype Wait = Wait(cond: Cid, sema: Sid, stage: Stage)

  /** A semaphore that a thread inside `cond_signal` has taken off the list and not yet raised. */
  datatype Popped = Popped(cond: Cid, sema: Sid)

  datatype Monitor = Monitor(k: State, conds: map<Cid, Cond>, waits: map<Tid, Wait>, raising: map<Tid, Popped>)

  datatype Action =
    | Kernel(step: Step)                   // of a thread outside of cond_wait and cond_signal
    | Interrupt                            // the timer, inside of them
    | NewCond(c: Cid, lock: Sid)
    | Enter(c: Cid, x: Sid)
    | GoOn                                 // the next step inside cond_wait
    | Signal(c: Cid)                       // the first semaphore leaves the list
    | Wake                                // and goes up

  // ---------- What the actions do ----------

  /** The semaphore that a step of the kernel works on. */
  function Target(s: State, step: Step): Option<Sid>
    requires s.cur in s.threads
  {
    var me := s.threads[s.cur].place;
    match step
    case Down(x) => Some(x)
    case TryDown(x) => Some(x)
    case Up(x) => Some(x)
    case Acquire(x) => Some(x)
    case TryAcquire(x) => Some(x)
    case Recheck => if me.InDown? then Some(me.sema) else None
    case FinishRelease => if me.Releasing? then Some(me.lock) else None
    case _ => None
  }

  /** Some thread inside cond_wait sleeps on this semaphore, or will. */
  ghost predicate Private(m: Monitor, x: Sid) {
    exists t :: t in m.waits && m.waits[t].sema == x
  }

  /** What a thread inside cond_wait does next. */
  function NextStep(m: Monitor): Step
    requires m.k.cur in m.waits && m.k.cur in m.k.threads && m.waits[m.k.cur].cond in m.conds
  {
    var w, p := m.waits[m.k.cur], m.k.threads[m.k.cur].place;
    var lock := m.conds[w.cond].lock;
    match w.stage
    case Queued => Release(lock)
    case Leaving => FinishRelease
    case Waiting => if p.InDown? then Recheck else Down(w.sema)
    case Returning => if p.InDown? then Recheck else if p.Got? then SetHolder else Acquire(lock)
  }

  /** Where that takes it; nowhere, if it returns. */
  function NextStage(m: Monitor): Option<Stage>
    requires m.k.cur in m.waits && m.k.cur in m.k.threads && m.waits[m.k.cur].sema in m.k.semas
  {
    var w, p := m.waits[m.k.cur], m.k.threads[m.k.cur].place;
    match w.stage
    case Queued => Some(Leaving)
    case Leaving => Some(Waiting)
    case Waiting => Some(if m.k.semas[w.sema].value > 0 then Returning else Waiting)
    case Returning => if p.Got? then None else Some(Returning)
  }

  ghost predicate Allowed(m: Monitor, a: Action) {
    && m.k.cur in m.k.threads
    && var me, inside := m.k.threads[m.k.cur].place, m.k.cur in m.waits || m.k.cur in m.raising;
    match a
    case Kernel(step) =>
      !inside && Enabled(m.k, step) && (forall x :: Target(m.k, step) == Some(x) ==> !Private(m, x))
    case Interrupt => inside && Enabled(m.k, Yield)
    case NewCond(c, lock) => !inside && c !in m.conds && lock in m.k.locks
    case Enter(c, x) => !inside && me == Plain && m.k.cur != m.k.idle && Holds(m, c) && x !in m.k.semas
    case GoOn => m.k.cur in m.waits
    case Signal(c) => !inside && me == Plain && m.k.cur != m.k.idle && Holds(m, c)
    case Wake => m.k.cur in m.raising
  }

  /** The running thread holds the lock of the condition. */
  ghost predicate Holds(m: Monitor, c: Cid) {
    c in m.conds && m.conds[c].lock in m.k.locks && m.k.locks[m.conds[c].lock].holder == Some(m.k.cur)
  }

  ghost function Act(m: Monitor, a: Action): Monitor
    requires MInv(m) && Allowed(m, a)
  {
    match a
    case Kernel(step) => m.(k := Do(m.k, step))
    case Interrupt => m.(k := Do(m.k, Yield))
    case NewCond(c, lock) => m.(conds := m.conds[c := Cond(lock, [])])
    case Enter(c, x) =>
      Monitor(Do(m.k, NewSema(x, 0)), m.conds[c := Queue(m.conds[c], x)], m.waits[m.k.cur := Wait(c, x, Queued)],
              m.raising)
    case GoOn =>
      NextEnabled(m);
      var stage := NextStage(m);
      Monitor(Do(m.k, NextStep(m)), m.conds,
              if stage.Some? then m.waits[m.k.cur := m.waits[m.k.cur].(stage := stage.value)]
              else m.waits - {m.k.cur},
              m.raising)
    case Signal(c) =>
      if m.conds[c].waiters == [] then m else Taken(m, c)
    case Wake =>
      RaiseEnabled(m);
      m.(k := Do(m.k, Up(m.raising[m.k.cur].sema)), raising := m.raising - {m.k.cur})
  }

  /** The running thread takes the first semaphore off the list. */
  function Taken(m: Monitor, c: Cid): Monitor
    requires c in m.conds && m.conds[c].waiters != []
  {
    m.(conds := m.conds[c := Pop(m.conds[c])], raising := m.raising[m.k.cur := Popped(c, m.conds[c].waiters[0])])
  }

  function Queue(c: Cond, x: Sid): Cond {
    c.(waiters := c.waiters + [x])
  }

  function Pop(c: Cond): Cond
    requires c.waiters != []
  {
    c.(waiters := c.waiters[1..])
  }

  // ---------- What every action keeps ----------

  ghost predicate Listed(m: Monitor, t: Tid)
    requires t in m.waits && m.waits[t].cond in m.conds
  {
    m.waits[t].sema in m.conds[m.waits[t].cond].waiters
  }

  /** Thread `t` has taken the semaphore of `u` off the list. */
  ghost predicate Pends(m: Monitor, t: Tid, u: Tid) {
    && t in m.raising && u in m.waits && m.waits[u].cond in m.conds && !Listed(m, u) && m.waits[u].stage != Returning
    && m.raising[t] == Popped(m.waits[u].cond, m.waits[u].sema)
  }

  ghost predicate Pending(m: Monitor, x: Sid) {
    exists t :: t in m.raising && m.raising[t].sema == x
  }

  /** The semaphore of the thread was not raised yet. */
  ghost predicate Unraised(m: Monitor, t: Tid)
    requires t in m.waits && m.waits[t].cond in m.conds
  {
    Listed(m, t) || Pending(m, m.waits[t].sema)
  }

  /** Where a thread inside cond_wait is, by its stage. */
  predicate PlaceFits(p: Place, stage: Stage, x: Sid, lock: Sid) {
    match stage
    case Queued => p == Plain
    case Leaving => p == Releasing(lock)
    case Waiting => p == Plain || p == InDown(x)
    case Returning => p == Plain || p == InDown(lock) || p == Got(lock)
  }

  /** Its semaphore: nothing until it is raised, then one unit, which lets the thread pass, and nothing again. */
  predicate SemaFits(s: Semaphore, stage: Stage, unraised: bool, t: Tid) {
    if stage == Returning then !unraised && s == Semaphore(0, [])
    else if unraised then s.value == 0 && (s.waiters == [] || s.waiters == [t])
    else s == Semaphore(1, [])
  }

  ghost predicate WaitOk(m: Monitor, t: Tid) {
    && t in m.waits && m.waits[t].cond in m.conds && t in m.k.threads && t != m.k.idle
    && var w := m.waits[t]; var lock := m.conds[w.cond].lock;
    && w.sema in m.k.semas && w.sema !in m.k.locks && lock in m.k.locks
    && PlaceFits(m.k.threads[t].place, w.stage, w.sema, lock)
    && (m.k.locks[lock].holder == Some(t) <==> w.stage == Queued)
    && SemaFits(m.k.semas[w.sema], w.stage, Unraised(m, t), t)
  }

  /** Who has taken a semaphore off the list holds the lock, and the thread of the semaphore is still there. */
  ghost predicate RaiseOk(m: Monitor, t: Tid) {
    && t in m.raising && t !in m.waits && t in m.k.threads && t != m.k.idle && m.k.threads[t].place == Plain
    && m.raising[t].cond in m.conds
    && var lock := m.conds[m.raising[t].cond].lock;
    && lock in m.k.locks && m.k.locks[lock].holder == Some(t)
    && exists u :: Pends(m, t, u)
  }

  /** The list holds the semaphores of threads inside cond_wait, each once. */
  ghost predicate CondOk(m: Monitor, c: Cid) {
    && c in m.conds && m.conds[c].lock in m.k.locks && NoDup(m.conds[c].waiters)
    && forall x :: x in m.conds[c].waiters ==> exists t :: t in m.waits && m.waits[t].sema == x && m.waits[t].cond == c
  }

  /** Nobody else has anything to do with these semaphores. */
  ghost predicate Apart(m: Monitor) {
    && (forall t, u :: t in m.waits && u in m.waits && m.waits[t].sema == m.waits[u].sema ==> t == u)
    && (forall t, u :: t in m.waits && u in m.k.threads && m.k.threads[u].place == InDown(m.waits[t].sema) ==> u == t)
  }

  ghost predicate MInv(m: Monitor) {
    && Inv(m.k) && Apart(m)
    && (forall t :: t in m.waits ==> WaitOk(m, t))
    && (forall c :: c in m.conds ==> CondOk(m, c))
    && (forall t :: t in m.raising ==> RaiseOk(m, t))
  }

  lemma NextEnabled(m: Monitor)
    requires MInv(m) && m.k.cur in m.waits
    ensures m.k.cur in m.k.threads && m.waits[m.k.cur].cond in m.conds && m.waits[m.k.cur].sema in m.k.semas
    ensures Enabled(m.k, NextStep(m))
  {
    hide Inv;
    hide Apart;
    hide CondOk;
    hide RaiseOk;
    hide Unraised;
    hide MInv;
    CondOf(m, m.k.cur);
    KernelOf(m);
    LockSema(m.k, m.conds[m.waits[m.k.cur].cond].lock);
  }

  lemma RaiseEnabled(m: Monitor)
    requires MInv(m) && m.k.cur in m.raising
    ensures Enabled(m.k, Up(m.raising[m.k.cur].sema))
  {
    hide Inv;
    hide Apart;
    hide CondOk;
    hide Unraised;
    hide MInv;
    RaiserIs(m, m.k.cur);
    var u :| Pends(m, m.k.cur, u);
    CondOf(m, u);
  }

  // ---------- What a step of the kernel leaves alone ----------

  lemma SemaKept(s: State, step: Step, x: Sid)
    requires Inv(s) && Enabled(s, step) && x in s.semas && Target(s, step) != Some(x)
    ensures x in Do(s, step).semas && Do(s, step).semas[x] == s.semas[x]
  {
    hide DownLoop;
    hide SemaUp;
    hide Core;
    hide OneRuns;
    Parts(s);
    KnownNext(s);
    match step {
      case Down(y) => DownLoopSemas(s, y, x);
      case Acquire(y) => DownLoopSemas(s, y, x);
      case Recheck =>
        KnownSema(s, s.cur);
        DownLoopSemas(s, s.threads[s.cur].place.sema, x);
      case Up(y) =>
        KnownWaiter(s, y);
        SemaUpSemas(s, y, x);
      case FinishRelease =>
        var y := s.threads[s.cur].place.lock;
        KnownLock(s, s.cur, y);
        KnownWaiter(s, y);
        SemaUpSemas(Drop(s, y), y, x);
      case _ =>
    }
  }

  /** A thread that does not run stays where it is. */
  lemma PlaceKept(s: State, step: Step, t: Tid)
    requires Inv(s) && Enabled(s, step) && t in s.threads && t != s.cur && s.threads[t].place != Newborn
    ensures t in Do(s, step).threads && Do(s, step).threads[t].place == s.threads[t].place
    ensures Do(s, step).idle == s.idle
  {
    hide Inv;
    if step.Exit? || step.Yield? || step.IdleBlock? {
      SwitchPlaces(s, step, t);
    }
  }

  lemma SwitchPlaces(s: State, step: Step, t: Tid)
    requires Inv(s) && Enabled(s, step) && (step.Exit? || step.Yield? || step.IdleBlock?)
    ensures t in Do(s, step).threads <==> t in s.threads && (step.Exit? ==> t != s.cur)
    ensures t in Do(s, step).threads ==> Do(s, step).threads[t].place == s.threads[t].place
    ensures Do(s, step).idle == s.idle
  {
    hide Inv;
    NextIsThere(s);
    if step.Exit? {
      NextIsOther(s);
    }
  }

  lemma NextIsThere(s: State)
    requires Inv(s)
    ensures NextThreadToRun(s) in s.threads && s.cur in s.threads
  {
    KnownNext(s);
  }

  /** A lock changes hands only by the running thread, to or from itself. */
  lemma HolderKept(s: State, step: Step, lock: Sid, t: Tid)
    requires Inv(s) && Enabled(s, step) && lock in s.locks && t != s.cur
    ensures lock in Do(s, step).locks
            && (Do(s, step).locks[lock].holder == Some(t) <==> s.locks[lock].holder == Some(t))
  {
    hide Core;
    hide OneRuns;
    hide LockInv;
    Parts(s);
    GotIsFree(s, lock);
  }

  lemma GotIsFree(s: State, lock: Sid)
    requires LocksInv(s) && lock in s.locks
    ensures lock in s.semas && (Between(s, s.cur, lock) ==> s.locks[lock].holder == None)
  {
    assert LockInv(s, lock);
  }

  lemma NotALock(s: State, step: Step, x: Sid)
    requires Inv(s) && Enabled(s, step) && x in s.semas && x !in s.locks
    ensures x !in Do(s, step).locks
  {
    hide Core;
    hide OneRuns;
    Parts(s);
    var p := s.threads[s.cur].place;
    if p.Got? || p.Releasing? {
      KnownLock(s, s.cur, p.lock);
    }
  }

  /** Who sleeps, or is about to look again, was there before or has just come. */
  lemma SleepsOnTarget(s: State, step: Step, u: Tid)
    requires Inv(s) && Enabled(s, step) && u in Do(s, step).threads && Do(s, step).threads[u].place.InDown?
    ensures var p := Do(s, step).threads[u].place;
            (u in s.threads && s.threads[u].place == p) || (u == s.cur && Target(s, step) == Some(p.sema))
  {
    hide Inv;
    if step.Down? || step.Acquire? || step.Recheck? || step.Up? || step.FinishRelease? {
      SleepsAtSema(s, step, u);
    } else {
      SleepsElsewhere(s, step, u);
    }
  }

  lemma SleepsElsewhere(s: State, step: Step, u: Tid)
    requires Inv(s) && Enabled(s, step) && u in Do(s, step).threads && Do(s, step).threads[u].place.InDown?
    requires !(step.Down? || step.Acquire? || step.Recheck? || step.Up? || step.FinishRelease?)
    ensures u in s.threads && s.threads[u].place == Do(s, step).threads[u].place
  {
    hide Inv;
    hide DownLoop;
    hide SemaUp;
    hide Schedule;
    if step.Exit? || step.Yield? || step.IdleBlock? {
      SwitchPlaces(s, step, u);
    }
  }

  lemma SleepsAtSema(s: State, step: Step, u: Tid)
    requires Inv(s) && Enabled(s, step) && u in Do(s, step).threads && Do(s, step).threads[u].place.InDown?
    requires step.Down? || step.Acquire? || step.Recheck? || step.Up? || step.FinishRelease?
    ensures var p := Do(s, step).threads[u].place;
            (u in s.threads && s.threads[u].place == p) || (u == s.cur && Target(s, step) == Some(p.sema))
  {
    hide Core;
    hide OneRuns;
    hide DownLoop;
    hide SemaUp;
    hide ReadyInv;
    hide WaitersInv;
    hide PlacesInv;
    Parts(s);
    KnownNext(s);
    match step {
      case Down(x) => DownLoopPlaces(s, x, u);
      case Acquire(x) => DownLoopPlaces(s, x, u);
      case Recheck =>
        KnownSema(s, s.cur);
        DownLoopPlaces(s, s.threads[s.cur].place.sema, u);
      case Up(x) =>
        KnownWaiter(s, x);
        SemaUpPlaces(s, x, u);
      case FinishRelease =>
        var x := s.threads[s.cur].place.lock;
        KnownLock(s, s.cur, x);
        KnownWaiter(s, x);
        SemaUpPlaces(Drop(s, x), x, u);
    }
  }

  lemma DownLoopPlaces(s: State, x: Sid, u: Tid)
    requires s.cur in s.threads && x in s.semas && NextThreadToRun(s) in s.threads && u in DownLoop(s, x).threads
    ensures u in s.threads
    ensures var p := DownLoop(s, x).threads[u].place;
            p == s.threads[u].place || (u == s.cur && (p.InDown? ==> p == InDown(x)))
  {}

  lemma SemaUpPlaces(s: State, x: Sid, u: Tid)
    requires x in s.semas && (s.semas[x].waiters == [] || s.semas[x].waiters[0] in s.threads)
             && u in SemaUp(s, x).threads
    ensures u in s.threads && SemaUp(s, x).threads[u].place == s.threads[u].place
  {}

  /** A turn of the loop of sema_down, for the thread that makes it. */
  lemma DownSelf(s: State, step: Step, x: Sid)
    requires Inv(s) && Enabled(s, step) && (step.Down? || step.Acquire? || step.Recheck?)
    requires x in s.semas && Target(s, step) == Some(x) && s.cur != s.idle
    ensures var s' := Do(s, step);
            && s.cur in s'.threads && s'.idle == s.idle && x in s'.semas && s'.locks.Keys == s.locks.Keys
            && (forall l :: l in s.locks ==> s'.locks[l].holder == s.locks[l].holder)
            && s'.threads[s.cur].place
                == (if s.semas[x].value == 0 then InDown(x) else if x in s.locks then Got(x) else Plain)
            && s'.semas[x] == if s.semas[x].value == 0 then s.semas[x].(waiters := s.semas[x].waiters + [s.cur])
                              else s.semas[x].(value := s.semas[x].value - 1)
  {
    NextIsOther(s);
    hide Inv;
    hide DownLoop;
    DownLoopSelf(s, x);
  }

  lemma DownLoopSelf(s: State, x: Sid)
    requires s.cur in s.threads && x in s.semas && NextThreadToRun(s) in s.threads && NextThreadToRun(s) != s.cur
    ensures var s' := DownLoop(s, x);
            && s.cur in s'.threads && s'.idle == s.idle && x in s'.semas && s'.locks.Keys == s.locks.Keys
            && (forall l :: l in s.locks ==> s'.locks[l].holder == s.locks[l].holder)
            && s'.threads[s.cur].place
                == (if s.semas[x].value == 0 then InDown(x) else if x in s.locks then Got(x) else Plain)
            && s'.semas[x] == if s.semas[x].value == 0 then s.semas[x].(waiters := s.semas[x].waiters + [s.cur])
                              else s.semas[x].(value := s.semas[x].value - 1)
  {}

  // ---------- Every action keeps the invariant ----------

  /** Threads inside cond_wait that do not run, and whose semaphore is not worked on, stay as they are. */
  lemma OtherStays(m: Monitor, m': Monitor, step: Step, t: Tid)
    requires MInv(m) && Enabled(m.k, step) && m'.k == Do(m.k, step)
    requires t in m.waits && t != m.k.cur && t in m'.waits && m'.waits[t] == m.waits[t]
    requires Target(m.k, step) != Some(m.waits[t].sema)
    requires m.waits[t].cond in m.conds && m.waits[t].cond in m'.conds
    requires m'.conds[m.waits[t].cond].lock == m.conds[m.waits[t].cond].lock && (Unraised(m', t) <==> Unraised(m, t))
    ensures WaitOk(m', t)
  {
    assert WaitOk(m, t);
    hide Inv;
    hide Do;
    hide Enabled;
    hide PlaceFits;
    hide SemaFits;
    assert m.k.threads[t].place != Newborn by { NoNewborn(m, t); }
    PlaceKept(m.k, step, t);
    SemaKept(m.k, step, m.waits[t].sema);
    NotALock(m.k, step, m.waits[t].sema);
    HolderKept(m.k, step, m.conds[m.waits[t].cond].lock, t);
  }

  lemma NoNewborn(m: Monitor, t: Tid)
    requires WaitOk(m, t)
    ensures m.k.threads[t].place != Newborn
  {}

  /** Threads inside cond_signal that do not run stay as they are. */
  lemma RaiserStays(m: Monitor, m': Monitor, step: Step, t: Tid)
    requires MInv(m) && Enabled(m.k, step) && m'.k == Do(m.k, step)
    requires t in m.raising && t != m.k.cur && t in m'.raising && m'.raising[t] == m.raising[t] && t !in m'.waits
    requires m.raising[t].cond in m.conds && m.raising[t].cond in m'.conds
    requires m'.conds[m.raising[t].cond].lock == m.conds[m.raising[t].cond].lock
    requires forall u :: Pends(m, t, u) ==> Pends(m', t, u)
    ensures RaiseOk(m', t)
  {
    hide MInv;
    hide Inv;
    hide Do;
    hide Enabled;
    hide Pends;
    RaiserIs(m, t);
    KernelOf(m);
    PlaceKept(m.k, step, t);
    HolderKept(m.k, step, m.conds[m.raising[t].cond].lock, t);
    var u :| Pends(m, t, u);
    assert Pends(m', t, u);
  }

  lemma SamePending(m: Monitor, m': Monitor)
    requires m'.raising == m.raising
    ensures forall x :: Pending(m', x) <==> Pending(m, x)
  {}

  /** Nothing that threads inside cond_signal depend on changes. */
  lemma RaisersStay(m: Monitor, m': Monitor, step: Step)
    requires MInv(m) && Enabled(m.k, step) && m'.k == Do(m.k, step)
    requires forall t :: t in m'.raising ==> t in m.raising && m'.raising[t] == m.raising[t] && t != m.k.cur
    requires forall t :: t in m'.waits && t !in m.waits ==> t == m.k.cur
    requires forall c :: c in m.conds ==> c in m'.conds && m'.conds[c].lock == m.conds[c].lock
    requires forall t, u :: t in m'.raising && Pends(m, t, u) ==> Pends(m', t, u)
    ensures forall t :: t in m'.raising ==> RaiseOk(m', t)
  {
    hide MInv;
    hide Inv;
    hide Do;
    hide Enabled;
    hide Pends;
    forall t | t in m'.raising ensures RaiseOk(m', t) {
      RaiserIs(m, t);
      RaiserStays(m, m', step, t);
    }
  }

  lemma RaiserIs(m: Monitor, t: Tid)
    requires MInv(m) && t in m.raising
    ensures RaiseOk(m, t)
  {}

  /** No thread comes to the semaphore of another. */
  lemma StaysApart(m: Monitor, m': Monitor, step: Step)
    requires MInv(m) && Enabled(m.k, step) && m'.k == Do(m.k, step)
    requires forall t :: t in m'.waits ==> t in m.waits && m'.waits[t].sema == m.waits[t].sema
    requires forall t :: t in m.waits && Target(m.k, step) == Some(m.waits[t].sema) ==> t == m.k.cur || step.Up?
    ensures Apart(m')
  {
    hide Inv;
    hide Enabled;
    hide WaitOk;
    hide CondOk;
    assert Apart(m);
    forall t, u | t in m'.waits && u in m'.k.threads && m'.k.threads[u].place == InDown(m'.waits[t].sema)
      ensures u == t
    {
      SleepsOnTarget(m.k, step, u);
      if step.Up? { UpKeepsPlace(m.k, step, u); }
    }
  }

  lemma UpKeepsPlace(s: State, step: Step, u: Tid)
    requires Inv(s) && Enabled(s, step) && step.Up? && u in Do(s, step).threads
    ensures u in s.threads && Do(s, step).threads[u].place == s.threads[u].place
  {
    KnownWaiter(s, step.s);
    hide Inv;
  }

  lemma CondStays(m: Monitor, m': Monitor, c: Cid)
    requires CondOk(m, c) && c in m'.conds && m'.conds[c] == m.conds[c] && m.k.locks.Keys <= m'.k.locks.Keys
    requires forall t :: t in m.waits && m.waits[t].sema in m.conds[c].waiters ==>
               t in m'.waits && m'.waits[t].sema == m.waits[t].sema && m'.waits[t].cond == m.waits[t].cond
    ensures CondOk(m', c)
  {
    forall x | x in m'.conds[c].waiters
      ensures exists t :: t in m'.waits && m'.waits[t].sema == x && m'.waits[t].cond == c
    {
      var t :| t in m.waits && m.waits[t].sema == x && m.waits[t].cond == c;
      assert t in m'.waits && m'.waits[t].sema == x && m'.waits[t].cond == c;
    }
  }

  lemma LocksStay(s: State, step: Step)
    requires Inv(s) && Enabled(s, step)
    ensures s.locks.Keys <= Do(s, step).locks.Keys
  {
    forall x | x in s.locks ensures x in Do(s, step).locks {
      hide Inv;
      HolderKept(s, step, x, s.cur + 1);
    }
  }

  lemma KernelInv(m: Monitor, step: Step)
    requires MInv(m) && Allowed(m, Kernel(step))
    ensures MInv(Act(m, Kernel(step)))
  {
    hide Inv;
    hide Do;
    hide Enabled;
    hide WaitOk;
    hide CondOk;
    hide RaiseOk;
    hide Pending;
    hide Apart;
    hide Target;
    var m' := Act(m, Kernel(step));
    SamePending(m, m');
    StepInv(m.k, step);
    forall t | t in m.waits ensures Target(m.k, step) != Some(m.waits[t].sema) {
      assert Private(m, m.waits[t].sema);
    }
    forall t | t in m'.waits ensures WaitOk(m', t) {
      CondOf(m, t);
      OtherStays(m, m', step, t);
    }
    StaysApart(m, m', step);
    LocksStay(m.k, step);
    forall c | c in m'.conds ensures CondOk(m', c) {
      CondStays(m, m', c);
    }
    RaisersStay(m, m', step);
  }

  lemma ApartIs(m: Monitor)
    requires MInv(m)
    ensures Apart(m)
  {}

  lemma CondIs(m: Monitor, c: Cid)
    requires MInv(m) && c in m.conds
    ensures CondOk(m, c)
  {}

  lemma KernelOf(m: Monitor)
    requires MInv(m)
    ensures Inv(m.k)
  {}

  lemma SemaOf(m: Monitor, t: Tid)
    requires MInv(m) && t in m.waits
    ensures m.waits[t].sema in m.k.semas
  {
    assert WaitOk(m, t);
  }

  /** A semaphore is in the list of one condition only. */
  lemma OneList(m: Monitor, c: Cid, t: Tid)
    requires MInv(m) && c in m.conds && t in m.waits && m.waits[t].sema in m.conds[c].waiters
    ensures m.waits[t].cond == c
  {
    hide Inv;
    hide WaitOk;
    assert CondOk(m, c) && Apart(m);
    var u :| u in m.waits && m.waits[u].sema == m.waits[t].sema && m.waits[u].cond == c;
    assert u == t;
  }

  lemma LockSema(s: State, lock: Sid)
    requires Inv(s) && lock in s.locks
    ensures lock in s.semas
  {
    assert LockInv(s, lock);
  }

  lemma NotLockYet(s: State, x: Sid)
    requires Inv(s) && x !in s.semas
    ensures x !in s.locks
  {
    if x in s.locks {
      LockSema(s, x);
    }
  }

  lemma NoneThere(s: State, u: Tid, x: Sid)
    requires Inv(s) && x !in s.semas && u in s.threads
    ensures s.threads[u].place != InDown(x)
  {}

  /** The second half of a release, for the thread that makes it. */
  lemma FinishSelf(s: State)
    requires Inv(s) && Enabled(s, FinishRelease)
    ensures var s' := Do(s, FinishRelease);
            && s.cur in s'.threads && s'.threads[s.cur].place == Plain && s'.idle == s.idle
            && s'.locks.Keys == s.locks.Keys
            && (forall l :: l in s.locks ==> s'.locks[l].holder == s.locks[l].holder)
  {
    hide Core;
    hide OneRuns;
    Parts(s);
    var x := s.threads[s.cur].place.lock;
    KnownLock(s, s.cur, x);
    KnownWaiter(s, x);
    hide ReadyInv;
    hide WaitersInv;
    hide PlacesInv;
    hide LocksInv;
  }

  lemma CondOf(m: Monitor, t: Tid)
    requires MInv(m) && t in m.waits
    ensures WaitOk(m, t) && m.waits[t].cond in m.conds
  {}

  lemma InterruptInv(m: Monitor)
    requires MInv(m) && Allowed(m, Interrupt)
    ensures MInv(Act(m, Interrupt))
  {
    hide Inv;
    hide Do;
    hide WaitOk;
    hide CondOk;
    hide RaiseOk;
    hide Pending;
    hide Apart;
    hide Enabled;
    var m' := Act(m, Interrupt);
    SamePending(m, m');
    StepInv(m.k, Yield);
    forall t | t in m'.waits ensures WaitOk(m', t) {
      CondOf(m, t);
      if t == m.k.cur {
        YieldSelf(m, m');
      } else {
        OtherStays(m, m', Yield, t);
      }
    }
    StaysApart(m, m', Yield);
    LocksStay(m.k, Yield);
    forall c | c in m'.conds ensures CondOk(m', c) {
      CondStays(m, m', c);
    }
    forall t | t in m'.raising ensures RaiseOk(m', t) {
      RaiserIs(m, t);
      if t == m.k.cur {
        YieldRaiser(m, m');
      } else {
        RaiserCond(m, t);
        RaiserStays(m, m', Yield, t);
      }
    }
  }

  lemma YieldSelf(m: Monitor, m': Monitor)
    requires WaitOk(m, m.k.cur) && Inv(m.k) && Enabled(m.k, Yield) && m' == m.(k := Do(m.k, Yield))
    ensures WaitOk(m', m.k.cur)
  {
    hide PlaceFits;
    hide SemaFits;
    hide Core;
    hide OneRuns;
    Parts(m.k);
    KnownNext(m.k);
    hide ReadyInv;
    hide WaitersInv;
    hide PlacesInv;
    hide LocksInv;
  }

  lemma YieldRaiser(m: Monitor, m': Monitor)
    requires RaiseOk(m, m.k.cur) && Inv(m.k) && Enabled(m.k, Yield) && m' == m.(k := Do(m.k, Yield))
    ensures RaiseOk(m', m.k.cur)
  {
    hide Core;
    hide OneRuns;
    hide ReadyInv;
    hide WaitersInv;
    hide PlacesInv;
    hide LocksInv;
    Parts(m.k);
    KnownNext(m.k);
    var u :| Pends(m, m.k.cur, u);
    assert Pends(m', m.k.cur, u);
  }

  lemma RaiserCond(m: Monitor, t: Tid)
    requires RaiseOk(m, t)
    ensures t in m.raising && t !in m.waits && m.raising[t].cond in m.conds
  {}

  lemma NewCondInv(m: Monitor, c: Cid, lock: Sid)
    requires MInv(m) && Allowed(m, NewCond(c, lock))
    ensures MInv(Act(m, NewCond(c, lock)))
  {
    hide Inv;
    hide WaitOk;
    hide CondOk;
    hide RaiseOk;
    hide Apart;
    var m' := Act(m, NewCond(c, lock));
    ApartIs(m);
    PopApart(m, m');
    forall t | t in m'.waits ensures WaitOk(m', t) {
      CondOf(m, t);
      MoreConds(m, m', t);
    }
    forall t | t in m'.raising ensures RaiseOk(m', t) {
      RaiserIs(m, t);
      MoreRaisers(m, m', t);
    }
    forall d | d in m'.conds ensures CondOk(m', d) {
      if d != c {
        CondIs(m, d);
        CondStays(m, m', d);
      } else {
        NewCondOk(m', c);
      }
    }
  }

  lemma NewCondOk(m: Monitor, c: Cid)
    requires c in m.conds && m.conds[c].waiters == [] && m.conds[c].lock in m.k.locks
    ensures CondOk(m, c)
  {}

  lemma MoreConds(m: Monitor, m': Monitor, t: Tid)
    requires WaitOk(m, t) && m'.k == m.k && m'.waits == m.waits && m'.raising == m.raising
    requires forall c :: c in m.conds ==> c in m'.conds && m'.conds[c] == m.conds[c]
    ensures WaitOk(m', t)
  {
    hide Pending;
    SamePending(m, m');
  }

  lemma MoreRaisers(m: Monitor, m': Monitor, t: Tid)
    requires RaiseOk(m, t) && m'.k == m.k && m'.waits == m.waits && m'.raising == m.raising
    requires forall c :: c in m.conds ==> c in m'.conds && m'.conds[c] == m.conds[c]
    ensures RaiseOk(m', t)
  {
    var u :| Pends(m, t, u);
    assert Pends(m', t, u);
  }

  // A thread enters.

  lemma EnterInv(m: Monitor, c: Cid, x: Sid)
    requires MInv(m) && Allowed(m, Enter(c, x))
    ensures MInv(Act(m, Enter(c, x)))
  {
    hide Inv;
    hide Apart;
    hide WaitOk;
    hide CondOk;
    hide RaiseOk;
    hide Do;
    hide PlaceFits;
    hide SemaFits;
    var m' := Act(m, Enter(c, x));
    StepInv(m.k, NewSema(x, 0));
    forall u | u in m'.waits ensures WaitOk(m', u) {
      if u != m.k.cur {
        EnterOther(m, m', c, x, u);
      } else {
        EnterSelf(m, m', c, x);
      }
    }
    EnterApart(m, m', c, x);
    forall d | d in m'.conds ensures CondOk(m', d) {
      EnterCond(m, m', c, x, d);
    }
    EnterRaisers(m, m', c, x);
  }

  lemma EnterRaisers(m: Monitor, m': Monitor, c: Cid, x: Sid)
    requires MInv(m) && Allowed(m, Enter(c, x)) && m' == Act(m, Enter(c, x))
    ensures forall t :: t in m'.raising ==> RaiseOk(m', t)
  {
    hide Inv;
    hide Apart;
    hide WaitOk;
    hide CondOk;
    hide RaiseOk;
    hide Do;
    hide MInv;
    forall t, u | t in m'.raising && Pends(m, t, u) ensures Pends(m', t, u) {
      SemaOf(m, u);
    }
    RaisersStay(m, m', NewSema(x, 0));
  }

  lemma EnterOther(m: Monitor, m': Monitor, c: Cid, x: Sid, u: Tid)
    requires MInv(m) && Allowed(m, Enter(c, x)) && m' == Act(m, Enter(c, x)) && u in m.waits && u != m.k.cur
    ensures WaitOk(m', u)
  {
    hide Inv;
    hide Apart;
    hide CondOk;
    hide Do;
    hide PlaceFits;
    hide SemaFits;
    hide MInv;
    CondOf(m, u);
    assert m.waits[u].sema != x;
    assert Unraised(m', u) <==> Unraised(m, u);
    OtherStays(m, m', NewSema(x, 0), u);
  }

  lemma EnterSelf(m: Monitor, m': Monitor, c: Cid, x: Sid)
    requires MInv(m) && Allowed(m, Enter(c, x)) && m' == Act(m, Enter(c, x))
    ensures WaitOk(m', m.k.cur)
  {
    hide Inv;
    hide Apart;
    hide MInv;
    CondIs(m, c);
    KernelOf(m);
    NotLockYet(m.k, x);
    assert x in m'.conds[c].waiters;
  }

  lemma EnterApart(m: Monitor, m': Monitor, c: Cid, x: Sid)
    requires MInv(m) && Allowed(m, Enter(c, x)) && m' == Act(m, Enter(c, x))
    ensures Apart(m')
  {
    hide Inv;
    hide CondOk;
    hide WaitOk;
    hide MInv;
    ApartIs(m);
    KernelOf(m);
    forall u | u in m.waits ensures m.waits[u].sema != x {
      SemaOf(m, u);
    }
    forall u | u in m.k.threads ensures m.k.threads[u].place != InDown(x) {
      NoneThere(m.k, u, x);
    }
  }

  lemma EnterCond(m: Monitor, m': Monitor, c: Cid, x: Sid, d: Cid)
    requires MInv(m) && Allowed(m, Enter(c, x)) && m' == Act(m, Enter(c, x)) && d in m.conds
    ensures CondOk(m', d)
  {
    hide Inv;
    hide Apart;
    hide WaitOk;
    hide MInv;
    CondIs(m, d);
    if x in m.conds[d].waiters {
      ListedKnown(m, d, x);
    }
    forall y | y in m'.conds[d].waiters
      ensures exists t :: t in m'.waits && m'.waits[t].sema == y && m'.waits[t].cond == d
    {
      if y in m.conds[d].waiters {
        var t :| t in m.waits && m.waits[t].sema == y && m.waits[t].cond == d;
        assert t in m'.waits && m'.waits[t].sema == y && m'.waits[t].cond == d;
      } else {
        assert m'.waits[m.k.cur] == Wait(d, y, Queued);
      }
    }
  }

  lemma ListedKnown(m: Monitor, c: Cid, x: Sid)
    requires MInv(m) && c in m.conds && x in m.conds[c].waiters
    ensures x in m.k.semas
  {
    assert CondOk(m, c);
    var t :| t in m.waits && m.waits[t].sema == x && m.waits[t].cond == c;
    assert WaitOk(m, t);
  }

  // A thread inside goes on.

  /** The semaphores that a thread inside works on are its own and the lock's. */
  lemma GoOnTarget(m: Monitor, u: Tid)
    requires MInv(m) && m.k.cur in m.waits && u in m.waits && u != m.k.cur
    ensures m.k.cur in m.k.threads && m.waits[m.k.cur].cond in m.conds
    ensures Target(m.k, NextStep(m)) != Some(m.waits[u].sema)
  {
    hide Inv;
    hide CondOk;
    hide SemaFits;
    hide MInv;
    CondOf(m, m.k.cur);
    CondOf(m, u);
    ApartIs(m);
    assert m.waits[u].sema != m.waits[m.k.cur].sema;
    hide Apart;
  }

  lemma GoOnInv(m: Monitor)
    requires MInv(m) && Allowed(m, GoOn)
    ensures MInv(Act(m, GoOn))
  {
    hide Inv;
    hide Apart;
    hide WaitOk;
    hide CondOk;
    hide RaiseOk;
    hide Pending;
    hide Do;
    hide Enabled;
    hide Target;
    hide NextStep;
    hide NextStage;
    NextEnabled(m);
    var m', step := Act(m, GoOn), NextStep(m);
    SamePending(m, m');
    StepInv(m.k, step);
    forall u | u in m'.waits ensures WaitOk(m', u) {
      CondOf(m, u);
      if u != m.k.cur {
        GoOnTarget(m, u);
        OtherStays(m, m', step, u);
      } else {
        GoOnSelf(m, m');
      }
    }
    forall t | t in m.waits && Target(m.k, step) == Some(m.waits[t].sema) ensures t == m.k.cur || step.Up? {
      if t != m.k.cur { GoOnTarget(m, t); }
    }
    StaysApart(m, m', step);
    LocksStay(m.k, step);
    forall c | c in m'.conds ensures CondOk(m', c) {
      GoOnListed(m, m', c);
      CondStays(m, m', c);
    }
    GoOnRaisers(m, m');
  }

  /** Who waits for a semaphore that is about to be raised waits on. */
  lemma GoOnRaisers(m: Monitor, m': Monitor)
    requires MInv(m) && Allowed(m, GoOn) && m' == Act(m, GoOn)
    ensures forall t :: t in m'.raising ==> RaiseOk(m', t)
  {
    hide Inv;
    hide Apart;
    hide CondOk;
    hide RaiseOk;
    hide Do;
    hide MInv;
    hide Enabled;
    hide NextStep;
    NextEnabled(m);
    CondOf(m, m.k.cur);
    forall t | t in m'.raising ensures t != m.k.cur {
      RaiserIs(m, t);
      RaiserCond(m, t);
    }
    forall t, u | t in m'.raising && Pends(m, t, u) ensures Pends(m', t, u) {
      if u == m.k.cur {
        assert Pending(m, m.waits[u].sema);
      }
    }
    hide WaitOk;
    RaisersStay(m, m', NextStep(m));
  }

  /** Who returns is in no list any more. */
  lemma GoOnListed(m: Monitor, m': Monitor, c: Cid)
    requires MInv(m) && Allowed(m, GoOn) && m' == Act(m, GoOn) && c in m.conds
    ensures forall t :: t in m.waits && m.waits[t].sema in m.conds[c].waiters ==>
              t in m'.waits && m'.waits[t].sema == m.waits[t].sema && m'.waits[t].cond == m.waits[t].cond
  {
    hide Inv;
    hide Do;
    hide Enabled;
    hide NextStep;
    hide MInv;
    CondOf(m, m.k.cur);
    var x := m.waits[m.k.cur].sema;
    if x in m.conds[c].waiters {
      OneList(m, c, m.k.cur);
    }
  }

  lemma GoOnSelf(m: Monitor, m': Monitor)
    requires MInv(m) && Allowed(m, GoOn) && m' == Act(m, GoOn) && m.k.cur in m'.waits
    ensures WaitOk(m', m.k.cur)
  {
    hide Inv;
    hide CondOk;
    hide Apart;
    hide MInv;
    hide WaitOk;
    hide Act;
    match m.waits[m.k.cur].stage {
      case Queued => SelfReleases(m, m');
      case Leaving => SelfLeaves(m, m');
      case Waiting => SelfWaits(m, m');
      case Returning => SelfReturns(m, m');
    }
  }

  lemma SelfReleases(m: Monitor, m': Monitor)
    requires MInv(m) && Allowed(m, GoOn) && m' == Act(m, GoOn) && m.waits[m.k.cur].stage == Queued
    ensures WaitOk(m', m.k.cur)
  {
    hide Inv;
    hide CondOk;
    hide Apart;
    hide MInv;
    CondOf(m, m.k.cur);
    NextEnabled(m);
  }

  lemma SelfLeaves(m: Monitor, m': Monitor)
    requires MInv(m) && Allowed(m, GoOn) && m' == Act(m, GoOn) && m.waits[m.k.cur].stage == Leaving
    ensures WaitOk(m', m.k.cur)
  {
    hide Inv;
    hide CondOk;
    hide Apart;
    hide MInv;
    hide Do;
    CondOf(m, m.k.cur);
    NextEnabled(m);
    KernelOf(m);
    SemaKept(m.k, FinishRelease, m.waits[m.k.cur].sema);
    NotALock(m.k, FinishRelease, m.waits[m.k.cur].sema);
    FinishSelf(m.k);
  }

  lemma SelfWaits(m: Monitor, m': Monitor)
    requires MInv(m) && Allowed(m, GoOn) && m' == Act(m, GoOn) && m.waits[m.k.cur].stage == Waiting
    ensures WaitOk(m', m.k.cur)
  {
    hide Inv;
    hide CondOk;
    hide Apart;
    hide MInv;
    hide Do;
    CondOf(m, m.k.cur);
    NextEnabled(m);
    KernelOf(m);
    var x := m.waits[m.k.cur].sema;
    Awake(m.k, x);
    DownSelf(m.k, NextStep(m), x);
  }

  /** The running thread is on no list. */
  lemma Awake(s: State, x: Sid)
    requires Inv(s) && x in s.semas
    ensures s.cur !in s.semas[x].waiters
  {
    assert s.cur in s.semas[x].waiters ==> Sleeps(s, s.cur, x);
  }

  lemma SelfReturns(m: Monitor, m': Monitor)
    requires MInv(m) && Allowed(m, GoOn) && m' == Act(m, GoOn) && m.waits[m.k.cur].stage == Returning
    requires m.k.cur in m'.waits
    ensures WaitOk(m', m.k.cur)
  {
    hide Inv;
    hide CondOk;
    hide Apart;
    hide MInv;
    hide Do;
    CondOf(m, m.k.cur);
    NextEnabled(m);
    KernelOf(m);
    var lock := m.conds[m.waits[m.k.cur].cond].lock;
    LockSema(m.k, lock);
    DownSelf(m.k, NextStep(m), lock);
    SemaKept(m.k, NextStep(m), m.waits[m.k.cur].sema);
  }

  // A signal.

  lemma SignalInv(m: Monitor, c: Cid)
    requires MInv(m) && Allowed(m, Signal(c))
    ensures MInv(Act(m, Signal(c)))
  {
    hide Inv;
    hide Apart;
    hide WaitOk;
    hide CondOk;
    hide RaiseOk;
    if m.conds[c].waiters != [] {
      var m' := Act(m, Signal(c));
      ApartIs(m);
      PopApart(m, m');
      forall u | u in m'.waits ensures WaitOk(m', u) {
        PopWait(m, m', c, u);
      }
      forall t | t in m'.raising ensures RaiseOk(m', t) {
        PopRaiser(m, m', c, t);
      }
      forall d | d in m'.conds ensures CondOk(m', d) {
        CondIs(m, d);
        if d != c { CondStays(m, m', d); } else { PopCond(m, m', c); }
      }
    }
  }

  lemma PopApart(m: Monitor, m': Monitor)
    requires Apart(m) && m'.waits == m.waits && m'.k == m.k
    ensures Apart(m')
  {}

  /** The first of the list, and nobody else, leaves it; its semaphore is about to be raised instead. */
  lemma PopListed(m: Monitor, m': Monitor, c: Cid, u: Tid)
    requires c in m.conds && m.conds[c].waiters != [] && m' == Taken(m, c)
    requires MInv(m) && m.k.cur !in m.raising && u in m.waits
    ensures m.waits[u].cond in m.conds
    ensures Listed(m', u) <==> Listed(m, u) && m.waits[u].sema != m.conds[c].waiters[0]
    ensures Unraised(m', u) <==> Unraised(m, u)
  {
    hide Inv;
    hide WaitOk;
    hide RaiseOk;
    hide MInv;
    hide Pending;
    var q, x := m.conds[c].waiters, m.waits[u].sema;
    CondOf(m, u);
    CondKnown(m, u);
    CondIs(m, c);
    assert q == [q[0]] + q[1..];
    assert q[0] !in q[1..];
    PopPending(m, m', c, x);
    if x == q[0] {
      assert x in q;
      OneList(m, c, u);
    }
  }

  lemma CondKnown(m: Monitor, u: Tid)
    requires WaitOk(m, u)
    ensures m.waits[u].cond in m.conds
  {}

  lemma PopPending(m: Monitor, m': Monitor, c: Cid, x: Sid)
    requires c in m.conds && m.conds[c].waiters != [] && m.k.cur !in m.raising
    requires m'.raising == m.raising[m.k.cur := Popped(c, m.conds[c].waiters[0])]
    ensures Pending(m', x) <==> Pending(m, x) || x == m.conds[c].waiters[0]
  {
    if Pending(m, x) {
      var t :| t in m.raising && m.raising[t].sema == x;
      assert t in m'.raising && m'.raising[t].sema == x;
    } else if x == m.conds[c].waiters[0] {
      assert m'.raising[m.k.cur].sema == x;
    }
  }

  lemma PopWait(m: Monitor, m': Monitor, c: Cid, u: Tid)
    requires c in m.conds && m.conds[c].waiters != [] && m' == Taken(m, c)
    requires MInv(m) && m.k.cur !in m.raising && u in m.waits
    ensures WaitOk(m', u)
  {
    hide Inv;
    hide PlaceFits;
    hide SemaFits;
    hide Pending;
    hide Listed;
    hide MInv;
    CondOf(m, u);
    hide Unraised;
    PopListed(m, m', c, u);
  }

  lemma PopRaiser(m: Monitor, m': Monitor, c: Cid, t: Tid)
    requires c in m.conds && m.conds[c].waiters != [] && m' == Taken(m, c) && m.k.cur !in m.raising
    requires MInv(m) && Allowed(m, Signal(c)) && t in m'.raising
    ensures RaiseOk(m', t)
  {
    hide Inv;
    hide Pending;
    hide MInv;
    hide Apart;
    if t == m.k.cur {
      var x := m.conds[c].waiters[0];
      CondIs(m, c);
      assert x in m.conds[c].waiters;
      var u :| u in m.waits && m.waits[u].sema == x && m.waits[u].cond == c;
      TakenPends(m, m', c, u);
    } else {
      RaiserIs(m, t);
      var u :| Pends(m, t, u);
      PopListed(m, m', c, u);
      assert Pends(m', t, u);
    }
  }

  lemma TakenPends(m: Monitor, m': Monitor, c: Cid, u: Tid)
    requires c in m.conds && m.conds[c].waiters != [] && m' == Taken(m, c) && m.k.cur !in m.raising
    requires MInv(m) && u in m.waits && m.waits[u].sema == m.conds[c].waiters[0]
    ensures m.waits[u].cond == c && Listed(m, u) && Pends(m', m.k.cur, u)
  {
    hide Inv;
    hide Pending;
    hide MInv;
    hide Apart;
    CondOf(m, u);
    assert m.conds[c].waiters[0] in m.conds[c].waiters;
    OneList(m, c, u);
    PopListed(m, m', c, u);
  }

  lemma PopCond(m: Monitor, m': Monitor, c: Cid)
    requires c in m.conds && m.conds[c].waiters != [] && m' == Taken(m, c) && MInv(m)
    ensures CondOk(m', c)
  {
    hide Inv;
    hide Apart;
    hide WaitOk;
    hide MInv;
    CondIs(m, c);
    forall x | x in m'.conds[c].waiters
      ensures exists t :: t in m'.waits && m'.waits[t].sema == x && m'.waits[t].cond == c
    {
      assert x in m.conds[c].waiters;
    }
  }

  lemma SignalEndsInv(m: Monitor)
    requires MInv(m) && Allowed(m, Wake)
    ensures Raises(m, Act(m, Wake)) && MInv(Act(m, Wake))
  {
    hide Inv;
    hide Apart;
    hide WaitOk;
    hide CondOk;
    hide RaiseOk;
    hide Do;
    hide Enabled;
    RaiseEnabled(m);
    KernelOf(m);
    var m', x := Act(m, Wake), m.raising[m.k.cur].sema;
    assert Raises(m, m');
    StepInv(m.k, Up(x));
    forall u | u in m'.waits ensures WaitOk(m', u) {
      if m.waits[u].sema == x {
        RaiseChosen(m, m', u);
      } else {
        RaiseOther(m, m', u);
      }
    }
    StaysApart(m, m', Up(x));
    LocksStay(m.k, Up(x));
    forall d | d in m'.conds ensures CondOk(m', d) {
      CondStays(m, m', d);
    }
    RaisersStay(m, m', Up(x));
  }

  /** No other thread is about to raise the same semaphore: both would hold the lock. */
  lemma OneRaiser(m: Monitor, t: Tid)
    requires MInv(m) && m.k.cur in m.raising && t in m.raising && m.raising[t].sema == m.raising[m.k.cur].sema
    ensures t == m.k.cur
  {
    hide Inv;
    hide WaitOk;
    hide CondOk;
    hide MInv;
    ApartIs(m);
    RaiserIs(m, t);
    RaiserIs(m, m.k.cur);
    var u :| Pends(m, t, u);
    var v :| Pends(m, m.k.cur, v);
    assert u == v;
  }

  lemma RaisePending(m: Monitor, m': Monitor, x: Sid)
    requires MInv(m) && m.k.cur in m.raising && m'.raising == m.raising - {m.k.cur}
    ensures Pending(m', x) <==> Pending(m, x) && x != m.raising[m.k.cur].sema
  {
    hide Inv;
    hide MInv;
    if Pending(m, x) {
      var t :| t in m.raising && m.raising[t].sema == x;
      if x == m.raising[m.k.cur].sema {
        forall s | s in m'.raising ensures m'.raising[s].sema != x {
          if m.raising[s].sema == x { OneRaiser(m, s); }
        }
      } else {
        assert t in m'.raising;
      }
    }
  }

  /** What the action `Wake` does. */
  ghost predicate Raises(m: Monitor, m': Monitor) {
    && m.k.cur in m.raising && m'.raising == m.raising - {m.k.cur} && m'.waits == m.waits && m'.conds == m.conds
    && Inv(m.k) && Enabled(m.k, Up(m.raising[m.k.cur].sema)) && m'.k == Do(m.k, Up(m.raising[m.k.cur].sema))
  }

  lemma RaiseOther(m: Monitor, m': Monitor, u: Tid)
    requires MInv(m) && Raises(m, m') && u in m.waits && m.waits[u].sema != m.raising[m.k.cur].sema
    ensures WaitOk(m', u)
    ensures m.waits[u].sema in m.k.semas && m.waits[u].sema in m'.k.semas
    ensures m'.k.semas[m.waits[u].sema] == m.k.semas[m.waits[u].sema]
  {
    hide Inv;
    hide CondOk;
    hide RaiseOk;
    hide Do;
    hide Enabled;
    hide SemaFits;
    hide PlaceFits;
    hide Apart;
    hide MInv;
    CondOf(m, u);
    var x := m.raising[m.k.cur].sema;
    NotMyself(m);
    RaisePending(m, m', m.waits[u].sema);
    OtherStays(m, m', Up(x), u);
    SemaKept(m.k, Up(x), m.waits[u].sema);
  }

  lemma NotMyself(m: Monitor)
    requires MInv(m) && m.k.cur in m.raising
    ensures m.k.cur !in m.waits
  {
    assert RaiseOk(m, m.k.cur);
  }

  lemma RaiseChosen(m: Monitor, m': Monitor, t: Tid)
    requires MInv(m) && Raises(m, m') && t in m.waits && m.waits[t].sema == m.raising[m.k.cur].sema
    ensures WaitOk(m', t) && m'.k.semas[m.waits[t].sema] == Semaphore(1, [])
  {
    hide Inv;
    hide Enabled;
    hide Do;
    hide MInv;
    hide CondOk;
    var x := m.raising[m.k.cur].sema;
    CondOf(m, t);
    RaiserIs(m, m.k.cur);
    RaiserPends(m, m.k.cur, t);
    hide RaiseOk;
    NoNewborn(m, t);
    NotMyself(m);
    assert Pending(m, x);
    RaisePending(m, m', x);
    PlaceKept(m.k, Up(x), t);
    NotALock(m.k, Up(x), x);
    HolderKept(m.k, Up(x), m.conds[m.waits[t].cond].lock, t);
    UpSelf(m.k, x);
  }

  lemma RaiserPends(m: Monitor, s: Tid, t: Tid)
    requires MInv(m) && s in m.raising && t in m.waits && m.raising[s].sema == m.waits[t].sema
    ensures Pends(m, s, t)
  {
    hide Inv;
    hide WaitOk;
    hide CondOk;
    hide MInv;
    RaiserIs(m, s);
    ApartIs(m);
    var u :| Pends(m, s, u);
    assert u == t;
  }

  lemma UpSelf(s: State, x: Sid)
    requires Inv(s) && Enabled(s, Up(x))
    ensures x in Do(s, Up(x)).semas
    ensures var was, now := s.semas[x], Do(s, Up(x)).semas[x];
            now == Semaphore(was.value + 1, if was.waiters == [] then [] else was.waiters[1..])
    ensures s.semas[x].waiters != [] ==> s.semas[x].waiters[0] in Do(s, Up(x)).ready
  {
    KnownWaiter(s, x);
    hide Inv;
    SemaUpSemas(s, x, x);
  }

  // ---------- Every run ----------

  lemma ActInv(m: Monitor, a: Action)
    requires MInv(m) && Allowed(m, a)
    ensures MInv(Act(m, a))
  {
    hide MInv;
    hide Allowed;
    match a
    case Kernel(step) => KernelInv(m, step);
    case Interrupt => InterruptInv(m);
    case NewCond(c, lock) => NewCondInv(m, c, lock);
    case Enter(c, x) => EnterInv(m, c, x);
    case GoOn => GoOnInv(m);
    case Signal(c) => SignalInv(m, c);
    case Wake => SignalEndsInv(m);
  }

  ghost predicate IsMRun(run: seq<Monitor>, acts: seq<Action>, first: Tid, idle: Tid) {
    && first != idle && |run| == |acts| + 1 && run[0] == Monitor(Initial(first, idle), map[], map[], map[])
    && (forall i :: 0 <= i < |acts| ==> MFollows(run[i], acts[i], run[i + 1]))
  }

  ghost predicate MFollows(m: Monitor, a: Action, m': Monitor) {
    MInv(m) ==> Allowed(m, a) && m' == Act(m, a)
  }

  lemma {:induction false} MRunInv(run: seq<Monitor>, acts: seq<Action>, first: Tid, idle: Tid, i: int)
    requires IsMRun(run, acts, first, idle) && 0 <= i < |run|
    ensures MInv(run[i])
  {
    if i == 0 {
      InitialInv(first, idle);
    } else {
      hide MInv;
      hide Act;
      hide Allowed;
      MRunInv(run, acts, first, idle, i - 1);
      assert MFollows(run[i - 1], acts[i - 1], run[i - 1 + 1]);
      ActInv(run[i - 1], acts[i - 1]);
    }
  }

  lemma MRunStep(run: seq<Monitor>, acts: seq<Action>, first: Tid, idle: Tid, a: int)
    requires IsMRun(run, acts, first, idle) && 0 <= a < |acts|
    ensures |run| == |acts| + 1
    ensures MInv(run[a]) && Allowed(run[a], acts[a]) && run[a + 1] == Act(run[a], acts[a])
  {
    hide MInv;
    hide Act;
    hide Allowed;
    MRunInv(run, acts, first, idle, a);
    assert MFollows(run[a], acts[a], run[a + 1]);
  }

  // ---------- What holds in every run ----------

  /**
   * No signal is lost. A thread inside cond_wait that was taken off the list and has not noticed yet, be it on its way
   * from the release of the lock to its sleep or already asleep then, has the processor or is ready for it, and its
   * semaphore has the one unit that lets it pass; or the signaller, who has the processor or is ready for it and still
   * holds the lock, is about to raise the semaphore.
   */
  lemma NoSignalLost(run: seq<Monitor>, acts: seq<Action>, first: Tid, idle: Tid, i: int, t: Tid)
    requires IsMRun(run, acts, first, idle) && 0 <= i < |run| && t in run[i].waits
    ensures run[i].waits[t].cond in run[i].conds && run[i].waits[t].sema in run[i].k.semas
    ensures var m, w := run[i], run[i].waits[t];
            w.stage != Returning && !Listed(m, t) ==>
              || (m.k.semas[w.sema] == Semaphore(1, []) && (t == m.k.cur || t in m.k.ready))
              || exists s :: AboutToRaise(m, s, w)
  {
    hide IsMRun;
    MRunInv(run, acts, first, idle, i);
    hide MInv;
    var m, w := run[i], run[i].waits[t];
    CondOf(m, t);
    KernelOf(m);
    if w.stage != Returning && !Listed(m, t) {
      if Pending(m, w.sema) {
        var s :| s in m.raising && m.raising[s].sema == w.sema;
        RaiserRuns(m, s, t);
      } else {
        NotAsleep(m.k, t, w.sema);
      }
    }
  }

  /** Thread `s` runs or is ready, holds the lock of the condition and will raise the semaphore. */
  ghost predicate AboutToRaise(m: Monitor, s: Tid, w: Wait) {
    && s in m.raising && m.raising[s] == Popped(w.cond, w.sema) && (s == m.k.cur || s in m.k.ready)
    && w.cond in m.conds && m.conds[w.cond].lock in m.k.locks
    && m.k.locks[m.conds[w.cond].lock].holder == Some(s)
  }

  lemma RaiserRuns(m: Monitor, s: Tid, t: Tid)
    requires MInv(m) && s in m.raising && t in m.waits && m.raising[s].sema == m.waits[t].sema
    ensures AboutToRaise(m, s, m.waits[t])
  {
    hide WaitOk;
    hide CondOk;
    RaiserIs(m, s);
    RaiserPends(m, s, t);
    assert s in m.k.threads && m.k.threads[s].place == Plain && s != m.k.idle;
  }

  /** A thread that is on its way to a semaphore nobody sleeps on is not blocked. */
  lemma NotAsleep(s: State, t: Tid, x: Sid)
    requires Inv(s) && t in s.threads && t != s.idle && x in s.semas && s.semas[x].waiters == []
    requires !s.threads[t].place.InDown? || s.threads[t].place == InDown(x)
    requires s.threads[t].place != Newborn
    ensures t == s.cur || t in s.ready
  {
    assert !Sleeps(s, t, x);
  }

  /**
   * Nobody gets past its sleep without a signal: a thread stays in the list until its condition is signalled, and does
   * not return before its semaphore is raised.
   */
  lemma NoneUnsignalled(run: seq<Monitor>, acts: seq<Action>, first: Tid, idle: Tid, i: int, t: Tid)
    requires IsMRun(run, acts, first, idle) && 0 <= i < |acts| && t in run[i].waits
    ensures run[i].waits[t].cond in run[i].conds
    ensures Unraised(run[i], t) ==>
              && t in run[i + 1].waits && run[i + 1].waits[t].stage != Returning
              && run[i + 1].waits[t].cond in run[i + 1].conds
              && (Listed(run[i], t) && acts[i] != Signal(run[i].waits[t].cond) ==> Listed(run[i + 1], t))
              && (Unraised(run[i + 1], t) || (acts[i] == Wake && Pends(run[i], run[i].k.cur, t)))
  {
    hide IsMRun;
    hide MInv;
    hide Act;
    hide Allowed;
    MRunStep(run, acts, first, idle, i);
    StaysUnraised(run[i], acts[i], t);
  }

  lemma StaysUnraised(m: Monitor, a: Action, t: Tid)
    requires MInv(m) && Allowed(m, a) && t in m.waits
    ensures m.waits[t].cond in m.conds
    ensures var m' := Act(m, a);
            Unraised(m, t) ==>
              && t in m'.waits && m'.waits[t].stage != Returning && m'.waits[t].cond in m'.conds
              && (Listed(m, t) && a != Signal(m.waits[t].cond) ==> Listed(m', t))
              && (Unraised(m', t) || (a == Wake && Pends(m, m.k.cur, t)))
  {
    hide Inv;
    hide Apart;
    hide CondOk;
    hide RaiseOk;
    hide Do;
    hide NextStep;
    hide Enabled;
    hide MInv;
    CondOf(m, t);
    if a.Signal? && m.conds[a.c].waiters != [] {
      PopListed(m, Act(m, a), a.c, t);
    } else if a.Wake? {
      RaisePending(m, Act(m, a), m.waits[t].sema);
      if m.waits[t].sema == m.raising[m.k.cur].sema {
        RaiserPends(m, m.k.cur, t);
      }
    }
  }

  /** A signal takes exactly the first thread off the list; no semaphore moves yet. */
  lemma SignalTakesFirst(m: Monitor, c: Cid, t: Tid)
    requires MInv(m) && Allowed(m, Signal(c)) && c in m.conds && m.conds[c].waiters != []
    requires t in m.waits && m.waits[t].sema == m.conds[c].waiters[0]
    ensures Act(m, Signal(c)) == Taken(m, c)
    ensures m.waits[t].cond == c && Listed(m, t) && Pends(Taken(m, c), m.k.cur, t)
    ensures forall u :: u in m.waits && u != t ==>
              && m.waits[u].cond in m.conds && (Listed(Taken(m, c), u) <==> Listed(m, u))
  {
    hide Inv;
    hide CondOk;
    hide RaiseOk;
    hide WaitOk;
    hide Pending;
    hide MInv;
    TakenPends(m, Taken(m, c), c, t);
    ApartIs(m);
    forall u | u in m.waits && u != t
      ensures m.waits[u].cond in m.conds && (Listed(Taken(m, c), u) <==> Listed(m, u))
    {
      PopListed(m, Taken(m, c), c, u);
    }
  }

  /** The raise wakes that thread if it sleeps, lets it pass in any case, and leaves all others as they are. */
  lemma RaiseWakes(m: Monitor, m': Monitor, t: Tid)
    requires MInv(m) && m.k.cur in m.raising && Raises(m, m')
    requires t in m.waits && m.waits[t].sema == m.raising[m.k.cur].sema
    ensures m'.waits == m.waits && m'.conds == m.conds && m'.raising == m.raising - {m.k.cur}
    ensures m.waits[t].sema in m'.k.semas && m'.k.semas[m.waits[t].sema] == Semaphore(1, [])
    ensures t == m'.k.cur || t in m'.k.ready
    ensures forall u :: u in m.waits && u != t ==>
              && m.waits[u].sema in m.k.semas && m.waits[u].sema in m'.k.semas
              && m'.k.semas[m.waits[u].sema] == m.k.semas[m.waits[u].sema]
  {
    hide Inv;
    hide Do;
    hide Enabled;
    hide MInv;
    hide CondOk;
    hide RaiseOk;
    hide Pending;
    RaiserPends(m, m.k.cur, t);
    RaiseChosen(m, m', t);
    StepInv(m.k, Up(m.raising[m.k.cur].sema));
    NotAsleep(m'.k, t, m.waits[t].sema);
    ApartIs(m);
    forall u | u in m.waits && u != t
      ensures && m.waits[u].sema in m.k.semas && m.waits[u].sema in m'.k.semas
              && m'.k.semas[m.waits[u].sema] == m.k.semas[m.waits[u].sema]
    {
      RaiseOther(m, m', u);
    }
  }

  /** A thread leaves cond_wait only by its own step, and then it holds the lock. */
  lemma ReturnsHolding(m: Monitor, a: Action, t: Tid)
    requires MInv(m) && Allowed(m, a) && t in m.waits && t !in Act(m, a).waits
    ensures a == GoOn && t == m.k.cur && m.waits[t].cond in m.conds
    ensures var m', lock := Act(m, a), m.conds[m.waits[t].cond].lock;
            lock in m'.k.locks && m'.k.locks[lock] == Lock(Some(t), {t})
  {
    hide Inv;
    hide Apart;
    hide CondOk;
    hide MInv;
    hide Enabled;
    CondOf(m, t);
    KernelOf(m);
    NextEnabled(m);
    HolderSelf(m.k);
  }

  lemma HolderSelf(s: State)
    requires Inv(s) && Enabled(s, SetHolder)
    ensures var lock := s.threads[s.cur].place.lock;
            lock in Do(s, SetHolder).locks && Do(s, SetHolder).locks[lock] == Lock(Some(s.cur), {s.cur})
  {
    var lock := s.threads[s.cur].place.lock;
    assert Between(s, s.cur, lock);
    KnownLock(s, s.cur, lock);
    OnlyOwner(s, s.cur, lock);
  }

  // ---------- Order ----------

  /** How often a condition is signalled in the actions from `a` to `b`. */
  ghost function Signals(acts: seq<Action>, a: int, b: int, c: Cid): nat
    requires 0 <= a <= b <= |acts|
    decreases b - a
  {
    if a == b then 0 else (if acts[a] == Signal(c) then 1 else 0) + Signals(acts, a + 1, b, c)
  }

  /** The list moves on at its head with a signal, and only then; new threads come at its end. */
  lemma ListAdvances(m: Monitor, a: Action, c: Cid, i: int)
    requires MInv(m) && Allowed(m, a) && c in m.conds && 0 <= i < |m.conds[c].waiters|
    ensures var m', q := Act(m, a), m.conds[c].waiters;
            && c in m'.conds
            && var q' := m'.conds[c].waiters;
            if a != Signal(c) then i < |q'| && q'[i] == q[i]
            else if i == 0 then q' == q[1..]
            else i - 1 < |q'| && q'[i - 1] == q[i]
  {
    hide MInv;
    hide Do;
    hide Enabled;
    hide NextStep;
    hide NextStage;
  }

  /** Only a thread that holds the lock of a condition changes its list. */
  lemma ListByHolder(m: Monitor, a: Action, c: Cid)
    requires MInv(m) && Allowed(m, a) && c in m.conds
    ensures c in Act(m, a).conds
    ensures Act(m, a).conds[c] != m.conds[c] ==> Holds(m, c) && (a == Signal(c) || (a.Enter? && a.c == c))
  {
    hide MInv;
    hide Do;
    hide Enabled;
    hide NextStep;
    hide NextStage;
  }

  /** First come, first served: a thread is off the list by the time every thread up to it was signalled. */
  lemma {:induction false} WaiterSignalled(run: seq<Monitor>, acts: seq<Action>, first: Tid, idle: Tid,
                                           a: int, b: int, c: Cid, i: int)
    requires IsMRun(run, acts, first, idle) && 0 <= a <= b <= |acts| && c in run[a].conds
    requires 0 <= i < |run[a].conds[c].waiters| && Signals(acts, a, b, c) > i
    ensures exists j :: a <= j < b && acts[j] == Signal(c) && c in run[j].conds && run[j].conds[c].waiters != []
                        && run[j].conds[c].waiters[0] == run[a].conds[c].waiters[i]
    decreases b - a
  {
    hide IsMRun;
    hide MInv;
    hide Act;
    hide Allowed;
    MRunStep(run, acts, first, idle, a);
    ListAdvances(run[a], acts[a], c, i);
    if acts[a] != Signal(c) {
      WaiterSignalled(run, acts, first, idle, a + 1, b, c, i);
    } else if i > 0 {
      WaiterSignalled(run, acts, first, idle, a + 1, b, c, i - 1);
    }
  }
}
