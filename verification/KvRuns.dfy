/**
 * Stretches of runs of the replicated store, with their steps: a request that gets its votes takes effect exactly if
 * it can, and can always be completed; a read finds what is committed, and fails only if no replica had it.
 */
module KvRuns {
  import opened Basics
  import opened KvServer
  import opened KvReplica
  import opened TwoPhaseCommit

  ghost predicate Leads(cfg: Config, s: State, step: Step, t: State) {
    Enabled(cfg, s, step) && t == Do(cfg, s, step)
  }

  /** A stretch of a run: from each state the step leads to the next one. */
  ghost predicate IsTrace(cfg: Config, run: seq<State>, steps: seq<Step>) {
    |run| == |steps| + 1 && forall i :: 0 <= i < |steps| ==> Leads(cfg, run[i], steps[i], run[i + 1])
  }

  lemma ReachableInv(cfg: Config, s: State)
    requires WellFormed(cfg) && Reachable(cfg, s)
    ensures Inv(cfg, s)
  {
    var run: seq<State> :| IsRun(cfg, run) && run[|run| - 1] == s;
    RunInv(cfg, run, |run| - 1);
  }

  lemma {:induction false} TraceReachable(cfg: Config, run: seq<State>, steps: seq<Step>, n: nat)
    requires IsTrace(cfg, run, steps) && Reachable(cfg, run[0]) && n < |run|
    ensures Reachable(cfg, run[n])
  {
    hide Reachable;
    if n > 0 {
      TraceReachable(cfg, run, steps, n - 1);
      assert Leads(cfg, run[n - 1], steps[n - 1], run[n]);
      ReachNext(cfg, run[n - 1], steps[n - 1], run[n]);
    }
  }

  // ---------- The outcome of a request ----------

  /** The step is neither a vote that the master gets no answer to nor garbled mail. */
  predicate Undisturbed(step: Step) {
    !step.VoteFails? && !step.GarbleMail?
  }

  /**
   * A request from its beginning until the master is idle again. Every vote is answered, and mail that is answered
   * was read; reads, evictions, crashes, lost mail and repeated decisions may come in between.
   */
  ghost predicate RequestRun(cfg: Config, run: seq<State>, steps: seq<Step>, req: Request) {
    && IsTrace(cfg, run, steps) && steps != [] && steps[0] == Begin(req)
    && (forall i :: 0 < i < |steps| ==> !run[i].phase.Idle? && Undisturbed(steps[i]))
    && run[|steps|].phase.Idle?
  }

  /** The votes and the decision are the ones that the committed values call for, and no reply is a bad one. */
  ghost predicate OnCourse(s: State, was: map<Key, Value>, req: Request) {
    && s.committed == was && req.key !in s.doubtful && req.key != ""
    && match s.phase
       case Idle => false
       case Voting(r, _, votes) =>
         && r == req && (forall i :: 0 <= i < |votes| ==> votes[i] == Accepts(was, req))
         && (s.wait.Replied? ==> (s.wait.reply == Ready <==> Accepts(was, req)))
       case Deciding(r, d, _, bad, _) =>
         && r == req && (d == Commit <==> Accepts(was, req))
         && (d == Commit ==> !bad && (s.wait.Replied? ==> s.wait.reply == Ack))
       case Flushing(r) => r == req && Accepts(was, req)
  }

  /** The end of a request: what is committed, and what the cache has. */
  ghost predicate Ended(s: State, was: map<Key, Value>, req: Request) {
    && s.committed == (if Accepts(was, req) then ApplyTo(was, req) else was)
    && (Accepts(was, req) ==> Lookup(s.cache, req.key) == Outcome(req))
  }

  /** What a replica answers is what the committed value calls for. */
  lemma ReplyOnCourse(cfg: Config, s: State, id: Id, was: map<Key, Value>, req: Request)
    requires Inv(cfg, s) && OnCourse(s, was, req) && Enabled(cfg, s, HandleMail(id))
    ensures var reply := Handle(s.slaves[id].replica, s.slaves[id].inbox[0].msg).1;
            && (s.phase.Voting? ==> (reply == Some(Ready) <==> Accepts(was, req)))
            && (s.phase.Deciding? && s.phase.decision == Commit ==> reply == Some(Ack))
  {
    var slave := s.slaves[id];
    HomesMatch(cfg, s, id);
    assert BoxInv(cfg, s.phase, s.sent, id, slave.inbox) && Consistent(slave.replica);
    if s.phase.Voting? {
      assert IsHome(cfg, req.key, id) && ShowsCurrent(cfg, s, req.key);
      VotesForAccepted(slave.replica, req);
      SameAccepts(slave.replica.store, was, req);
    } else if s.phase.Deciding? {
      hide Consistent;
      HandleKeepsConsistent(slave.replica, slave.inbox[0].msg);
    }
  }

  lemma MailOnCourse(cfg: Config, s: State, id: Id, was: map<Key, Value>, req: Request)
    requires Inv(cfg, s) && OnCourse(s, was, req) && Enabled(cfg, s, HandleMail(id))
    ensures OnCourse(Do(cfg, s, HandleMail(id)), was, req)
  {
    hide Handle;
    hide Inv;
    hide Accepts;
    ReplyOnCourse(cfg, s, id, was, req);
  }

  /** Whether a request can take effect depends on the value of its key only. */
  lemma SameAccepts(store: Store, other: Store, req: Request)
    requires Lookup(store, req.key) == Lookup(other, req.key)
    ensures Accepts(store, req) <==> Accepts(other, req)
  {}

  lemma VoteOnCourse(cfg: Config, s: State, was: map<Key, Value>, req: Request)
    requires OnCourse(s, was, req) && Enabled(cfg, s, VoteArrives)
    ensures OnCourse(Do(cfg, s, VoteArrives), was, req)
  {
    hide Accepts;
  }

  lemma DecisionOnCourse(cfg: Config, s: State, was: map<Key, Value>, req: Request)
    requires Inv(cfg, s) && OnCourse(s, was, req) && Enabled(cfg, s, Decide_)
    ensures OnCourse(Do(cfg, s, Decide_), was, req)
  {
    hide ValueInv;
    hide WaitInv;
    hide Accepts;
    hide BoxInv;
    hide Consistent;
    assert |s.phase.votes| == 2 && s.phase.votes[0] in s.phase.votes;
  }

  lemma FlushEnds(cfg: Config, s: State, was: map<Key, Value>, req: Request)
    requires Inv(cfg, s) && OnCourse(s, was, req) && Enabled(cfg, s, Flush)
    ensures Ended(Do(cfg, s, Flush), was, req) && Do(cfg, s, Flush).doubtful == s.doubtful
  {
    hide Inv;
  }

  lemma StepOnCourse(cfg: Config, s: State, step: Step, was: map<Key, Value>, req: Request)
    requires Inv(cfg, s) && OnCourse(s, was, req) && Enabled(cfg, s, step) && Undisturbed(step)
    ensures var t := Do(cfg, s, step);
            t.doubtful == s.doubtful && if t.phase.Idle? then Ended(t, was, req) else OnCourse(t, was, req)
  {
    hide Inv;
    hide Accepts;
    hide ApplyTo;
    hide Handle;
    match step
    case HandleMail(id) => MailOnCourse(cfg, s, id, was, req);
    case VoteArrives => VoteOnCourse(cfg, s, was, req);
    case Decide_ => DecisionOnCourse(cfg, s, was, req);
    case Flush => FlushEnds(cfg, s, was, req);
    case _ =>
  }

  lemma {:induction false} TraceOnCourse(cfg: Config, run: seq<State>, steps: seq<Step>, req: Request, n: nat)
    requires WellFormed(cfg) && RequestRun(cfg, run, steps, req) && Reachable(cfg, run[0]) && 0 < n <= |steps|
    requires req.key !in run[0].doubtful
    ensures run[n].doubtful == run[0].doubtful
    ensures if n == |steps| then Ended(run[n], run[0].committed, req) else OnCourse(run[n], run[0].committed, req)
  {
    hide Reachable;
    hide Inv;
    hide OnCourse;
    hide Ended;
    assert Leads(cfg, run[n - 1], steps[n - 1], run[n]);
    if n == 1 {
      BeginOnCourse(cfg, run[0], req);
    } else {
      TraceOnCourse(cfg, run, steps, req, n - 1);
      TraceReachable(cfg, run, steps, n - 1);
      ReachableInv(cfg, run[n - 1]);
      StepOnCourse(cfg, run[n - 1], steps[n - 1], run[0].committed, req);
    }
  }

  lemma BeginOnCourse(cfg: Config, s: State, req: Request)
    requires Enabled(cfg, s, Begin(req)) && req.key !in s.doubtful
    ensures OnCourse(Do(cfg, s, Begin(req)), s.committed, req)
  {}

  /**
   * A request takes effect exactly if it can: a put if key and value keep the rules, a delete if its key is there. At
   * its end both replicas have what is committed, and so has the cache.
   */
  lemma RequestTakesEffect(cfg: Config, run: seq<State>, steps: seq<Step>, req: Request)
    requires WellFormed(cfg) && RequestRun(cfg, run, steps, req) && Reachable(cfg, run[0])
    requires req.key !in run[0].doubtful
    ensures var s, t := run[0], run[|steps|];
            && t.doubtful == s.doubtful
            && t.committed == (if Accepts(s.committed, req) then ApplyTo(s.committed, req) else s.committed)
            && (Accepts(s.committed, req) ==> Lookup(t.cache, req.key) == Outcome(req))
            && forall k, j :: 0 <= j < 2 && k !in s.doubtful ==> Settled(cfg, t, k, j)
  {
    hide Reachable;
    hide Inv;
    TraceOnCourse(cfg, run, steps, req, |steps|);
    TraceReachable(cfg, run, steps, |steps|);
    hide IsTrace;
    hide Accepts;
    forall k, j | 0 <= j < 2 && k !in run[0].doubtful
      ensures Settled(cfg, run[|steps|], k, j)
    {
      IdleSettled(cfg, run[|steps|], k, j);
    }
  }

  /** The replica has the committed value of the key, and the cache has no other. */
  ghost predicate Settled(cfg: Config, s: State, k: Key, j: int) {
    && Home(cfg, k, j) in s.slaves && Lookup(s.slaves[Home(cfg, k, j)].replica.store, k) == Lookup(s.committed, k)
    && (k in s.cache ==> Some(s.cache[k]) == Lookup(s.committed, k))
  }

  lemma IdleSettled(cfg: Config, s: State, k: Key, j: int)
    requires WellFormed(cfg) && Reachable(cfg, s) && s.phase.Idle? && k !in s.doubtful
    ensures Settled(cfg, s, k, j)
  {
    var run: seq<State> :| IsRun(cfg, run) && run[|run| - 1] == s;
    ReplicasAndCacheAgree(cfg, run, |run| - 1, k);
  }

  /** A delete of a key that is there leaves it nowhere. */
  lemma DeleteRemoves(cfg: Config, run: seq<State>, steps: seq<Step>, k: Key)
    requires WellFormed(cfg) && RequestRun(cfg, run, steps, DelReq(k)) && Reachable(cfg, run[0])
    requires k !in run[0].doubtful && k in run[0].committed
    ensures var t := run[|steps|];
            && k !in t.committed && k !in t.cache
            && cfg.first(k) in t.slaves && k !in t.slaves[cfg.first(k)].replica.store
            && cfg.second(k) in t.slaves && k !in t.slaves[cfg.second(k)].replica.store
  {
    hide Reachable;
    RequestTakesEffect(cfg, run, steps, DelReq(k));
    assert Settled(cfg, run[|steps|], k, 0) && Settled(cfg, run[|steps|], k, 1);
  }

  /** A put that keeps the rules leaves the value everywhere. */
  lemma PutStores(cfg: Config, run: seq<State>, steps: seq<Step>, k: Key, v: Value)
    requires WellFormed(cfg) && RequestRun(cfg, run, steps, PutReq(k, v)) && Reachable(cfg, run[0])
    requires k !in run[0].doubtful && 1 <= |k| <= 256 && 1 <= |v| <= 262144
    ensures var t := run[|steps|];
            && Lookup(t.committed, k) == Some(v) && Lookup(t.cache, k) == Some(v)
            && cfg.first(k) in t.slaves && Lookup(t.slaves[cfg.first(k)].replica.store, k) == Some(v)
            && cfg.second(k) in t.slaves && Lookup(t.slaves[cfg.second(k)].replica.store, k) == Some(v)
  {
    hide Reachable;
    RequestTakesEffect(cfg, run, steps, PutReq(k, v));
    assert Settled(cfg, run[|steps|], k, 0) && Settled(cfg, run[|steps|], k, 1);
  }

  // ---------- Reads ----------

  /** Reads are for proper keys, ask two replicas at most and find proper values. */
  ghost predicate ReadersOk(s: State) {
    forall t :: t in s.readers ==>
      && s.readers[t].key != ""
      && (if s.readers[t].Asking? then s.readers[t].j <= 2 else s.readers[t].value != "")
  }

  lemma {:induction false} ReadersOkRun(cfg: Config, run: seq<State>, n: nat)
    requires WellFormed(cfg) && IsRun(cfg, run) && n < |run|
    ensures ReadersOk(run[n])
  {
    if n > 0 {
      ReadersOkRun(cfg, run, n - 1);
      RunInv(cfg, run, n - 1);
      assert Follows(cfg, run[n - 1], run[n]);
      var step :| Enabled(cfg, run[n - 1], step) && run[n] == Do(cfg, run[n - 1], step);
      hide IsRun;
      ReadersOkStep(cfg, run[n - 1], step);
    }
  }

  lemma ReadersOkStep(cfg: Config, s: State, step: Step)
    requires Inv(cfg, s) && ReadersOk(s) && Enabled(cfg, s, step)
    ensures ReadersOk(Do(cfg, s, step))
  {
    hide Inv;
    hide Handle;
    hide ReplayAll;
    if step.ReadAsks? {
      ProperValue(cfg, s, Home(cfg, s.readers[step.t].key, s.readers[step.t].j), s.readers[step.t].key);
    }
  }

  lemma ProperValue(cfg: Config, s: State, id: Id, k: Key)
    requires Inv(cfg, s) && id in s.slaves
    ensures Lookup(s.slaves[id].replica.store, k) != Some("")
  {
    hide PhaseInv;
    hide WaitInv;
    hide ValueInv;
    assert Consistent(s.slaves[id].replica);
  }

  lemma ReachableReaders(cfg: Config, s: State)
    requires WellFormed(cfg) && Reachable(cfg, s)
    ensures ReadersOk(s)
  {
    var run: seq<State> :| IsRun(cfg, run) && run[|run| - 1] == s;
    ReadersOkRun(cfg, run, |run| - 1);
  }

  /** A replica that answers gives the committed value; only if there is none does the read go on. */
  lemma ReadFindsCommitted(cfg: Config, s: State, t: Thread)
    requires WellFormed(cfg) && Reachable(cfg, s) && Enabled(cfg, s, ReadAsks(t, true))
    requires s.readers[t].key !in s.doubtful && !InCommit(s.phase, s.readers[t].key)
    ensures var k := s.readers[t].key;
            Do(cfg, s, ReadAsks(t, true)).readers[t] ==
              if k in s.committed then Found(k, s.committed[k]) else Asking(k, s.readers[t].j + 1)
  {
    var run: seq<State> :| IsRun(cfg, run) && run[|run| - 1] == s;
    ReplicasAndCacheAgree(cfg, run, |run| - 1, s.readers[t].key);
  }

  /** What a read found is in the cache from then on; a read that found nothing leaves the cache as it is. */
  lemma ReadFillsCache(cfg: Config, s: State, t: Thread)
    requires WellFormed(cfg) && Reachable(cfg, s) && Enabled(cfg, s, ReadEnds(t))
    ensures var s' := Do(cfg, s, ReadEnds(t));
            && t !in s'.readers
            && s'.cache == match s.readers[t]
                           case Found(k, v) => s.cache[k := v]
                           case Asking(_, _) => s.cache
  {
    hide Reachable;
    ReachableReaders(cfg, s);
  }

  /** The read asked replica `j` and got no answer, or the answer that there is no value. */
  ghost predicate AskedInVain(cfg: Config, s: State, step: Step, t: Thread, k: Key, j: nat) {
    && step.ReadAsks? && step.t == t && t in s.readers && s.readers[t] == Asking(k, j)
    && Home(cfg, k, j) in s.slaves && (step.answered ==> k !in s.slaves[Home(cfg, k, j)].replica.store)
  }

  ghost predicate Reading(s: State, t: Thread, k: Key) {
    t in s.readers && s.readers[t].key == k
  }

  /** During the read that is under way in state `n` replica `j` was asked in vain. */
  ghost predicate VainSince(cfg: Config, run: seq<State>, steps: seq<Step>, n: nat, t: Thread, k: Key, j: nat)
    requires n <= |steps| < |run|
  {
    exists i :: 0 <= i < n && AskedInVain(cfg, run[i], steps[i], t, k, j)
                && forall m :: i <= m <= n ==> Reading(run[m], t, k)
  }

  /** A read that is past replica `j` asked it in vain. */
  lemma {:induction false} PastInVain(cfg: Config, run: seq<State>, steps: seq<Step>, n: nat, t: Thread, j: nat)
    requires IsTrace(cfg, run, steps) && t !in run[0].readers && n < |run|
    requires t in run[n].readers && run[n].readers[t].Asking? && j < run[n].readers[t].j
    ensures var k := run[n].readers[t].key;
            VainSince(cfg, run, steps, n, t, k, j)
  {
    var k := run[n].readers[t].key;
    assert Leads(cfg, run[n - 1], steps[n - 1], run[n]);
    ReadBefore(cfg, run[n - 1], steps[n - 1], run[n], t);
    hide Leads;
    hide AskedInVain;
    if AskedInVain(cfg, run[n - 1], steps[n - 1], t, k, j) {
      assert forall m :: n - 1 <= m <= n ==> Reading(run[m], t, k);
    } else {
      StillAsking(cfg, run[n - 1], steps[n - 1], t, k, run[n].readers[t].j);
      PastInVain(cfg, run, steps, n - 1, t, j);
      var i :| 0 <= i < n - 1 && AskedInVain(cfg, run[i], steps[i], t, k, j)
               && forall m :: i <= m <= n - 1 ==> Reading(run[m], t, k);
      assert forall m :: i <= m <= n ==> Reading(run[m], t, k);
    }
  }

  lemma StillAsking(cfg: Config, s: State, step: Step, t: Thread, k: Key, j: nat)
    requires j > 0 && ((Reading(s, t, k) && s.readers[t] == Asking(k, j)) || AskedInVain(cfg, s, step, t, k, j - 1))
    ensures t in s.readers && s.readers[t].Asking? && s.readers[t].key == k && s.readers[t].j >= j - 1
    ensures !AskedInVain(cfg, s, step, t, k, j - 1) ==> s.readers[t].j == j
  {}

  /** Where a read that is not at its start comes from. */
  lemma ReadBefore(cfg: Config, s: State, step: Step, s': State, t: Thread)
    requires Leads(cfg, s, step, s') && t in s'.readers && s'.readers[t].Asking? && s'.readers[t].j > 0
    ensures var r := s'.readers[t];
            && t in s.readers && s.readers[t].key == r.key
            && (s.readers[t] == r || AskedInVain(cfg, s, step, t, r.key, r.j - 1))
  {
    hide Handle;
    hide ReplayAll;
  }

  /** A read that ends without a value asked both replicas, and neither gave it one. */
  lemma EmptyRead(cfg: Config, run: seq<State>, steps: seq<Step>, n: nat, t: Thread)
    requires IsTrace(cfg, run, steps) && t !in run[0].readers && n < |steps| && steps[n] == ReadEnds(t)
    requires t in run[n].readers && run[n].readers[t].Asking?
    ensures var k := run[n].readers[t].key;
            VainSince(cfg, run, steps, n, t, k, 0) && VainSince(cfg, run, steps, n, t, k, 1)
  {
    assert Leads(cfg, run[n], steps[n], run[n + 1]);
    PastInVain(cfg, run, steps, n, t, 0);
    PastInVain(cfg, run, steps, n, t, 1);
  }

  lemma LeadsReach(cfg: Config, s: State, step: Step, t: State)
    requires Reachable(cfg, s) && Leads(cfg, s, step, t)
    ensures Reachable(cfg, t)
  {
    hide Reachable;
    ReachNext(cfg, s, step, t);
  }

  lemma EvictLeads(cfg: Config, s: State, k: Key)
    ensures Leads(cfg, s, Evict(k), s.(cache := s.cache - {k}))
  {}

  lemma StartLeads(cfg: Config, s: State, t: Thread, k: Key)
    requires t !in s.readers && k != "" && k !in s.cache && LockFree(cfg, s, k)
    ensures Leads(cfg, s, ReadStart(t, k), s.(readers := s.readers[t := Asking(k, 0)]))
  {}

  lemma AnswerLeads(cfg: Config, s: State, t: Thread, k: Key)
    requires WellFormed(cfg) && Reachable(cfg, s) && t in s.readers && s.readers[t] == Asking(k, 0)
    requires k in s.committed && k !in s.doubtful && !InCommit(s.phase, k)
    ensures Leads(cfg, s, ReadAsks(t, true), s.(readers := s.readers[t := Found(k, s.committed[k])]))
  {
    ReachableInv(cfg, s);
    assert Home(cfg, k, 0) in s.slaves;
    hide Reachable;
    hide Inv;
    ReadFindsCommitted(cfg, s, t);
  }

  lemma EndLeads(cfg: Config, s: State, t: Thread, k: Key, v: Value)
    requires WellFormed(cfg) && Reachable(cfg, s) && t in s.readers && s.readers[t] == Found(k, v)
    ensures Leads(cfg, s, ReadEnds(t), s.(readers := s.readers - {t}, cache := s.cache[k := v]))
  {
    hide Reachable;
    ReadFillsCache(cfg, s, t);
  }

  /** After an eviction a read that gets an answer from the first replica puts the committed value back. */
  lemma ReadRefills(cfg: Config, s: State, t: Thread, k: Key) returns (run: seq<State>)
    requires WellFormed(cfg) && Reachable(cfg, s) && k in s.committed && k !in s.doubtful && !InCommit(s.phase, k)
    requires k != "" && t !in s.readers && LockFree(cfg, s, k)
    ensures IsTrace(cfg, run, [Evict(k), ReadStart(t, k), ReadAsks(t, true), ReadEnds(t)]) && run[0] == s
    ensures Reading(run[3], t, k) && run[3].readers[t] == Found(k, s.committed[k])
    ensures run[4].cache == s.cache[k := s.committed[k]] && run[4].readers == s.readers
  {
    hide Reachable;
    hide Leads;
    var v := s.committed[k];
    var s1 := s.(cache := s.cache - {k});
    var s2 := s1.(readers := s.readers[t := Asking(k, 0)]);
    var s3 := s1.(readers := s.readers[t := Found(k, v)]);
    var s4 := s.(cache := s.cache[k := v]);
    EvictLeads(cfg, s, k);
    LeadsReach(cfg, s, Evict(k), s1);
    StartLeads(cfg, s1, t, k);
    LeadsReach(cfg, s1, ReadStart(t, k), s2);
    AnswerLeads(cfg, s2, t, k);
    assert s2.readers[t := Found(k, v)] == s3.readers;
    LeadsReach(cfg, s2, ReadAsks(t, true), s3);
    EndLeads(cfg, s3, t, k, v);
    assert s3.readers - {t} == s.readers && s3.cache[k := v] == s4.cache;
    run := [s, s1, s2, s3, s4];
  }

  // ---------- A request can be completed ----------

  /** The mail that the master waits for is the last in the box of its replica. */
  ghost predicate Awaited(cfg: Config, s: State) {
    && (s.phase.Voting? || s.phase.Deciding?) && s.wait.Waiting? && Target(cfg, s.phase) in s.slaves
    && var box := s.slaves[Target(cfg, s.phase)].inbox;
    && box != [] && box[|box| - 1].serial == s.wait.serial
  }

  /** The master waits for a reply that cannot come, since the mail was lost. */
  ghost predicate Lost(cfg: Config, s: State) {
    (s.phase.Voting? || s.phase.Deciding?) && s.phase.j < 2 && s.wait.Waiting? && !Awaited(cfg, s)
  }

  /** A crash of the replica loses the mail that the master waits for, and so does the network if it is alone. */
  lemma MailIsLost(cfg: Config, s: State)
    requires Awaited(cfg, s) && s.phase.j < 2
    ensures var id := Target(cfg, s.phase);
            && (Enabled(cfg, s, Crash(id)) ==> Lost(cfg, Do(cfg, s, Crash(id))))
            && (|s.slaves[id].inbox| == 1 ==> Lost(cfg, Do(cfg, s, LoseMail(id))))
  {
    hide ReplayAll;
  }

  /** The step that brings the request forward; a vote is given up only if its mail is lost. */
  ghost function NextStep(cfg: Config, s: State): Step
    requires !s.phase.Idle?
  {
    if s.phase.Flushing? then Flush
    else if s.phase.j == 2 then (if s.phase.Voting? then Decide_ else Finish)
    else if s.wait.NotSent? then (if s.phase.Voting? then SendVote else SendDecision)
    else if s.wait.Replied? then (if s.phase.Voting? then VoteArrives else DecisionArrives)
    else if Awaited(cfg, s) then HandleMail(Target(cfg, s.phase))
    else if s.phase.Voting? then VoteFails else DecisionRetries
  }

  /** What is left to do: the phases, the replicas, the stages with one replica and the mail in its box. */
  ghost function PhasesLeft(s: State): nat {
    match s.phase case Idle => 0 case Flushing(_) => 1 case Deciding(_, _, _, _, _) => 2 case Voting(_, _, _) => 3
  }

  ghost function ReplicasLeft(s: State): int {
    if s.phase.Voting? || s.phase.Deciding? then 2 - s.phase.j else 0
  }

  ghost function StagesLeft(cfg: Config, s: State): nat {
    if s.wait.Replied? then 0 else if s.wait.NotSent? then 2 else if Awaited(cfg, s) then 1 else 3
  }

  ghost function BoxLeft(cfg: Config, s: State): nat {
    if (s.phase.Voting? || s.phase.Deciding?) && Target(cfg, s.phase) in s.slaves
    then |s.slaves[Target(cfg, s.phase)].inbox| else 0
  }

  ghost predicate Nearer(cfg: Config, s: State, t: State) {
    && 0 <= ReplicasLeft(t)
    && (PhasesLeft(t) < PhasesLeft(s) || (PhasesLeft(t) == PhasesLeft(s)
        && (ReplicasLeft(t) < ReplicasLeft(s) || (ReplicasLeft(t) == ReplicasLeft(s)
            && (StagesLeft(cfg, t) < StagesLeft(cfg, s) || (StagesLeft(cfg, t) == StagesLeft(cfg, s)
                && BoxLeft(cfg, t) < BoxLeft(cfg, s)))))))
  }

  lemma Dealing(cfg: Config, s: State)
    requires Inv(cfg, s) && (s.phase.Voting? || s.phase.Deciding?)
    ensures 0 <= s.phase.j <= 2 && Target(cfg, s.phase) in s.slaves
    ensures s.phase.j == 2 || s.phase.j < 2
  {
    hide ValueInv;
    hide WaitInv;
  }

  /** A replica that handles its mail leaves less of it, and answers the last one. */
  lemma MailForward(cfg: Config, s: State)
    requires Inv(cfg, s) && Awaited(cfg, s) && s.phase.j < 2
    ensures var id := Target(cfg, s.phase);
            && Enabled(cfg, s, HandleMail(id))
            && var t := Do(cfg, s, HandleMail(id));
            && t.phase == s.phase && BoxLeft(cfg, t) < BoxLeft(cfg, s) && (t.wait.Replied? || Awaited(cfg, t))
  {
    hide Inv;
    hide Handle;
    HasReply(cfg, s, Target(cfg, s.phase));
  }

  /** A replica that is asked something has an answer. */
  lemma HasReply(cfg: Config, s: State, id: Id)
    requires Inv(cfg, s) && id in s.slaves && s.slaves[id].inbox != []
    ensures Handle(s.slaves[id].replica, s.slaves[id].inbox[0].msg).1.Some?
  {
    hide PhaseInv;
    hide WaitInv;
    hide ValueInv;
    hide BoxInv;
    HomesMatch(cfg, s, id);
    assert Consistent(s.slaves[id].replica);
    hide Consistent;
    HandleKeepsConsistent(s.slaves[id].replica, s.slaves[id].inbox[0].msg);
  }

  lemma SendForward(cfg: Config, s: State, m: Message)
    requires (s.phase.Voting? || s.phase.Deciding?) && Target(cfg, s.phase) in s.slaves
    ensures Awaited(cfg, Send(cfg, s, m)) && Send(cfg, s, m).phase == s.phase
  {}

  lemma StepForward(cfg: Config, s: State)
    requires Inv(cfg, s) && !s.phase.Idle? && (s.phase.Flushing? ==> LockFree(cfg, s, s.phase.req.key))
    ensures var step := NextStep(cfg, s);
            && Enabled(cfg, s, step) && !step.GarbleMail?
            && var t := Do(cfg, s, step);
            && Nearer(cfg, s, t)
            && (!Lost(cfg, s) ==> Undisturbed(step) && !Lost(cfg, t))
  {
    hide Handle;
    hide Inv;
    hide Awaited;
    hide BoxLeft;
    if s.phase.Voting? || s.phase.Deciding? {
      Dealing(cfg, s);
      if s.phase.j < 2 && s.wait.NotSent? {
        SendForward(cfg, s, if s.phase.Voting? then Vote(s.phase.req) else Decide(s.phase.decision));
      } else if s.phase.j < 2 && Awaited(cfg, s) {
        MailForward(cfg, s);
      }
    }
  }

  /** A request is under way in every state that a step is taken from, and no mail is garbled. */
  ghost predicate Busy(run: seq<State>, steps: seq<Step>, calm: bool)
    requires |run| == |steps| + 1
  {
    forall i :: 0 <= i < |steps| ==>
      !run[i].phase.Idle? && !steps[i].GarbleMail? && (calm ==> Undisturbed(steps[i]))
  }

  lemma TraceJoin(cfg: Config, run: seq<State>, steps: seq<Step>, run': seq<State>, steps': seq<Step>, calm: bool)
    requires IsTrace(cfg, run, steps) && IsTrace(cfg, run', steps') && run[|steps|] == run'[0]
    ensures IsTrace(cfg, run + run'[1..], steps + steps')
    ensures Busy(run, steps, calm) && Busy(run', steps', calm) ==> Busy(run + run'[1..], steps + steps', calm)
    ensures (run + run'[1..])[|steps + steps'|] == run'[|steps'|]
  {
    hide Leads;
    hide Undisturbed;
    var all, n := run + run'[1..], |steps|;
    forall i | 0 <= i <= |steps + steps'| ensures all[i] == if i <= n then run[i] else run'[i - n] {}
    forall i | 0 <= i < |steps + steps'|
      ensures Leads(cfg, all[i], (steps + steps')[i], all[i + 1])
      ensures all[i] == if i < n then run[i] else run'[i - n]
    {
      if i < n {
        assert Leads(cfg, run[i], steps[i], run[i + 1]);
      } else {
        assert Leads(cfg, run'[i - n], steps'[i - n], run'[i - n + 1]);
      }
    }
  }

  ghost predicate SameButReads(s: State, t: State) {
    t == s.(readers := t.readers, cache := t.cache)
  }

  /** A read can always come to its end. */
  lemma {:induction false} EndRead(cfg: Config, s: State, t: Thread) returns (run: seq<State>, steps: seq<Step>)
    requires WellFormed(cfg) && Reachable(cfg, s) && t in s.readers && !s.phase.Idle?
    ensures IsTrace(cfg, run, steps) && run[0] == s && Busy(run, steps, true)
    ensures SameButReads(s, run[|steps|]) && run[|steps|].readers == s.readers - {t}
    decreases if s.readers[t].Asking? then 2 - s.readers[t].j else 0
  {
    hide Reachable;
    ReachableInv(cfg, s);
    ReachableReaders(cfg, s);
    var r := s.readers[t];
    assert r.Asking? && r.j < 2 ==> Home(cfg, r.key, r.j) in s.slaves;
    hide Inv;
    hide Leads;
    if r.Asking? && r.j < 2 {
      var s' := s.(readers := s.readers[t := Asking(r.key, r.j + 1)]);
      VainLeads(cfg, s, t);
      LeadsReach(cfg, s, ReadAsks(t, false), s');
      assert s'.readers - {t} == s.readers - {t};
      var run', steps' := EndRead(cfg, s', t);
      TraceJoin(cfg, [s, s'], [ReadAsks(t, false)], run', steps', true);
      run, steps := [s, s'] + run'[1..], [ReadAsks(t, false)] + steps';
    } else {
      var s' := StopLeads(cfg, s, t);
      run, steps := [s, s'], [ReadEnds(t)];
    }
  }

  lemma VainLeads(cfg: Config, s: State, t: Thread)
    requires t in s.readers && s.readers[t].Asking? && s.readers[t].j < 2
    requires Home(cfg, s.readers[t].key, s.readers[t].j) in s.slaves
    ensures var r := s.readers[t];
            Leads(cfg, s, ReadAsks(t, false), s.(readers := s.readers[t := Asking(r.key, r.j + 1)]))
  {}

  lemma StopLeads(cfg: Config, s: State, t: Thread) returns (s': State)
    requires t in s.readers && (s.readers[t].Asking? ==> s.readers[t].j == 2)
    ensures Leads(cfg, s, ReadEnds(t), s') && SameButReads(s, s') && s'.readers == s.readers - {t}
  {
    s' := Do(cfg, s, ReadEnds(t));
  }

  /** All reads that hold the lock of a key can come to their ends. */
  lemma {:induction false} Unlocks(cfg: Config, s: State, k: Key) returns (run: seq<State>, steps: seq<Step>)
    requires WellFormed(cfg) && Reachable(cfg, s) && !s.phase.Idle?
    ensures IsTrace(cfg, run, steps) && run[0] == s && Busy(run, steps, true)
    ensures SameButReads(s, run[|steps|]) && LockFree(cfg, run[|steps|], k)
    decreases |s.readers|
  {
    hide Reachable;
    hide Leads;
    hide Undisturbed;
    run, steps := [s], [];
    if !LockFree(cfg, s, k) {
      var t :| t in s.readers && cfg.setOf(s.readers[t].key) == cfg.setOf(k);
      run, steps := EndRead(cfg, s, t);
      var s' := run[|steps|];
      assert s'.readers.Keys == s.readers.Keys - {t};
      assert |s'.readers.Keys| < |s.readers.Keys|;
      TraceReachable(cfg, run, steps, |steps|);
      var run', steps' := Unlocks(cfg, s', k);
      TraceJoin(cfg, run, steps, run', steps', true);
      run, steps := run + run'[1..], steps + steps';
    }
  }

  /** Once the reads are out of the lock the master updates its cache and is idle again. */
  lemma FlushCompletes(cfg: Config, s: State) returns (run: seq<State>, steps: seq<Step>)
    requires WellFormed(cfg) && Reachable(cfg, s) && s.phase.Flushing?
    ensures IsTrace(cfg, run, steps) && run[0] == s && Busy(run, steps, true) && run[|steps|].phase.Idle?
  {
    run, steps := Unlocks(cfg, s, s.phase.req.key);
    var u := run[|steps|];
    var t := Do(cfg, u, Flush);
    assert Leads(cfg, u, Flush, t);
    hide Leads;
    TraceJoin(cfg, run, steps, [u, t], [Flush], true);
    run, steps := run + [u, t][1..], steps + [Flush];
  }

  /** A request that is under way can be brought to its end, and if no mail is lost then without giving up a vote. */
  lemma {:induction false} Completes(cfg: Config, s: State) returns (run: seq<State>, steps: seq<Step>)
    requires WellFormed(cfg) && Reachable(cfg, s) && !s.phase.Idle?
    ensures IsTrace(cfg, run, steps) && run[0] == s && Busy(run, steps, !Lost(cfg, s)) && run[|steps|].phase.Idle?
    decreases PhasesLeft(s), ReplicasLeft(s), StagesLeft(cfg, s), BoxLeft(cfg, s)
  {
    hide Reachable;
    hide Inv;
    hide Lost;
    hide Awaited;
    hide Undisturbed;
    if s.phase.Flushing? {
      run, steps := FlushCompletes(cfg, s);
      return;
    }
    ReachableInv(cfg, s);
    StepForward(cfg, s);
    var step := NextStep(cfg, s);
    var t := Do(cfg, s, step);
    assert Leads(cfg, s, step, t);
    LeadsReach(cfg, s, step, t);
    hide Leads;
    hide Do;
    hide Enabled;
    hide NextStep;
    run, steps := [s, t], [step];
    if !t.phase.Idle? {
      var run', steps' := Completes(cfg, t);
      TraceJoin(cfg, run, steps, run', steps', !Lost(cfg, s));
      run, steps := run + run'[1..], steps + steps';
    }
  }

  /** The store is never stuck: from every reachable state the master can become idle without garbled mail. */
  lemma NeverStuck(cfg: Config, s: State) returns (run: seq<State>, steps: seq<Step>)
    requires WellFormed(cfg) && Reachable(cfg, s)
    ensures IsTrace(cfg, run, steps) && run[0] == s && run[|steps|].phase.Idle?
    ensures forall step :: step in steps ==> !step.GarbleMail?
  {
    hide Reachable;
    run, steps := [s], [];
    if !s.phase.Idle? {
      run, steps := Completes(cfg, s);
    }
  }

  /** From every reachable idle state every request can be run to its end with all its votes answered. */
  lemma RequestCompletes(cfg: Config, s: State, req: Request) returns (run: seq<State>, steps: seq<Step>)
    requires WellFormed(cfg) && Reachable(cfg, s) && s.phase.Idle? && req.key != ""
    ensures RequestRun(cfg, run, steps, req) && run[0] == s
  {
    hide Reachable;
    var t := Do(cfg, s, Begin(req));
    assert Leads(cfg, s, Begin(req), t) && !Lost(cfg, t);
    LeadsReach(cfg, s, Begin(req), t);
    hide Leads;
    hide Lost;
    var run', steps' := Completes(cfg, t);
    TraceJoin(cfg, [s, t], [Begin(req)], run', steps', true);
    run, steps := [s, t] + run'[1..], [Begin(req)] + steps';
    forall i | 0 < i < |steps| ensures !run[i].phase.Idle? && Undisturbed(steps[i]) {
      assert run[i] == run'[i - 1] && steps[i] == steps'[i - 1];
    }
  }
}
