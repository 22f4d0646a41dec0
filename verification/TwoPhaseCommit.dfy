/**
 The whole replicated store as a state machine: a master that runs one put or delete at a time in two phases,
 replicas that handle their mail in order, a network that loses mail and replies, replicas that crash and rebuild,
 garbled mail that is answered with an error, and reads that run beside the writes.
 */
module TwoPhaseCommit {
  import opened Basics
  import opened KvServer
  import opened KvReplica

  type Id = int
  type Thread = int

  /** Where keys live: the two replicas of a key and the cache set (with its lock) of a key. */
  datatype Config = Config(ids: set<Id>, first: Key -> Id, second: Key -> Id, setOf: Key -> int)

  ghost predicate WellFormed(cfg: Config) {
    forall k :: cfg.first(k) in cfg.ids && cfg.second(k) in cfg.ids
  }

  function Home(cfg: Config, k: Key, j: int): Id {
    if j == 0 then cfg.first(k) else cfg.second(k)
  }

  ghost predicate IsHome(cfg: Config, k: Key, id: Id) {
    id == cfg.first(k) || id == cfg.second(k)
  }

  // ---------- State ----------

  /** A message on its own connection. */
  datatype Mail = Mail(serial: nat, msg: Message)

  datatype Slave = Slave(replica: Replica, inbox: seq<Mail>)

  /** What the master is doing; `j` is the replica it deals with next. */
  datatype Phase =
    | Idle
    | Voting(req: Request, j: nat, votes: seq<bool>)
    | Deciding(req: Request, decision: Decision, j: nat, bad: bool, votes: seq<bool>)
    | Flushing(req: Request)

  /** The connection in use: none, waiting for a reply, or a reply that arrived. */
  datatype Wait = NotSent | Waiting(serial: nat) | Replied(reply: Reply)

  /** A read inside the lock of its cache set: the replicas asked so far, and the value found. */
  datatype Read = Asking(key: Key, j: nat) | Found(key: Key, value: Value)

  datatype State = State(
    slaves: map<Id, Slave>,
    phase: Phase,
    wait: Wait,
    sent: nat,
    cache: map<Key, Value>,
    readers: map<Thread, Read>,
    committed: map<Key, Value>, // what the acknowledged requests add up to
    doubtful: set<Key>)         // keys whose last committed request was not acknowledged by both replicas

  function Initial(cfg: Config): State {
    State(map id | id in cfg.ids :: Slave(Replica([], map[]), []), Idle, NotSent, 0, map[], map[], map[], {})
  }

  /** The replica that the master is talking to. */
  function Target(cfg: Config, p: Phase): Id
    requires p.Voting? || p.Deciding?
  {
    Home(cfg, p.req.key, p.j)
  }

  // ---------- Steps ----------

  datatype Step =
    | Begin(req: Request)
    | SendVote
    | VoteArrives
    | VoteFails            // no connection, a time-out or an unreadable reply
    | Decide_
    | SendDecision
    | DecisionArrives
    | DecisionRetries      // no connection or a time-out: the same decision again
    | Finish
    | Flush
    | HandleMail(id: Id)   // a replica handles its oldest mail
    | GarbleMail(id: Id)   // a replica cannot read its oldest mail and answers with an error
    | LoseMail(id: Id)
    | Crash(id: Id)
    | ReadStart(t: Thread, key: Key)
    | ReadAsks(t: Thread, answered: bool)
    | ReadEnds(t: Thread)
    | Evict(key: Key)

  /** No read is inside the lock of the key's cache set. */
  ghost predicate LockFree(cfg: Config, s: State, k: Key) {
    forall t :: t in s.readers ==> cfg.setOf(s.readers[t].key) != cfg.setOf(k)
  }

  ghost predicate Enabled(cfg: Config, s: State, step: Step) {
    match step
    case Begin(req) => s.phase.Idle? && req.key != ""
    case SendVote => s.phase.Voting? && s.phase.j < 2 && s.wait.NotSent?
    case VoteArrives => s.phase.Voting? && s.phase.j < 2 && s.wait.Replied?
    case VoteFails => s.phase.Voting? && s.phase.j < 2
    case Decide_ => s.phase.Voting? && s.phase.j == 2
    case SendDecision => s.phase.Deciding? && s.phase.j < 2 && s.wait.NotSent?
    case DecisionArrives => s.phase.Deciding? && s.phase.j < 2 && s.wait.Replied?
    case DecisionRetries => s.phase.Deciding? && s.phase.j < 2
    case Finish => s.phase.Deciding? && s.phase.j == 2
    case Flush => s.phase.Flushing? && LockFree(cfg, s, s.phase.req.key)
    case HandleMail(id) => id in s.slaves && s.slaves[id].inbox != []
    case GarbleMail(id) => id in s.slaves && s.slaves[id].inbox != []
    case LoseMail(id) => id in s.slaves && s.slaves[id].inbox != []
    case Crash(id) => id in s.slaves && !ReplayAll(s.slaves[id].replica.log).failed
    case ReadStart(t, k) => t !in s.readers && k != "" && k !in s.cache && LockFree(cfg, s, k)
    case ReadAsks(t, _) => t in s.readers && s.readers[t].Asking? && s.readers[t].j < 2
                           && Home(cfg, s.readers[t].key, s.readers[t].j) in s.slaves
    case ReadEnds(t) => t in s.readers && (s.readers[t].Asking? ==> s.readers[t].j == 2)
    case Evict(k) => true
  }

  /** Puts mail into the box of the master's current replica. */
  function Send(cfg: Config, s: State, m: Message): State
    requires s.phase.Voting? || s.phase.Deciding?
  {
    var id := Target(cfg, s.phase);
    if id !in s.slaves then s
    else
      var box := s.slaves[id].inbox + [Mail(s.sent, m)];
      s.(slaves := s.slaves[id := s.slaves[id].(inbox := box)], wait := Waiting(s.sent), sent := s.sent + 1)
  }

  /** The reply to the mail that the master is waiting for reaches it; other replies go nowhere. */
  function Answer(cfg: Config, s: State, id: Id, mail: Mail, reply: Option<Reply>): Wait {
    if && (s.phase.Voting? || s.phase.Deciding?)
       && id == Target(cfg, s.phase) && s.wait == Waiting(mail.serial) && reply.Some?
    then Replied(reply.value)
    else s.wait
  }

  /** The master's cache ignores empty keys and values. */
  function CachePut(cache: map<Key, Value>, k: Key, v: Value): map<Key, Value> {
    if k == "" || v == "" then cache else cache[k := v]
  }

  ghost function Do(cfg: Config, s: State, step: Step): State
    requires Enabled(cfg, s, step)
  {
    match step
    case Begin(req) => s.(phase := Voting(req, 0, []), wait := NotSent)
    case SendVote => Send(cfg, s, Vote(s.phase.req))
    case VoteArrives =>
      s.(phase := Voting(s.phase.req, s.phase.j + 1, s.phase.votes + [s.wait.reply == Ready]), wait := NotSent)
    case VoteFails =>
      s.(phase := Voting(s.phase.req, s.phase.j + 1, s.phase.votes + [false]), wait := NotSent)
    case Decide_ =>
      var d := if false in s.phase.votes then Abort else Commit;
      s.(phase := Deciding(s.phase.req, d, 0, false, s.phase.votes), wait := NotSent)
    case SendDecision => Send(cfg, s, Decide(s.phase.decision))
    case DecisionArrives =>
      s.(phase := s.phase.(j := s.phase.j + 1, bad := s.phase.bad || s.wait.reply != Ack), wait := NotSent)
    case DecisionRetries => s.(wait := NotSent)
    case Finish =>
      if s.phase.decision == Abort then s.(phase := Idle)
      else if s.phase.bad then s.(phase := Idle, doubtful := s.doubtful + {s.phase.req.key})
      else s.(phase := Flushing(s.phase.req))
    case Flush =>
      var req := s.phase.req;
      var cache := match req { case PutReq(k, v) => CachePut(s.cache, k, v) case DelReq(k) => s.cache - {k} };
      s.(phase := Idle, cache := cache, committed := ApplyTo(s.committed, req), doubtful := s.doubtful - {req.key})
    case HandleMail(id) =>
      var slave := s.slaves[id];
      var (replica, reply) := Handle(slave.replica, slave.inbox[0].msg);
      s.(slaves := s.slaves[id := Slave(replica, slave.inbox[1..])],
         wait := Answer(cfg, s, id, slave.inbox[0], reply))
    case GarbleMail(id) =>
      var slave := s.slaves[id];
      s.(slaves := s.slaves[id := slave.(inbox := slave.inbox[1..])],
         wait := Answer(cfg, s, id, slave.inbox[0], Some(Failed(InvalidKey))))
    case LoseMail(id) =>
      s.(slaves := s.slaves[id := s.slaves[id].(inbox := s.slaves[id].inbox[1..])])
    case Crash(id) =>
      var log := s.slaves[id].replica.log;
      s.(slaves := s.slaves[id := Slave(Replica(log, ReplayAll(log).store), [])])
    case ReadStart(t, k) => s.(readers := s.readers[t := Asking(k, 0)])
    case ReadAsks(t, answered) =>
      var r := s.readers[t];
      var v := Lookup(s.slaves[Home(cfg, r.key, r.j)].replica.store, r.key);
      s.(readers := s.readers[t := if answered && v.Some? then Found(r.key, v.value) else Asking(r.key, r.j + 1)])
    case ReadEnds(t) =>
      var r := s.readers[t];
      s.(readers := s.readers - {t}, cache := if r.Found? then CachePut(s.cache, r.key, r.value) else s.cache)
    case Evict(k) => s.(cache := s.cache - {k})
  }

  /** A run: every state follows from the one before by an enabled step. */
  ghost predicate IsRun(cfg: Config, run: seq<State>) {
    && run != [] && run[0] == Initial(cfg)
    && forall i :: 0 < i < |run| ==> Follows(cfg, run[i - 1], run[i])
  }

  ghost predicate Follows(cfg: Config, s: State, t: State) {
    exists step :: Enabled(cfg, s, step) && t == Do(cfg, s, step)
  }

  // ---------- The invariant ----------

  /** The replica promised to carry out the request and waits for the decision. */
  ghost predicate Armed(r: Replica, req: Request) {
    r.log != [] && r.log[|r.log| - 1] == Voted(req)
  }

  /** The replica carried out the request. */
  ghost predicate Done(r: Replica, req: Request) {
    r.log != [] && r.log[|r.log| - 1] == Decided(Commit) && Lookup(r.store, req.key) == Outcome(req)
  }

  /** The commit of a request on the key is under way. */
  ghost predicate InCommit(p: Phase, k: Key) {
    ((p.Deciding? && p.decision == Commit) || p.Flushing?) && p.req.key == k
  }

  /** A value that may be seen for a key: the committed one or, during a commit, the new one. */
  ghost predicate Current(s: State, k: Key, v: Option<Value>) {
    v == Lookup(s.committed, k) || (InCommit(s.phase, k) && v == Outcome(s.phase.req))
  }

  /** Mail may wait only at the replicas that the master has dealt with or will deal with in this phase. */
  ghost predicate MayHold(cfg: Config, p: Phase, id: Id) {
    match p
    case Idle => false
    case Flushing(_) => false
    case Voting(req, j, _) => id == cfg.first(req.key) || (j >= 1 && id == cfg.second(req.key))
    case Deciding(req, _, j, _, _) => (j == 0 && id == cfg.first(req.key)) || (j <= 1 && id == cfg.second(req.key))
  }

  ghost predicate MailFits(p: Phase, m: Message) {
    match p
    case Idle => false
    case Flushing(_) => false
    case Voting(req, _, _) => m == Vote(req)
    case Deciding(req, d, _, _, _) => m == Decide(d) || (d == Abort && m == Vote(req))
  }

  ghost predicate BoxInv(cfg: Config, p: Phase, sent: nat, id: Id, box: seq<Mail>) {
    && (box != [] ==> MayHold(cfg, p, id))
    && (forall i :: 0 <= i < |box| ==> box[i].serial < sent && MailFits(p, box[i].msg))
    && (forall i, j :: 0 <= i < j < |box| ==> box[i].serial < box[j].serial)
  }

  ghost predicate SlavesInv(cfg: Config, s: State) {
    && s.slaves.Keys == cfg.ids
    && forall id :: id in s.slaves ==>
         Consistent(s.slaves[id].replica) && BoxInv(cfg, s.phase, s.sent, id, s.slaves[id].inbox)
  }

  ghost predicate PhaseInv(cfg: Config, s: State)
    requires WellFormed(cfg) && s.slaves.Keys == cfg.ids
  {
    match s.phase
    case Idle => true
    case Voting(req, j, votes) =>
      && j <= 2 && |votes| == j && req.key != ""
      && forall i :: 0 <= i < j && votes[i] ==>
           var slave := s.slaves[Home(cfg, req.key, i)];
           Armed(slave.replica, req)
               && (slave.inbox == [] || false in votes || (j < 2 && Home(cfg, req.key, i) == Target(cfg, s.phase)))
    case Deciding(req, d, j, bad, votes) =>
      && j <= 2 && |votes| == 2 && req.key != ""
      && (d == Commit <==> votes == [true, true])
      && (d == Commit ==> forall i :: 0 <= i < 2 ==>
            var replica := s.slaves[Home(cfg, req.key, i)].replica;
            && (Armed(replica, req) || Done(replica, req)) && (i < j && !bad ==> Done(replica, req))
            && (Armed(replica, req) && req.key !in s.doubtful ==>
                  Lookup(replica.store, req.key) == Lookup(s.committed, req.key)))
    case Flushing(req) =>
      req.key != "" && forall i :: 0 <= i < 2 ==> Done(s.slaves[Home(cfg, req.key, i)].replica, req)
  }

  ghost predicate WaitInv(cfg: Config, s: State)
    requires WellFormed(cfg) && s.slaves.Keys == cfg.ids
  {
    match s.wait
    case NotSent => true
    case Waiting(n) => n + 1 == s.sent
    case Replied(r) =>
      (s.phase.Voting? || s.phase.Deciding?) ==>
        var slave := s.slaves[Target(cfg, s.phase)];
        && slave.inbox == []
        && (s.phase.Voting? && r == Ready ==> Armed(slave.replica, s.phase.req))
        && (s.phase.Deciding? && s.phase.decision == Commit && r == Ack ==> Done(slave.replica, s.phase.req))
  }

  /** Outside the doubtful keys the replicas, the cache and the reads under way show current values only. */
  ghost predicate ValueInv(cfg: Config, s: State)
    requires WellFormed(cfg) && s.slaves.Keys == cfg.ids
  {
    forall k :: k !in s.doubtful ==> ShowsCurrent(cfg, s, k)
  }

  ghost predicate ShowsCurrent(cfg: Config, s: State, k: Key)
    requires WellFormed(cfg) && s.slaves.Keys == cfg.ids
  {
    && (forall id :: IsHome(cfg, k, id) ==> Current(s, k, Lookup(s.slaves[id].replica.store, k)))
    && (k in s.cache ==> Current(s, k, Some(s.cache[k])))
    && (forall t :: t in s.readers && s.readers[t].Found? && s.readers[t].key == k ==>
          Current(s, k, Some(s.readers[t].value)))
  }

  ghost predicate Inv(cfg: Config, s: State) {
    WellFormed(cfg) && SlavesInv(cfg, s) && PhaseInv(cfg, s) && WaitInv(cfg, s) && ValueInv(cfg, s)
  }

  // ---------- Every step keeps the invariant ----------

  lemma InitialInv(cfg: Config)
    requires WellFormed(cfg)
    ensures Inv(cfg, Initial(cfg))
  {}

  /** Values stay current when nothing that shows a value changes and no commit is forgotten. */
  lemma SameValues(cfg: Config, s: State, t: State)
    requires WellFormed(cfg) && s.slaves.Keys == cfg.ids == t.slaves.Keys && ValueInv(cfg, s)
    requires forall id :: id in s.slaves ==> s.slaves[id].replica.store == t.slaves[id].replica.store
    requires s.cache == t.cache && s.readers == t.readers && s.committed == t.committed && s.doubtful <= t.doubtful
    requires forall k :: k !in t.doubtful && InCommit(s.phase, k) ==>
               InCommit(t.phase, k) && t.phase.req == s.phase.req
    ensures ValueInv(cfg, t)
  {
    hide Lookup;
    forall k | k !in t.doubtful
      ensures forall v :: Current(s, k, v) ==> Current(t, k, v)
    {}
  }

  lemma SendInv(cfg: Config, s: State, m: Message)
    requires Inv(cfg, s) && (s.phase.Voting? || s.phase.Deciding?) && s.phase.j < 2 && s.wait.NotSent?
    requires m == if s.phase.Voting? then Vote(s.phase.req) else Decide(s.phase.decision)
    ensures Inv(cfg, Send(cfg, s, m))
  {
    hide Consistent;
    hide Lookup;
    var t := Send(cfg, s, m);
    SameValues(cfg, s, t);
    hide ValueInv;
    SendBoxes(cfg, s, m);
    hide SlavesInv;
  }

  lemma SendBoxes(cfg: Config, s: State, m: Message)
    requires Inv(cfg, s) && (s.phase.Voting? || s.phase.Deciding?) && s.phase.j < 2 && s.wait.NotSent?
    requires m == if s.phase.Voting? then Vote(s.phase.req) else Decide(s.phase.decision)
    ensures SlavesInv(cfg, Send(cfg, s, m))
  {
    hide Consistent;
    hide PhaseInv;
    hide ValueInv;
    hide WaitInv;
    hide Lookup;
    hide BoxInv;
    var t := Send(cfg, s, m);
    var target := Target(cfg, s.phase);
    assert MayHold(cfg, s.phase, target) && MailFits(s.phase, m);
    forall id | id in t.slaves ensures BoxInv(cfg, t.phase, t.sent, id, t.slaves[id].inbox) {
      BoxGrows(cfg, s.phase, s.sent, id, s.slaves[id].inbox, m);
    }
  }

  lemma BoxGrows(cfg: Config, p: Phase, sent: nat, id: Id, box: seq<Mail>, m: Message)
    requires BoxInv(cfg, p, sent, id, box)
    ensures BoxInv(cfg, p, sent + 1, id, box)
    ensures MayHold(cfg, p, id) && MailFits(p, m) ==> BoxInv(cfg, p, sent + 1, id, box + [Mail(sent, m)])
  {
    hide MayHold;
    hide MailFits;
  }

  lemma BoxesKept(cfg: Config, s: State, t: State)
    requires SlavesInv(cfg, s) && t.slaves == s.slaves && t.sent == s.sent
    requires forall id :: id in s.slaves ==> s.slaves[id].inbox == [] || Widens(cfg, s.phase, t.phase, id)
    ensures SlavesInv(cfg, t)
  {
    hide Consistent;
    hide MayHold;
    hide MailFits;
    forall id | id in t.slaves ensures BoxInv(cfg, t.phase, t.sent, id, t.slaves[id].inbox) {
      assert BoxInv(cfg, s.phase, s.sent, id, s.slaves[id].inbox);
    }
  }

  /** The mail that may wait at a replica in one phase may still wait there in the next. */
  ghost predicate Widens(cfg: Config, p: Phase, q: Phase, id: Id) {
    && (MayHold(cfg, p, id) ==> MayHold(cfg, q, id))
    && (forall m :: MailFits(p, m) ==> MailFits(q, m))
  }

  lemma BeginInv(cfg: Config, s: State, req: Request)
    requires Inv(cfg, s) && Enabled(cfg, s, Begin(req))
    ensures Inv(cfg, Do(cfg, s, Begin(req)))
  {
    hide Consistent;
    hide Lookup;
    var t := Do(cfg, s, Begin(req));
    forall id | id in s.slaves ensures s.slaves[id].inbox == [] {
      assert BoxInv(cfg, s.phase, s.sent, id, s.slaves[id].inbox);
    }
    BoxesKept(cfg, s, t);
    SameValues(cfg, s, t);
    hide ValueInv;
    hide SlavesInv;
  }

  lemma VoteInv(cfg: Config, s: State, step: Step)
    requires Inv(cfg, s) && Enabled(cfg, s, step) && (step.VoteArrives? || step.VoteFails?)
    ensures Inv(cfg, Do(cfg, s, step))
  {
    hide Consistent;
    hide Lookup;
    var t := Do(cfg, s, step);
    BoxesKept(cfg, s, t);
    SameValues(cfg, s, t);
    hide ValueInv;
    hide SlavesInv;
    forall i | 0 <= i < t.phase.j && t.phase.votes[i]
      ensures var slave := t.slaves[Home(cfg, t.phase.req.key, i)];
              Armed(slave.replica, t.phase.req) &&
              (slave.inbox == [] || false in t.phase.votes
                  || (t.phase.j < 2 && Home(cfg, t.phase.req.key, i) == Target(cfg, t.phase)))
    {
      if i < s.phase.j {
        assert s.phase.votes[i] == t.phase.votes[i];
      }
    }
  }

  /** All mail is handled by the time both votes are in and a commit is decided. */
  lemma DecideBoxes(cfg: Config, s: State)
    requires Inv(cfg, s) && Enabled(cfg, s, Decide_)
    ensures SlavesInv(cfg, Do(cfg, s, Decide_))
  {
    hide Consistent;
    hide Lookup;
    hide ValueInv;
    hide WaitInv;
    var t := Do(cfg, s, Decide_);
    var votes := s.phase.votes;
    assert votes == [votes[0], votes[1]];
    assert false in votes <==> !votes[0] || !votes[1];
    forall id | id in s.slaves && t.phase.decision == Commit ensures s.slaves[id].inbox == [] {
      assert BoxInv(cfg, s.phase, s.sent, id, s.slaves[id].inbox);
      assert votes[0] && votes[1];
      assert id != cfg.first(s.phase.req.key) || s.slaves[Home(cfg, s.phase.req.key, 0)].inbox == [];
      assert id != cfg.second(s.phase.req.key) || s.slaves[Home(cfg, s.phase.req.key, 1)].inbox == [];
    }
    BoxesKept(cfg, s, t);
  }

  lemma DecidePhase(cfg: Config, s: State)
    requires Inv(cfg, s) && Enabled(cfg, s, Decide_)
    ensures PhaseInv(cfg, Do(cfg, s, Decide_)) && WaitInv(cfg, Do(cfg, s, Decide_))
  {
    hide Consistent;
    hide Lookup;
    hide BoxInv;
    var votes := s.phase.votes;
    assert votes == [votes[0], votes[1]];
    assert false in votes <==> !votes[0] || !votes[1];
    assert forall i :: 0 <= i < 2 ==> IsHome(cfg, s.phase.req.key, Home(cfg, s.phase.req.key, i));
  }

  lemma DecideInv(cfg: Config, s: State)
    requires Inv(cfg, s) && Enabled(cfg, s, Decide_)
    ensures Inv(cfg, Do(cfg, s, Decide_))
  {
    hide Consistent;
    hide Lookup;
    hide BoxInv;
    hide PhaseInv;
    hide WaitInv;
    DecideBoxes(cfg, s);
    DecidePhase(cfg, s);
    SameValues(cfg, s, Do(cfg, s, Decide_));
  }

  lemma DecisionInv(cfg: Config, s: State, step: Step)
    requires Inv(cfg, s) && Enabled(cfg, s, step) && (step.DecisionArrives? || step.DecisionRetries?)
    ensures Inv(cfg, Do(cfg, s, step))
  {
    hide Consistent;
    hide Lookup;
    var t := Do(cfg, s, step);
    BoxesKept(cfg, s, t);
    SameValues(cfg, s, t);
    hide ValueInv;
    hide SlavesInv;
  }

  lemma FinishInv(cfg: Config, s: State)
    requires Inv(cfg, s) && Enabled(cfg, s, Finish)
    ensures Inv(cfg, Do(cfg, s, Finish))
  {
    hide Consistent;
    hide Lookup;
    hide PhaseInv;
    hide WaitInv;
    hide BoxInv;
    hide ShowsCurrent;
    FinishBoxes(cfg, s);
    FinishPhase(cfg, s);
    SameValues(cfg, s, Do(cfg, s, Finish));
  }

  lemma FinishBoxes(cfg: Config, s: State)
    requires Inv(cfg, s) && Enabled(cfg, s, Finish)
    ensures SlavesInv(cfg, Do(cfg, s, Finish))
  {
    hide Consistent;
    hide Lookup;
    hide ValueInv;
    hide WaitInv;
    forall id | id in s.slaves ensures s.slaves[id].inbox == [] {
      assert BoxInv(cfg, s.phase, s.sent, id, s.slaves[id].inbox);
    }
    BoxesKept(cfg, s, Do(cfg, s, Finish));
  }

  lemma FinishPhase(cfg: Config, s: State)
    requires Inv(cfg, s) && Enabled(cfg, s, Finish)
    ensures PhaseInv(cfg, Do(cfg, s, Finish)) && WaitInv(cfg, Do(cfg, s, Finish))
  {
    hide ValueInv;
    hide SlavesInv;
    hide Armed;
    hide Done;
  }

  lemma FlushInv(cfg: Config, s: State)
    requires Inv(cfg, s) && Enabled(cfg, s, Flush)
    ensures Inv(cfg, Do(cfg, s, Flush))
  {
    var t := Do(cfg, s, Flush);
    forall id | id in s.slaves ensures s.slaves[id].inbox == [] {
      assert BoxInv(cfg, s.phase, s.sent, id, s.slaves[id].inbox);
    }
    BoxesKept(cfg, s, t);
    hide SlavesInv;
    FlushValues(cfg, s);
    hide ValueInv;
  }

  lemma FlushValues(cfg: Config, s: State)
    requires Inv(cfg, s) && Enabled(cfg, s, Flush)
    ensures ValueInv(cfg, Do(cfg, s, Flush))
  {
    var t, req := Do(cfg, s, Flush), s.phase.req;
    FlushedKey(cfg, s);
    assert !InCommit(t.phase, req.key);
    forall k | k !in t.doubtful && k != req.key ensures ShowsCurrent(cfg, t, k) {
      FlushedOther(cfg, s, k);
    }
    hide ShowsCurrent;
  }

  /** The flushed key: the lock keeps reads out, the cache gets the new value and the replicas hold it. */
  lemma FlushedKey(cfg: Config, s: State)
    requires Inv(cfg, s) && Enabled(cfg, s, Flush)
    ensures ShowsCurrent(cfg, Do(cfg, s, Flush), s.phase.req.key)
  {
    var t, req := Do(cfg, s, Flush), s.phase.req;
    FlushedValue(cfg, s);
    assert Done(s.slaves[Home(cfg, req.key, 0)].replica, req) && Done(s.slaves[Home(cfg, req.key, 1)].replica, req);
    CommittedAfter(s.committed, req);
    hide SlavesInv;
    hide WaitInv;
    hide ValueInv;
    hide Lookup;
    hide ApplyTo;
    forall r | r in t.readers ensures s.readers[r].key != req.key {}
  }

  lemma FlushedOther(cfg: Config, s: State, k: Key)
    requires Inv(cfg, s) && Enabled(cfg, s, Flush) && k !in s.doubtful && k != s.phase.req.key
    ensures ShowsCurrent(cfg, Do(cfg, s, Flush), k)
  {
    var t := Do(cfg, s, Flush);
    CommittedAfter(s.committed, s.phase.req);
    assert ShowsCurrent(cfg, s, k);
    hide SlavesInv;
    hide PhaseInv;
    hide WaitInv;
    hide Lookup;
    hide ApplyTo;
    forall v ensures Current(s, k, v) ==> Current(t, k, v) {}
  }

  lemma CommittedAfter(m: map<Key, Value>, req: Request)
    ensures forall k :: Lookup(ApplyTo(m, req), k) == if k == req.key then Outcome(req) else Lookup(m, k)
  {}

  lemma FlushedValue(cfg: Config, s: State)
    requires Inv(cfg, s) && s.phase.Flushing?
    ensures s.phase.req.PutReq? ==> s.phase.req.value != ""
    ensures IsHome(cfg, s.phase.req.key, Home(cfg, s.phase.req.key, 0))
  {
    var r := s.slaves[Home(cfg, s.phase.req.key, 0)].replica;
    assert Done(r, s.phase.req) && Consistent(r);
  }

  // ---------- Mail ----------

  /** What handling a fitting message does to a replica, phase by phase. */
  lemma HandleEffect(p: Phase, r: Replica, m: Message)
    requires Consistent(r) && MailFits(p, m)
    requires p.Deciding? && p.decision == Commit ==> Armed(r, p.req) || Done(r, p.req)
    ensures var (r', reply) := Handle(r, m);
            && Consistent(r')
            && (p.Voting? ==> (Armed(r, p.req) || reply == Some(Ready) ==> Armed(r', p.req)))
            && (p.Deciding? && p.decision == Commit ==> Done(r', p.req))
            && (forall k :: !InCommit(p, k) ==> Lookup(r'.store, k) == Lookup(r.store, k))
  {
    HandleKeepsConsistent(r, m);
    assert Consistent(r);
    hide ReplayAll;
  }

  lemma BoxShrinks(cfg: Config, p: Phase, sent: nat, id: Id, box: seq<Mail>)
    requires BoxInv(cfg, p, sent, id, box) && box != []
    ensures BoxInv(cfg, p, sent, id, box[1..]) && BoxInv(cfg, p, sent, id, [])
    ensures box[0].serial + 1 == sent ==> box[1..] == []
  {
    hide MailFits;
    if |box| > 1 { assert box[0].serial < box[1].serial < sent; }
  }

  /** One replica changed as a message, a loss or a crash may change it. */
  ghost predicate Delivered(cfg: Config, s: State, t: State, id: Id) {
    && id in s.slaves && id in t.slaves
    && t == s.(slaves := s.slaves[id := t.slaves[id]], wait := t.wait)
    && Consistent(t.slaves[id].replica)
    && BoxInv(cfg, s.phase, s.sent, id, t.slaves[id].inbox)
    && (s.slaves[id].inbox == [] ==> t.slaves[id].inbox == [])
    && var p, r, r' := s.phase, s.slaves[id].replica, t.slaves[id].replica;
    && (p.Voting? && Armed(r, p.req) ==> Armed(r', p.req))
    && (p.Deciding? && p.decision == Commit && Done(r, p.req) ==> Done(r', p.req))
    && (p.Flushing? ==> r' == r)
    && (p.Deciding? && p.decision == Commit && Armed(r, p.req) ==> r' == r || Done(r', p.req))
    && (forall k :: !InCommit(p, k) ==> Lookup(r'.store, k) == Lookup(r.store, k))
    && (p.Deciding? && p.decision == Commit ==>
          Lookup(r'.store, p.req.key) == Lookup(r.store, p.req.key)
          || Lookup(r'.store, p.req.key) == Outcome(p.req))
  }

  lemma DeliveredInv(cfg: Config, s: State, t: State, id: Id)
    requires Inv(cfg, s) && Delivered(cfg, s, t, id) && WaitInv(cfg, t)
    ensures Inv(cfg, t)
  {
    hide Consistent;
    hide Lookup;
    hide BoxInv;
    forall r: Replica, q ensures !(Armed(r, q) && Done(r, q)) {}
    hide Armed;
    hide Done;
    hide WaitInv;
    DeliveredValues(cfg, s, t, id);
    hide ValueInv;
  }

  lemma DeliveredValues(cfg: Config, s: State, t: State, id: Id)
    requires Inv(cfg, s) && Delivered(cfg, s, t, id)
    ensures ValueInv(cfg, t)
  {
    hide Consistent;
    hide Lookup;
    hide BoxInv;
    hide WaitInv;
    hide Armed;
    hide Done;
    forall k, x | k !in t.doubtful && IsHome(cfg, k, x)
      ensures Current(t, k, Lookup(t.slaves[x].replica.store, k))
    {
      assert Current(s, k, Lookup(s.slaves[x].replica.store, k));
    }
  }

  lemma HandleMailInv(cfg: Config, s: State, id: Id)
    requires Inv(cfg, s) && Enabled(cfg, s, HandleMail(id))
    ensures Inv(cfg, Do(cfg, s, HandleMail(id)))
  {
    var t := Do(cfg, s, HandleMail(id));
    var slave := s.slaves[id];
    assert BoxInv(cfg, s.phase, s.sent, id, slave.inbox);
    BoxShrinks(cfg, s.phase, s.sent, id, slave.inbox);
    HomesMatch(cfg, s, id);
    HandleEffect(s.phase, slave.replica, slave.inbox[0].msg);
    hide Consistent;
    hide Lookup;
    hide Handle;
    hide ValueInv;
    assert Delivered(cfg, s, t, id) by { hide WaitInv; hide PhaseInv; }
    AnswerInv(cfg, s, t, id, Handle(slave.replica, slave.inbox[0].msg).1);
    hide Delivered;
    DeliveredInv(cfg, s, t, id);
  }

  /** Mail waits only at a replica of the current request. */
  lemma HomesMatch(cfg: Config, s: State, id: Id)
    requires Inv(cfg, s) && id in s.slaves && s.slaves[id].inbox != []
    ensures MailFits(s.phase, s.slaves[id].inbox[0].msg)
    ensures s.phase.Deciding? && s.phase.decision == Commit ==>
              Armed(s.slaves[id].replica, s.phase.req) || Done(s.slaves[id].replica, s.phase.req)
  {
    hide Consistent;
    hide ValueInv;
    assert BoxInv(cfg, s.phase, s.sent, id, s.slaves[id].inbox);
    if s.phase.Deciding? {
      assert id == Home(cfg, s.phase.req.key, 0) || id == Home(cfg, s.phase.req.key, 1);
    }
  }

  /** A reply that reaches the master says what the replica did, and the replica's box is empty then. */
  lemma AnswerInv(cfg: Config, s: State, t: State, id: Id, reply: Option<Reply>)
    requires Inv(cfg, s) && id in s.slaves && s.slaves[id].inbox != [] && Delivered(cfg, s, t, id)
    requires t.slaves[id].inbox == s.slaves[id].inbox[1..]
    requires t.wait == Answer(cfg, s, id, s.slaves[id].inbox[0], reply)
    requires s.phase.Voting? && reply == Some(Ready) ==> Armed(t.slaves[id].replica, s.phase.req)
    requires s.phase.Deciding? && s.phase.decision == Commit && reply == Some(Ack) ==>
               Done(t.slaves[id].replica, s.phase.req)
    ensures WaitInv(cfg, t)
  {
    hide Consistent;
    hide ValueInv;
    hide Lookup;
    hide PhaseInv;
    hide Armed;
    hide Done;
    assert BoxInv(cfg, s.phase, s.sent, id, s.slaves[id].inbox);
    BoxShrinks(cfg, s.phase, s.sent, id, s.slaves[id].inbox);
    hide BoxInv;
  }

  lemma GarbleMailInv(cfg: Config, s: State, id: Id)
    requires Inv(cfg, s) && Enabled(cfg, s, GarbleMail(id))
    ensures Inv(cfg, Do(cfg, s, GarbleMail(id)))
  {
    var t := Do(cfg, s, GarbleMail(id));
    assert BoxInv(cfg, s.phase, s.sent, id, s.slaves[id].inbox);
    BoxShrinks(cfg, s.phase, s.sent, id, s.slaves[id].inbox);
    hide Consistent;
    hide Lookup;
    hide ValueInv;
    assert Delivered(cfg, s, t, id) by { hide WaitInv; hide PhaseInv; }
    AnswerInv(cfg, s, t, id, Some(Failed(InvalidKey)));
    hide Delivered;
    DeliveredInv(cfg, s, t, id);
  }

  lemma LoseMailInv(cfg: Config, s: State, id: Id)
    requires Inv(cfg, s) && Enabled(cfg, s, LoseMail(id))
    ensures Inv(cfg, Do(cfg, s, LoseMail(id)))
  {
    var t := Do(cfg, s, LoseMail(id));
    assert BoxInv(cfg, s.phase, s.sent, id, s.slaves[id].inbox);
    BoxShrinks(cfg, s.phase, s.sent, id, s.slaves[id].inbox);
    hide Consistent;
    hide Lookup;
    hide ValueInv;
    assert Delivered(cfg, s, t, id) by { hide WaitInv; hide PhaseInv; }
    assert WaitInv(cfg, t) by { hide PhaseInv; hide Delivered; }
    DeliveredInv(cfg, s, t, id);
  }

  lemma CrashInv(cfg: Config, s: State, id: Id)
    requires Inv(cfg, s) && Enabled(cfg, s, Crash(id))
    ensures Inv(cfg, Do(cfg, s, Crash(id)))
    ensures Do(cfg, s, Crash(id)).slaves[id].replica == s.slaves[id].replica
  {
    var t := Do(cfg, s, Crash(id));
    assert Consistent(s.slaves[id].replica);
    assert t.slaves[id].replica == s.slaves[id].replica;
    assert BoxInv(cfg, s.phase, s.sent, id, []);
    hide Consistent;
    hide Lookup;
    hide ValueInv;
    assert Delivered(cfg, s, t, id) by { hide WaitInv; hide PhaseInv; }
    assert WaitInv(cfg, t) by { hide PhaseInv; hide Delivered; }
    DeliveredInv(cfg, s, t, id);
  }

  // ---------- Reads and evictions ----------

  /** Reads and evictions leave the replicas and the master alone. */
  ghost predicate ReadStep(step: Step) {
    step.ReadStart? || step.ReadAsks? || step.ReadEnds? || step.Evict?
  }

  lemma {:induction false} ReadInv(cfg: Config, s: State, step: Step)
    requires Inv(cfg, s) && Enabled(cfg, s, step) && ReadStep(step)
    ensures Inv(cfg, Do(cfg, s, step))
  {
    hide Do;
    hide Enabled;
    hide ShowsCurrent;
    var t := Do(cfg, s, step);
    ReadKeeps(cfg, s, step);
    assert SlavesInv(cfg, t) && WaitInv(cfg, t) by { hide PhaseInv; hide ValueInv; }
    assert PhaseInv(cfg, t) by { hide SlavesInv; hide ValueInv; hide WaitInv; }
    hide PhaseInv;
    hide WaitInv;
    forall k | k !in t.doubtful ensures ShowsCurrent(cfg, t, k) {
      assert ShowsCurrent(cfg, s, k);
      ReadShowsCurrent(cfg, s, step, k);
    }
  }

  lemma ReadKeeps(cfg: Config, s: State, step: Step)
    requires Inv(cfg, s) && Enabled(cfg, s, step) && ReadStep(step)
    ensures var t := Do(cfg, s, step);
            && t.slaves == s.slaves && t.phase == s.phase && t.wait == s.wait && t.sent == s.sent
            && t.committed == s.committed && t.doubtful == s.doubtful
  {
    hide Inv;
  }

  lemma ReadShowsCurrent(cfg: Config, s: State, step: Step, k: Key)
    requires WellFormed(cfg) && s.slaves.Keys == cfg.ids && ShowsCurrent(cfg, s, k)
    requires Enabled(cfg, s, step) && ReadStep(step)
    ensures ShowsCurrent(cfg, Do(cfg, s, step), k)
  {
    var t := Do(cfg, s, step);
    forall v ensures Current(t, k, v) <==> Current(s, k, v) {}
    hide Current;
    if step.ReadAsks? {
      var r := s.readers[step.t];
      assert IsHome(cfg, r.key, Home(cfg, r.key, r.j));
    }
  }

  lemma StepInv(cfg: Config, s: State, step: Step)
    requires Inv(cfg, s) && Enabled(cfg, s, step)
    ensures Inv(cfg, Do(cfg, s, step))
  {
    match step {
      case Begin(req) => BeginInv(cfg, s, req);
      case SendVote => SendInv(cfg, s, Vote(s.phase.req));
      case VoteArrives => VoteInv(cfg, s, step);
      case VoteFails => VoteInv(cfg, s, step);
      case Decide_ => DecideInv(cfg, s);
      case SendDecision => SendInv(cfg, s, Decide(s.phase.decision));
      case DecisionArrives => DecisionInv(cfg, s, step);
      case DecisionRetries => DecisionInv(cfg, s, step);
      case Finish => FinishInv(cfg, s);
      case Flush => FlushInv(cfg, s);
      case HandleMail(id) => HandleMailInv(cfg, s, id);
      case GarbleMail(id) => GarbleMailInv(cfg, s, id);
      case LoseMail(id) => LoseMailInv(cfg, s, id);
      case Crash(id) => CrashInv(cfg, s, id);
      case ReadStart(_, _) => ReadInv(cfg, s, step);
      case ReadAsks(_, _) => ReadInv(cfg, s, step);
      case ReadEnds(_) => ReadInv(cfg, s, step);
      case Evict(_) => ReadInv(cfg, s, step);
    }
  }

  lemma {:induction false} RunInv(cfg: Config, run: seq<State>, n: nat)
    requires WellFormed(cfg) && IsRun(cfg, run) && n < |run|
    ensures Inv(cfg, run[n])
  {
    hide Inv;
    if n == 0 {
      InitialInv(cfg);
    } else {
      RunInv(cfg, run, n - 1);
      assert Follows(cfg, run[n - 1], run[n]);
      var step :| Enabled(cfg, run[n - 1], step) && run[n] == Do(cfg, run[n - 1], step);
      StepInv(cfg, run[n - 1], step);
    }
  }

  // ---------- What holds in every run ----------

  /**
   * A commit goes out only after both replicas voted for it: as long as it is under way to any of them, each has
   * the vote as the last entry of its log or has carried the request out. All decision mail carries one decision.
   */
  lemma CommitNeedsBothVotes(cfg: Config, run: seq<State>, n: nat, id: Id, i: int)
    requires WellFormed(cfg) && IsRun(cfg, run) && n < |run|
    requires id in run[n].slaves && 0 <= i < |run[n].slaves[id].inbox| && run[n].slaves[id].inbox[i].msg.Decide?
    ensures var p, d := run[n].phase, run[n].slaves[id].inbox[i].msg.decision;
            && p.Deciding? && d == p.decision && IsHome(cfg, p.req.key, id)
            && (d == Commit <==> p.votes == [true, true])
    ensures var s, p := run[n], run[n].phase;
            s.slaves[id].inbox[i].msg.decision == Commit ==>
              forall j :: 0 <= j < 2 ==>
                && Home(cfg, p.req.key, j) in s.slaves
                && var r := s.slaves[Home(cfg, p.req.key, j)].replica; Armed(r, p.req) || Done(r, p.req)
  {
    RunInv(cfg, run, n);
    var s := run[n];
    hide IsRun;
    hide ValueInv;
    assert BoxInv(cfg, s.phase, s.sent, id, s.slaves[id].inbox);
  }

  /** At any time the log of a replica rebuilds exactly the server that is running, and the rebuild does not fail. */
  lemma LogsRebuild(cfg: Config, run: seq<State>, n: nat, id: Id)
    requires WellFormed(cfg) && IsRun(cfg, run) && n < |run| && id in run[n].slaves
    ensures var r := run[n].slaves[id].replica; !ReplayAll(r.log).failed && ReplayAll(r.log).store == r.store
  {
    RunInv(cfg, run, n);
    hide IsRun;
    assert Consistent(run[n].slaves[id].replica);
  }

  /** Outside a commit on the key, both replicas and the cache hold the committed value, unless the key is doubtful. */
  lemma ReplicasAndCacheAgree(cfg: Config, run: seq<State>, n: nat, k: Key)
    requires WellFormed(cfg) && IsRun(cfg, run) && n < |run|
    requires k !in run[n].doubtful && !InCommit(run[n].phase, k)
    ensures var s := run[n];
            && cfg.first(k) in s.slaves && cfg.second(k) in s.slaves
            && Lookup(s.slaves[cfg.first(k)].replica.store, k) == Lookup(s.committed, k)
            && Lookup(s.slaves[cfg.second(k)].replica.store, k) == Lookup(s.committed, k)
            && (k in s.cache ==> Some(s.cache[k]) == Lookup(s.committed, k))
  {
    RunInv(cfg, run, n);
    hide IsRun;
    assert IsHome(cfg, k, cfg.first(k)) && IsHome(cfg, k, cfg.second(k));
  }

  /** What a read is about to answer is the committed value, or the new one while its commit is under way. */
  lemma ReadsAreCurrent(cfg: Config, run: seq<State>, n: nat, t: Thread)
    requires WellFormed(cfg) && IsRun(cfg, run) && n < |run|
    requires t in run[n].readers && run[n].readers[t].Found? && run[n].readers[t].key !in run[n].doubtful
    ensures Current(run[n], run[n].readers[t].key, Some(run[n].readers[t].value))
  {
    RunInv(cfg, run, n);
    hide IsRun;
  }

  /** Once both replies to a commit are in, a replica holds the new value exactly if its log ends with the commit. */
  lemma AppliedIffLogged(cfg: Config, run: seq<State>, n: nat, j: int)
    requires WellFormed(cfg) && IsRun(cfg, run) && n < |run| && 0 <= j < 2
    requires run[n].phase.Deciding? && run[n].phase.decision == Commit && run[n].phase.j == 2
    requires run[n].phase.req.key !in run[n].doubtful
    requires Lookup(run[n].committed, run[n].phase.req.key) != Outcome(run[n].phase.req)
    ensures var s, req := run[n], run[n].phase.req;
            && Home(cfg, req.key, j) in s.slaves
            && var r := s.slaves[Home(cfg, req.key, j)].replica;
            && r.log != []
            && (Lookup(r.store, req.key) == Outcome(req) <==> r.log[|r.log| - 1] == Decided(Commit))
            && (!s.phase.bad ==> r.log[|r.log| - 1] == Decided(Commit))
  {
    RunInv(cfg, run, n);
    hide IsRun;
    hide ValueInv;
    hide SlavesInv;
  }

  // ---------- When a key can become doubtful ----------

  /** A run in which every mail that is answered was read. */
  ghost predicate IsCleanRun(cfg: Config, run: seq<State>) {
    && run != [] && run[0] == Initial(cfg)
    && forall i :: 0 < i < |run| ==> FollowsCleanly(cfg, run[i - 1], run[i])
  }

  ghost predicate FollowsCleanly(cfg: Config, s: State, t: State) {
    exists step: Step :: !step.GarbleMail? && Enabled(cfg, s, step) && t == Do(cfg, s, step)
  }

  ghost predicate NoDoubt(s: State) {
    && s.doubtful == {}
    && (s.phase.Deciding? && s.phase.decision == Commit ==>
          !s.phase.bad && (s.wait.Replied? ==> s.wait.reply == Ack))
  }

  lemma NoDoubtStep(cfg: Config, s: State, step: Step)
    requires Inv(cfg, s) && NoDoubt(s) && !step.GarbleMail? && Enabled(cfg, s, step)
    ensures NoDoubt(Do(cfg, s, step))
  {
    hide ValueInv;
    if step.HandleMail? {
      var slave := s.slaves[step.id];
      HomesMatch(cfg, s, step.id);
      assert Consistent(slave.replica);
      HandleKeepsConsistent(slave.replica, slave.inbox[0].msg);
      hide Consistent;
    }
    hide SlavesInv;
    hide PhaseInv;
  }

  /** Without garbled mail no key is ever doubtful, so replicas and cache always agree outside a commit. */
  lemma {:induction false} CleanRunsHaveNoDoubt(cfg: Config, run: seq<State>, n: nat)
    requires WellFormed(cfg) && IsCleanRun(cfg, run) && n < |run|
    ensures IsRun(cfg, run) && NoDoubt(run[n])
  {
    forall i | 0 < i < |run| ensures Follows(cfg, run[i - 1], run[i]) {
      assert FollowsCleanly(cfg, run[i - 1], run[i]);
    }
    if n > 0 {
      CleanRunsHaveNoDoubt(cfg, run, n - 1);
      RunInv(cfg, run, n - 1);
      assert FollowsCleanly(cfg, run[n - 1], run[n]);
      var step: Step :| !step.GarbleMail? && Enabled(cfg, run[n - 1], step) && run[n] == Do(cfg, run[n - 1], step);
      hide IsRun;
      hide IsCleanRun;
      hide Inv;
      NoDoubtStep(cfg, run[n - 1], step);
    }
  }

  // ---------- A run that loses agreement ----------

  ghost predicate Reachable(cfg: Config, s: State) {
    exists run: seq<State> :: IsRun(cfg, run) && run[|run| - 1] == s
  }

  lemma ReachInitial(cfg: Config)
    ensures Reachable(cfg, Initial(cfg))
  {
    assert IsRun(cfg, [Initial(cfg)]);
  }

  lemma ReachNext(cfg: Config, s: State, step: Step, t: State)
    requires Reachable(cfg, s) && Enabled(cfg, s, step) && t == Do(cfg, s, step)
    ensures Reachable(cfg, t)
  {
    var run: seq<State> :| IsRun(cfg, run) && run[|run| - 1] == s;
    assert Follows(cfg, s, t);
    hide Follows;
    var longer := run + [t];
    forall i | 0 < i < |longer| ensures Follows(cfg, longer[i - 1], longer[i]) {
      if i < |run| { assert Follows(cfg, run[i - 1], run[i]); }
    }
    assert IsRun(cfg, longer);
  }

  const TwoSlaves := Config({0, 1}, _ => 0, _ => 1, _ => 0)

  function Pair(a: Slave, b: Slave, phase: Phase, wait: Wait, sent: nat): State {
    State(map[0 := a, 1 := b], phase, wait, sent, map[], map[], map[], {})
  }

  const Blank := Replica([], map[])

  function Promised(req: Request): Replica { Replica([Voted(req)], map[]) }

  function CarriedOut(k: Key, v: Value): Replica { Replica([Voted(PutReq(k, v)), Decided(Commit)], map[k := v]) }

  lemma SeqFacts<T>(x: T, y: T)
    ensures [] + [x] == [x] && [x][1..] == [] && [x] + [y] == [x, y]
  {}

  lemma PairFacts(a: Slave, b: Slave, c: Slave)
    ensures map[0 := a, 1 := b][0 := c] == map[0 := c, 1 := b] && map[0 := a, 1 := b][1 := c] == map[0 := a, 1 := c]
  {}

  lemma AsksFirst(k: Key, v: Value)
    requires ValidateKeyValue(k, v) == None
    ensures Reachable(TwoSlaves, var q := PutReq(k, v);
              Pair(Slave(Blank, [Mail(0, Vote(q))]), Slave(Blank, []), Voting(q, 0, []), Waiting(0), 1))
  {
    hide Reachable;
    hide ReplayAll;
    var q := PutReq(k, v);
    var b := Slave(Blank, []);
    var s1 := Pair(b, b, Voting(q, 0, []), NotSent, 0);
    var s2 := Pair(Slave(Blank, [Mail(0, Vote(q))]), b, Voting(q, 0, []), Waiting(0), 1);
    ReachInitial(TwoSlaves);
    assert Initial(TwoSlaves) == Pair(b, b, Idle, NotSent, 0);
    ReachNext(TwoSlaves, Initial(TwoSlaves), Begin(q), s1);
    SeqFacts(Mail(0, Vote(q)), Mail(0, Vote(q)));
    PairFacts(b, b, s2.slaves[0]);
    ReachNext(TwoSlaves, s1, SendVote, s2);
  }

  lemma FirstVote(k: Key, v: Value)
    requires ValidateKeyValue(k, v) == None
    ensures Reachable(TwoSlaves, var q := PutReq(k, v);
              Pair(Slave(Promised(q), []), Slave(Blank, []), Voting(q, 1, [true]), NotSent, 1))
  {
    hide Reachable;
    hide ReplayAll;
    AsksFirst(k, v);
    var q := PutReq(k, v);
    var b := Slave(Blank, []);
    var s2 := Pair(Slave(Blank, [Mail(0, Vote(q))]), b, Voting(q, 0, []), Waiting(0), 1);
    var s3 := Pair(Slave(Promised(q), []), b, Voting(q, 0, []), Replied(Ready), 1);
    var s4 := Pair(Slave(Promised(q), []), b, Voting(q, 1, [true]), NotSent, 1);
    SeqFacts(Mail(0, Vote(q)), Mail(0, Vote(q)));
    SeqFacts(Voted(q), Voted(q));
    SeqFacts(true, true);
    PairFacts(s2.slaves[0], b, s3.slaves[0]);
    ReachNext(TwoSlaves, s2, HandleMail(0), s3);
    ReachNext(TwoSlaves, s3, VoteArrives, s4);
  }

  lemma SecondVote(k: Key, v: Value)
    requires ValidateKeyValue(k, v) == None
    ensures Reachable(TwoSlaves, var q := PutReq(k, v);
              Pair(Slave(Promised(q), []), Slave(Promised(q), []), Voting(q, 2, [true, true]), NotSent, 2))
  {
    hide Reachable;
    hide ReplayAll;
    FirstVote(k, v);
    var q := PutReq(k, v);
    var a := Slave(Promised(q), []);
    var s4 := Pair(a, Slave(Blank, []), Voting(q, 1, [true]), NotSent, 1);
    var s5 := Pair(a, Slave(Blank, [Mail(1, Vote(q))]), Voting(q, 1, [true]), Waiting(1), 2);
    var s6 := Pair(a, a, Voting(q, 1, [true]), Replied(Ready), 2);
    var s7 := Pair(a, a, Voting(q, 2, [true, true]), NotSent, 2);
    SeqFacts(Mail(1, Vote(q)), Mail(1, Vote(q)));
    SeqFacts(Voted(q), Voted(q));
    SeqFacts(true, true);
    PairFacts(a, Slave(Blank, []), s5.slaves[1]);
    PairFacts(a, s5.slaves[1], a);
    ReachNext(TwoSlaves, s4, SendVote, s5);
    ReachNext(TwoSlaves, s5, HandleMail(1), s6);
    ReachNext(TwoSlaves, s6, VoteArrives, s7);
  }

  lemma FirstCommit(k: Key, v: Value)
    requires ValidateKeyValue(k, v) == None
    ensures Reachable(TwoSlaves, var q := PutReq(k, v);
              Pair(Slave(CarriedOut(k, v), []), Slave(Promised(q), []),
                   Deciding(q, Commit, 1, false, [true, true]), NotSent, 3))
  {
    hide Reachable;
    hide ReplayAll;
    SecondVote(k, v);
    var q := PutReq(k, v);
    var a, c := Slave(Promised(q), []), Slave(CarriedOut(k, v), []);
    var s7 := Pair(a, a, Voting(q, 2, [true, true]), NotSent, 2);
    var s8 := Pair(a, a, Deciding(q, Commit, 0, false, [true, true]), NotSent, 2);
    var s9 := Pair(Slave(Promised(q), [Mail(2, Decide(Commit))]), a,
                   Deciding(q, Commit, 0, false, [true, true]), Waiting(2), 3);
    var s10 := Pair(c, a, Deciding(q, Commit, 0, false, [true, true]), Replied(Ack), 3);
    var s11 := Pair(c, a, Deciding(q, Commit, 1, false, [true, true]), NotSent, 3);
    SeqFacts(Mail(2, Decide(Commit)), Mail(2, Decide(Commit)));
    SeqFacts(Voted(q), Decided(Commit));
    PairFacts(a, a, s9.slaves[0]);
    PairFacts(s9.slaves[0], a, c);
    assert map[][k := v] == map[k := v];
    ReachNext(TwoSlaves, s7, Decide_, s8);
    ReachNext(TwoSlaves, s8, SendDecision, s9);
    ReachNext(TwoSlaves, s9, HandleMail(0), s10);
    ReachNext(TwoSlaves, s10, DecisionArrives, s11);
  }

  /**
   The master stops repeating a decision at any reply it can read, not only at an acknowledgement: if one replica
   answers the commit with an error, the request ends with the two replicas apart.
   */
  lemma GarbledCommitLosesAgreement(k: Key, v: Value)
    requires ValidateKeyValue(k, v) == None
    ensures exists s: State ::
            && Reachable(TwoSlaves, s) && s.phase.Idle? && s.slaves.Keys == {0, 1}
              && Lookup(s.slaves[0].replica.store, k) == Some(v)
              && Lookup(s.slaves[1].replica.store, k) == None
  {
    hide Reachable;
    hide ReplayAll;
    FirstCommit(k, v);
    var q := PutReq(k, v);
    var a, c := Slave(Promised(q), []), Slave(CarriedOut(k, v), []);
    var s11 := Pair(c, a, Deciding(q, Commit, 1, false, [true, true]), NotSent, 3);
    var s12 := Pair(c, Slave(Promised(q), [Mail(3, Decide(Commit))]),
                    Deciding(q, Commit, 1, false, [true, true]), Waiting(3), 4);
    var s13 := Pair(c, a, Deciding(q, Commit, 1, false, [true, true]), Replied(Failed(InvalidKey)), 4);
    var s14 := Pair(c, a, Deciding(q, Commit, 2, true, [true, true]), NotSent, 4);
    var s15 := Pair(c, a, Idle, NotSent, 4).(doubtful := {k});
    SeqFacts(Mail(3, Decide(Commit)), Mail(3, Decide(Commit)));
    PairFacts(c, a, s12.slaves[1]);
    PairFacts(c, s12.slaves[1], a);
    ReachNext(TwoSlaves, s11, SendDecision, s12);
    ReachNext(TwoSlaves, s12, GarbleMail(1), s13);
    ReachNext(TwoSlaves, s13, DecisionArrives, s14);
    ReachNext(TwoSlaves, s14, Finish, s15);
    assert Reachable(TwoSlaves, s15);
  }
}
