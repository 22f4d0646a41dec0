/**
 One replica of the two-phase commit: its log, the replay that rebuilds a server from the log, and the
 handler that answers the master's messages.
 */
module KvReplica {
  import opened Basics
  import opened KvServer

  datatype Request = PutReq(key: Key, value: Value) | DelReq(key: Key)

  datatype Decision = Commit | Abort

  datatype Entry = Voted(req: Request) | Got(key: Key) | Decided(decision: Decision)

  type Log = seq<Entry>

  type Store = map<Key, Value>

  datatype Reply = Ready | Ack | Failed(error: Error)

  // ---------- Replay ----------

  /** The variables of the replay loop: the server so far, the last action, and whether a server call failed. */
  datatype Replay = Replay(store: Store, last: Option<Entry>, failed: bool)

  /** A server operation would succeed. */
  predicate CanApply(store: Store, req: Request) {
    match req
    case PutReq(k, v) => ValidateKeyValue(k, v).None?
    case DelReq(k) => k == "" || k in store
  }

  function ApplyTo(store: Store, req: Request): Store {
    match req
    case PutReq(k, v) => store[k := v]
    case DelReq(k) => store - {k}
  }

  /** What a request does to the value of its key. */
  function Outcome(req: Request): Option<Value> {
    match req
    case PutReq(_, v) => Some(v)
    case DelReq(_) => None
  }

  function ReplayOne(r: Replay, e: Entry): Replay {
    match e
    case Voted(_) => r.(last := Some(e))
    case Got(_) => r.(last := Some(e))
    case Decided(Abort) => r.(last := None)
    case Decided(Commit) =>
      if r.last.Some? && r.last.value.Voted? then
        var req := r.last.value.req;
        if CanApply(r.store, req) then Replay(ApplyTo(r.store, req), None, r.failed)
        else r.(failed := true)
      else r.(last := None)
  }

  /** The replay of a whole log; it stops at the first failure. */
  function ReplayAll(log: Log): Replay {
    if log == [] then Replay(map[], None, false)
    else
      var r := ReplayAll(log[..|log| - 1]);
      if r.failed then r else ReplayOne(r, log[|log| - 1])
  }

  /** A replay never fails before it fails: a log replays iff each of its prefixes does. */
  lemma {:induction false} ReplayPrefix(log: Log, n: nat)
    requires n <= |log| && !ReplayAll(log).failed
    ensures !ReplayAll(log[..n]).failed
    decreases |log|
  {
    if n == |log| {
      assert log[..n] == log;
    } else {
      ReplayPrefix(log[..|log| - 1], n);
      assert log[..|log| - 1][..n] == log[..n];
    }
  }

  lemma ReplayAppend(log: Log, e: Entry)
    ensures ReplayAll(log + [e]) == var r := ReplayAll(log); if r.failed then r else ReplayOne(r, e)
  {
    assert (log + [e])[..|log|] == log;
  }

  /** Duplicated decisions are harmless: after any decision, a further one changes nothing that replay rebuilds. */
  lemma DuplicateDecisions(log: Log, d: Decision, e: Decision)
    requires !ReplayAll(log + [Decided(d)]).failed
    ensures ReplayAll(log + [Decided(d)] + [Decided(e)]) == ReplayAll(log + [Decided(d)])
  {
    ReplayAppend(log, Decided(d));
    ReplayAppend(log + [Decided(d)], Decided(e));
  }

  /** A read that was logged between a request and its commit would cost the request: replay applies the last action. */
  lemma ReadBetween(log: Log, req: Request, k: Key)
    requires !ReplayAll(log).failed
    ensures ReplayAll(log + [Voted(req)] + [Got(k)] + [Decided(Commit)]).store == ReplayAll(log).store
    ensures CanApply(ReplayAll(log).store, req) ==>
              ReplayAll(log + [Voted(req)] + [Decided(Commit)]).store == ApplyTo(ReplayAll(log).store, req)
  {
    ReplayAppend(log, Voted(req));
    ReplayAppend(log + [Voted(req)], Decided(Commit));
    ReplayAppend(log + [Voted(req)], Got(k));
    ReplayAppend(log + [Voted(req)] + [Got(k)], Decided(Commit));
    hide ReplayAll;
  }

  // ---------- The handler, on values ----------

  datatype Replica = Replica(log: Log, store: Store)

  datatype Message = Vote(req: Request) | Decide(decision: Decision)

  /** The replica after a message, and its reply. A commit on an empty log makes the job fail without a reply. */
  function Handle(r: Replica, m: Message): (Replica, Option<Reply>) {
    match m
    case Vote(req) =>
      match req {
        case PutReq(k, v) =>
          var e := ValidateKeyValue(k, v);
          if e.None? then (r.(log := r.log + [Voted(req)]), Some(Ready)) else (r, Some(Failed(e.value)))
        case DelReq(k) =>
          if k in r.store then (r.(log := r.log + [Voted(req)]), Some(Ready)) else (r, Some(Failed(NoSuchKey)))
      }
    case Decide(Abort) => (r.(log := r.log + [Decided(Abort)]), Some(Ack))
    case Decide(Commit) =>
      if r.log == [] then (r, None)
      else
        var last := r.log[|r.log| - 1];
        if !last.Voted? then (r, Some(Ack))
        else
          var log := r.log + [Decided(Commit)];
          match last.req {
            case PutReq(k, v) =>
              var e := ValidateKeyValue(k, v);
              if e.None? then (Replica(log, r.store[k := v]), Some(Ack))
              else (Replica(log, r.store), Some(Failed(e.value)))
            case DelReq(k) =>
              if k == "" || k in r.store then (Replica(log, r.store - {k}), Some(Ack))
              else (Replica(log, r.store), Some(Failed(NoSuchKey)))
          }
  }

  /** A request can take effect: a put keeps the rules for keys and values, and a delete finds its key. */
  predicate Accepts(store: Store, req: Request) {
    match req
    case PutReq(k, v) => 1 <= |k| <= 256 && 1 <= |v| <= 262144
    case DelReq(k) => k in store
  }

  /** A replica votes for exactly the requests that can take effect; it logs those and no others. */
  lemma VotesForAccepted(r: Replica, req: Request)
    ensures Handle(r, Vote(req)).1 == Some(Ready) <==> Accepts(r.store, req)
    ensures Handle(r, Vote(req)).0 == if Accepts(r.store, req) then Replica(r.log + [Voted(req)], r.store) else r
    ensures !Accepts(r.store, req) ==>
              Handle(r, Vote(req)).1 == Some(Failed(
                match req
                case DelReq(_) => NoSuchKey
                case PutReq(k, v) => if |k| == 0 then InvalidKey else if |v| == 0 then InvalidValue
                                     else if |k| > 256 then OversizedKey else OversizedValue))
  {}

  /** An abort ends the request for good: whatever decision comes next, nothing is applied. */
  lemma AbortForgets(r: Replica, d: Decision)
    ensures var r' := Handle(r, Decide(Abort)).0;
            Handle(r, Decide(Abort)).1 == Some(Ack) && r'.store == r.store
            && Handle(r', Decide(d)).0.store == r.store && Handle(r', Decide(d)).1 == Some(Ack)
  {}

  /** The running server is what a rebuild from the log would give, and the pending request is the one replay sees. */
  ghost predicate Consistent(r: Replica) {
    && ReplayAll(r.log) == Replay(r.store, Pending(r.log), false)
    && "" !in r.store && (forall k :: k in r.store ==> r.store[k] != "")
    && (Pending(r.log).Some? ==> CanApply(r.store, Pending(r.log).value.req))
  }

  /** The request that a commit would act on: the last entry, if it is a request. */
  function Pending(log: Log): (e: Option<Entry>)
    ensures e.Some? ==> e.value.Voted?
  {
    if log != [] && log[|log| - 1].Voted? then Some(log[|log| - 1]) else None
  }

  /** Every message keeps the replica consistent, so a crash at any time loses nothing and a rebuild never fails. */
  lemma HandleKeepsConsistent(r: Replica, m: Message)
    requires Consistent(r)
    ensures Consistent(Handle(r, m).0)
    ensures m == Decide(Commit) && r.log != [] ==> Handle(r, m).1 == Some(Ack)
  {
    match m
    case Vote(req) => VoteKeepsConsistent(r, req);
    case Decide(d) => DecisionKeepsConsistent(r, d);
  }

  lemma VoteKeepsConsistent(r: Replica, req: Request)
    requires Consistent(r)
    ensures Consistent(Handle(r, Vote(req)).0)
  {
    ReplayAppend(r.log, Voted(req));
    hide ReplayAll;
  }

  lemma DecisionKeepsConsistent(r: Replica, d: Decision)
    requires Consistent(r)
    ensures Consistent(Handle(r, Decide(d)).0)
    ensures d == Commit && r.log != [] ==> Handle(r, Decide(d)).1 == Some(Ack)
  {
    ReplayAppend(r.log, Decided(d));
    hide ReplayAll;
  }

  /** A vote is a promise: a commit that follows directly applies the request. */
  lemma VoteThenCommit(r: Replica, req: Request)
    requires Consistent(r) && Handle(r, Vote(req)).1 == Some(Ready)
    ensures var r' := Handle(Handle(r, Vote(req)).0, Decide(Commit)).0;
            CanApply(r.store, req) && r'.store == ApplyTo(r.store, req)
  {}

  // ---------- The log and the handler, as the source runs them ----------

  class TPCLog {
    var entries: Log
    var disk: Log
    const kvServer: KVServer

    /** Nothing is read yet. */
    constructor (disk: Log, kvServer: KVServer)
      ensures this.kvServer == kvServer && this.disk == disk && entries == []
    {
      this.kvServer := kvServer;
      this.disk, entries := disk, [];
    }

    /**
     * Attaches to a fresh server and rebuilds it from the entries found on disk. There is no log, but an exception,
     * if and only if the replay fails, and the server then stands where it failed.
     */
    static method Open(disk: Log, kvServer: KVServer) returns (r: Option<TPCLog>)
      requires kvServer.Valid() && kvServer.dataStore == map[]
      modifies kvServer, kvServer.dataCache
      ensures kvServer.Valid() && kvServer.dataStore == ReplayAll(disk).store
      ensures r == None <==> ReplayAll(disk).failed
      ensures r.Some? ==> fresh(r.value) && r.value.kvServer == kvServer && r.value.entries == r.value.disk == disk
    {
      var log := new TPCLog(disk, kvServer);
      var ok := log.RebuildServer();
      r := if ok then Some(log) else None;
    }

    /** The whole log is written out with every entry, so nothing is lost with the process. */
    method AppendAndFlush(e: Entry)
      modifies this
      ensures entries == disk == old(entries) + [e]
    {
      entries := entries + [e];
      FlushToDisk();
    }

    method FlushToDisk()
      modifies this`disk
      ensures disk == entries
    {
      disk := entries;
    }

    /** Replays the log on disk into the server; `ok` is false if the server refused an operation. */
    method RebuildServer() returns (ok: bool)
      requires kvServer.Valid() && kvServer.dataStore == map[]
      modifies this`entries, kvServer, kvServer.dataCache
      ensures kvServer.Valid() && entries == disk
      ensures ok <==> !ReplayAll(disk).failed
      ensures kvServer.dataStore == ReplayAll(disk).store
    {
      entries := disk;
      var lastAction: Option<Entry> := None;
      for i := 0 to |entries|
        invariant kvServer.Valid() && entries == disk
        invariant ReplayAll(entries[..i]) == Replay(kvServer.dataStore, lastAction, false)
      {
        var entry := entries[i];
        assert entries[..i + 1] == entries[..i] + [entry];
        ReplayAppend(entries[..i], entry);
        match entry {
          case Voted(_) => lastAction := Some(entry);
          case Got(_) => lastAction := Some(entry);
          case Decided(Abort) => lastAction := None;
          case Decided(Commit) =>
            if lastAction.Some? {
              if lastAction.value.Voted? {
                var done := Execute(kvServer, lastAction.value.req);
                if !done {
                  FailsForGood(entries, i + 1);
                  return false;
                }
              }
              lastAction := None;
            }
        }
      }
      assert entries[..|entries|] == entries;
      return true;
    }
  }

  lemma {:induction false} FailsForGood(log: Log, n: nat)
    requires n <= |log| && ReplayAll(log[..n]).failed
    ensures ReplayAll(log) == ReplayAll(log[..n])
    decreases |log|
  {
    if n == |log| {
      assert log[..n] == log;
    } else {
      assert log[..|log| - 1][..n] == log[..n];
      FailsForGood(log[..|log| - 1], n);
    }
  }

  /** Carries out a logged request on the server. */
  method Execute(server: KVServer, req: Request) returns (done: bool)
    requires server.Valid()
    modifies server, server.dataCache
    ensures server.Valid() && done == CanApply(old(server.dataStore), req)
    ensures server.dataStore == if done then ApplyTo(old(server.dataStore), req) else old(server.dataStore)
  {
    match req {
      case PutReq(k, v) =>
        var r := server.Put(k, v);
        done := r.Ok?;
      case DelReq(k) =>
        var r := server.Del(k);
        done := r.Ok?;
    }
  }

  /** The slave's side of the protocol: one job per message from the master. */
  class TPCMasterHandler {
    const kvServer: KVServer
    const tpcLog: TPCLog

    constructor (kvServer: KVServer, tpcLog: TPCLog)
      ensures this.kvServer == kvServer && this.tpcLog == tpcLog
    {
      this.kvServer, this.tpcLog := kvServer, tpcLog;
    }

    method Run(m: Message) returns (reply: Option<Reply>)
      requires kvServer.Valid()
      modifies kvServer, kvServer.dataCache, tpcLog
      ensures kvServer.Valid()
      ensures var before, now := Replica(old(tpcLog.entries), old(kvServer.dataStore)),
                                 Replica(tpcLog.entries, kvServer.dataStore);
              (now, reply) == Handle(before, m)
      ensures m.Vote? ==> (reply == Some(Ready) <==> Accepts(old(kvServer.dataStore), m.req))
      ensures m.Vote? && reply == Some(Ready) ==> tpcLog.disk == tpcLog.entries == old(tpcLog.entries) + [Voted(m.req)]
      ensures old(tpcLog.disk == tpcLog.entries) ==> tpcLog.disk == tpcLog.entries
    {
      match m {
        case Vote(req) =>
          var refusal := Refusal(req);
          if refusal.None? {
            tpcLog.AppendAndFlush(Voted(req));
            return Some(Ready);
          }
          return Some(Failed(refusal.value));
        case Decide(Abort) =>
          tpcLog.AppendAndFlush(Decided(Abort));
          return Some(Ack);
        case Decide(Commit) =>
          if tpcLog.entries == [] {
            return None;
          }
          var exec := tpcLog.entries[|tpcLog.entries| - 1];
          if exec.Voted? {
            tpcLog.AppendAndFlush(Decided(Commit));
            match exec.req {
              case PutReq(k, v) =>
                var r := kvServer.Put(k, v);
                return Some(if r.Ok? then Ack else Failed(r.error));
              case DelReq(k) =>
                assert k !in kvServer.dataStore ==> kvServer.dataStore - {k} == kvServer.dataStore;
                var r := kvServer.Del(k);
                return Some(if r.Ok? then Ack else Failed(r.error));
            }
          }
          return Some(Ack);
      }
    }

    function Refusal(req: Request): Option<Error>
      reads kvServer
    {
      match req
      case PutReq(k, v) => ValidateKeyValue(k, v)
      case DelReq(k) => if k in kvServer.dataStore then None else Some(NoSuchKey)
    }

    /** Reads do not reach the log and leave the server as it is; a missing key is an error. */
    method RunGet(key: Key) returns (r: Result<Option<Value>>)
      requires kvServer.Valid()
      modifies kvServer, kvServer.dataCache
      ensures kvServer.Valid() && kvServer.dataStore == old(kvServer.dataStore)
      ensures r == if key == "" then Ok(None)
                   else if key in kvServer.dataStore then Ok(Some(kvServer.dataStore[key])) else Err(NoSuchKey)
    {
      r := kvServer.Get(key);
    }
  }
}
