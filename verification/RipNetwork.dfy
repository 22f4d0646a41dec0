/**
 * Routers and hosts joined by links that only come up; two nodes may have any number of links. Every update that was
 * ever sent may reach any router, on any port, at any time and any number of times, so delay, loss, repetition,
 * reordering and detours are all included.
 */
module RipNetwork {
  import opened RipRouter

  lemma TruthfulStays(links: Links, more: Links, me: Node, t: Tables)
    requires Truthful(links, me, t) && links <= more
    ensures Truthful(more, me, t)
  {
    forall n, d | Knows(t, n, d) ensures ColumnTruth(more, n, d, t.routing[n][d]) {
      assert ColumnTruth(links, n, d, t.routing[n][d]);
      if t.routing[n][d] < INFINITY {
        WalkStays(links, more, n, d, t.routing[n][d] - 1);
      }
    }
    forall d | d in t.forwarding ensures Truth(more, me, d, t.forwarding[d].distance) {
      TruthStays(links, more, me, d, t.forwarding[d].distance);
    }
    hide Walk;
    hide ColumnTruth;
    hide Truth;
  }

  lemma TruthStays(links: Links, more: Links, u: Node, d: Node, distance: int)
    requires Truth(links, u, d, distance) && links <= more
    ensures Truth(more, u, d, distance)
  {
    if distance < INFINITY {
      WalkStays(links, more, u, d, distance);
    }
  }

  lemma PathsStay(links: Links, more: Links, src: Node, paths: map<Node, int>)
    requires PathsTruth(links, src, paths) && links <= more
    ensures PathsTruth(more, src, paths)
  {
    forall d | d in paths ensures Truth(more, src, d, paths[d]) {
      TruthStays(links, more, src, d, paths[d]);
    }
  }

  lemma EmptyHonest(links: Links, me: Node)
    ensures var t := Tables(map[], map[], map[]); Honest(links, me, t) && Consistent(t)
  {}

  /** What a router knows after it met a neighbour for the first time. */
  ghost predicate Met(t: Tables, t': Tables, n: Node, port: Port) {
    && t'.neighbors == t.neighbors[n := port] && t'.forwarding == t.forwarding[n := Route(port, 1)]
    && Kept(t, t') && Introduced(t', n)
  }

  /** What a router knows after an update came, unless a missing key stopped the handler, and when that happens. */
  ghost predicate Delivered(t: Tables, t': Tables, a: Arrival, ok: bool) {
    && (ok <==> !Stops(t, a)) && t'.neighbors == t.neighbors
    && (ok ==>
          && Column(t', a)
          && (forall d :: d in a.paths ==> Knows(t', a.src, d))
          && (forall d :: d in a.paths && !Knows(t, a.src, d) ==> d in t.forwarding || d in t'.forwarding))
  }

  /** The router with these tables knows its neighbours by ports on which they are. */
  ghost predicate PluggedIn(ports: map<(Node, Port), Node>, r: Node, t: Tables) {
    forall n :: n in t.neighbors ==> (r, t.neighbors[n]) in ports && ports[(r, t.neighbors[n])] == n
  }

  /** A packet of `r` to the destination goes through `n`. */
  ghost predicate Through(ports: map<(Node, Port), Node>, r: Node, t: Tables, d: Node, n: Node) {
    d in t.forwarding && (r, t.forwarding[d].port) in ports && ports[(r, t.forwarding[d].port)] == n
  }

  /** A route through a neighbour is not offered to that neighbour. */
  lemma PoisonReaches(ports: map<(Node, Port), Node>, u: Update, t: Tables, was: Tables, now: Tables, port: Port,
                      d: Node)
    requires Poisoned(t, u) && PluggedIn(ports, u.src, t) && Consistent(t) && Through(ports, u.src, t, d, u.dst)
    requires Delivered(was, now, Arrival(u.dst, u.src, port, u.paths), true) && d != u.src && d != u.dst
    ensures forall k :: !Offers(now, u.src, d, k)
  {
    hide Stops;
    hide NoWorse;
    assert Sourced(t, d);
    var m :| From(t, d, m);
    assert u.paths[d] == INFINITY;
    assert Knows(now, u.src, d) ==> Follows(now, Arrival(u.dst, u.src, port, u.paths), d);
  }

  /** The column of the sender offers no way to what the sender reached through this router when it sent the update. */
  ghost predicate Withheld(ports: map<(Node, Port), Node>, log: set<(Update, Tables)>, u: Update, now: Tables) {
    forall t, d :: (u, t) in log && Through(ports, u.src, t, d, u.dst) && d != u.src && d != u.dst ==>
      forall k :: !Offers(now, u.src, d, k)
  }

  lemma WithheldAfter(ports: map<(Node, Port), Node>, log: set<(Update, Tables)>, u: Update, was: Tables, now: Tables,
                      port: Port)
    requires forall t :: (u, t) in log ==> Poisoned(t, u) && PluggedIn(ports, u.src, t) && Consistent(t)
    requires Delivered(was, now, Arrival(u.dst, u.src, port, u.paths), true)
    ensures Withheld(ports, log, u, now)
  {
    hide Poisoned;
    hide PluggedIn;
    hide Consistent;
    hide Delivered;
    hide Offers;
    forall t, d | (u, t) in log && Through(ports, u.src, t, d, u.dst) && d != u.src && d != u.dst
      ensures forall k :: !Offers(now, u.src, d, k)
    {
      PoisonReaches(ports, u, t, was, now, port, d);
    }
  }

  class Network {
    const hosts: set<Node>
    const routers: map<Node, Router>
    var links: Links
    var ports: map<(Node, Port), Node>   // the node at the other end of the link on a port
    var sent: set<Update>
    ghost var log: set<(Update, Tables)> // the updates, each with the tables that its sender had
    ghost var disturbed: set<Node>       // routers whose handler was stopped by a missing key, that met a neighbour
                                         // again, or that got an update on another port than that of its sender

    ghost predicate Wiring()
      reads this
    {
      && (forall r :: r in routers ==> routers[r].me == r)
      && (forall r, s :: r in routers && s in routers && r != s ==> routers[r] != routers[s])
      && (forall a, p :: (a, p) in ports ==> (a, ports[(a, p)]) in links)
    }

    ghost predicate RouterOk(r: Node)
      requires r in routers
      reads this, routers[r]
    {
      && Truthful(links, r, routers[r].Now()) && PluggedIn(ports, r, routers[r].Now())
      && (r !in disturbed ==> Direct(routers[r].Now()) && Consistent(routers[r].Now()))
    }

    ghost predicate SentOk()
      reads this
    {
      forall u :: u in sent ==> PathsTruth(links, u.src, u.paths)
    }

    ghost predicate LogOk()
      reads this
    {
      && sent == (set e | e in log :: e.0)
      && forall u, t :: (u, t) in log ==>
           Poisoned(t, u) && PluggedIn(ports, u.src, t) && (u.src !in disturbed ==> Consistent(t))
    }

    /** Every router tells the truth, and so does every update under way. */
    ghost predicate Valid()
      reads this, set r | r in routers :: routers[r]
    {
      Wiring() && SentOk() && LogOk() && forall r :: r in routers ==> RouterOk(r)
    }

    constructor (hosts: set<Node>, routers: map<Node, Router>)
      requires forall r :: r in routers ==> routers[r].me == r && routers[r].Now() == Tables(map[], map[], map[])
      ensures Valid() && links == {} && ports == map[] && disturbed == {}
      ensures this.hosts == hosts && this.routers == routers
    {
      this.hosts, this.routers := hosts, routers;
      links, ports, sent, log, disturbed := {}, map[], {}, {}, {};
      new;
      forall r | r in routers ensures RouterOk(r) {
        EmptyHonest(links, r);
      }
    }

    /** A link between two nodes comes up, the first or another one, on a free port of each. */
    method LinkUp(a: Node, b: Node, portA: Port, portB: Port)
      requires Valid() && a != b && (a, portA) !in ports && (b, portB) !in ports
      modifies this`links, this`ports
      ensures Valid() && links == old(links) + {(a, b), (b, a)}
      ensures ports == old(ports)[(a, portA) := b][(b, portB) := a]
    {
      ghost var was := links;
      forall r | r in routers ensures Truthful(was + {(a, b), (b, a)}, r, routers[r].Now()) {
        assert RouterOk(r);
        TruthfulStays(was, was + {(a, b), (b, a)}, r, routers[r].Now());
      }
      forall u | u in sent ensures PathsTruth(was + {(a, b), (b, a)}, u.src, u.paths) {
        PathsStay(was, was + {(a, b), (b, a)}, u.src, u.paths);
      }
      AddLink(a, b, portA, portB);
    }

    method AddLink(a: Node, b: Node, portA: Port, portB: Port)
      requires Valid() && a != b && (a, portA) !in ports && (b, portB) !in ports
      requires forall r :: r in routers ==> Truthful(links + {(a, b), (b, a)}, r, routers[r].Now())
      requires forall u :: u in sent ==> PathsTruth(links + {(a, b), (b, a)}, u.src, u.paths)
      modifies this`links, this`ports
      ensures Valid() && links == old(links) + {(a, b), (b, a)}
      ensures ports == old(ports)[(a, portA) := b][(b, portB) := a]
    {
      hide Truthful;
      hide Direct;
      hide Consistent;
      hide PathsTruth;
      links := links + {(a, b), (b, a)};
      ports := ports[(a, portA) := b][(b, portB) := a];
      forall r | r in routers ensures RouterOk(r) {
        assert old(RouterOk(r));
      }
    }

    /** A router learns of one of its links; who is at the other end may be a neighbour already. */
    method Discover(r: Node, port: Port)
      requires Valid() && r in routers && (r, port) in ports
      modifies this`sent, this`log, this`disturbed, routers[r]
      ensures Valid() && old(sent) <= sent && old(log) <= log
      ensures var n := ports[(r, port)];
              if n !in old(routers[r].neighbors) then
                disturbed == old(disturbed) && Met(old(routers[r].Now()), routers[r].Now(), n, port)
              else
                && disturbed == old(disturbed) + {r} && n in routers[r].neighbors && routers[r].neighbors[n] == port
                && (old(Consistent(routers[r].Now())) ==> !Consistent(routers[r].Now()))
      ensures forall m :: m in routers[r].neighbors && m !in hosts ==>
                Update(r, m, Announced(routers[r].Now(), m)) in sent
    {
      hide Truthful;
      hide Direct;
      hide Consistent;
      hide PathsTruth;
      hide Met;
      hide Announced;
      assert RouterOk(r);
      ghost var isNew := ports[(r, port)] !in routers[r].neighbors;
      var updates := Greet(r, port);
      Note(r, isNew);
      Sent(r, updates);
    }

    /** The router that has the link enters it. */
    method Greet(r: Node, port: Port) returns (updates: set<Update>)
      requires Valid() && r in routers && (r, port) in ports
      modifies routers[r]
      ensures Wiring() && SentOk() && LogOk() && forall q :: q in routers && q != r ==> RouterOk(q)
      ensures Truthful(links, r, routers[r].Now()) && PluggedIn(ports, r, routers[r].Now())
      ensures var t, t', n := old(routers[r].Now()), routers[r].Now(), ports[(r, port)];
              && t'.neighbors == t.neighbors[n := port]
              && (Consistent(t) ==> (Consistent(t') <==> n !in t.neighbors))
              && (n !in t.neighbors ==> Met(t, t', n, port) && (Direct(t) ==> Direct(t')))
      ensures forall m :: m in routers[r].neighbors && m !in hosts ==>
                Update(r, m, Announced(routers[r].Now(), m)) in updates
      ensures forall u :: u in updates ==>
                u.src == r && PathsTruth(links, u.src, u.paths) && Poisoned(routers[r].Now(), u)
    {
      hide Poisoned;
      hide Truthful;
      hide Direct;
      hide Consistent;
      hide PathsTruth;
      hide Announced;
      hide Kept;
      hide Introduced;
      assert RouterOk(r);
      updates := routers[r].AddNeighbor(ports[(r, port)], port, hosts, links);
      forall q | q in routers && q != r ensures RouterOk(q) {
        assert old(RouterOk(q));
      }
    }

    /** An update arrives somewhere, on some port; routers ignore those from strangers. */
    method Deliver(u: Update, r: Node, port: Port)
      requires Valid() && u in sent
      modifies this`sent, this`log, this`disturbed, set q | q in routers :: routers[q]
      ensures Valid() && old(sent) <= sent && old(log) <= log && old(disturbed) <= disturbed <= old(disturbed) + {r}
      ensures forall q :: q in routers && q != r ==> routers[q].Now() == old(routers[q].Now())
      ensures r in routers && u.src in old(routers[r].routing) ==>
                exists ok :: && Delivered(old(routers[r].Now()), routers[r].Now(), Arrival(r, u.src, port, u.paths), ok)
                             && (disturbed == if ok && Matches(routers[r].Now(), u.src, port) then old(disturbed)
                                              else old(disturbed) + {r})
                             && (!ok ==> sent == old(sent))
      ensures r in routers && u.src in old(routers[r].routing) && u.dst == r && u.src !in disturbed &&
              !old(Stops(routers[r].Now(), Arrival(r, u.src, port, u.paths))) ==>
                Withheld(ports, old(log), u, routers[r].Now())
    {
      hide Truthful;
      hide Direct;
      hide Consistent;
      hide PathsTruth;
      hide Stops;
      hide Delivered;
      hide Withheld;
      hide Poisoned;
      hide PluggedIn;
      if r in routers && u.src in routers[r].routing {
        var updates, ok := Receive(u, r, port);
        Note(r, ok && Matches(routers[r].Now(), u.src, port));
        Sent(r, updates);
      }
    }

    /** The router that the update reached handles it. */
    method Receive(u: Update, r: Node, port: Port) returns (updates: set<Update>, ok: bool)
      requires Valid() && u in sent && r in routers && u.src in routers[r].routing
      modifies routers[r]
      ensures Wiring() && SentOk() && LogOk() && forall q :: q in routers && q != r ==> RouterOk(q)
      ensures Truthful(links, r, routers[r].Now()) && PluggedIn(ports, r, routers[r].Now())
      ensures old(Direct(routers[r].Now())) && Matches(routers[r].Now(), u.src, port) ==> Direct(routers[r].Now())
      ensures old(Consistent(routers[r].Now())) && Matches(routers[r].Now(), u.src, port) ==>
                (ok <==> Consistent(routers[r].Now()))
      ensures Delivered(old(routers[r].Now()), routers[r].Now(), Arrival(r, u.src, port, u.paths), ok)
      ensures ok <==> !old(Stops(routers[r].Now(), Arrival(r, u.src, port, u.paths)))
      ensures ok && u.dst == r && u.src !in disturbed ==> Withheld(ports, log, u, routers[r].Now())
      ensures !ok ==> updates == {}
      ensures forall v :: v in updates ==>
                v.src == r && PathsTruth(links, v.src, v.paths) && Poisoned(routers[r].Now(), v)
    {
      hide Poisoned;
      hide Truthful;
      hide Direct;
      hide Consistent;
      hide PathsTruth;
      hide Column;
      hide Stops;
      assert RouterOk(r);
      hide Withheld;
      ghost var was := routers[r].Now();
      updates, ok := routers[r].HandleRoutingUpdate(u, port, hosts, links);
      if ok && u.dst == r && u.src !in disturbed {
        WithheldAfter(ports, log, u, was, routers[r].Now(), port);
      }
      forall q | q in routers && q != r ensures RouterOk(q) {
        assert old(RouterOk(q));
      }
    }

    /** A router that something unforeseen happened to is remembered as such. */
    ghost method Note(r: Node, fine: bool)
      requires Wiring() && SentOk() && LogOk() && r in routers
      requires forall q :: q in routers && q != r ==> RouterOk(q)
      requires Truthful(links, r, routers[r].Now()) && PluggedIn(ports, r, routers[r].Now())
      requires fine && r !in disturbed ==> Direct(routers[r].Now()) && Consistent(routers[r].Now())
      modifies this`disturbed
      ensures Valid() && disturbed == if fine then old(disturbed) else old(disturbed) + {r}
    {
      hide Truthful;
      hide Direct;
      hide Consistent;
      if !fine {
        disturbed := disturbed + {r};
      }
      forall q | q in routers ensures RouterOk(q) {
        assert q != r ==> old(RouterOk(q));
      }
    }

    /** Updates go out; nothing else changes. */
    method Sent(r: Node, updates: set<Update>)
      requires Valid() && r in routers
      requires forall u :: u in updates ==>
                 u.src == r && PathsTruth(links, u.src, u.paths) && Poisoned(routers[r].Now(), u)
      modifies this`sent, this`log
      ensures Valid() && sent == old(sent) + updates
      ensures log == old(log) + set u | u in updates :: (u, routers[r].Now())
    {
      hide Poisoned;
      hide PluggedIn;
      hide Truthful;
      hide Direct;
      hide Consistent;
      hide PathsTruth;
      sent := sent + updates;
      log := log + set u | u in updates :: (u, routers[r].Now());
      assert old(RouterOk(r));
      forall u | u in updates ensures exists e :: e in log && e.0 == u {
        assert (u, routers[r].Now()) in log;
      }
      forall q | q in routers ensures RouterOk(q) {
        assert old(RouterOk(q));
      }
    }

    /**
     * No router under-reports a distance, whatever happened before: neither an entry nor a column nor an update of
     * its own under way says less than the length of a shortest walk.
     */
    lemma NeverUnderReports(r: Node, d: Node, least: int)
      requires Valid() && r in routers && least <= INFINITY
      requires forall k :: Walk(links, r, d, k) ==> least <= k
      ensures d in routers[r].forwarding ==> least <= routers[r].forwarding[d].distance
      ensures forall n :: Knows(routers[r].Now(), n, d) ==> least <= routers[r].routing[n][d]
      ensures forall u :: u in sent && u.src == r && d in u.paths ==> least <= u.paths[d]
    {
      hide Walk;
      assert RouterOk(r);
      assert d in routers[r].forwarding ==> Truth(links, r, d, routers[r].forwarding[d].distance);
      forall n | Knows(routers[r].Now(), n, d) ensures least <= routers[r].routing[n][d] {
        assert n in routers[r].neighbors;
        ColumnIsTruth(links, r, n, d, routers[r].routing[n][d]);
      }
      forall u | u in sent && u.src == r && d in u.paths ensures least <= u.paths[d] {
        assert Truth(links, r, d, u.paths[d]);
      }
    }

    /** The entry for a destination is what the neighbour on its port offers, one link after the walk from there. */
    lemma EntriesFollowNeighbors(r: Node, d: Node)
      requires Valid() && r in routers && r !in disturbed && d in routers[r].forwarding
      ensures exists n :: From(routers[r].Now(), d, n)
                          && (r, routers[r].forwarding[d].port) in ports
                          && ports[(r, routers[r].forwarding[d].port)] == n
                          && (routers[r].forwarding[d].distance < INFINITY ==>
                                Walk(links, n, d, routers[r].forwarding[d].distance - 1))
    {
      hide Walk;
      assert RouterOk(r);
      var t := routers[r].Now();
      assert Sourced(t, d);
      var n :| From(t, d, n);
      assert ColumnTruth(links, n, d, t.routing[n][d]);
    }

    /**
     * A data packet has a port exactly if a finite distance to its destination is known, and the link there is the
     * first one of a walk of that length.
     */
    lemma PacketsFollowWalks(r: Node, d: Node)
      requires Valid() && r in routers && r !in disturbed
      ensures var t := routers[r].Now();
              && (GetPort(t, d).Some? <==> d in t.forwarding && t.forwarding[d].distance < 100)
              && (GetPort(t, d).Some? ==>
                    && (r, GetPort(t, d).value) in ports && Linked(links, r, ports[(r, GetPort(t, d).value)])
                    && Walk(links, ports[(r, GetPort(t, d).value)], d, t.forwarding[d].distance - 1))
    {
      hide Walk;
      if GetPort(routers[r].Now(), d).Some? {
        EntriesFollowNeighbors(r, d);
      }
    }

    /** Updates of such a router leave on the link to the neighbour that they are for. */
    lemma UpdatesReachNeighbors(r: Node, n: Node)
      requires Valid() && r in routers && r !in disturbed && n in routers[r].neighbors
      ensures var port := GetPort(routers[r].Now(), n);
              port.Some? && (r, port.value) in ports && ports[(r, port.value)] == n
    {
      assert RouterOk(r);
      UpdatesGoDirect(links, r, routers[r].Now(), n);
    }
  }
}
