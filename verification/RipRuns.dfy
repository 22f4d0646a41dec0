/**
 * Two runs that cost a router the consistency of its tables.
 *
 * In the first a handler is stopped: the router learns of a destination from one neighbour, then meets a second one,
 * and then the first update of the first neighbour, which was empty, arrives late. A cable with a fixed latency keeps
 * updates in order; there the same tables get the same empty update when the first neighbour loses its link to the
 * destination, which it then leaves out of what it announces. In the second a second link to the same neighbour comes
 * up.
 */
module RipRuns {
  import opened RipRouter
  import opened RipNetwork

  ghost predicate Different(me: Node, a: Node, b: Node, d: Node) {
    me != a && me != b && me != d && a != b && a != d && b != d
  }

  // ---------- The tables on the way ----------

  /** A router with one neighbour has nothing to say to it. */
  lemma FirstVector(t: Tables, me: Node, port: Port)
    requires Met(Tables(map[], map[], map[]), t, me, port)
    ensures me in t.neighbors && Announced(t, me) == map[]
  {}

  /** After the second one it has. */
  lemma SecondVector(t: Tables, t': Tables, me: Node, d: Node)
    requires me != d && Met(Tables(map[], map[], map[]), t, me, 1) && Met(t, t', d, 2)
    ensures me in t'.neighbors && Announced(t', me) == map[d := 1]
  {}

  /** The only neighbour so far is the one that was met, and its column lists itself only. */
  ghost predicate Alone(t: Tables, a: Node) {
    && t.neighbors == map[a := 1] && t.forwarding == map[a := Route(1, 1)]
    && (forall x :: Knows(t, a, x) ==> x == a && t.routing[a][a] == 1)
  }

  lemma AloneAfter(t: Tables, a: Node)
    requires Met(Tables(map[], map[], map[]), t, a, 1)
    ensures Alone(t, a)
  {}

  /** The destination behind the neighbour was learned. */
  ghost predicate Learned(t: Tables, a: Node, d: Node) {
    && t.neighbors == map[a := 1] && d in t.forwarding && t.forwarding[d] == Route(1, 2)
    && Knows(t, a, d)
  }

  lemma NotStopped(t: Tables, me: Node, a: Node, d: Node)
    requires Alone(t, a)
    ensures !Stops(t, Arrival(me, a, 1, map[d := 1]))
  {}

  lemma Learns(t: Tables, t': Tables, me: Node, a: Node, d: Node)
    requires a != d && me != d && t.neighbors == map[a := 1] && d !in t.forwarding && !Knows(t, a, d)
    requires Delivered(t, t', Arrival(me, a, 1, map[d := 1]), true) && Consistent(t')
    ensures Learned(t', a, d)
  {
    assert Follows(t', Arrival(me, a, 1, map[d := 1]), d);
    assert Sourced(t', d);
    var n :| From(t', d, n);
    assert n == a;
  }

  /** The second neighbour does not list it, so its withdrawal stops the handler. */
  lemma LateWithdrawal(t: Tables, t': Tables, me: Node, a: Node, b: Node, d: Node)
    requires Different(me, a, b, d) && Learned(t, a, d) && Met(t, t', b, 2) && Shape(t')
    ensures a in t'.routing && Stops(t', Arrival(me, a, 1, map[]))
  {
    assert Knows(t', a, d) && b in t'.routing && !Knows(t', b, d);
    assert Stuck(t', 1, d, Value(t', Arrival(me, a, 1, map[]), d));
  }

  // ---------- A withdrawal that stops a handler ----------

  ghost predicate Here(net: Network, me: Node, a: Node)
    reads net
  {
    me in net.routers && a in net.routers && net.routers.Keys == {me, a} && me !in net.hosts && net.disturbed == {}
  }

  /** The ports that are taken. */
  ghost predicate Wired(net: Network, taken: set<(Node, Port)>)
    reads net
  {
    net.ports.Keys == taken
  }

  /** The two routers meet; the first update says nothing. */
  method Meet(net: Network, me: Node, a: Node)
    requires net.Valid() && Here(net, me, a) && me != a && Wired(net, {})
    requires net.routers[me].Now() == net.routers[a].Now() == Tables(map[], map[], map[])
    modifies net`links, net`ports, net`sent, net`log, net`disturbed, net.routers[me], net.routers[a]
    ensures net.Valid() && Here(net, me, a) && Wired(net, {(me, 1), (a, 1)})
    ensures Update(a, me, map[]) in net.sent
    ensures Met(Tables(map[], map[], map[]), net.routers[me].Now(), a, 1)
    ensures Met(Tables(map[], map[], map[]), net.routers[a].Now(), me, 1)
  {
    hide Met;
    hide Announced;
    hide Truthful;
    hide Direct;
    hide Consistent;
    hide PathsTruth;
    net.LinkUp(me, a, 1, 1);
    net.Discover(a, 1);
    FirstVector(net.routers[a].Now(), me, 1);
    net.Discover(me, 1);
  }

  /** The first router's neighbour meets the destination and announces it. */
  method Announce(net: Network, me: Node, a: Node, d: Node)
    requires net.Valid() && Here(net, me, a) && Wired(net, {(me, 1), (a, 1)}) && me != a && me != d && a != d
    requires Met(Tables(map[], map[], map[]), net.routers[a].Now(), me, 1)
    modifies net`links, net`ports, net`sent, net`log, net`disturbed, net.routers[a]
    ensures net.Valid() && Here(net, me, a) && Wired(net, {(me, 1), (a, 1), (a, 2), (d, 1)})
    ensures old(net.sent) <= net.sent && Update(a, me, map[d := 1]) in net.sent
  {
    hide Announced;
    hide Truthful;
    hide Direct;
    hide Consistent;
    hide PathsTruth;
    hide Kept;
    hide Introduced;
    net.LinkUp(a, d, 2, 1);
    ghost var t := net.routers[a].Now();
    net.Discover(a, 2);
    SecondVector(t, net.routers[a].Now(), me, d);
  }

  /** The first router learns of the destination. */
  method Learn(net: Network, me: Node, a: Node, d: Node)
    requires net.Valid() && Here(net, me, a) && me != a && me != d && a != d
    requires Update(a, me, map[d := 1]) in net.sent && Alone(net.routers[me].Now(), a)
    modifies net`sent, net`log, net`disturbed, net.routers[me], net.routers[a]
    ensures net.Valid() && Here(net, me, a) && old(net.sent) <= net.sent
    ensures Learned(net.routers[me].Now(), a, d)
  {
    hide Truthful;
    hide Direct;
    hide Consistent;
    hide PathsTruth;
    hide Stops;
    hide Column;
    hide Learned;
    ghost var t := net.routers[me].Now();
    assert net.RouterOk(me);
    TruthfulShape(net.links, me, t);
    NotStopped(t, me, a, d);
    assert forall r :: r in net.routers ==> net.routers[r] in {net.routers[me], net.routers[a]};
    net.Deliver(Update(a, me, map[d := 1]), me, 1);
    assert net.RouterOk(me);
    Learns(t, net.routers[me].Now(), me, a, d);
  }

  /** It meets the second neighbour. */
  method MeetLate(net: Network, me: Node, a: Node, b: Node, d: Node)
    requires net.Valid() && Here(net, me, a) && Different(me, a, b, d) && Learned(net.routers[me].Now(), a, d)
    requires Wired(net, {(me, 1), (a, 1), (a, 2), (d, 1)})
    modifies net`links, net`ports, net`sent, net`log, net`disturbed, net.routers[me]
    ensures net.Valid() && Here(net, me, a) && old(net.sent) <= net.sent
    ensures a in net.routers[me].routing && Stops(net.routers[me].Now(), Arrival(me, a, 1, map[]))
  {
    hide Truthful;
    hide Direct;
    hide Consistent;
    hide PathsTruth;
    hide Met;
    hide Stops;
    hide Announced;
    net.LinkUp(me, b, 2, 1);
    ghost var t := net.routers[me].Now();
    LearnedNeighbors(t, a, d);
    hide Learned;
    net.Discover(me, 2);
    assert net.RouterOk(me);
    TruthfulShape(net.links, me, net.routers[me].Now());
    LateWithdrawal(t, net.routers[me].Now(), me, a, b, d);
  }

  lemma LearnedNeighbors(t: Tables, a: Node, d: Node)
    requires Learned(t, a, d)
    ensures t.neighbors == map[a := 1]
  {}

  /** The empty update arrives. */
  method Withdraw(net: Network, me: Node, a: Node)
    requires net.Valid() && Here(net, me, a) && Update(a, me, map[]) in net.sent
    requires a in net.routers[me].routing && Stops(net.routers[me].Now(), Arrival(me, a, 1, map[]))
    modifies net`sent, net`log, net`disturbed, net.routers[me], net.routers[a]
    ensures net.Valid() && net.disturbed == {me} && net.sent == old(net.sent)
  {
    hide Truthful;
    hide Direct;
    hide Consistent;
    hide PathsTruth;
    hide Stops;
    hide Column;
    assert forall r :: r in net.routers ==> net.routers[r] in {net.routers[me], net.routers[a]};
    net.Deliver(Update(a, me, map[]), me, 1);
  }

  /** A network of two routers that have met. */
  method Start(hosts: set<Node>, me: Node, a: Node) returns (net: Network)
    requires me != a && me !in hosts
    ensures fresh(net) && me in net.routers && a in net.routers && fresh(net.routers[me]) && fresh(net.routers[a])
    ensures net.Valid() && Here(net, me, a) && Wired(net, {(me, 1), (a, 1)})
    ensures Update(a, me, map[]) in net.sent
    ensures Met(Tables(map[], map[], map[]), net.routers[me].Now(), a, 1)
    ensures Met(Tables(map[], map[], map[]), net.routers[a].Now(), me, 1)
  {
    hide Truthful;
    hide Direct;
    hide Consistent;
    hide PathsTruth;
    hide Met;
    var r := new Router(me);
    var q := new Router(a);
    net := new Network(hosts, map[me := r, a := q]);
    Meet(net, me, a);
  }

  /** Such a run exists, whatever the nodes are called. */
  method LateNeighbor(me: Node, a: Node, b: Node, d: Node) returns (net: Network)
    requires Different(me, a, b, d)
    ensures fresh(net) && net.Valid() && net.disturbed == {me}
  {
    hide Truthful;
    hide Direct;
    hide Consistent;
    hide PathsTruth;
    hide Met;
    hide Alone;
    hide Learned;
    hide Stops;
    net := Start({b, d}, me, a);
    AloneAfter(net.routers[me].Now(), a);
    Announce(net, me, a, d);
    Learn(net, me, a, d);
    MeetLate(net, me, a, b, d);
    Withdraw(net, me, a);
  }

  // ---------- A second link ----------

  /** A second link to the same neighbour leaves its router with an entry that no column supports. */
  method SecondLink(net: Network, me: Node, a: Node)
    requires net.Valid() && Here(net, me, a) && me != a && Wired(net, {(me, 1), (a, 1)})
    requires net.routers[me].neighbors == map[a := 1]
    modifies net`links, net`ports, net`sent, net`log, net`disturbed, net.routers[me]
    ensures net.Valid() && net.disturbed == {me} && !Consistent(net.routers[me].Now())
  {
    hide Truthful;
    hide Direct;
    hide Consistent;
    hide PathsTruth;
    hide Announced;
    hide Met;
    assert net.RouterOk(me);
    net.LinkUp(me, a, 2, 2);
    net.Discover(me, 2);
  }

  method MeetTwice(me: Node, a: Node) returns (net: Network)
    requires me != a
    ensures fresh(net) && net.Valid() && net.disturbed == {me}
    ensures me in net.routers && !Consistent(net.routers[me].Now())
  {
    hide Truthful;
    hide Direct;
    hide Consistent;
    hide PathsTruth;
    hide Kept;
    hide Introduced;
    net := Start({}, me, a);
    SecondLink(net, me, a);
  }
}
