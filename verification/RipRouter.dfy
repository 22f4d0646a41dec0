/**
 * A distance-vector router with split horizon and poisoned reverse, in a network whose links only come up.
 * The order in which the source goes through its dictionaries is left open. That the tables are true does not depend
 * on how an update travels; that they are consistent does.
 */
module RipRouter {
  import opened Basics

  datatype Node = Node(id: nat)
  type Port = int
  type Links = set<(Node, Node)>

  const INFINITY := 100

  datatype Route = Route(port: Port, distance: int)

  /** A routing update: who sends it to whom, and the distances it announces. */
  datatype Update = Update(src: Node, dst: Node, paths: map<Node, int>)

  /** An update as it reaches router `me`: whose distances it holds, and the port it came in on. */
  datatype Arrival = Arrival(me: Node, src: Node, port: Port, paths: map<Node, int>)

  // ---------- Walks ----------

  ghost predicate Linked(links: Links, u: Node, v: Node) {
    (u, v) in links
  }

  /** There is a walk of `k` links from `u` to `v`. */
  ghost predicate Walk(links: Links, u: Node, v: Node, k: int)
    decreases k
  {
    k >= 0 && if k == 0 then u == v else exists w :: Linked(links, u, w) && Walk(links, w, v, k - 1)
  }

  lemma {:induction false} WalkStays(links: Links, more: Links, u: Node, v: Node, k: int)
    requires Walk(links, u, v, k) && links <= more
    ensures Walk(more, u, v, k)
    decreases k
  {
    if k > 0 {
      var w :| Linked(links, u, w) && Walk(links, w, v, k - 1);
      WalkStays(links, more, w, v, k - 1);
      assert Linked(more, u, w);
    }
  }

  /** A finite distance is the length of a walk that is there; 100 means that there is none known. */
  ghost predicate Truth(links: Links, u: Node, v: Node, distance: int) {
    1 <= distance <= INFINITY && (distance < INFINITY ==> Walk(links, u, v, distance))
  }

  /** What the column of neighbour `n` says about `d`: a way that begins with the link to `n`. */
  ghost predicate ColumnTruth(links: Links, n: Node, d: Node, distance: int) {
    && 1 <= distance <= INFINITY && (distance < INFINITY ==> Walk(links, n, d, distance - 1))
    && (distance == 1 ==> d == n)
  }

  lemma ColumnIsTruth(links: Links, u: Node, n: Node, d: Node, distance: int)
    requires Linked(links, u, n) && ColumnTruth(links, n, d, distance)
    ensures Truth(links, u, d, distance)
  {
    assert distance < INFINITY ==> Linked(links, u, n) && Walk(links, n, d, distance - 1);
  }

  ghost predicate PathsTruth(links: Links, src: Node, paths: map<Node, int>) {
    forall d :: d in paths ==> Truth(links, src, d, paths[d])
  }

  // ---------- The tables of a router ----------

  /** Routing: neighbour => destination => distance. Neighbours: neighbour => port. Forwarding: destination => route. */
  datatype Tables = Tables(routing: map<Node, map<Node, int>>, neighbors: map<Node, Port>, forwarding: map<Node, Route>)

  ghost predicate Shape(t: Tables) {
    && t.routing.Keys == t.neighbors.Keys
    && (forall n, m :: n in t.neighbors && m in t.neighbors && t.neighbors[n] == t.neighbors[m] ==> n == m)
  }

  predicate Knows(t: Tables, n: Node, d: Node) {
    n in t.routing && d in t.routing[n]
  }

  ghost predicate Columns(links: Links, t: Tables) {
    forall n, d :: Knows(t, n, d) ==> ColumnTruth(links, n, d, t.routing[n][d])
  }

  ghost predicate Entries(links: Links, me: Node, t: Tables) {
    forall d :: d in t.forwarding ==> Truth(links, me, d, t.forwarding[d].distance)
  }

  ghost predicate Adjacent(links: Links, me: Node, t: Tables) {
    forall n :: n in t.neighbors ==> Linked(links, me, n)
  }

  /** The way to a neighbour is the link to it. */
  ghost predicate Direct(t: Tables) {
    forall n :: n in t.neighbors ==>
      && n in t.forwarding && t.forwarding[n] == Route(t.neighbors[n], 1)
      && Knows(t, n, n) && t.routing[n][n] == 1
  }

  /** Whatever the tables say is so. */
  ghost predicate Truthful(links: Links, me: Node, t: Tables) {
    Shape(t) && Adjacent(links, me, t) && Columns(links, t) && Entries(links, me, t)
  }

  /** Whatever the tables say is so, and all neighbours are reached directly. */
  ghost predicate Honest(links: Links, me: Node, t: Tables) {
    Truthful(links, me, t) && Direct(t)
  }

  /** The update came on the port of its sender. */
  ghost predicate Matches(t: Tables, src: Node, port: Port) {
    src in t.neighbors && t.neighbors[src] == port
  }

  /** The forwarding entry for `d` repeats the column of neighbour `n`, which is the neighbour on its port. */
  ghost predicate From(t: Tables, d: Node, n: Node) {
    && d in t.forwarding && n in t.neighbors && t.neighbors[n] == t.forwarding[d].port
    && Knows(t, n, d) && t.routing[n][d] == t.forwarding[d].distance
  }

  ghost predicate Sourced(t: Tables, d: Node) {
    d in t.forwarding ==> exists n :: From(t, d, n)
  }

  ghost predicate Consistent(t: Tables) {
    forall d :: Sourced(t, d)
  }

  /** The entry for `d` repeats a column, unless it is the one of `src`, which may have changed. */
  ghost predicate Nearly(t: Tables, d: Node, src: Node) {
    d in t.forwarding ==>
      exists n :: From(t, d, n) || (n == src && n in t.neighbors && t.neighbors[n] == t.forwarding[d].port)
  }

  /** The column of `n` offers a finite distance to `d`. */
  ghost predicate Offers(t: Tables, n: Node, d: Node, distance: int) {
    n in t.neighbors && Knows(t, n, d) && t.routing[n][d] == distance && distance != INFINITY
  }

  /** The least distance that a column offers, on the lowest port that offers it. */
  ghost predicate Best(t: Tables, dest: Node, best: Option<Route>, todo: set<Node>) {
    if best == None then forall n, k :: n !in todo ==> !Offers(t, n, dest, k)
    else
      && (exists n :: Offers(t, n, dest, best.value.distance) && t.neighbors[n] == best.value.port)
      && (forall n, k :: n !in todo && Offers(t, n, dest, k) ==>
            best.value.distance < k || (best.value.distance == k && best.value.port <= t.neighbors[n]))
  }

  lemma BestSoFar(t: Tables, dest: Node)
    requires Shape(t)
    ensures Best(t, dest, None, t.routing.Keys)
  {}

  /** How the column of one more neighbour changes the best route. */
  lemma BestNext(t: Tables, dest: Node, best: Option<Route>, todo: set<Node>, nbr: Node)
    requires Shape(t) && Best(t, dest, best, todo + {nbr}) && nbr in t.neighbors && Knows(t, nbr, dest)
    ensures var k, p := t.routing[nbr][dest], t.neighbors[nbr];
            if k != INFINITY
                && (best == None || k < best.value.distance || (k == best.value.distance && p < best.value.port))
            then Best(t, dest, Some(Route(p, k)), todo) else Best(t, dest, best, todo)
  {
    var k, p := t.routing[nbr][dest], t.neighbors[nbr];
    assert k != INFINITY ==> Offers(t, nbr, dest, k);
    assert forall n, j :: n !in todo && Offers(t, n, dest, j) ==> n !in todo + {nbr} || (n == nbr && j == k);
  }

  lemma BestStays(t: Tables, t': Tables, dest: Node, best: Option<Route>)
    requires Best(t, dest, best, {}) && t'.routing == t.routing && t'.neighbors == t.neighbors
    ensures Best(t', dest, best, {})
  {
    assert forall n, k :: Offers(t', n, dest, k) <==> Offers(t, n, dest, k);
  }

  /** The best route comes from some column, and no column offers a better one. */
  lemma BestOffer(links: Links, me: Node, t: Tables, dest: Node, best: Option<Route>, src: Node) returns (n: Node)
    requires Truthful(links, me, t) && Best(t, dest, best, {}) && Knows(t, src, dest)
    ensures best.Some? ==> Offers(t, n, dest, best.value.distance) && t.neighbors[n] == best.value.port
    ensures best.Some? && src in t.neighbors ==>
              var value := t.routing[src][dest];
              best.value.distance < value || (best.value.distance == value && best.value.port <= t.neighbors[src])
  {
    n := src;
    assert ColumnTruth(links, src, dest, t.routing[src][dest]);
    assert src in t.neighbors && t.routing[src][dest] != INFINITY ==> Offers(t, src, dest, t.routing[src][dest]);
    if best.Some? {
      n :| Offers(t, n, dest, best.value.distance) && t.neighbors[n] == best.value.port;
      assert ColumnTruth(links, n, dest, t.routing[n][dest]);
    }
  }

  // ---------- Changes of one entry ----------

  function WithDistance(t: Tables, src: Node, dest: Node, value: int): Tables
    requires src in t.routing
  {
    t.(routing := t.routing[src := t.routing[src][dest := value]])
  }

  lemma WithDistanceTruthful(links: Links, me: Node, t: Tables, src: Node, dest: Node, value: int)
    requires Truthful(links, me, t) && src in t.routing && ColumnTruth(links, src, dest, value)
    ensures Truthful(links, me, WithDistance(t, src, dest, value))
  {
    hide Truth;
    hide Columns;
    WithDistanceColumns(links, t, src, dest, value);
  }

  lemma WithDistanceDirect(t: Tables, src: Node, dest: Node, value: int)
    requires Direct(t) && src in t.routing && (src == dest ==> value == 1)
    ensures Direct(WithDistance(t, src, dest, value))
  {}

  lemma WithDistanceColumns(links: Links, t: Tables, src: Node, dest: Node, value: int)
    requires Columns(links, t) && src in t.routing && ColumnTruth(links, src, dest, value)
    ensures Columns(links, WithDistance(t, src, dest, value))
  {
    hide ColumnTruth;
    var t' := WithDistance(t, src, dest, value);
    forall n, d | Knows(t', n, d) ensures ColumnTruth(links, n, d, t'.routing[n][d]) {
      assert (n == src && d == dest) || Knows(t, n, d);
    }
  }

  lemma WithDistanceSourced(t: Tables, src: Node, dest: Node, value: int, d: Node)
    requires src in t.routing && Sourced(t, d)
    ensures d != dest ==> Sourced(WithDistance(t, src, dest, value), d)
    ensures Nearly(WithDistance(t, src, dest, value), d, src)
  {
    var t' := WithDistance(t, src, dest, value);
    if d in t.forwarding {
      var n :| From(t, d, n);
      assert d != dest || n != src ==> From(t', d, n);
      assert From(t', d, n) || (n == src && n in t'.neighbors && t'.neighbors[n] == t'.forwarding[d].port);
    }
  }

  function WithRoute(t: Tables, dest: Node, r: Option<Route>): Tables {
    t.(forwarding := if r.Some? then t.forwarding[dest := r.value] else t.forwarding - {dest})
  }

  /** The route repeats what the column of `n` says, though perhaps on another port. */
  ghost predicate Taken(t: Tables, dest: Node, r: Option<Route>, n: Node) {
    r.Some? ==> n in t.neighbors && Knows(t, n, dest) && t.routing[n][dest] == r.value.distance
  }

  /** A new entry, taken from a column. */
  lemma WithRouteTruthful(links: Links, me: Node, t: Tables, dest: Node, r: Option<Route>, n: Node)
    requires Truthful(links, me, t) && Taken(t, dest, r, n)
    ensures Truthful(links, me, WithRoute(t, dest, r))
    ensures dest !in t.neighbors && Direct(t) ==> Direct(WithRoute(t, dest, r))
    ensures (r.Some? ==> Matches(t, n, r.value.port)) ==> Sourced(WithRoute(t, dest, r), dest)
  {
    hide ColumnTruth;
    hide Truth;
    hide Linked;
    var t' := WithRoute(t, dest, r);
    if r.Some? {
      assert Linked(links, me, n) && ColumnTruth(links, n, dest, r.value.distance);
      ColumnIsTruth(links, me, n, dest, r.value.distance);
      assert Matches(t, n, r.value.port) ==> From(t', dest, n);
    }
  }

  lemma WithRouteSourced(t: Tables, dest: Node, r: Option<Route>, d: Node)
    requires d != dest
    ensures Sourced(t, d) ==> Sourced(WithRoute(t, dest, r), d)
  {
    var t' := WithRoute(t, dest, r);
    if Sourced(t, d) && d in t'.forwarding {
      var n :| From(t, d, n);
      assert From(t', d, n);
    }
  }

  /** An entry that is neither better nor worse than the column of `src` has its source already. */
  lemma KeepsSource(t: Tables, src: Node, dest: Node)
    requires Shape(t) && src in t.neighbors && Knows(t, src, dest) && dest in t.forwarding && Nearly(t, dest, src)
    requires t.forwarding[dest].port == t.neighbors[src] ==> t.routing[src][dest] == t.forwarding[dest].distance
    ensures Sourced(t, dest)
  {
    var n :| From(t, dest, n) || (n == src && n in t.neighbors && t.neighbors[n] == t.forwarding[dest].port);
    assert From(t, dest, n);
  }

  /** A neighbour keeps its entry: no column but its own offers 1. */
  lemma NeighborKeeps(links: Links, me: Node, t: Tables, src: Node, dest: Node)
    requires Honest(links, me, t) && src in t.neighbors && Knows(t, src, dest) && dest in t.neighbors
    ensures t.routing[src][dest] >= 1 == t.forwarding[dest].distance
    ensures src == dest ==> t.routing[src][dest] == 1 && t.forwarding[dest].port == t.neighbors[src]
    ensures src != dest ==> t.routing[src][dest] > 1 && t.forwarding[dest].port != t.neighbors[src]
  {
    assert ColumnTruth(links, src, dest, t.routing[src][dest]);
  }

  /** A distance for a destination that the column did not list costs no entry its source. */
  lemma NewDistanceSourced(t: Tables, src: Node, dest: Node, value: int, d: Node)
    requires src in t.routing && !Knows(t, src, dest)
    ensures Sourced(t, d) ==> Sourced(WithDistance(t, src, dest, value), d)
  {
    var t' := WithDistance(t, src, dest, value);
    if Sourced(t, d) && d in t.forwarding {
      var n :| From(t, d, n);
      assert From(t', d, n);
    }
  }

  /** What a neighbour announces, one link further away. */
  function Heard(paths: map<Node, int>, d: Node): int {
    if d !in paths || paths[d] >= INFINITY then INFINITY else paths[d] + 1
  }

  lemma HeardIsTruth(links: Links, src: Node, paths: map<Node, int>, d: Node)
    requires PathsTruth(links, src, paths)
    ensures ColumnTruth(links, src, d, Heard(paths, d))
  {}

  /** What is announced to a neighbour: not itself, and nothing but infinity for what is reached through it. */
  function Announced(t: Tables, nbr: Node): map<Node, int>
    requires nbr in t.neighbors
  {
    map d | d in t.forwarding && d != nbr :: Said(t, nbr, d)
  }

  /** A route through the neighbour itself is poisoned. */
  function Said(t: Tables, nbr: Node, d: Node): int
    requires nbr in t.neighbors && d in t.forwarding
  {
    if t.forwarding[d].port == t.neighbors[nbr] then INFINITY else t.forwarding[d].distance
  }

  /** The vector says what is to be said of the destinations that are done. */
  ghost predicate Vector(t: Tables, nbr: Node, paths: map<Node, int>, done: set<Node>) {
    && nbr in t.neighbors && done <= t.forwarding.Keys && paths.Keys == done - {nbr}
    && forall d :: d in paths ==> paths[d] == Said(t, nbr, d)
  }

  lemma VectorStarts(t: Tables, nbr: Node)
    requires nbr in t.neighbors
    ensures Vector(t, nbr, map[], {})
  {}

  lemma VectorNext(t: Tables, nbr: Node, paths: map<Node, int>, done: set<Node>, d: Node)
    requires Vector(t, nbr, paths, done) && d in t.forwarding
    ensures Vector(t, nbr, if d == nbr then paths else paths[d := Said(t, nbr, d)], done + {d})
  {}

  lemma VectorEnds(t: Tables, nbr: Node, paths: map<Node, int>)
    requires Vector(t, nbr, paths, t.forwarding.Keys)
    ensures paths == Announced(t, nbr)
  {
    hide Said;
  }

  /**
   * Split horizon with poisoned reverse: an update lists every destination but the neighbour that it goes to. What is
   * reached through that neighbour is at distance 100, anything else at the distance of its route.
   */
  ghost predicate Poisoned(t: Tables, u: Update) {
    && u.dst in t.neighbors && u.dst !in u.paths
    && (forall d :: d in u.paths ==> d in t.forwarding)
    && (forall d :: d in t.forwarding && d != u.dst ==>
          d in u.paths && u.paths[d] == if t.forwarding[d].port == t.neighbors[u.dst] then 100
                                        else t.forwarding[d].distance)
  }

  lemma AnnouncedIsPoisoned(t: Tables, me: Node, nbr: Node)
    requires nbr in t.neighbors
    ensures Poisoned(t, Update(me, nbr, Announced(t, nbr)))
  {}

  lemma AnnouncedIsTruth(links: Links, me: Node, t: Tables, nbr: Node)
    requires Truthful(links, me, t) && nbr in t.neighbors
    ensures PathsTruth(links, me, Announced(t, nbr))
  {
    hide Walk;
  }

  function GetPort(t: Tables, d: Node): Option<Port> {
    if d in t.forwarding && t.forwarding[d].distance < INFINITY then Some(t.forwarding[d].port) else None
  }

  /** An update for a neighbour leaves on the link to it. */
  lemma UpdatesGoDirect(links: Links, me: Node, t: Tables, nbr: Node)
    requires Honest(links, me, t) && nbr in t.neighbors
    ensures GetPort(t, nbr) == Some(t.neighbors[nbr])
  {
    hide Columns;
    assert t.forwarding[nbr] == Route(t.neighbors[nbr], 1);
  }

  /** The column of a new neighbour, and its own entry. */
  function WithNeighbor(t: Tables, n: Node, port: Port): Tables {
    Tables(t.routing[n := map[n := 1] + map m | m in t.neighbors :: INFINITY], t.neighbors[n := port],
           t.forwarding[n := Route(port, 1)])
  }

  lemma WithNeighborTruthful(links: Links, me: Node, t: Tables, n: Node, port: Port)
    requires Truthful(links, me, t) && Linked(links, me, n)
    requires forall m :: m in t.neighbors && m != n ==> t.neighbors[m] != port
    ensures Truthful(links, me, WithNeighbor(t, n, port))
  {
    hide Truth;
    hide Columns;
    NewNeighborTruth(links, me, n);
    WithNeighborColumns(links, t, n, port);
  }

  lemma WithNeighborDirect(t: Tables, n: Node, port: Port)
    requires Direct(t) && n !in t.neighbors
    ensures Direct(WithNeighbor(t, n, port))
  {}

  lemma WithNeighborColumns(links: Links, t: Tables, n: Node, port: Port)
    requires Columns(links, t)
    ensures Columns(links, WithNeighbor(t, n, port))
  {
    hide WithNeighbor;
    hide ColumnTruth;
    var u := WithNeighbor(t, n, port);
    forall m, d | Knows(u, m, d) ensures ColumnTruth(links, m, d, u.routing[m][d]) {
      NeighborCell(t, n, port, m, d);
      ColumnOfNew(links, n, d);
    }
  }

  lemma ColumnOfNew(links: Links, n: Node, d: Node)
    ensures ColumnTruth(links, n, n, 1) && ColumnTruth(links, n, d, INFINITY)
  {
    assert Walk(links, n, n, 0);
  }

  /** A neighbour that is met again loses its own distance, while the entry for it says 1. */
  lemma MetAgain(t: Tables, n: Node, port: Port)
    requires Shape(t) && n in t.neighbors && (forall m :: m in t.neighbors && m != n ==> t.neighbors[m] != port)
    ensures var t' := WithNeighbor(t, n, port);
            Knows(t', n, n) && t'.routing[n][n] == INFINITY && !Sourced(t', n)
  {
    var t' := WithNeighbor(t, n, port);
    forall m ensures !From(t', n, m) {}
  }

  lemma NewNeighborTruth(links: Links, me: Node, n: Node)
    requires Linked(links, me, n)
    ensures Truth(links, me, n, 1)
  {
    assert Walk(links, n, n, 0);
  }

  lemma WithNeighborSourced(t: Tables, n: Node, port: Port, d: Node)
    requires Shape(t) && n !in t.neighbors && Sourced(t, d)
    ensures Sourced(WithNeighbor(t, n, port), d)
  {
    var t' := WithNeighbor(t, n, port);
    if d == n {
      assert From(t', n, n);
    } else if d in t.forwarding {
      var m :| From(t, d, m);
      assert From(t', d, m);
    }
  }

  /** The value got worse than the entry on the port that it came from, and some column lacks the destination. */
  ghost predicate Stuck(t: Tables, port: Port, dest: Node, value: int) {
    && dest in t.forwarding && t.forwarding[dest].port == port
    && value > t.forwarding[dest].distance && exists n :: n in t.routing && !Knows(t, n, dest)
  }

  /** What the column of the sender says about `d` once the update is taken over. */
  ghost function Value(t: Tables, a: Arrival, d: Node): int
    requires Knows(t, a.src, d)
  {
    if d != a.src && d != a.me then Heard(a.paths, d) else t.routing[a.src][d]
  }

  /** An update that the handler cannot finish: it withdraws a route while the search for another one must fail. */
  ghost predicate Stops(t: Tables, a: Arrival) {
    exists d :: Knows(t, a.src, d) && Stuck(t, a.port, d, Value(t, a, d))
  }

  /** Where nothing has been done yet for destination `d`. */
  ghost predicate Untouched(t: Tables, t': Tables, src: Node, d: Node) {
    && (d in t.forwarding <==> d in t'.forwarding) && (d in t.forwarding ==> t.forwarding[d] == t'.forwarding[d])
    && (Knows(t, src, d) && Knows(t', src, d) ==> t.routing[src][d] == t'.routing[src][d])
  }

  ghost predicate SameKeys(t: Tables, t': Tables) {
    && t.neighbors == t'.neighbors && t.routing.Keys == t'.routing.Keys
    && forall n, d :: Knows(t, n, d) <==> Knows(t', n, d)
  }

  lemma StuckKept(t: Tables, t': Tables, src: Node, d: Node, port: Port, value: int)
    requires SameKeys(t, t') && Untouched(t, t', src, d)
    ensures Stuck(t, port, d, value) <==> Stuck(t', port, d, value)
  {}

  lemma DistanceFrame(t: Tables, src: Node, dest: Node, port: Port, value: int)
    requires Knows(t, src, dest)
    ensures var t' := WithDistance(t, src, dest, value);
            && SameKeys(t, t') && (Stuck(t, port, dest, value) <==> Stuck(t', port, dest, value))
            && forall d :: d != dest ==> Untouched(t, t', src, d)
  {}

  lemma SameKeysSelf(t: Tables, src: Node)
    ensures SameKeys(t, t) && forall d :: Untouched(t, t, src, d)
  {}

  lemma SameKeysForwarding(t: Tables, t': Tables, t'': Tables)
    requires SameKeys(t, t') && t''.routing == t'.routing && t''.neighbors == t'.neighbors
    ensures SameKeys(t, t'')
  {}

  lemma UntouchedTwice(t: Tables, t': Tables, t'': Tables, src: Node, d: Node)
    requires SameKeys(t, t') && Untouched(t, t', src, d) && Untouched(t', t'', src, d)
    ensures Untouched(t, t'', src, d)
  {}

  /** A consistent entry is not stuck on the value that its column has. */
  lemma SourcedNotStuck(t: Tables, src: Node, port: Port, d: Node)
    requires Shape(t) && Knows(t, src, d) && Sourced(t, d) && Matches(t, src, port)
    ensures !Stuck(t, port, d, t.routing[src][d])
  {
    if d in t.forwarding {
      var n :| From(t, d, n);
      assert t.neighbors[src] == t.forwarding[d].port ==> n == src;
    }
  }

  /** In consistent tables only a withdrawal, of a route that some other column fails to list, stops the handler. */
  lemma StopsAtWithdrawal(t: Tables, a: Arrival)
    requires Shape(t) && Consistent(t) && Matches(t, a.src, a.port)
    ensures Stops(t, a) <==>
              exists d :: Knows(t, a.src, d) && d != a.src && d != a.me && Stuck(t, a.port, d, Heard(a.paths, d))
  {
    hide Stuck;
    if Stops(t, a) {
      var d :| Knows(t, a.src, d) && Stuck(t, a.port, d, Value(t, a, d));
      assert Sourced(t, d);
      if d == a.src || d == a.me {
        SourcedNotStuck(t, a.src, a.port, d);
      }
      assert Stuck(t, a.port, d, Heard(a.paths, d));
    } else {
      forall d | Knows(t, a.src, d) && d != a.src && d != a.me ensures !Stuck(t, a.port, d, Heard(a.paths, d)) {
        assert Value(t, a, d) == Heard(a.paths, d);
      }
    }
  }

  /** A stuck entry is left behind without a source. */
  lemma StuckNotSourced(t: Tables, src: Node, port: Port, d: Node)
    requires Shape(t) && Knows(t, src, d) && Stuck(t, port, d, t.routing[src][d]) && Matches(t, src, port)
    ensures !Sourced(t, d)
  {
    forall n ensures !From(t, d, n) {
      assert n in t.neighbors && t.neighbors[n] == t.forwarding[d].port ==> n == src;
    }
  }

  // ---------- What an update changes ----------

  /** The entry for `dest` is no worse than what the column of `src` offers on the port. */
  ghost predicate NoWorse(t: Tables, dest: Node, src: Node, port: Port) {
    dest in t.forwarding && src in t.neighbors && Knows(t, src, dest) ==>
      var entry, value := t.forwarding[dest], t.routing[src][dest];
      entry.distance < value || (entry.distance == value && (Matches(t, src, port) ==> entry.port <= port))
  }

  /** The same distances are announced. */
  ghost predicate SameDistances(t: Tables, t': Tables) {
    && t.forwarding.Keys == t'.forwarding.Keys
    && forall d :: d in t.forwarding ==> t'.forwarding[d].distance == t.forwarding[d].distance
  }

  /** No column loses or changes a distance. */
  ghost predicate Kept(t: Tables, t': Tables) {
    forall n, d :: Knows(t, n, d) ==> Knows(t', n, d) && t'.routing[n][d] == t.routing[n][d]
  }

  /** The column of the sender repeats the update for `d`, and the entry for `d` is no worse than that. */
  ghost predicate Follows(t: Tables, a: Arrival, d: Node) {
    && Knows(t, a.src, d) && NoWorse(t, d, a.src, a.port)
    && (d != a.src && d != a.me ==> t.routing[a.src][d] == Heard(a.paths, d))
  }

  ghost predicate Column(t: Tables, a: Arrival) {
    forall d :: Knows(t, a.src, d) ==> Follows(t, a, d)
  }

  lemma FollowsStays(t: Tables, t': Tables, a: Arrival, d: Node)
    requires Follows(t, a, d) && t'.neighbors == t.neighbors && Knows(t', a.src, d) && Untouched(t, t', a.src, d)
    ensures Follows(t', a, d)
  {}

  /** The column of the sender lists the new destinations, as announced, and is otherwise as it was. */
  ghost predicate Extends(t: Tables, t': Tables, a: Arrival, news: set<Node>) {
    && t'.neighbors == t.neighbors
    && (forall d :: Knows(t', a.src, d) <==> Knows(t, a.src, d) || d in news)
    && (forall d :: d !in news ==> Untouched(t, t', a.src, d))
    && (forall d :: d in news ==> Follows(t', a, d) && (d in t.forwarding || d in t'.forwarding))
  }

  lemma ExtendsNothing(t: Tables, a: Arrival)
    ensures Extends(t, t, a, {})
  {}

  lemma ExtendsKeys(t: Tables, t': Tables, a: Arrival, news: set<Node>, d: Node)
    requires Extends(t, t', a, news) && d !in news
    ensures Knows(t', a.src, d) <==> Knows(t, a.src, d)
    ensures t'.neighbors == t.neighbors
  {}

  lemma ExtendsMore(t: Tables, t': Tables, t'': Tables, a: Arrival, news: set<Node>, node: Node)
    requires Extends(t, t', a, news) && Extends(t', t'', a, {node}) && node !in news
    ensures Extends(t, t'', a, news + {node})
  {
    hide Heard;
    hide NoWorse;
    forall d | d !in news + {node} ensures Untouched(t, t'', a.src, d) {
      assert Untouched(t, t', a.src, d) && Untouched(t', t'', a.src, d);
    }
    assert Untouched(t, t', a.src, node);
    forall d | d in news ensures Follows(t'', a, d) && (d in t.forwarding || d in t''.forwarding) {
      FollowsStays(t', t'', a, d);
    }
  }

  /** One new destination: announced distance, listed everywhere, entered. */
  lemma NodeExtends(t0: Tables, t: Tables, t': Tables, t'': Tables, a: Arrival, node: Node)
    requires a.src in t0.routing && t == WithDistance(t0, a.src, node, Heard(a.paths, node))
    requires t'.neighbors == t.neighbors && t'.forwarding == t.forwarding && Kept(t, t')
    requires forall n, d :: Knows(t', n, d) ==> d == node || Knows(t, n, d)
    requires t''.routing == t'.routing && t''.neighbors == t'.neighbors
    requires NoWorse(t'', node, a.src, a.port) && (node in t'.forwarding || node in t''.forwarding)
    requires forall d :: d != node ==> Untouched(t', t'', a.src, d)
    ensures Extends(t0, t'', a, {node})
  {
    hide Heard;
    hide NoWorse;
    var src := a.src;
    assert Knows(t, src, node) && Knows(t', src, node);
    forall d ensures Knows(t'', src, d) <==> Knows(t0, src, d) || d == node {
      assert Knows(t, src, d) ==> Knows(t', src, d);
      assert Knows(t0, src, d) ==> Knows(t, src, d);
    }
    forall d | d != node ensures Untouched(t0, t'', src, d) {
      assert (Knows(t0, src, d) ==> Knows(t, src, d)) && Untouched(t', t'', src, d);
    }
  }

  /** Old destinations brought up to date and new ones added: the column repeats the update. */
  lemma ColumnComplete(t: Tables, t': Tables, a: Arrival, news: set<Node>)
    requires Column(t, a) && Extends(t, t', a, news)
    ensures Column(t', a)
  {
    hide Heard;
    hide NoWorse;
    forall d | Knows(t', a.src, d) ensures Follows(t', a, d) {
      if d !in news {
        FollowsStays(t, t', a, d);
      }
    }
  }

  /** The destinations of the column that are not in `todo` are done, the others are as they were. */
  ghost predicate Halfway(t: Tables, t': Tables, a: Arrival, todo: set<Node>) {
    && SameKeys(t, t') && (forall d :: d in todo ==> Knows(t, a.src, d) && Untouched(t, t', a.src, d))
    && (forall d :: Knows(t, a.src, d) && d !in todo ==> Follows(t', a, d) && !Stuck(t, a.port, d, Value(t, a, d)))
  }

  lemma HalfwayStarts(t: Tables, a: Arrival)
    requires a.src in t.routing
    ensures Halfway(t, t, a, t.routing[a.src].Keys)
  {}

  lemma HalfwayNext(t: Tables, t': Tables, t'': Tables, a: Arrival, todo: set<Node>, dest: Node)
    requires Halfway(t, t', a, todo + {dest}) && dest !in todo && SameKeys(t', t'')
    requires Follows(t'', a, dest) && forall d :: d != dest ==> Untouched(t', t'', a.src, d)
    requires Knows(t', a.src, dest) && !Stuck(t', a.port, dest, Value(t', a, dest))
    ensures Halfway(t, t'', a, todo)
  {
    hide Heard;
    hide Stuck;
    hide NoWorse;
    assert dest in todo + {dest};
    StuckKept(t, t', a.src, dest, a.port, Value(t, a, dest));
    forall d | d in todo ensures Untouched(t, t'', a.src, d) {
      UntouchedTwice(t, t', t'', a.src, d);
    }
    forall d | Knows(t, a.src, d) && d !in todo ensures Follows(t'', a, d) {
      if d != dest {
        FollowsStays(t', t'', a, d);
      }
    }
  }

  lemma HalfwayEnds(t: Tables, t': Tables, a: Arrival)
    requires Halfway(t, t', a, {})
    ensures SameKeys(t, t') && Column(t', a) && !Stops(t, a)
  {
    hide Heard;
    hide Stuck;
    hide Follows;
  }

  lemma HalfwayStops(t: Tables, t': Tables, a: Arrival, todo: set<Node>, dest: Node)
    requires Halfway(t, t', a, todo) && dest in todo
    requires Knows(t', a.src, dest) && Stuck(t', a.port, dest, Value(t', a, dest))
    ensures Stops(t, a)
  {
    hide Heard;
    hide Follows;
    StuckKept(t, t', a.src, dest, a.port, Value(t, a, dest));
  }

  lemma HalfwayKeys(t: Tables, t': Tables, t'': Tables, a: Arrival, todo: set<Node>)
    requires Halfway(t, t', a, todo)
    ensures forall d :: d in todo ==> Knows(t', a.src, d)
    ensures SameKeys(t, t') && (SameKeys(t', t'') ==> SameKeys(t, t''))
  {}

  lemma SameDistancesSelf(t: Tables)
    ensures SameDistances(t, t)
  {}

  lemma SameDistancesTwice(t: Tables, t': Tables, t'': Tables)
    requires SameDistances(t, t') && SameDistances(t', t'')
    ensures SameDistances(t, t'')
  {}

  lemma KeptSelf(t: Tables)
    ensures Kept(t, t)
  {}

  lemma KeptKnows(t: Tables, t': Tables)
    requires Kept(t, t')
    ensures forall n, d :: Knows(t, n, d) ==> Knows(t', n, d)
  {}

  /** All columns list the new neighbour, and its own column lists the neighbours and itself at distance 1. */
  ghost predicate Introduced(t: Tables, n: Node) {
    && (forall m :: m in t.neighbors ==> Knows(t, m, n) && Knows(t, n, m))
    && (forall d :: Knows(t, n, d) ==> d in t.neighbors && t.routing[n][d] == if d == n then 1 else INFINITY)
  }

  lemma NeighborIntroduced(t: Tables, t': Tables, n: Node, port: Port)
    requires Kept(t, t') && t'.routing.Keys == t.routing.Keys && n !in t.routing && Shape(t')
    requires forall m :: m in t'.routing ==> Knows(t', m, n)
    ensures Kept(t, WithNeighbor(t', n, port)) && Introduced(WithNeighbor(t', n, port), n)
  {
    hide WithNeighbor;
    var u := WithNeighbor(t', n, port);
    forall m, d ensures Knows(u, m, d) <==> if m == n then d == n || d in t'.neighbors else Knows(t', m, d) {
      NeighborCell(t', n, port, m, d);
    }
    forall m, d | Knows(u, m, d)
      ensures u.routing[m][d] == if m != n then t'.routing[m][d] else if d == n then 1 else INFINITY
    {
      NeighborCell(t', n, port, m, d);
    }
    NeighborCell(t', n, port, n, n);
  }

  /** The columns after a neighbour came: a new one, and the others as they were. */
  lemma NeighborCell(t: Tables, n: Node, port: Port, m: Node, d: Node)
    ensures var u := WithNeighbor(t, n, port);
            && u.neighbors.Keys == t.neighbors.Keys + {n}
            && (Knows(u, m, d) <==> if m == n then d == n || d in t.neighbors else Knows(t, m, d))
            && (Knows(u, m, d) ==>
                  u.routing[m][d] == if m != n then t.routing[m][d]
                                     else if d == n && n !in t.neighbors then 1 else INFINITY)
  {}

  lemma KeptTwice(t: Tables, t': Tables, t'': Tables)
    requires Kept(t, t') && Kept(t', t'')
    ensures Kept(t, t'')
  {
    forall n, d | Knows(t, n, d) ensures Knows(t'', n, d) && t''.routing[n][d] == t.routing[n][d] {
      assert Knows(t', n, d);
    }
  }

  // ---------- The router ----------

  class Router {
    const me: Node
    var routing: map<Node, map<Node, int>>
    var neighbors: map<Node, Port>
    var forwarding: map<Node, Route>

    ghost function Now(): Tables
      reads this
    {
      Tables(routing, neighbors, forwarding)
    }

    constructor (me: Node)
      ensures this.me == me && Now() == Tables(map[], map[], map[])
    {
      this.me := me;
      routing, neighbors, forwarding := map[], map[], map[];
    }

    /** `ok` is false if a column does not list the destination, where the source fails with a missing key. */
    method FindShortestPath(dest: Node) returns (ok: bool, best: Option<Route>)
      requires Shape(Now())
      ensures ok <==> forall n :: n in routing ==> Knows(Now(), n, dest)
      ensures ok ==> Best(Now(), dest, best, {})
    {
      hide Best;
      best := None;
      var todo := routing.Keys;
      BestSoFar(Now(), dest);
      while todo != {}
        invariant todo <= routing.Keys && Best(Now(), dest, best, todo)
        invariant forall n :: n in routing && n !in todo ==> Knows(Now(), n, dest)
        decreases |todo|
      {
        var nbr :| nbr in todo;
        assert todo == todo - {nbr} + {nbr};
        todo := todo - {nbr};
        if dest !in routing[nbr] {
          assert !Knows(Now(), nbr, dest);
          return false, None;
        }
        var dist := routing[nbr][dest];
        BestNext(Now(), dest, best, todo, nbr);
        if dist != INFINITY {
          if best == None || dist < best.value.distance {
            best := Some(Route(neighbors[nbr], dist));
          } else if dist == best.value.distance && neighbors[nbr] < best.value.port {
            best := Some(Route(neighbors[nbr], dist));
          }
        }
      }
      ok := true;
    }

    /**
     * The entry for one destination follows the column of `src`, whose update came in on `port`; `ok` is false if a
     * missing key stops it.
     */
    method UpdateForwardingTable(src: Node, dest: Node, port: Port, ghost links: Links)
      returns (changed: bool, ok: bool)
      requires Truthful(links, me, Now()) && Knows(Now(), src, dest)
      modifies this`forwarding
      ensures Truthful(links, me, Now())
      ensures old(Direct(Now())) && Matches(Now(), src, port) ==> Direct(Now())
      ensures ok && old(Nearly(Now(), dest, src)) && Matches(Now(), src, port) ==> Sourced(Now(), dest)
      ensures forall d :: d != dest && old(Sourced(Now(), d)) ==> Sourced(Now(), d)
      ensures ok <==> !Stuck(old(Now()), port, dest, routing[src][dest])
      ensures !ok ==> Now() == old(Now()) && (Matches(Now(), src, port) ==> !Sourced(Now(), dest))
      ensures forall d :: d != dest ==> Untouched(old(Now()), Now(), src, d)
      ensures ok ==> NoWorse(Now(), dest, src, port)
      ensures var was := old(forwarding); var value := routing[src][dest];
              ok && dest in was ==>
                if was[dest].port == port && value > was[dest].distance
                then Best(Now(), dest, if dest in forwarding then Some(forwarding[dest]) else None, {})
                else dest in forwarding
                     && forwarding[dest].distance == if value < was[dest].distance then value else was[dest].distance
      ensures dest !in old(forwarding) ==> dest !in forwarding
      ensures ok && !changed ==> SameDistances(old(Now()), Now())
      ensures forwarding.Keys <= old(forwarding).Keys
    {
      hide Truthful;
      hide Direct;
      hide Sourced;
      hide Nearly;
      TruthfulShape(links, me, Now());
      changed, ok := false, true;
      if dest !in forwarding {
        NothingToSource(Now(), dest);
        return;
      }
      ghost var t := Now();
      var value, entry := routing[src][dest], forwarding[dest];
      if dest in neighbors && Direct(t) && Matches(t, src, port) {
        NeighborKeeps(links, me, t, src, dest);
      }
      if value < entry.distance {
        forwarding := forwarding[dest := Route(port, value)];
        changed := true;
        RouteChanged(links, me, t, dest, Some(Route(port, value)), src);
      } else if value == entry.distance && port < entry.port {
        forwarding := forwarding[dest := entry.(port := port)];
        RouteChanged(links, me, t, dest, Some(Route(port, value)), src);
      } else if entry.port == port && value > entry.distance {
        ok := Recalculate(src, dest, port, links);
        changed := true;
        if !ok && Matches(t, src, port) {
          StuckNotSourced(t, src, port, dest);
        }
      } else if Nearly(t, dest, src) && Matches(t, src, port) {
        KeepsSource(t, src, dest);
      }
    }

    /** The column that the entry rests on got worse: the best of all columns takes its place, if there is one. */
    method Recalculate(src: Node, dest: Node, ghost port: Port, ghost links: Links) returns (ok: bool)
      requires Truthful(links, me, Now()) && Knows(Now(), src, dest) && dest in forwarding
      modifies this`forwarding
      ensures Truthful(links, me, Now()) && (old(Direct(Now())) && dest !in neighbors ==> Direct(Now()))
      ensures ok <==> forall n :: n in routing ==> Knows(Now(), n, dest)
      ensures ok ==> Sourced(Now(), dest) && NoWorse(Now(), dest, src, port)
      ensures ok ==> Best(Now(), dest, if dest in forwarding then Some(forwarding[dest]) else None, {})
      ensures ok ==> forall d :: d != dest && old(Sourced(Now(), d)) ==> Sourced(Now(), d)
      ensures ok ==> Now() == WithRoute(old(Now()), dest, if dest in forwarding then Some(forwarding[dest]) else None)
      ensures !ok ==> Now() == old(Now())
    {
      hide Truthful;
      hide Direct;
      hide Sourced;
      hide Best;
      TruthfulShape(links, me, Now());
      ghost var t := Now();
      var best;
      ok, best := FindShortestPath(dest);
      if !ok {
        return;
      }
      ghost var n := BestOffer(links, me, t, dest, best, src);
      RouteChanged(links, me, t, dest, best, n);
      if best.Some? {
        forwarding := forwarding[dest := best.value];
      } else {
        forwarding := forwarding - {dest};
      }
      BestStays(t, Now(), dest, best);
    }

    /** One destination that the column of the sender lists already. */
    method UpdateDestination(a: Arrival, dest: Node, ghost links: Links) returns (changed: bool, ok: bool)
      requires Truthful(links, me, Now()) && a.me == me && Knows(Now(), a.src, dest)
      requires PathsTruth(links, a.src, a.paths) && a.src in routing
      modifies this`routing, this`forwarding
      ensures Truthful(links, me, Now()) && SameKeys(old(Now()), Now())
      ensures old(Direct(Now())) && Matches(Now(), a.src, a.port) ==> Direct(Now())
      ensures old(Consistent(Now())) && Matches(Now(), a.src, a.port) ==> (ok <==> Consistent(Now()))
      ensures ok <==> !Stuck(old(Now()), a.port, dest, Value(old(Now()), a, dest))
      ensures forall d :: d != dest ==> Untouched(old(Now()), Now(), a.src, d)
      ensures ok ==> Follows(Now(), a, dest) && (!changed ==> SameDistances(old(Now()), Now()))
      ensures forwarding.Keys <= old(forwarding).Keys
    {
      hide Truthful;
      hide Direct;
      hide Sourced;
      hide Nearly;
      hide PathsTruth;
      hide ColumnTruth;
      hide Stuck;
      hide Untouched;
      hide SameKeys;
      TruthfulShape(links, me, Now());
      ghost var t := Now();
      SameKeysSelf(t, a.src);
      if dest != a.src && dest != me {
        var value := Heard(a.paths, dest);
        HeardIsTruth(links, a.src, a.paths, dest);
        DistanceChanged(links, me, t, a.src, dest, value);
        DistanceFrame(t, a.src, dest, a.port, value);
        routing := routing[a.src := routing[a.src][dest := value]];
      } else {
        SourcedNearly(t, dest, a.src);
      }
      ghost var t' := Now();
      changed, ok := UpdateForwardingTable(a.src, dest, a.port, links);
      SameKeysForwarding(t, t', Now());
      forall d | d != dest ensures Untouched(t, Now(), a.src, d) {
        UntouchedTwice(t, t', Now(), a.src, d);
      }
    }

    /** All destinations that the column of the sender lists; what the update leaves out is withdrawn. */
    method UpdateTables(a: Arrival, ghost links: Links) returns (changed: bool, ok: bool)
      requires Truthful(links, me, Now()) && a.me == me && a.src in routing && PathsTruth(links, a.src, a.paths)
      modifies this`routing, this`forwarding
      ensures Truthful(links, me, Now()) && SameKeys(old(Now()), Now())
      ensures old(Direct(Now())) && Matches(Now(), a.src, a.port) ==> Direct(Now())
      ensures ok <==> !Stops(old(Now()), a)
      ensures old(Consistent(Now())) && Matches(Now(), a.src, a.port) ==> (ok <==> Consistent(Now()))
      ensures ok && !changed ==> SameDistances(old(Now()), Now())
      ensures ok ==> Column(Now(), a)
      ensures forwarding.Keys <= old(forwarding).Keys
    {
      hide Truthful;
      hide Direct;
      hide Consistent;
      hide PathsTruth;
      hide Stuck;
      hide Value;
      hide Follows;
      hide SameDistances;
      hide SameKeys;
      hide Untouched;
      hide Halfway;
      hide Stops;
      hide Column;
      changed, ok := false, true;
      ghost var t := Now();
      SameDistancesSelf(t);
      HalfwayStarts(t, a);
      var todo := routing[a.src].Keys;
      while todo != {}
        invariant Truthful(links, me, Now()) && Halfway(t, Now(), a, todo)
        invariant Direct(t) && Matches(Now(), a.src, a.port) ==> Direct(Now())
        invariant Consistent(t) && Matches(Now(), a.src, a.port) ==> Consistent(Now())
        invariant !changed ==> SameDistances(t, Now())
        invariant forwarding.Keys <= t.forwarding.Keys
        decreases |todo|
      {
        var dest :| dest in todo;
        ghost var t' := Now();
        HalfwayKeys(t, t', t', a, todo);
        var c;
        c, ok := UpdateDestination(a, dest, links);
        if !ok {
          HalfwayKeys(t, t', Now(), a, todo);
          HalfwayStops(t, t', a, todo, dest);
          return;
        }
        assert todo == todo - {dest} + {dest};
        todo := todo - {dest};
        HalfwayNext(t, t', Now(), a, todo, dest);
        if !changed && !c {
          SameDistancesTwice(t, t', Now());
        }
        changed := changed || c;
      }
      HalfwayEnds(t, Now(), a);
    }

    /** The other columns list a destination that is new to them as out of reach. */
    method ListEverywhere(node: Node, ghost links: Links)
      requires Truthful(links, me, Now())
      modifies this`routing
      ensures Truthful(links, me, Now()) && (old(Direct(Now())) ==> Direct(Now()))
      ensures forall d :: old(Sourced(Now(), d)) ==> Sourced(Now(), d)
      ensures routing.Keys == old(routing).Keys && (forall n :: n in routing ==> Knows(Now(), n, node))
      ensures forall n, d :: Knows(Now(), n, d) ==> d == node || Knows(old(Now()), n, d)
      ensures Kept(old(Now()), Now())
    {
      hide Truthful;
      hide Direct;
      hide Sourced;
      hide ColumnTruth;
      hide Kept;
      ghost var t := Now();
      KeptSelf(t);
      var todo := routing.Keys;
      while todo != {}
        invariant Truthful(links, me, Now()) && (Direct(t) ==> Direct(Now())) && todo <= routing.Keys == t.routing.Keys
        invariant forall d :: Sourced(t, d) ==> Sourced(Now(), d)
        invariant forall n :: n in routing && n !in todo ==> Knows(Now(), n, node)
        invariant forall n, d :: Knows(Now(), n, d) ==> d == node || Knows(t, n, d)
        invariant Kept(t, Now())
        decreases |todo|
      {
        var nbr :| nbr in todo;
        todo := todo - {nbr};
        ghost var t' := Now();
        ListIn(nbr, node, links);
        KeptTwice(t, t', Now());
        KeptKnows(t', Now());
      }
    }

    method ListIn(nbr: Node, node: Node, ghost links: Links)
      requires Truthful(links, me, Now()) && nbr in routing
      modifies this`routing
      ensures Truthful(links, me, Now()) && (old(Direct(Now())) ==> Direct(Now()))
      ensures forall d :: old(Sourced(Now(), d)) ==> Sourced(Now(), d)
      ensures routing.Keys == old(routing).Keys && Knows(Now(), nbr, node)
      ensures Kept(old(Now()), Now())
      ensures forall n, d :: Knows(Now(), n, d) ==> d == node || Knows(old(Now()), n, d)
    {
      hide Truthful;
      hide Direct;
      hide Sourced;
      if node !in routing[nbr] {
        OutOfReach(links, me, Now(), nbr, node);
        routing := routing[nbr := routing[nbr][node := INFINITY]];
      }
    }

    /** A destination that is new to the column of the sender. */
    method AddNode(a: Arrival, node: Node, ghost links: Links) returns (changed: bool)
      requires Truthful(links, me, Now()) && a.me == me && a.src in neighbors && PathsTruth(links, a.src, a.paths)
      requires !Knows(Now(), a.src, node)
      modifies this`routing, this`forwarding
      ensures Truthful(links, me, Now())
      ensures old(Direct(Now())) && Matches(Now(), a.src, a.port) ==> Direct(Now())
      ensures old(Consistent(Now())) && Matches(Now(), a.src, a.port) ==> Consistent(Now())
      ensures Extends(old(Now()), Now(), a, {node}) && (!changed ==> SameDistances(old(Now()), Now()))
    {
      hide Truthful;
      hide Direct;
      hide Sourced;
      hide Nearly;
      hide PathsTruth;
      hide ColumnTruth;
      ghost var t0 := Now();
      TruthfulShape(links, me, Now());
      HeardIsTruth(links, a.src, a.paths, node);
      NodeAdded(links, me, Now(), a.src, node, Heard(a.paths, node));
      routing := routing[a.src := routing[a.src][node := Heard(a.paths, node)]];
      ghost var t := Now();
      ListEverywhere(node, links);
      ghost var t' := Now();
      changed := EnterNode(a.src, node, a.port, links);
      NodeExtends(t0, t, t', Now(), a, node);
    }

    /** The entry for a destination that every column lists: a new one, or the old one brought up to date. */
    method EnterNode(src: Node, node: Node, port: Port, ghost links: Links) returns (changed: bool)
      requires Truthful(links, me, Now()) && src in neighbors
      requires forall n :: n in routing ==> Knows(Now(), n, node)
      modifies this`forwarding
      ensures Truthful(links, me, Now())
      ensures old(Direct(Now())) && Matches(Now(), src, port) ==> Direct(Now())
      ensures old(Consistent(Now())) && Matches(Now(), src, port) ==> Consistent(Now())
      ensures NoWorse(Now(), node, src, port) && (node in old(forwarding) || node in forwarding)
      ensures forall d :: d != node ==> Untouched(old(Now()), Now(), src, d)
      ensures !changed ==> SameDistances(old(Now()), Now())
    {
      hide Truthful;
      hide Direct;
      hide Sourced;
      hide Nearly;
      TruthfulShape(links, me, Now());
      ghost var t := Now();
      if node !in forwarding {
        NeighborsHaveEntries(t, node);
        RouteChanged(links, me, t, node, Some(Route(port, routing[src][node])), src);
        forwarding := forwarding[node := Route(port, routing[src][node])];
        changed := true;
      } else {
        SourcedNearly(t, node, src);
        var ok;
        changed, ok := UpdateForwardingTable(src, node, port, links);
      }
    }

    /** All destinations that are new to the column of the sender. */
    method AddNodes(newNodes: set<Node>, a: Arrival, ghost links: Links) returns (changed: bool)
      requires Truthful(links, me, Now()) && a.me == me && a.src in neighbors && PathsTruth(links, a.src, a.paths)
      requires forall d :: d in newNodes ==> !Knows(Now(), a.src, d)
      modifies this`routing, this`forwarding
      ensures Truthful(links, me, Now())
      ensures old(Direct(Now())) && Matches(Now(), a.src, a.port) ==> Direct(Now())
      ensures old(Consistent(Now())) && Matches(Now(), a.src, a.port) ==> Consistent(Now())
      ensures Extends(old(Now()), Now(), a, newNodes) && (!changed ==> SameDistances(old(Now()), Now()))
    {
      hide Truthful;
      hide Direct;
      hide Consistent;
      hide PathsTruth;
      hide SameDistances;
      hide Extends;
      changed := false;
      ghost var t, done := Now(), {};
      SameDistancesSelf(t);
      ExtendsNothing(t, a);
      var todo := newNodes;
      while todo != {}
        invariant Truthful(links, me, Now())
        invariant Direct(t) && Matches(Now(), a.src, a.port) ==> Direct(Now())
        invariant Consistent(t) && Matches(Now(), a.src, a.port) ==> Consistent(Now())
        invariant Extends(t, Now(), a, done) && done !! todo && done + todo == newNodes
        invariant !changed ==> SameDistances(t, Now())
        decreases |todo|
      {
        var node :| node in todo;
        todo := todo - {node};
        ghost var t' := Now();
        ExtendsKeys(t, t', a, done, node);
        var c := AddNode(a, node, links);
        ExtendsMore(t, t', Now(), a, done, node);
        if !changed && !c {
          SameDistancesTwice(t, t', Now());
        }
        done := done + {node};
        changed := changed || c;
      }
      assert done == newNodes;
    }

    /** An update for every neighbour that is not a host. */
    method SendRoutingUpdate(hosts: set<Node>) returns (updates: set<Update>)
      ensures forall n :: n in neighbors && n !in hosts ==> Update(me, n, Announced(Now(), n)) in updates
      ensures forall u :: u in updates ==>
                u.src == me && u.dst in neighbors && u.dst !in hosts && u.paths == Announced(Now(), u.dst)
      ensures forall u :: u in updates ==> Poisoned(Now(), u)
    {
      hide Announced;
      hide Poisoned;
      updates := {};
      var todo := neighbors.Keys;
      while todo != {}
        invariant todo <= neighbors.Keys
        invariant forall n :: n in neighbors && n !in hosts && n !in todo ==>
                    Update(me, n, Announced(Now(), n)) in updates
        invariant forall u :: u in updates ==>
                    u.src == me && u.dst in neighbors && u.dst !in hosts && u.paths == Announced(Now(), u.dst)
        invariant forall u :: u in updates ==> Poisoned(Now(), u)
        decreases |todo|
      {
        var nbr :| nbr in todo;
        todo := todo - {nbr};
        if nbr !in hosts {
          var paths := DistanceVector(nbr);
          AnnouncedIsPoisoned(Now(), me, nbr);
          updates := updates + {Update(me, nbr, paths)};
        }
      }
    }

    /** The distances announced to one neighbour. */
    method DistanceVector(nbr: Node) returns (paths: map<Node, int>)
      requires nbr in neighbors
      ensures paths == Announced(Now(), nbr)
    {
      hide Vector;
      ghost var t := Now();
      VectorStarts(t, nbr);
      paths := map[];
      var todo := forwarding.Keys;
      ghost var done := {};
      while todo != {}
        invariant done + todo == forwarding.Keys && Vector(t, nbr, paths, done)
        decreases |todo|
      {
        var dst :| dst in todo;
        VectorNext(t, nbr, paths, done, dst);
        todo, done := todo - {dst}, done + {dst};
        if dst != nbr {
          if forwarding[dst].port == neighbors[nbr] {
            paths := paths[dst := INFINITY];
          } else {
            paths := paths[dst := forwarding[dst].distance];
          }
        }
      }
      assert done == forwarding.Keys;
      VectorEnds(t, nbr, paths);
    }

    /**
     * An update of a neighbour, on whatever port it comes in. The tables stay true, whether or not the neighbour was
     * met twice or an earlier handler was stopped. A missing key stops the handler exactly if the update asks for it,
     * and then nothing is announced. If the port is that of the sender, direct entries stay direct, and the tables
     * stay consistent exactly unless the handler is stopped.
     */
    method HandleRoutingUpdate(packet: Update, port: Port, hosts: set<Node>, ghost links: Links)
      returns (updates: set<Update>, ok: bool)
      requires Truthful(links, me, Now()) && packet.src in routing && PathsTruth(links, packet.src, packet.paths)
      modifies this`routing, this`forwarding
      ensures Truthful(links, me, Now())
      ensures old(Direct(Now())) && Matches(Now(), packet.src, port) ==> Direct(Now())
      ensures ok <==> !Stops(old(Now()), Arrival(me, packet.src, port, packet.paths))
      ensures old(Consistent(Now())) && Matches(Now(), packet.src, port) ==> (ok <==> Consistent(Now()))
      ensures !ok ==> updates == {}
      ensures forall u :: u in updates ==> u.src == me && u.dst in neighbors && PathsTruth(links, me, u.paths)
      ensures forall u :: u in updates ==> Poisoned(Now(), u)
      ensures ok ==> Column(Now(), Arrival(me, packet.src, port, packet.paths))
      ensures ok ==> forall d :: d in packet.paths ==> Knows(Now(), packet.src, d)
      ensures ok ==> forall d :: d in packet.paths && !Knows(old(Now()), packet.src, d) ==>
                d in old(forwarding) || d in forwarding
      ensures ok && !SameDistances(old(Now()), Now()) ==>
                forall n :: n in neighbors && n !in hosts ==> Update(me, n, Announced(Now(), n)) in updates
    {
      hide Truthful;
      hide Direct;
      hide Consistent;
      hide PathsTruth;
      hide Announced;
      hide Stops;
      hide Column;
      hide SameDistances;
      hide Poisoned;
      TruthfulShape(links, me, Now());
      var arrival := Arrival(me, packet.src, port, packet.paths);
      ghost var t := Now();
      var newNodes := packet.paths.Keys - routing[packet.src].Keys;
      var a;
      a, ok := UpdateTables(arrival, links);
      if !ok {
        return {}, false;
      }
      ghost var t' := Now();
      var b := AddNodes(newNodes, arrival, links);
      ColumnComplete(t', Now(), arrival, newNodes);
      if !a && !b {
        SameDistancesTwice(t, t', Now());
      }
      updates := {};
      if a || b {
        updates := SendRoutingUpdate(hosts);
        forall u | u in updates ensures u.src == me && u.dst in neighbors && PathsTruth(links, me, u.paths) {
          AnnouncedIsTruth(links, me, Now(), u.dst);
        }
      }
    }

    /**
     * A link to a neighbour. The tables stay true. They stay consistent if and only if the neighbour is new: the
     * column of one that is met again is filled with all neighbours, itself included, as out of reach.
     */
    method AddNeighbor(n: Node, port: Port, hosts: set<Node>, ghost links: Links) returns (updates: set<Update>)
      requires Truthful(links, me, Now()) && Linked(links, me, n)
      requires forall m :: m in neighbors && m != n ==> neighbors[m] != port
      modifies this
      ensures Truthful(links, me, Now()) && (old(Direct(Now())) && n !in old(neighbors) ==> Direct(Now()))
      ensures old(Consistent(Now())) ==> (Consistent(Now()) <==> n !in old(neighbors))
      ensures neighbors == old(neighbors)[n := port] && forwarding == old(forwarding)[n := Route(port, 1)]
      ensures n !in old(neighbors) ==> Kept(old(Now()), Now()) && Introduced(Now(), n)
      ensures n in old(neighbors) ==> Knows(Now(), n, n) && routing[n][n] == INFINITY
      ensures forall m :: m in neighbors && m !in hosts ==> Update(me, m, Announced(Now(), m)) in updates
      ensures forall u :: u in updates ==> u.src == me && u.dst in neighbors && PathsTruth(links, me, u.paths)
      ensures forall u :: u in updates ==> Poisoned(Now(), u)
    {
      hide Poisoned;
      hide Truthful;
      hide Direct;
      hide Sourced;
      hide PathsTruth;
      hide Announced;
      hide Kept;
      hide Introduced;
      TruthfulShape(links, me, Now());
      ghost var t0 := Now();
      ListEverywhere(n, links);
      ghost var t := Now();
      TruthfulShape(links, me, t);
      NeighborAdded(links, me, t0, t, n, port);
      routing := routing[n := map[n := 1] + map m | m in neighbors :: INFINITY];
      forwarding := forwarding[n := Route(port, 1)];
      neighbors := neighbors[n := port];
      assert Now() == WithNeighbor(t, n, port);
      updates := SendRoutingUpdate(hosts);
      forall u | u in updates ensures u.src == me && u.dst in neighbors && PathsTruth(links, me, u.paths) {
        AnnouncedIsTruth(links, me, Now(), u.dst);
      }
    }
  }

  lemma TruthfulShape(links: Links, me: Node, t: Tables)
    requires Truthful(links, me, t)
    ensures Shape(t)
  {}

  lemma NeighborsHaveEntries(t: Tables, d: Node)
    requires d !in t.forwarding
    ensures Direct(t) ==> d !in t.neighbors
  {}

  lemma NothingToSource(t: Tables, dest: Node)
    requires dest !in t.forwarding
    ensures Sourced(t, dest)
  {}

  lemma SourcedNearly(t: Tables, d: Node, src: Node)
    ensures Sourced(t, d) ==> Nearly(t, d, src)
  {}

  lemma RouteChanged(links: Links, me: Node, t: Tables, dest: Node, r: Option<Route>, n: Node)
    requires Truthful(links, me, t) && Taken(t, dest, r, n)
    ensures var t' := WithRoute(t, dest, r);
            && Truthful(links, me, t') && (dest !in t.neighbors && Direct(t) ==> Direct(t'))
            && ((r.Some? ==> Matches(t, n, r.value.port)) ==> Sourced(t', dest))
            && forall d :: d != dest && Sourced(t, d) ==> Sourced(t', d)
  {
    hide Truthful;
    hide Direct;
    hide Sourced;
    hide WithRoute;
    WithRouteTruthful(links, me, t, dest, r, n);
    forall d | d != dest && Sourced(t, d) ensures Sourced(WithRoute(t, dest, r), d) {
      WithRouteSourced(t, dest, r, d);
    }
  }

  lemma DistanceChanged(links: Links, me: Node, t: Tables, src: Node, dest: Node, value: int)
    requires Truthful(links, me, t) && src in t.routing && src != dest && ColumnTruth(links, src, dest, value)
    ensures var t' := WithDistance(t, src, dest, value);
            && Truthful(links, me, t') && (Direct(t) ==> Direct(t'))
            && (Sourced(t, dest) ==> Nearly(t', dest, src))
            && forall d :: d != dest && Sourced(t, d) ==> Sourced(t', d)
  {
    hide Truthful;
    hide Direct;
    hide Sourced;
    hide Nearly;
    hide WithDistance;
    WithDistanceTruthful(links, me, t, src, dest, value);
    if Direct(t) {
      WithDistanceDirect(t, src, dest, value);
    }
    forall d | Sourced(t, d)
      ensures d != dest ==> Sourced(WithDistance(t, src, dest, value), d)
      ensures Nearly(WithDistance(t, src, dest, value), d, src)
    {
      WithDistanceSourced(t, src, dest, value, d);
    }
  }

  lemma NodeAdded(links: Links, me: Node, t: Tables, src: Node, dest: Node, value: int)
    requires Truthful(links, me, t) && src in t.routing && !Knows(t, src, dest) && ColumnTruth(links, src, dest, value)
    ensures var t' := WithDistance(t, src, dest, value);
            && Truthful(links, me, t') && (Direct(t) ==> Direct(t'))
            && forall d :: Sourced(t, d) ==> Sourced(t', d)
  {
    if Direct(t) {
      KnowsItself(links, me, t, src);
      WithDistanceDirect(t, src, dest, value);
    }
    hide Truthful;
    hide Direct;
    hide Sourced;
    WithDistanceTruthful(links, me, t, src, dest, value);
    forall d | Sourced(t, d) ensures Sourced(WithDistance(t, src, dest, value), d) {
      NewDistanceSourced(t, src, dest, value, d);
    }
  }

  lemma KnowsItself(links: Links, me: Node, t: Tables, n: Node)
    requires Truthful(links, me, t) && Direct(t) && n in t.routing
    ensures Knows(t, n, n)
  {
    assert n in t.neighbors;
  }

  lemma OutOfReach(links: Links, me: Node, t: Tables, nbr: Node, node: Node)
    requires Truthful(links, me, t) && nbr in t.routing && !Knows(t, nbr, node)
    ensures var t' := WithDistance(t, nbr, node, INFINITY);
            && Truthful(links, me, t') && (Direct(t) ==> Direct(t'))
            && forall d :: Sourced(t, d) ==> Sourced(t', d)
  {
    assert ColumnTruth(links, nbr, node, INFINITY);
    NodeAdded(links, me, t, nbr, node, INFINITY);
  }

  lemma NeighborAdded(links: Links, me: Node, t: Tables, t': Tables, n: Node, port: Port)
    requires Truthful(links, me, t') && Linked(links, me, n) && Shape(t) && t'.neighbors == t.neighbors && Shape(t')
    requires forall m :: m in t.neighbors && m != n ==> t.neighbors[m] != port
    requires Kept(t, t') && (forall m :: m in t'.routing ==> Knows(t', m, n))
    requires forall d :: Sourced(t, d) ==> Sourced(t', d)
    ensures var u := WithNeighbor(t', n, port);
            && Truthful(links, me, u) && (n !in t.neighbors && Direct(t') ==> Direct(u))
            && (Consistent(t) ==> (Consistent(u) <==> n !in t.neighbors))
            && (if n in t.neighbors then Knows(u, n, n) && u.routing[n][n] == INFINITY
                else Kept(t, u) && Introduced(u, n))
  {
    hide Truthful;
    hide Direct;
    hide Kept;
    hide Introduced;
    hide WithNeighbor;
    hide Sourced;
    WithNeighborTruthful(links, me, t', n, port);
    if n in t.neighbors {
      MetAgain(t', n, port);
    } else {
      if Direct(t') {
        WithNeighborDirect(t', n, port);
      }
      NeighborIntroduced(t, t', n, port);
      forall d | Sourced(t', d) ensures Sourced(WithNeighbor(t', n, port), d) {
        WithNeighborSourced(t', n, port, d);
      }
    }
  }
}
