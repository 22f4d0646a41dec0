/**
 The rules of legal placement in the Network game, stated on grids, and the invariant
 that every reachable board keeps.
 */
module NetworkRules {
  import opened Basics
  import opened NetworkGrid

  predicate InCorner(p: Pos) {
    (p.x == 0 || p.x == DIMENSION - 1) && (p.y == 0 || p.y == DIMENSION - 1)
  }

  /** White owns the left and right columns, Black the top and bottom rows. */
  predicate InOppositeGoal(c: Color, p: Pos) {
    match c
    case White => p.y == 0 || p.y == DIMENSION - 1
    case Black => p.x == 0 || p.x == DIMENSION - 1
  }

  predicate Adjacent(p: Pos, q: Pos) {
    p != q && -1 <= p.x - q.x <= 1 && -1 <= p.y - q.y <= 1
  }

  predicate Holds(g: Grid, p: Pos, c: Color) {
    p in g && g[p] == c
  }

  /** The squares around `p` that hold a chip of colour `c`. */
  function Neighbors(g: Grid, c: Color, p: Pos): set<Pos> {
    set q | q in g && Adjacent(p, q) && g[q] == c
  }

  function Chips(g: Grid, c: Color): set<Pos> {
    set q | q in g && g[q] == c
  }

  function Count(g: Grid, c: Color): nat {
    |Chips(g, c)|
  }

  /** Rule 4: no chip touches two chips of its own colour. */
  ghost predicate NoClusters(g: Grid, c: Color) {
    forall p | p in g && g[p] == c :: |Neighbors(g, c, p)| <= 1
  }

  /** What every reachable board satisfies. */
  ghost predicate Legal(g: Grid) {
    && InBounds(g)
    && (forall p | p in g :: !InCorner(p) && !InOppositeGoal(g[p], p))
    && (forall c :: NoClusters(g, c))
    && (forall c :: Count(g, c) <= MAX_CHIPS)
  }

  /** The placements that the rules allow, each rule said outright. */
  ghost predicate CanPlace(g: Grid, c: Color, p: Pos) {
    && OnBoard(p) && !InCorner(p) && !InOppositeGoal(c, p)
    && p !in g
    && NoClusters(Put(g, p, c), c)
    && Count(g, c) < MAX_CHIPS
  }

  /** A step move: take one of the ten chips off, then place it on another square. */
  ghost predicate CanMove(g: Grid, c: Color, from: Pos, to: Pos) {
    Holds(g, from, c) && from != to && Count(g, c) == MAX_CHIPS && CanPlace(Take(g, from), c, to)
  }

  /** On an empty board White may use all rows but the outer ones, and Black all columns but the outer ones. */
  lemma OpenSquares(c: Color, p: Pos)
    ensures CanPlace(map[], c, p) <==>
            if c == White then 0 <= p.x <= 7 && 1 <= p.y <= 6 else 1 <= p.x <= 6 && 0 <= p.y <= 7
  {
    var g: Grid := map[];
    assert Chips(g, c) == {};
    assert Neighbors(Put(g, p, c), c, p) == {};
  }

  /** Next to a square are the eight squares one step away. */
  lemma AdjacentIsOneStep(p: Pos, q: Pos)
    ensures Adjacent(p, q) <==> exists d: Dir :: q == At(p, d, 1)
  {
    if Adjacent(p, q) {
      var dx, dy := q.x - p.x, q.y - p.y;
      var d: Dir := if dx == 0 then (if dy < 0 then 0 else 4)
                    else if dx == 1 then (if dy < 0 then 1 else if dy == 0 then 2 else 3)
                    else (if dy > 0 then 5 else if dy == 0 then 6 else 7);
      assert q == At(p, d, 1);
    }
  }

  /** A chip of the colour stands on `q`, next to `p`. */
  predicate Touches(g: Grid, c: Color, p: Pos, q: Pos) {
    Holds(g, q, c) && Adjacent(p, q)
  }

  /** Rule 4 in the words of the game's description: no three chips of a colour of which one touches the other two. */
  lemma NoGroupOfThree(g: Grid, c: Color)
    ensures NoClusters(g, c) <==>
            forall p, q, r :: Holds(g, p, c) && Touches(g, c, p, q) && Touches(g, c, p, r) ==> q == r
  {
    hide Adjacent;
    forall p ensures |Neighbors(g, c, p)| <= 1 <==>
                     forall q, r :: Touches(g, c, p, q) && Touches(g, c, p, r) ==> q == r
    {
      AtMostOne(Neighbors(g, c, p));
      assert forall q :: q in Neighbors(g, c, p) <==> Touches(g, c, p, q);
    }
  }

  // ---------- Small facts about sets ----------

  lemma AtMostOne<T>(s: set<T>)
    ensures |s| <= 1 <==> forall a, b | a in s && b in s :: a == b
  {
    if |s| > 1 {
      var a :| a in s;
      assert |s - {a}| >= 1;
      var b :| b in s - {a};
      assert a != b;
    } else if |s| == 1 {
      var a :| a in s;
      assert |s - {a}| == 0;
      assert s == {a};
    }
  }

  // ---------- Placing and removing ----------

  lemma PutNeighbors(g: Grid, p: Pos, c: Color, d: Color, q: Pos)
    requires p !in g
    ensures Neighbors(Put(g, p, c), d, q) ==
            if c == d && Adjacent(q, p) then Neighbors(g, d, q) + {p} else Neighbors(g, d, q)
  {}

  lemma TakeNeighbors(g: Grid, p: Pos, d: Color, q: Pos)
    ensures Neighbors(Take(g, p), d, q) == Neighbors(g, d, q) - {p}
  {}

  lemma PutChips(g: Grid, p: Pos, c: Color, d: Color)
    requires p !in g
    ensures p !in Chips(g, d)
    ensures Chips(Put(g, p, c), d) == if c == d then Chips(g, d) + {p} else Chips(g, d)
  {}

  lemma PutCount(g: Grid, p: Pos, c: Color)
    requires p !in g
    ensures forall d :: Count(Put(g, p, c), d) == Count(g, d) + if c == d then 1 else 0
  {
    forall d ensures Count(Put(g, p, c), d) == Count(g, d) + if c == d then 1 else 0 {
      PutChips(g, p, c, d);
      hide Chips;
    }
  }

  lemma TakeCount(g: Grid, p: Pos)
    requires p in g
    ensures forall d :: Count(Take(g, p), d) == Count(g, d) - if g[p] == d then 1 else 0
  {
    forall d ensures Count(Take(g, p), d) == Count(g, d) - if g[p] == d then 1 else 0 {
      assert Chips(Take(g, p), d) == Chips(g, d) - {p};
    }
  }

  /** What the board looks at: no neighbour, or a single neighbour that has none itself. */
  ghost predicate PassesClusterTest(g: Grid, c: Color, p: Pos) {
    || Neighbors(g, c, p) == {}
    || exists q :: Neighbors(g, c, p) == {q} && Neighbors(g, c, q) == {}
  }

  /** The local test around the new chip decides the rule for the whole board. */
  lemma ClusterTestExact(g: Grid, c: Color, p: Pos)
    requires p !in g && NoClusters(g, c)
    ensures NoClusters(Put(g, p, c), c) <==> PassesClusterTest(g, c, p)
  {
    if NoClusters(Put(g, p, c), c) { NoClustersPasses(g, c, p); }
    if PassesClusterTest(g, c, p) { PassesNoClusters(g, c, p); }
  }

  lemma NoClustersPasses(g: Grid, c: Color, p: Pos)
    requires p !in g && NoClusters(Put(g, p, c), c)
    ensures PassesClusterTest(g, c, p)
  {
    var h, near := Put(g, p, c), Neighbors(g, c, p);
    PutNeighbors(g, p, c, c, p);
    if near != {} {
      assert p in h && |near| <= 1;
      var q :| q in near;
      AtMostOne(near);
      assert near == {q};
      PutNeighbors(g, p, c, c, q);
      assert q in h && |Neighbors(h, c, q)| <= 1;
      AtMostOne(Neighbors(h, c, q));
      assert Neighbors(g, c, q) == {};
    }
  }

  lemma PassesNoClusters(g: Grid, c: Color, p: Pos)
    requires p !in g && NoClusters(g, c) && PassesClusterTest(g, c, p)
    ensures NoClusters(Put(g, p, c), c)
  {
    var h := Put(g, p, c);
    forall r | r in h && h[r] == c ensures |Neighbors(h, c, r)| <= 1 {
      PutNeighbors(g, p, c, c, r);
      if r != p && Adjacent(r, p) {
        assert r in Neighbors(g, c, p);
        assert Neighbors(h, c, r) == {p};
      }
    }
  }

  lemma PlaceKeepsLegal(g: Grid, c: Color, p: Pos)
    requires Legal(g) && CanPlace(g, c, p)
    ensures Legal(Put(g, p, c))
  {
    var h := Put(g, p, c);
    PutCount(g, p, c);
    hide Count;
    forall d ensures NoClusters(h, d) {
      if d != c {
        forall q | q in h && h[q] == d ensures |Neighbors(h, d, q)| <= 1 {
          PutNeighbors(g, p, c, d, q);
          assert NoClusters(g, d);
        }
      }
    }
  }

  lemma TakeKeepsLegal(g: Grid, p: Pos)
    requires Legal(g) && p in g
    ensures Legal(Take(g, p))
  {
    var h := Take(g, p);
    TakeCount(g, p);
    hide Count;
    forall d ensures NoClusters(h, d) {
      assert NoClusters(g, d);
      forall q | q in h && h[q] == d ensures |Neighbors(h, d, q)| <= 1 {
        TakeNeighbors(g, p, d, q);
        SubsetSize(Neighbors(h, d, q), Neighbors(g, d, q));
      }
    }
  }

  /** A chip taken off a legal board may always be put back: this is why a step move can be undone. */
  lemma CanPutBack(g: Grid, p: Pos)
    requires Legal(g) && p in g
    ensures CanPlace(Take(g, p), g[p], p)
    ensures Put(Take(g, p), p, g[p]) == g
  {
    TakeCount(g, p);
    hide Count;
    assert Put(Take(g, p), p, g[p]) == g;
    assert NoClusters(g, g[p]);
  }

  /** A chip just placed and taken off again leaves the grid as it was. */
  lemma TakeBack(g: Grid, c: Color, p: Pos)
    requires p !in g
    ensures Take(Put(g, p, c), p) == g
  {}
}
