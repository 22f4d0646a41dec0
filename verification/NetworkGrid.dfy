/**
 The 8-by-8 board of the Network game as a value: which chips stand where, the eight scan directions
 and the first chip seen along a direction. Everything the mutable `Board` class does is specified with
 these definitions.
 */
module NetworkGrid {
  import opened Basics

  const DIMENSION := 8
  const MAX_CHIPS := 10

  datatype Color = Black | White

  datatype Pos = Pos(x: int, y: int)

  predicate OnBoard(p: Pos) {
    0 <= p.x < DIMENSION && 0 <= p.y < DIMENSION
  }

  /** The chips on the board; a square without an entry is empty. */
  type Grid = map<Pos, Color>

  function Put(g: Grid, p: Pos, c: Color): Grid {
    g[p := c]
  }

  function Take(g: Grid, p: Pos): Grid {
    g - {p}
  }

  // ---------- Directions ----------

  /** Index into the table of the eight steps, clockwise from straight up. */
  type Dir = d: int | 0 <= d < 8

  /** The direction pointing back. */
  function Opp(d: Dir): Dir {
    (d + 4) % 8
  }

  /** The position `k` steps from `p` in direction `d`. */
  function At(p: Pos, d: Dir, k: int): Pos {
    if d == 0 then Pos(p.x, p.y - k)
    else if d == 1 then Pos(p.x + k, p.y - k)
    else if d == 2 then Pos(p.x + k, p.y)
    else if d == 3 then Pos(p.x + k, p.y + k)
    else if d == 4 then Pos(p.x, p.y + k)
    else if d == 5 then Pos(p.x - k, p.y + k)
    else if d == 6 then Pos(p.x - k, p.y)
    else Pos(p.x - k, p.y - k)
  }

  lemma AtCompose(p: Pos, d: Dir, j: int, k: int)
    ensures At(At(p, d, j), d, k) == At(p, d, j + k)
    ensures At(At(p, d, j), Opp(d), k) == At(p, d, j - k)
    ensures At(p, d, 0) == p && (k != 0 ==> At(p, d, k) != p)
    ensures Opp(Opp(d)) == d
  {}

  // ---------- Visibility ----------

  /** The squares strictly between `p` and the one `k` steps away are on the board and empty. */
  ghost predicate Clear(g: Grid, p: Pos, d: Dir, k: int) {
    forall j :: 1 <= j < k ==> OnBoard(At(p, d, j)) && At(p, d, j) !in g
  }

  /** The scan stops at the first square that is off the board or occupied. */
  ghost predicate Stops(g: Grid, p: Pos, d: Dir, k: int) {
    k >= 1 && Clear(g, p, d, k) && (OnBoard(At(p, d, k)) ==> At(p, d, k) in g)
  }

  lemma StopsOnce(g: Grid, p: Pos, d: Dir, j: int, k: int)
    requires Stops(g, p, d, j) && Stops(g, p, d, k)
    ensures j == k
  {
    hide At;
    assert At(p, d, j) == At(p, d, j) && At(p, d, k) == At(p, d, k);
  }

  /** Distance from `p`, at least `k`, at which the scan in direction `d` stops. */
  function Reach(g: Grid, p: Pos, d: Dir, k: int): (n: int)
    requires OnBoard(p) && k >= 1 && Clear(g, p, d, k)
    ensures Stops(g, p, d, n)
    decreases if OnBoard(At(p, d, k)) then 8 - k else 0
  {
    if OnBoard(At(p, d, k)) && At(p, d, k) !in g then Reach(g, p, d, k + 1) else k
  }

  /** The first chip seen from `p` in direction `d`, if any. */
  function Ray(g: Grid, p: Pos, d: Dir): (r: Option<Pos>)
    requires OnBoard(p)
    ensures r.Some? ==> r.value in g && r.value != p
  {
    AtCompose(p, d, 0, Reach(g, p, d, 1));
    var q := At(p, d, Reach(g, p, d, 1));
    if OnBoard(q) then Some(q) else None
  }

  lemma RayIs(g: Grid, p: Pos, d: Dir, k: int)
    requires OnBoard(p) && Stops(g, p, d, k)
    ensures Ray(g, p, d) == if OnBoard(At(p, d, k)) then Some(At(p, d, k)) else None
  {
    StopsOnce(g, p, d, k, Reach(g, p, d, 1));
  }

  /** Seeing is symmetric: the first chip in a direction sees back along the opposite direction. */
  lemma VisibilitySymmetric(g: Grid, p: Pos, d: Dir, q: Pos)
    requires OnBoard(p) && p in g
    requires Ray(g, p, d) == Some(q)
    ensures OnBoard(q) && q in g && p != q
    ensures Ray(g, q, Opp(d)) == Some(p)
  {
    var k := Reach(g, p, d, 1);
    AtCompose(p, d, k, k);
    forall j | 1 <= j < k
      ensures OnBoard(At(q, Opp(d), j)) && At(q, Opp(d), j) !in g
    {
      AtCompose(p, d, k, j);
      assert At(q, Opp(d), j) == At(p, d, k - j);
    }
    RayIs(g, q, Opp(d), k);
  }

  /** A ray depends only on the squares up to its end. */
  lemma RayAgrees(g: Grid, h: Grid, p: Pos, d: Dir)
    requires OnBoard(p)
    requires forall j :: 1 <= j <= Reach(g, p, d, 1) ==> (At(p, d, j) in g <==> At(p, d, j) in h)
    ensures Ray(g, p, d) == Ray(h, p, d)
  {
    hide At;
    RayIs(h, p, d, Reach(g, p, d, 1));
  }

  /** A square that is not where a ray ends has no influence on that ray. */
  lemma RayMisses(g: Grid, h: Grid, p: Pos, q: Pos, d: Dir)
    requires OnBoard(p) && OnBoard(q) && p in g && Ray(g, q, d) != Some(p)
    requires forall r :: r != p ==> (r in g <==> r in h)
    ensures Ray(g, q, d) == Ray(h, q, d)
  {
    hide At;
    forall j | 1 <= j <= Reach(g, q, d, 1) ensures At(q, d, j) != p {}
    RayAgrees(g, h, q, d);
  }

  /** Putting a chip at `p` cuts exactly the rays that pass over `p`; they belong to the chips that `p` now sees. */
  lemma RayAfterPlacing(g: Grid, p: Pos, c: Color, q: Pos, d: Dir)
    requires OnBoard(p) && p !in g && OnBoard(q) && q in g
    ensures Ray(Put(g, p, c), q, d) ==
            if Ray(Put(g, p, c), p, Opp(d)) == Some(q) then Some(p) else Ray(g, q, d)
  {
    hide At;
    hide Ray;
    var h := Put(g, p, c);
    AtCompose(p, d, 0, 0);
    if Ray(h, p, Opp(d)) == Some(q) {
      VisibilitySymmetric(h, p, Opp(d), q);
    } else {
      if Ray(h, q, d) == Some(p) { VisibilitySymmetric(h, q, d, p); }
      RayMisses(h, g, p, q, d);
    }
  }

  /** Removing the chip at `p` joins the two ends of each line through `p`. */
  lemma RayAfterRemoving(g: Grid, p: Pos, q: Pos, d: Dir)
    requires OnBoard(p) && p in g && OnBoard(q) && q in g && p != q
    ensures var h := Take(g, p);
            Ray(h, q, d) == if Ray(h, p, Opp(d)) == Some(q) then Ray(h, p, d) else Ray(g, q, d)
  {
    hide At;
    hide Ray;
    var h := Take(g, p);
    AtCompose(p, d, 0, 0);
    RayFromHole(g, p, Opp(d));
    if Ray(h, p, Opp(d)) == Some(q) {
      VisibilitySymmetric(g, p, Opp(d), q);
      RayJoined(g, p, q, d);
    } else {
      if Ray(g, q, d) == Some(p) { VisibilitySymmetric(g, q, d, p); }
      RayMisses(g, h, p, q, d);
    }
  }

  /** What stands at `p` itself does not matter to the rays that leave `p`. */
  lemma RayFromHole(g: Grid, p: Pos, d: Dir)
    requires OnBoard(p)
    ensures Ray(Take(g, p), p, d) == Ray(g, p, d)
  {
    forall j | 1 <= j ensures At(p, d, j) != p { AtCompose(p, d, 0, j); }
    RayAgrees(g, Take(g, p), p, d);
  }

  lemma RayJoined(g: Grid, p: Pos, q: Pos, d: Dir)
    requires OnBoard(p) && OnBoard(q) && p != q && Ray(g, q, d) == Some(p)
    ensures Ray(Take(g, p), q, d) == Ray(Take(g, p), p, d)
  {
    hide At;
    var h := Take(g, p);
    var k, n := Reach(g, q, d, 1), Reach(h, p, d, 1);
    forall j | 1 <= j < k + n ensures OnBoard(At(q, d, j)) && At(q, d, j) !in h {
      AtCompose(q, d, k, j - k);
      if j > k { assert At(q, d, j) == At(p, d, j - k); }
    }
    AtCompose(q, d, k, n);
    RayIs(h, q, d, k + n);
  }

  // ---------- Cached connections ----------

  /** The connections recorded for each square and direction; a missing entry is a null reference. */
  type Links = map<(Pos, Dir), Pos>

  function GetLink(links: Links, p: Pos, d: Dir): Option<Pos> {
    if (p, d) in links then Some(links[(p, d)]) else None
  }

  /** One cached connection overwritten. */
  function SetLink(links: Links, p: Pos, d: Dir, to: Option<Pos>): (r: Links)
    ensures forall q, e: Dir :: GetLink(r, q, e) == if q == p && e == d then to else GetLink(links, q, e)
  {
    match to
    case None => links - {(p, d)}
    case Some(q) => links[(p, d) := q]
  }

  /** The cache is exact: chips hold a fresh scan of all eight directions, empty squares hold nothing. */
  ghost predicate Exact(g: Grid, links: Links)
    requires InBounds(g)
  {
    forall p, d: Dir :: GetLink(links, p, d) == if p in g then Ray(g, p, d) else None
  }

  ghost predicate InBounds(g: Grid) {
    forall p :: p in g ==> OnBoard(p)
  }

  /** A fresh scan from every chip. */
  function FreshScan(g: Grid): Links
    requires InBounds(g)
  {
    map p, d: Dir | p in g && Ray(g, p, d).Some? :: (p, d) := Ray(g, p, d).value
  }

  /** There is an exact cache for every board. */
  lemma ExactExists(g: Grid)
    requires InBounds(g)
    ensures Exact(g, FreshScan(g))
  {
    hide Ray;
    forall p, d: Dir ensures GetLink(FreshScan(g), p, d) == if p in g then Ray(g, p, d) else None {
      if p in g && Ray(g, p, d).Some? {
        assert (p, d) in FreshScan(g);
      }
    }
  }

  /** The cache is determined by the chips. */
  lemma ExactUnique(g: Grid, a: Links, b: Links)
    requires InBounds(g) && Exact(g, a) && Exact(g, b)
    ensures a == b
  {
    hide Ray;
    forall p, d: Dir ensures GetLink(a, p, d) == GetLink(b, p, d) {}
    forall k ensures k in a <==> k in b {
      assert GetLink(a, k.0, k.1) == GetLink(b, k.0, k.1);
    }
    forall k | k in a ensures a[k] == b[k] {
      assert GetLink(a, k.0, k.1) == GetLink(b, k.0, k.1);
    }
  }
}
