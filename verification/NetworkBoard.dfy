/**
 The mutable board of the Network game. A square is named by its coordinates; the fields of the squares
 (colour, visited flag, cached connections) are maps and sets of the board, changed in place.
 */
module NetworkBoard {
  import opened Basics
  import opened NetworkGrid
  import opened NetworkRules
  import opened NetworkPaths

  /** The members of `s` met before (x, y) in a row-by-row scan. */
  ghost function Scanned(s: set<Pos>, x: int, y: int): set<Pos> {
    set q | q in s && (q.y < y || (q.y == y && q.x < x))
  }

  lemma ScanOne(s: set<Pos>, x: int, y: int)
    ensures Pos(x, y) !in Scanned(s, x, y)
    ensures Scanned(s, x + 1, y) == Scanned(s, x, y) + if Pos(x, y) in s then {Pos(x, y)} else {}
  {
    forall q | q in Scanned(s, x + 1, y) ensures q in Scanned(s, x, y) || q == Pos(x, y) {}
  }

  lemma ScanCount(s: set<Pos>, x: int, y: int)
    ensures |Scanned(s, x + 1, y)| == |Scanned(s, x, y)| + if Pos(x, y) in s then 1 else 0
  {
    ScanOne(s, x, y);
    hide Scanned;
  }

  /** The scan of the 3-by-3 square around `p` starts with nothing and ends with everything. */
  lemma ScanBounds(g: Grid, c: Color, p: Pos)
    ensures var s := Neighbors(g, c, p);
            Scanned(s, p.x - 1, p.y - 1) == {} && Scanned(s, p.x - 1, p.y + 2) == s
  {}

  lemma ScanRow(g: Grid, c: Color, p: Pos, y: int)
    ensures var s := Neighbors(g, c, p);
            Scanned(s, p.x + 2, y) == Scanned(s, p.x - 1, y + 1)
  {}

  /** The cache while the chip at `p` links itself to what it sees in the first `i` directions. */
  ghost predicate Linking(h: Grid, p: Pos, before: Links, links: Links, i: int)
    requires OnBoard(p)
  {
    forall q, d: Dir ::
      GetLink(links, q, d) == if q == p then (if d < i then Ray(h, p, d) else None)
                              else if Opp(d) < i && Ray(h, p, Opp(d)) == Some(q) then Some(p)
                              else GetLink(before, q, d)
  }

  /** Direction `i` of the chip at `p` connected in both senses. */
  function LinkOne(links: Links, p: Pos, i: Dir, seen: Option<Pos>): Links {
    match seen
    case None => links
    case Some(q) => SetLink(SetLink(links, p, i, Some(q)), q, Opp(i), Some(p))
  }

  lemma LinkStep(h: Grid, p: Pos, before: Links, links: Links, i: Dir)
    requires OnBoard(p) && Linking(h, p, before, links, i)
    ensures Linking(h, p, before, LinkOne(links, p, i, Ray(h, p, i)), i + 1)
  {
    hide Ray;
    hide SetLink;
  }

  lemma LinkedIsExact(g: Grid, p: Pos, c: Color, before: Links, links: Links)
    requires InBounds(g) && OnBoard(p) && p !in g
    requires Exact(g, before) && Linking(Put(g, p, c), p, before, links, 8)
    ensures Exact(Put(g, p, c), links)
  {
    hide Ray;
    var h := Put(g, p, c);
    forall q, d: Dir ensures GetLink(links, q, d) == if q in h then Ray(h, q, d) else None {
      if q in g { RayAfterPlacing(g, p, c, q, d); }
    }
  }

  /** The cache while the lines through `p` are joined, pair by pair of opposite directions. */
  ghost predicate Unlinking(h: Grid, p: Pos, before: Links, links: Links, i: int)
    requires OnBoard(p)
  {
    forall q, d: Dir ::
      GetLink(links, q, d) == if q == p then (if d % 4 < i then None else GetLink(before, q, d))
                              else if d % 4 < i && Ray(h, p, Opp(d)) == Some(q) then Ray(h, p, d)
                              else GetLink(before, q, d)
  }

  /** The line through `p` in directions `i` and back, joined. */
  function UnlinkOne(links: Links, p: Pos, i: Dir, fwd: Option<Pos>, back: Option<Pos>): Links
    requires i < 4
  {
    var a := SetLink(SetLink(links, p, i, None), p, i + 4, None);
    var b := if fwd.Some? then SetLink(a, fwd.value, i + 4, back) else a;
    if back.Some? then SetLink(b, back.value, i, fwd) else b
  }

  lemma UnlinkStep(h: Grid, p: Pos, before: Links, links: Links, i: Dir)
    requires i < 4 && OnBoard(p) && Unlinking(h, p, before, links, i)
    ensures Unlinking(h, p, before, UnlinkOne(links, p, i, Ray(h, p, i), Ray(h, p, i + 4)), i + 1)
  {
    hide Ray;
    hide SetLink;
  }

  lemma UnlinkedIsExact(g: Grid, p: Pos, before: Links, links: Links)
    requires InBounds(g) && p in g
    requires Exact(g, before) && Unlinking(Take(g, p), p, before, links, 4)
    ensures Exact(Take(g, p), links)
  {
    hide Ray;
    var h := Take(g, p);
    forall q, d: Dir ensures GetLink(links, q, d) == if q in h then Ray(h, q, d) else None {
      if q in h { RayAfterRemoving(g, p, q, d); }
    }
  }

  class Board {
    var grid: Grid
    var connections: Links
    var visited: set<Pos>
    var numWhite: int
    var numBlack: int

    /** The counters are the true counts. */
    ghost predicate Counted()
      reads this
    {
      numWhite == Count(grid, White) && numBlack == Count(grid, Black)
    }

    /** The invariant of every reachable board. */
    ghost predicate Valid()
      reads this
    {
      Legal(grid) && Counted() && Exact(grid, connections)
    }

    constructor ()
      ensures Valid() && grid == map[] && visited == {}
    {
      grid := map[];
      connections := map[];
      visited := {};
      numWhite, numBlack := 0, 0;
    }

    // ---------- Queries ----------

    function CountColor(c: Color): int
      reads this
    {
      if c == White then numWhite else numBlack
    }

    method NumNeighbors(c: Color, p: Pos) returns (n: int)
      requires InBounds(grid)
      ensures n == |Neighbors(grid, c, p)|
    {
      ghost var s := Neighbors(grid, c, p);
      ScanBounds(grid, c, p);
      hide Scanned;
      n := 0;
      for y2 := p.y - 1 to p.y + 2
        invariant n == |Scanned(s, p.x - 1, y2)|
      {
        for x2 := p.x - 1 to p.x + 2
          invariant n == |Scanned(s, x2, y2)|
        {
          ScanCount(s, x2, y2);
          assert Pos(x2, y2) in s <==> Holds(grid, Pos(x2, y2), c) && (p.x != x2 || p.y != y2);
          if OnBoard(Pos(x2, y2)) && Holds(grid, Pos(x2, y2), c) && (p.x != x2 || p.y != y2) {
            n := n + 1;
          }
        }
        ScanRow(grid, c, p, y2);
      }
    }

    method NotGroupOfThree(c: Color, p: Pos) returns (b: bool)
      requires InBounds(grid) && p !in grid && NoClusters(grid, c)
      ensures b <==> NoClusters(Put(grid, p, c), c)
    {
      ghost var s := Neighbors(grid, c, p);
      ClusterTestExact(grid, c, p);
      AtMostOne(s);
      hide NoClusters;
      var neighborQty := NumNeighbors(c, p);
      if neighborQty == 0 {
        return true;
      } else if neighborQty == 1 {
        ScanBounds(grid, c, p);
        for y2 := p.y - 1 to p.y + 2
          invariant Scanned(s, p.x - 1, y2) == {}
        {
          for x2 := p.x - 1 to p.x + 2
            invariant Scanned(s, x2, y2) == {}
          {
            ScanOne(s, x2, y2);
            var q := Pos(x2, y2);
            if OnBoard(q) && Holds(grid, q, c) {
              assert s == {q};
              var n := NumNeighbors(c, q);
              return n == 0;
            }
          }
          ScanRow(grid, c, p, y2);
        }
      }
      return false;
    }

    method CanPlaceChip(c: Color, p: Pos) returns (b: bool)
      requires Counted() && Legal(grid)
      ensures b <==> CanPlace(grid, c, p)
    {
      if !OnBoard(p) || InCorner(p) || InOppositeGoal(c, p) || p in grid {
        return false;
      }
      b := NotGroupOfThree(c, p);
      b := b && (if c == White then numWhite < 10 else numBlack < 10);
    }

    /**
     * Tries the move on the board itself and puts everything back. There is no answer, but an index out of range,
     * if and only if the chip is to come from off the board.
     */
    method CanMoveChip(c: Color, from: Pos, to: Pos) returns (r: Option<bool>)
      requires Valid()
      modifies this`grid, this`numWhite, this`numBlack
      ensures r == None <==> !OnBoard(from)
      ensures r.Some? ==> (r.value <==> CanMove(grid, c, from, to))
      ensures grid == old(grid) && numWhite == old(numWhite) && numBlack == old(numBlack)
    {
      if !OnBoard(from) {
        return None;
      }
      if !Holds(grid, from, c) || from == to || CountColor(c) != 10 {
        return Some(false);
      }
      TakeKeepsLegal(grid, from);
      TakeCount(grid, from);
      hide Count;
      hide Legal;
      grid := Take(grid, from);
      ChangeColorCounter(c, -1);
      var b := CanPlaceChip(c, to);
      grid := Put(grid, from, c);
      ChangeColorCounter(c, 1);
      assert grid == old(grid);
      r := Some(b);
    }

    method ChangeColorCounter(c: Color, value: int)
      modifies this`numWhite, this`numBlack
      ensures numWhite == old(numWhite) + if c == White then value else 0
      ensures numBlack == old(numBlack) + if c == Black then value else 0
    {
      if c == White {
        numWhite := numWhite + value;
      } else {
        numBlack := numBlack + value;
      }
    }

    method GetConnection(p: Pos, d: Dir) returns (r: Option<Pos>)
      requires OnBoard(p) && InBounds(grid)
      ensures r == Ray(grid, p, d)
    {
      hide At;
      var k := 1;
      while OnBoard(At(p, d, k))
        invariant k >= 1 && Clear(grid, p, d, k)
        decreases Reach(grid, p, d, 1) - k
      {
        RayIsNear(grid, p, d, k);
        if At(p, d, k) in grid {
          return Some(At(p, d, k));
        }
        k := k + 1;
      }
      RayIs(grid, p, d, k);
      return None;
    }

    method GetConnections(p: Pos) returns (r: seq<Option<Pos>>)
      requires OnBoard(p) && InBounds(grid)
      ensures |r| == 8 && forall d: Dir :: r[d] == Ray(grid, p, d)
    {
      hide Ray;
      r := [];
      for i := 0 to 8
        invariant |r| == i && forall d: Dir | d < i :: r[d] == Ray(grid, p, d)
      {
        var c := GetConnection(p, i);
        r := r + [c];
      }
    }

    // ---------- Updates ----------

    /** Places the chip if the rules allow it and does nothing otherwise; an empty chip removes what is there. */
    method PlaceChip(c: Option<Color>, p: Pos)
      requires Valid()
      modifies this
      ensures Valid() && visited == old(visited)
      ensures grid == match c
                      case None => Take(old(grid), p)
                      case Some(d) => if CanPlace(old(grid), d, p) then Put(old(grid), p, d) else old(grid)
    {
      match c {
        case None => var _ := RemoveChip(p);
        case Some(d) => AddChip(d, p);
      }
    }

    method AddChip(c: Color, p: Pos)
      requires Valid()
      modifies this
      ensures Valid() && visited == old(visited)
      ensures grid == if CanPlace(old(grid), c, p) then Put(old(grid), p, c) else old(grid)
    {
      var ok := CanPlaceChip(c, p);
      if ok {
        PlaceKeepsLegal(grid, c, p);
        PutCount(grid, p, c);
        hide Count;
        hide NoClusters;
        hide Exact;
        grid := Put(grid, p, c);
        ChangeColorCounter(c, 1);
        Link(p, old(grid), c);
      }
    }

    /** Links the new chip and the chips it sees to each other. */
    method Link(p: Pos, ghost before: Grid, ghost c: Color)
      requires InBounds(before) && OnBoard(p) && p !in before && grid == Put(before, p, c)
      requires Exact(before, connections)
      modifies this`connections
      ensures Exact(grid, connections)
    {
      hide Ray;
      hide SetLink;
      var seen := GetConnections(p);
      for i := 0 to 8
        invariant Linking(grid, p, old(connections), connections, i)
      {
        LinkStep(grid, p, old(connections), connections, i);
        if seen[i].Some? {
          var q := seen[i].value;
          connections := SetLink(connections, p, i, Some(q));
          connections := SetLink(connections, q, (i + 4) % 8, Some(p));
        }
      }
      LinkedIsExact(before, p, c, old(connections), connections);
    }

    /** Empties the square and returns what stood there. */
    method RemoveChip(p: Pos) returns (c: Option<Color>)
      requires Valid()
      modifies this
      ensures Valid() && visited == old(visited)
      ensures c == if p in old(grid) then Some(old(grid)[p]) else None
      ensures grid == Take(old(grid), p)
    {
      c := None;
      if OnBoard(p) && p in grid {
        c := Some(grid[p]);
        TakeKeepsLegal(grid, p);
        TakeCount(grid, p);
        hide Count;
        hide NoClusters;
        hide Exact;
        ChangeColorCounter(c.value, -1);
        grid := Take(grid, p);
        Unlink(p, old(grid));
      }
    }

    /** Joins the two ends of each of the four lines through the square that became empty. */
    method Unlink(p: Pos, ghost before: Grid)
      requires InBounds(before) && p in before && grid == Take(before, p)
      requires Exact(before, connections)
      modifies this`connections
      ensures Exact(grid, connections)
    {
      hide Ray;
      hide SetLink;
      var seen := GetConnections(p);
      for i := 0 to 4
        invariant Unlinking(grid, p, old(connections), connections, i)
      {
        UnlinkStep(grid, p, old(connections), connections, i);
        connections := SetLink(connections, p, i, None);
        connections := SetLink(connections, p, i + 4, None);
        if seen[i].Some? {
          connections := SetLink(connections, seen[i].value, i + 4, seen[i + 4]);
        }
        if seen[i + 4].Some? {
          connections := SetLink(connections, seen[i + 4].value, i, seen[i]);
        }
      }
      UnlinkedIsExact(before, p, old(connections), connections);
    }

    // ---------- Networks ----------

    /** Depth-first search from every chip in the first goal area of the colour. */
    method FindNetwork(c: Color) returns (b: bool)
      requires Valid() && visited == {}
      modifies this`visited
      ensures b <==> HasNetwork(grid, c)
      ensures visited == {}
    {
      hide Ray;
      hide Chain;
      assert InBounds(grid);
      hide Legal;
      OneSideSuffices(grid, c);
      var goal := FirstGoal(c);
      StartsSomewhere(grid, c, goal);
      for i := 1 to DIMENSION - 1
        invariant visited == {}
        invariant forall ps :: Partial(grid, c, goal, ps) && Complete(ps, goal) ==> i <= GoalIndex(goal, ps[0])
      {
        var start := GoalSquare(goal, i);
        if Holds(grid, start, c) {
          var path := new Path(this, goal);
          EmptyPathAppend(grid, c, goal, start);
          var _ := path.Append(Some(start));
          assert path.positions == [start];
          var found := DfsFull(c, path);
          path.Pop();
          if found {
            ghost var ext :| Finishes(grid, c, goal, [start], ext);
            CompleteIsNetwork(grid, c, goal, [start] + ext);
            return true;
          }
          NoNetworkFrom(grid, c, goal, start);
        }
        StartsAt(grid, c, goal, i);
      }
      return false;
    }

    /** Whether the path can be extended to a network; the path and the flags come back unchanged. */
    method DfsFull(c: Color, path: Path) returns (b: bool)
      requires InBounds(grid) && path.board == this && path.Tracks(c)
      modifies this`visited, path
      ensures b <==> CanFinish(grid, c, path.startGoal, path.positions)
      ensures visited == old(visited)
      ensures path.positions == old(path.positions) && path.network == old(path.network)
      decreases grid.Keys - visited
    {
      hide Ray;
      hide Chain;
      var ps, goal := path.positions, path.startGoal;
      if path.network {
        assert ps + [] == ps;
        assert Finishes(grid, c, goal, ps, []);
        return true;
      }
      FinishThrough(grid, c, goal, ps);
      LastOnBoard(grid, c, ps);
      var seen := GetConnections(ps[|ps| - 1]);
      for i := 0 to 8
        invariant visited == old(visited) && path.positions == ps && !path.network
        invariant forall d: Dir :: d < i ==> !FinishesBy(grid, c, goal, ps, d)
      {
        if seen[i].Some? && Holds(grid, seen[i].value, c) {
          var p := seen[i].value;
          AppendExact(grid, c, goal, ps, visited, p);
          var ok := path.Append(Some(p));
          if ok {
            b := DfsFull(c, path);
            path.Pop();
            assert path.positions == ps;
            if b {
              assert FinishesBy(grid, c, goal, ps, i);
              return true;
            }
          }
        } else if seen[i].Some? {
          OnlyOwnColor(grid, c, goal, ps, seen[i].value);
        }
      }
      return false;
    }
  }

  /** The square with index 1 to 6 of a goal area. */
  function GoalSquare(goal: Goal, i: int): Pos
    requires goal != NoGoal
  {
    match goal
    case LeftGoal => Pos(0, i)
    case RightGoal => Pos(DIMENSION - 1, i)
    case TopGoal => Pos(i, 0)
    case BottomGoal => Pos(i, DIMENSION - 1)
  }

  function GoalIndex(goal: Goal, p: Pos): int {
    if goal == LeftGoal || goal == RightGoal then p.y else p.x
  }

  /** A stack of positions that starts at a goal; appending marks a square of the board as visited. */
  class Path {
    const board: Board
    const startGoal: Goal
    const endGoal: Goal
    var positions: seq<Pos>
    var network: bool

    constructor (board: Board, start: Goal)
      ensures this.board == board && startGoal == start && endGoal == OppositeGoal(start)
      ensures positions == [] && !network
    {
      this.board := board;
      startGoal, endGoal := start, OppositeGoal(start);
      positions, network := [], false;
    }

    /** The stack is a partial path of the colour and its squares are the visited ones. */
    ghost predicate Tracks(c: Color)
      reads this, board
    {
      && endGoal == OppositeGoal(startGoal)
      && Partial(board.grid, c, startGoal, positions)
      && network == Complete(positions, startGoal)
      && board.visited == set q | q in positions
    }

    method Append(p: Option<Pos>) returns (ok: bool)
      requires endGoal == OppositeGoal(startGoal)
      modifies this, board`visited
      ensures ok <==> p.Some? && CanAppend(old(positions), startGoal, old(network), old(board.visited), p.value)
      ensures !ok ==> positions == old(positions) && network == old(network) && board.visited == old(board.visited)
      ensures ok ==> && positions == old(positions) + [p.value]
                     && network == (GetGoal(p.value) == endGoal)
                     && board.visited == old(board.visited) + {p.value}
    {
      if p.None? || !CanAppend(positions, startGoal, network, board.visited, p.value) {
        return false;
      }
      positions := positions + [p.value];
      board.visited := board.visited + {p.value};
      if GetGoal(p.value) == endGoal {
        network := true;
      }
      return true;
    }

    /** Undoes the last append, or does nothing on an empty path. */
    method Pop()
      modifies this, board`visited
      ensures old(positions) == [] ==>
                positions == [] && network == old(network) && board.visited == old(board.visited)
      ensures old(positions) != [] ==>
                && var last := |old(positions)| - 1;
                && positions == old(positions)[..last] && !network
                && board.visited == old(board.visited) - {old(positions)[last]}
    {
      if positions != [] {
        var last := |positions| - 1;
        board.visited := board.visited - {positions[last]};
        positions := positions[..last];
        network := false;
      }
    }
  }

  lemma LastOnBoard(g: Grid, c: Color, ps: seq<Pos>)
    requires Chain(g, c, ps) && ps != []
    ensures OnBoard(ps[|ps| - 1])
  {}

  lemma OnlyOwnColor(g: Grid, c: Color, goal: Goal, ps: seq<Pos>, p: Pos)
    requires !Holds(g, p, c)
    ensures !Partial(g, c, goal, ps + [p])
  {
    assert (ps + [p])[|ps|] == p;
  }

  /** A network starts with a chip of the colour in the goal area. */
  lemma StartsAt(g: Grid, c: Color, goal: Goal, i: int)
    requires goal != NoGoal
    ensures forall ps :: Partial(g, c, goal, ps) && Complete(ps, goal) && GoalIndex(goal, ps[0]) == i
                         ==> ps[0] == GoalSquare(goal, i) && Holds(g, GoalSquare(goal, i), c)
  {}

  lemma NoNetworkFrom(g: Grid, c: Color, goal: Goal, start: Pos)
    requires !CanFinish(g, c, goal, [start])
    ensures forall ps :: Partial(g, c, goal, ps) && Complete(ps, goal) ==> ps[0] != start
  {
    hide Chain;
    forall ps | Partial(g, c, goal, ps) && Complete(ps, goal) ensures ps[0] != start {
      assert ps == [ps[0]] + ps[1..];
      assert Finishes(g, c, goal, [ps[0]], ps[1..]);
    }
  }

  /** Chips stand only on the six inner squares of a goal area, since corners stay empty. */
  lemma StartsSomewhere(g: Grid, c: Color, goal: Goal)
    requires Legal(g) && goal != NoGoal
    ensures forall ps :: Partial(g, c, goal, ps) && Complete(ps, goal) ==> 1 <= GoalIndex(goal, ps[0]) <= 6
    ensures (exists ps :: Chain(g, c, ps) && Joins(ps, goal)) <==>
            (exists ps :: Partial(g, c, goal, ps) && Complete(ps, goal))
  {
    forall ps ensures Partial(g, c, goal, ps) && Complete(ps, goal) <==> Chain(g, c, ps) && Joins(ps, goal) {
      CompleteIsNetwork(g, c, goal, ps);
    }
  }

  /** A scan that is clear up to `k` either stops there or has further to go. */
  lemma RayIsNear(g: Grid, p: Pos, d: Dir, k: int)
    requires OnBoard(p) && k >= 1 && Clear(g, p, d, k) && OnBoard(At(p, d, k))
    ensures if At(p, d, k) in g then Ray(g, p, d) == Some(At(p, d, k))
            else Clear(g, p, d, k + 1) && k < Reach(g, p, d, 1)
  {
    hide At;
    if At(p, d, k) in g {
      RayIs(g, p, d, k);
    } else {
      StopsOnce(g, p, d, Reach(g, p, d, k + 1), Reach(g, p, d, 1));
      assert At(p, d, Reach(g, p, d, 1)) == At(p, d, Reach(g, p, d, 1));
    }
  }
}
