/**
 Networks, as the game's rules describe them, and the partial paths that a depth-first search extends.
 */
module NetworkPaths {
  import opened Basics
  import opened NetworkGrid
  import opened NetworkRules

  datatype Goal = NoGoal | LeftGoal | RightGoal | TopGoal | BottomGoal

  function GetGoal(p: Pos): Goal {
    if p.x == 0 then LeftGoal
    else if p.x == DIMENSION - 1 then RightGoal
    else if p.y == 0 then TopGoal
    else if p.y == DIMENSION - 1 then BottomGoal
    else NoGoal
  }

  function OppositeGoal(goal: Goal): Goal {
    match goal
    case NoGoal => NoGoal
    case LeftGoal => RightGoal
    case RightGoal => LeftGoal
    case TopGoal => BottomGoal
    case BottomGoal => TopGoal
  }

  /** The goal area in which the search for a network of a colour starts. */
  function FirstGoal(c: Color): Goal {
    if c == White then LeftGoal else TopGoal
  }

  const MIN_NETWORK_LENGTH := 6

  // ---------- Networks ----------

  /** `q` is the first chip that `p` sees in some direction. */
  ghost predicate Connected(g: Grid, p: Pos, q: Pos) {
    OnBoard(p) && exists d: Dir :: Ray(g, p, d) == Some(q)
  }

  /** Coming from `a` through `b` to `c`, the direction changes at `b`. */
  ghost predicate Turns(g: Grid, a: Pos, b: Pos, c: Pos)
    requires OnBoard(a) && OnBoard(b)
  {
    forall d: Dir :: Ray(g, a, d) == Some(b) ==> Ray(g, b, d) != Some(c)
  }

  /** Chips of one colour, no chip twice, each connected to the next, with a turn at every inner chip. */
  ghost predicate Chain(g: Grid, c: Color, ps: seq<Pos>) {
    && (forall i :: 0 <= i < |ps| ==> OnBoard(ps[i]) && Holds(g, ps[i], c))
    && NoDup(ps)
    && (forall i :: 0 < i < |ps| ==> Connected(g, ps[i - 1], ps[i]))
    && (forall i :: 1 < i < |ps| ==> Turns(g, ps[i - 2], ps[i - 1], ps[i]))
  }

  /** A network leads from one goal area of a colour to the other and uses no third chip in a goal area. */
  ghost predicate Joins(ps: seq<Pos>, goal: Goal) {
    && |ps| >= MIN_NETWORK_LENGTH
    && GetGoal(ps[0]) == goal && GetGoal(ps[|ps| - 1]) == OppositeGoal(goal)
    && forall i :: 0 < i < |ps| - 1 ==> GetGoal(ps[i]) == NoGoal
  }

  /** The rules' definition: the two ends lie in the two goal areas of the colour, in either order. */
  ghost predicate IsNetwork(g: Grid, c: Color, ps: seq<Pos>) {
    Chain(g, c, ps) && (Joins(ps, FirstGoal(c)) || Joins(ps, OppositeGoal(FirstGoal(c))))
  }

  ghost predicate HasNetwork(g: Grid, c: Color) {
    exists ps :: IsNetwork(g, c, ps)
  }

  /** The goal areas in coordinates: the outer columns are White's and the outer rows Black's. */
  lemma NetworkInCoordinates(g: Grid, c: Color, ps: seq<Pos>)
    ensures IsNetwork(g, c, ps) <==>
            && Chain(g, c, ps) && |ps| >= 6
            && (var first, last := ps[0], ps[|ps| - 1];
                if c == White then first.x + last.x == 7 && (first.x == 0 || last.x == 0)
                else 1 <= first.x <= 6 && 1 <= last.x <= 6 && first.y + last.y == 7 && (first.y == 0 || last.y == 0))
            && forall i :: 0 < i < |ps| - 1 ==> 1 <= ps[i].x <= 6 && 1 <= ps[i].y <= 6
  {
    hide Connected;
    hide Turns;
    assert Chain(g, c, ps) ==> forall i :: 0 <= i < |ps| ==> OnBoard(ps[i]);
    hide Chain;
  }

  // ---------- A network read backwards is a network ----------

  ghost function Reversed(ps: seq<Pos>): (r: seq<Pos>)
    ensures |r| == |ps| && forall i :: 0 <= i < |ps| ==> r[i] == ps[|ps| - 1 - i]
  {
    seq(|ps|, i requires 0 <= i < |ps| => ps[|ps| - 1 - i])
  }

  lemma ConnectedBack(g: Grid, p: Pos, q: Pos)
    requires p in g && Connected(g, p, q)
    ensures Connected(g, q, p)
  {
    hide Ray;
    var d: Dir :| Ray(g, p, d) == Some(q);
    VisibilitySymmetric(g, p, d, q);
  }

  lemma TurnsBack(g: Grid, a: Pos, b: Pos, c: Pos)
    requires OnBoard(a) && OnBoard(b) && OnBoard(c) && a in g && b in g && c in g && Turns(g, a, b, c)
    ensures Turns(g, c, b, a)
  {
    hide Ray;
    forall d: Dir | Ray(g, c, d) == Some(b) ensures Ray(g, b, d) != Some(a) {
      VisibilitySymmetric(g, c, d, b);
      if Ray(g, b, d) == Some(a) {
        VisibilitySymmetric(g, b, d, a);
      }
    }
  }

  lemma ReversedChain(g: Grid, c: Color, ps: seq<Pos>)
    requires Chain(g, c, ps)
    ensures Chain(g, c, Reversed(ps))
  {
    hide Ray;
    hide Connected;
    hide Turns;
    var r, n := Reversed(ps), |ps|;
    forall i | 0 < i < n ensures Connected(g, r[i - 1], r[i]) {
      assert r[i - 1] == ps[n - i] && r[i] == ps[n - i - 1];
      ConnectedBack(g, ps[n - i - 1], ps[n - i]);
    }
    forall i | 1 < i < n ensures Turns(g, r[i - 2], r[i - 1], r[i]) {
      assert r[i - 2] == ps[n - i + 1] && r[i - 1] == ps[n - i] && r[i] == ps[n - i - 1];
      TurnsBack(g, ps[n - i - 1], ps[n - i], ps[n - i + 1]);
    }
  }

  /** Searching from one of the two goal areas is enough. */
  lemma OneSideSuffices(g: Grid, c: Color)
    ensures HasNetwork(g, c) <==> exists ps :: Chain(g, c, ps) && Joins(ps, FirstGoal(c))
  {
    hide Chain;
    if HasNetwork(g, c) {
      var ps :| IsNetwork(g, c, ps);
      if !Joins(ps, FirstGoal(c)) {
        ReversedChain(g, c, ps);
        assert Joins(Reversed(ps), FirstGoal(c));
      }
    }
    if ps :| Chain(g, c, ps) && Joins(ps, FirstGoal(c)) {
      assert IsNetwork(g, c, ps);
    }
  }

  // ---------- Partial paths ----------

  /** A chain that starts in its goal area and may still become, or already is, a network. */
  ghost predicate Partial(g: Grid, c: Color, goal: Goal, ps: seq<Pos>) {
    && Chain(g, c, ps) && ps != [] && goal != NoGoal && GetGoal(ps[0]) == goal
    && forall i :: 0 < i < |ps| ==> GetGoal(ps[i]) == NoGoal || EndsAt(ps, goal, i)
  }

  predicate EndsAt(ps: seq<Pos>, goal: Goal, i: int)
    requires 0 <= i < |ps|
  {
    GetGoal(ps[i]) == OppositeGoal(goal) && i == |ps| - 1 && |ps| >= MIN_NETWORK_LENGTH
  }

  predicate Complete(ps: seq<Pos>, goal: Goal) {
    ps != [] && GetGoal(ps[|ps| - 1]) == OppositeGoal(goal)
  }

  lemma CompleteIsNetwork(g: Grid, c: Color, goal: Goal, ps: seq<Pos>)
    requires goal != NoGoal
    ensures Partial(g, c, goal, ps) && Complete(ps, goal) <==> Chain(g, c, ps) && Joins(ps, goal)
  {
    hide Chain;
  }

  /** The path can be extended to a network. */
  ghost predicate CanFinish(g: Grid, c: Color, goal: Goal, ps: seq<Pos>) {
    exists ext :: Finishes(g, c, goal, ps, ext)
  }

  ghost predicate Finishes(g: Grid, c: Color, goal: Goal, ps: seq<Pos>, ext: seq<Pos>) {
    Partial(g, c, goal, ps + ext) && Complete(ps + ext, goal)
  }

  // ---------- Appending, as the path class decides it ----------

  datatype Line = NoLine | Vertical | Horizontal | ForwardDiagonal | BackwardDiagonal

  function GetDirection(p: Pos, q: Pos): Line {
    var dx, dy := p.x - q.x, p.y - q.y;
    if dx == 0 then Vertical
    else if dy == 0 then Horizontal
    else if dx == -dy then ForwardDiagonal
    else if dx == dy then BackwardDiagonal
    else NoLine
  }

  /** The tests of the path class, in its order; `ps` holds the path with its most recent position last. */
  predicate CanAppend(ps: seq<Pos>, goal: Goal, network: bool, visited: set<Pos>, p: Pos) {
    var n := |ps|;
    && !network && p !in visited && OppositeGoal(goal) != NoGoal
    && !(n == 0 && GetGoal(p) != goal)
    && !(n > 0 && GetGoal(p) != NoGoal && GetGoal(p) != OppositeGoal(goal))
    && !(n == 1 && GetDirection(p, ps[n - 1]) == NoLine)
    && !(n > 1 && (GetDirection(ps[n - 1], ps[n - 2]) == NoLine
                   || GetDirection(p, ps[n - 1]) == GetDirection(ps[n - 1], ps[n - 2])))
    && !(n < MIN_NETWORK_LENGTH - 1 && GetGoal(p) == OppositeGoal(goal))
  }

  /** The line through a chip and the chip it sees is the one of the scan direction. */
  lemma RayLine(g: Grid, p: Pos, d: Dir, q: Pos)
    requires OnBoard(p) && Ray(g, p, d) == Some(q)
    ensures GetDirection(q, p) == LineOf(d)
  {}

  function LineOf(d: Dir): Line {
    match d % 4
    case 0 => Vertical
    case 1 => ForwardDiagonal
    case 2 => Horizontal
    case _ => BackwardDiagonal
  }

  /** Two connections lie on one line exactly when they continue straight on or lead straight back. */
  lemma SameLine(d: Dir, e: Dir)
    ensures LineOf(d) == LineOf(e) <==> d == e || d == Opp(e)
  {}

  /** The comparison of line directions decides the turn, because leading back would revisit a chip. */
  lemma TurnTest(g: Grid, a: Pos, b: Pos, p: Pos)
    requires OnBoard(a) && OnBoard(b) && a in g && b in g && a != p
    requires Connected(g, a, b) && Connected(g, b, p)
    ensures GetDirection(b, a) != NoLine
    ensures Turns(g, a, b, p) <==> GetDirection(p, b) != GetDirection(b, a)
  {
    hide Ray;
    hide GetDirection;
    var d: Dir :| Ray(g, a, d) == Some(b);
    var e: Dir :| Ray(g, b, e) == Some(p);
    RayLine(g, a, d, b);
    RayLine(g, b, e, p);
    SameLine(d, e);
    VisibilitySymmetric(g, a, d, b);
    assert e != Opp(d);
    OppOppAll();
    forall f: Dir | Ray(g, a, f) == Some(b) ensures f == d || f == Opp(d) {
      RayLine(g, a, f, b);
      SameLine(f, d);
    }
    OneDirection(g, a, b, d);
    OneDirection(g, b, p, e);
  }

  lemma OppOppAll()
    ensures forall d: Dir :: Opp(Opp(d)) == d
  {}

  /** A chip is seen in one direction only. */
  lemma OneDirection(g: Grid, p: Pos, q: Pos, d: Dir)
    requires OnBoard(p) && Ray(g, p, d) == Some(q)
    ensures forall e: Dir :: Ray(g, p, e) == Some(q) ==> e == d
  {}

  lemma EmptyPathAppend(g: Grid, c: Color, goal: Goal, p: Pos)
    requires goal != NoGoal && OnBoard(p) && Holds(g, p, c)
    ensures Partial(g, c, goal, [p]) <==> CanAppend([], goal, false, {}, p)
  {}

  /** On a partial path the tests accept exactly the connected chips that give a longer partial path. */
  lemma AppendExact(g: Grid, c: Color, goal: Goal, ps: seq<Pos>, visited: set<Pos>, p: Pos)
    requires Partial(g, c, goal, ps) && OnBoard(p) && Holds(g, p, c) && Connected(g, ps[|ps| - 1], p)
    requires visited == set q | q in ps
    ensures Partial(g, c, goal, ps + [p]) <==> CanAppend(ps, goal, Complete(ps, goal), visited, p)
  {
    hide Connected;
    hide GetDirection;
    var n := |ps|;
    ChainAppend(g, c, ps, p);
    GoalsAppend(ps, goal, p);
    if n == 1 {
      ConnectedLine(g, ps[0], p);
    }
    if n > 1 && p !in visited {
      TurnTest(g, ps[n - 2], ps[n - 1], p);
    }
    hide Chain;
  }

  lemma ConnectedLine(g: Grid, p: Pos, q: Pos)
    requires Connected(g, p, q)
    ensures GetDirection(q, p) != NoLine
  {
    hide Ray;
    var d: Dir :| Ray(g, p, d) == Some(q);
    RayLine(g, p, d, q);
  }

  lemma ChainAppend(g: Grid, c: Color, ps: seq<Pos>, p: Pos)
    requires Chain(g, c, ps) && ps != [] && OnBoard(p) && Holds(g, p, c) && Connected(g, ps[|ps| - 1], p)
    ensures Chain(g, c, ps + [p]) <==>
            p !in ps && (|ps| > 1 ==> Turns(g, ps[|ps| - 2], ps[|ps| - 1], p))
  {
    if Chain(g, c, ps + [p]) { ChainLast(g, c, ps, p); }
    if p !in ps && (|ps| > 1 ==> Turns(g, ps[|ps| - 2], ps[|ps| - 1], p)) { ChainGrows(g, c, ps, p); }
  }

  lemma ChainLast(g: Grid, c: Color, ps: seq<Pos>, p: Pos)
    requires ps != [] && Chain(g, c, ps) && Chain(g, c, ps + [p])
    ensures p !in ps && (|ps| > 1 ==> Turns(g, ps[|ps| - 2], ps[|ps| - 1], p))
  {
    hide Connected;
    hide Turns;
    var qs, n := ps + [p], |ps|;
    forall i | 0 <= i < n ensures ps[i] != p { assert qs[i] == ps[i] && qs[n] == p; }
    if n > 1 { assert Turns(g, qs[n - 2], qs[n - 1], qs[n]); }
  }

  lemma ChainGrows(g: Grid, c: Color, ps: seq<Pos>, p: Pos)
    requires Chain(g, c, ps) && ps != [] && OnBoard(p) && Holds(g, p, c) && Connected(g, ps[|ps| - 1], p)
    requires p !in ps && (|ps| > 1 ==> Turns(g, ps[|ps| - 2], ps[|ps| - 1], p))
    ensures Chain(g, c, ps + [p])
  {
    hide Connected;
    hide Turns;
    var qs, n := ps + [p], |ps|;
    assert qs[n] == p && forall i :: 0 <= i < n ==> qs[i] == ps[i];
    assert NoDup(qs);
    forall i | 0 < i < n + 1 ensures Connected(g, qs[i - 1], qs[i]) {}
    forall i | 1 < i < n + 1 ensures Turns(g, qs[i - 2], qs[i - 1], qs[i]) {
      if i < n { assert Turns(g, ps[i - 2], ps[i - 1], ps[i]); }
    }
  }

  ghost predicate GoodGoals(ps: seq<Pos>, goal: Goal) {
    forall i :: 0 < i < |ps| ==> GetGoal(ps[i]) == NoGoal || EndsAt(ps, goal, i)
  }

  lemma GoalsAppend(ps: seq<Pos>, goal: Goal, p: Pos)
    requires ps != [] && goal != NoGoal && GetGoal(ps[0]) == goal && GoodGoals(ps, goal)
    ensures GoodGoals(ps + [p], goal) <==>
            && !Complete(ps, goal)
            && (GetGoal(p) == NoGoal || GetGoal(p) == OppositeGoal(goal))
            && !(|ps| < MIN_NETWORK_LENGTH - 1 && GetGoal(p) == OppositeGoal(goal))
  {
    hide GetGoal;
    var qs, n := ps + [p], |ps|;
    assert forall i :: 0 <= i < n ==> qs[i] == ps[i];
    assert qs[n] == p;
    if GoodGoals(qs, goal) {
      assert 0 < n < |qs|;
      if n > 1 { assert GetGoal(qs[n - 1]) == NoGoal; }
    }
  }

  lemma PartialPrefix(g: Grid, c: Color, goal: Goal, ps: seq<Pos>, ext: seq<Pos>)
    requires ps != [] && Partial(g, c, goal, ps + ext)
    ensures Partial(g, c, goal, ps)
    ensures ext != [] ==> !Complete(ps, goal) && Connected(g, ps[|ps| - 1], ext[0])
  {
    hide Connected;
    hide Turns;
    hide GetGoal;
    var qs := ps + ext;
    assert forall i :: 0 <= i < |ps| ==> ps[i] == qs[i];
    forall i | 1 < i < |ps| ensures Turns(g, ps[i - 2], ps[i - 1], ps[i]) {
      assert Turns(g, qs[i - 2], qs[i - 1], qs[i]);
    }
    forall i | 0 < i < |ps| ensures Connected(g, ps[i - 1], ps[i]) {
      assert Connected(g, qs[i - 1], qs[i]);
    }
    if ext != [] {
      assert Connected(g, qs[|ps| - 1], qs[|ps|]);
    }
  }

  /** A path that is not complete can be finished exactly through one of the chips its end sees. */
  lemma FinishThrough(g: Grid, c: Color, goal: Goal, ps: seq<Pos>)
    requires Partial(g, c, goal, ps) && !Complete(ps, goal)
    ensures CanFinish(g, c, goal, ps) <==>
            exists d: Dir :: FinishesBy(g, c, goal, ps, d)
  {
    hide Ray;
    assert OnBoard(ps[|ps| - 1]);
    hide Chain;
    if CanFinish(g, c, goal, ps) {
      var ext :| Finishes(g, c, goal, ps, ext);
      assert ps + [] == ps;
      assert ext != [];
      PartialPrefix(g, c, goal, ps, ext);
      var d: Dir :| Ray(g, ps[|ps| - 1], d) == Some(ext[0]);
      assert ps + ext == (ps + [ext[0]]) + ext[1..];
      PartialPrefix(g, c, goal, ps + [ext[0]], ext[1..]);
      assert Finishes(g, c, goal, ps + [ext[0]], ext[1..]);
      assert FinishesBy(g, c, goal, ps, d);
    }
    if d: Dir :| FinishesBy(g, c, goal, ps, d) {
      var p := Ray(g, ps[|ps| - 1], d).value;
      var ext :| Finishes(g, c, goal, ps + [p], ext);
      assert ps + ([p] + ext) == (ps + [p]) + ext;
      assert Finishes(g, c, goal, ps, [p] + ext);
    }
  }

  /** Appending the chip seen in direction `d` is allowed and leaves a path that can be finished. */
  ghost predicate FinishesBy(g: Grid, c: Color, goal: Goal, ps: seq<Pos>, d: Dir)
    requires Partial(g, c, goal, ps)
  {
    var seen := Ray(g, ps[|ps| - 1], d);
    seen.Some? && Partial(g, c, goal, ps + [seen.value]) && CanFinish(g, c, goal, ps + [seen.value])
  }
}
