/**
 Boards of the game's description and tests with and without networks; and a game in which all chips are placed, with a
 step move after it that the player does not answer.
 */
module NetworkGames {
  import opened Basics
  import opened NetworkGrid
  import opened NetworkRules
  import opened NetworkPaths
  import opened NetworkSearch

  // ---------- Networks on given boards ----------

  /** Each chip sees the next one, in the direction given for it, and the direction changes from chip to chip. */
  ghost predicate Leads(g: Grid, ps: seq<Pos>, ds: seq<Dir>) {
    && |ps| == |ds| + 1
    && (forall i :: 0 <= i < |ds| ==> OnBoard(ps[i]) && Ray(g, ps[i], ds[i]) == Some(ps[i + 1]))
    && (forall i :: 0 < i < |ds| ==> ds[i - 1] != ds[i])
  }

  lemma LeadsIsChain(g: Grid, c: Color, ps: seq<Pos>, ds: seq<Dir>)
    requires Leads(g, ps, ds) && NoDup(ps) && forall i :: 0 <= i < |ps| ==> OnBoard(ps[i]) && Holds(g, ps[i], c)
    ensures Chain(g, c, ps)
  {
    hide Ray;
    forall i | 1 < i < |ps| ensures Turns(g, ps[i - 2], ps[i - 1], ps[i]) {
      assert Ray(g, ps[i - 2], ds[i - 2]) == Some(ps[i - 1]) && Ray(g, ps[i - 1], ds[i - 1]) == Some(ps[i]);
      OneDirection(g, ps[i - 2], ps[i - 1], ds[i - 2]);
      OneDirection(g, ps[i - 1], ps[i], ds[i - 1]);
    }
    forall i | 0 < i < |ps| ensures Connected(g, ps[i - 1], ps[i]) {
      assert Ray(g, ps[i - 1], ds[i - 1]) == Some(ps[i]);
    }
  }

  /** The board of the source's test, with the last white chip placed. */
  function TestBoard(): Grid {
    map[Pos(0, 3) := White, Pos(2, 3) := White, Pos(2, 5) := White, Pos(3, 6) := White, Pos(5, 6) := White,
        Pos(7, 4) := White, Pos(6, 0) := Black, Pos(4, 0) := Black, Pos(2, 0) := Black, Pos(6, 7) := Black,
        Pos(4, 7) := Black, Pos(2, 7) := Black]
  }

  predicate OnTestBoard(p: Pos) {
    if p.y == 0 || p.y == 7 then p.x == 2 || p.x == 4 || p.x == 6
    else if p.y == 3 then p.x == 0 || p.x == 2
    else if p.y == 4 then p.x == 7
    else if p.y == 5 then p.x == 2
    else p.y == 6 && (p.x == 3 || p.x == 5)
  }

  lemma TestBoardSquares()
    ensures forall p :: p in TestBoard() <==> OnTestBoard(p)
    ensures forall p :: p in TestBoard() ==> TestBoard()[p] == if p.y == 0 || p.y == 7 then Black else White
  {
    forall p: Pos ensures p in TestBoard() <==> OnTestBoard(p) {}
  }

  lemma TestBoardLeads(ps: seq<Pos>, ds: seq<Dir>)
    requires ps == [Pos(0, 3), Pos(2, 3), Pos(2, 5), Pos(3, 6), Pos(5, 6), Pos(7, 4)] && ds == [2, 4, 3, 2, 1]
    ensures Leads(TestBoard(), ps, ds)
  {
    hide Ray;
    hide TestBoard;
    var g := TestBoard();
    TestBoardSquares();
    assert Ray(g, ps[0], 2) == Some(ps[1]) by { RayIs(g, ps[0], 2, 2); }
    assert Ray(g, ps[1], 4) == Some(ps[2]) by { RayIs(g, ps[1], 4, 2); }
    assert Ray(g, ps[2], 3) == Some(ps[3]) by { RayIs(g, ps[2], 3, 1); }
    assert Ray(g, ps[3], 2) == Some(ps[4]) by { RayIs(g, ps[3], 2, 2); }
    assert Ray(g, ps[4], 1) == Some(ps[5]) by { RayIs(g, ps[4], 1, 2); }
  }

  lemma TestBoardBlack(qs: seq<Pos>)
    ensures !IsNetwork(TestBoard(), Black, qs)
  {
    hide Connected;
    hide Turns;
    NetworkInCoordinates(TestBoard(), Black, qs);
    assert Chain(TestBoard(), Black, qs) && |qs| >= 6 ==> Holds(TestBoard(), qs[1], Black);
  }

  /** White has a network and Black, with all chips in goal areas, has none. */
  lemma TestBoardDecided()
    ensures HasNetwork(TestBoard(), White) && !HasNetwork(TestBoard(), Black)
  {
    hide Leads;
    hide Connected;
    hide Turns;
    var g := TestBoard();
    var ps := [Pos(0, 3), Pos(2, 3), Pos(2, 5), Pos(3, 6), Pos(5, 6), Pos(7, 4)];
    TestBoardLeads(ps, [2, 4, 3, 2, 1]);
    LeadsIsChain(g, White, ps, [2, 4, 3, 2, 1]);
    hide Chain;
    NetworkInCoordinates(g, White, ps);
    forall qs ensures !IsNetwork(g, Black, qs) {
      TestBoardBlack(qs);
    }
  }

  /** One move into the search the board has White's best score, whoever is to move. */
  lemma TestBoardScore(rules: Rules, c: Color)
    requires rules.searchDepth >= 1
    ensures Plain(rules, TestBoard(), c, 1) == -100.0
  {
    hide HasNetwork;
    hide TestBoard;
    TestBoardDecided();
  }

  lemma TestBoardTouch(p: Pos, a: Pos, b: Pos)
    requires OnTestBoard(p) && OnTestBoard(a) && OnTestBoard(b) && Adjacent(p, a) && Adjacent(p, b)
    requires (p.y == 0 || p.y == 7) == (a.y == 0 || a.y == 7) == (b.y == 0 || b.y == 7)
    ensures a == b
  {}

  lemma TestBoardLegal()
    ensures Legal(TestBoard())
  {
    TestBoardSquares();
    TestBoardWhiteChips();
    TestBoardBlackChips();
    hide TestBoard;
    var g := TestBoard();
    forall p, c | Holds(g, p, c) ensures |Neighbors(g, c, p)| <= 1 {
      AtMostOne(Neighbors(g, c, p));
      forall a, b | a in Neighbors(g, c, p) && b in Neighbors(g, c, p) ensures a == b { TestBoardTouch(p, a, b); }
    }
  }

  lemma TestBoardWhiteChips()
    ensures Count(TestBoard(), White) == 6
  {
    assert Chips(TestBoard(), White) == {Pos(0, 3), Pos(2, 3), Pos(2, 5), Pos(3, 6), Pos(5, 6), Pos(7, 4)};
  }

  lemma TestBoardBlackChips()
    ensures Count(TestBoard(), Black) == 6
  {
    assert Chips(TestBoard(), Black) == {Pos(6, 0), Pos(4, 0), Pos(2, 0), Pos(6, 7), Pos(4, 7), Pos(2, 7)};
  }

  /** The board of the game's description, without its eleventh chip, which its two networks do not use. */
  function DiagramBoard(): Grid {
    map[Pos(2, 0) := Black, Pos(6, 0) := Black, Pos(4, 2) := Black, Pos(1, 3) := Black, Pos(3, 3) := Black,
        Pos(2, 5) := Black, Pos(3, 5) := Black, Pos(5, 5) := Black, Pos(6, 5) := Black, Pos(5, 7) := Black]
  }

  /** Its squares, row by row. */
  predicate OnDiagram(p: Pos) {
    if p.y == 0 then p.x == 2 || p.x == 6
    else if p.y == 2 then p.x == 4
    else if p.y == 3 then p.x == 1 || p.x == 3
    else if p.y == 5 then p.x == 2 || p.x == 3 || p.x == 5 || p.x == 6
    else p.y == 7 && p.x == 5
  }

  lemma DiagramSquares()
    ensures forall p :: p in DiagramBoard() <==> OnDiagram(p)
    ensures forall p :: p in DiagramBoard() ==> DiagramBoard()[p] == Black
  {
    forall p: Pos ensures p in DiagramBoard() <==> OnDiagram(p) {}
  }

  lemma DiagramLeads(ps: seq<Pos>, ds: seq<Dir>)
    requires ps == [Pos(6, 0), Pos(6, 5), Pos(5, 5), Pos(3, 3), Pos(3, 5), Pos(5, 7)] && ds == [4, 6, 7, 4, 3]
    ensures Leads(DiagramBoard(), ps, ds)
  {
    hide Ray;
    hide DiagramBoard;
    var g := DiagramBoard();
    DiagramSquares();
    assert Ray(g, ps[0], 4) == Some(ps[1]) by { RayIs(g, ps[0], 4, 5); }
    assert Ray(g, ps[1], 6) == Some(ps[2]) by { RayIs(g, ps[1], 6, 1); }
    assert Ray(g, ps[2], 7) == Some(ps[3]) by { RayIs(g, ps[2], 7, 2); }
    assert Ray(g, ps[3], 4) == Some(ps[4]) by { RayIs(g, ps[3], 4, 2); }
    assert Ray(g, ps[4], 3) == Some(ps[5]) by { RayIs(g, ps[4], 3, 2); }
  }

  lemma DiagramLeadsToo(ps: seq<Pos>, ds: seq<Dir>)
    requires ps == [Pos(2, 0), Pos(2, 5), Pos(3, 5), Pos(1, 3), Pos(3, 3), Pos(5, 5), Pos(5, 7)]
    requires ds == [4, 2, 7, 2, 3, 4]
    ensures Leads(DiagramBoard(), ps, ds)
  {
    hide Ray;
    hide DiagramBoard;
    var g := DiagramBoard();
    DiagramSquares();
    assert Ray(g, ps[0], 4) == Some(ps[1]) by { RayIs(g, ps[0], 4, 5); }
    assert Ray(g, ps[1], 2) == Some(ps[2]) by { RayIs(g, ps[1], 2, 1); }
    assert Ray(g, ps[2], 7) == Some(ps[3]) by { RayIs(g, ps[2], 7, 2); }
    assert Ray(g, ps[3], 2) == Some(ps[4]) by { RayIs(g, ps[3], 2, 2); }
    assert Ray(g, ps[4], 3) == Some(ps[5]) by { RayIs(g, ps[4], 3, 2); }
    assert Ray(g, ps[5], 4) == Some(ps[6]) by { RayIs(g, ps[5], 4, 2); }
  }

  /** The two networks that the description lists. */
  lemma DiagramNetwork()
    ensures IsNetwork(DiagramBoard(), Black, [Pos(6, 0), Pos(6, 5), Pos(5, 5), Pos(3, 3), Pos(3, 5), Pos(5, 7)])
  {
    hide Leads;
    hide Connected;
    hide Turns;
    var g := DiagramBoard();
    var ps := [Pos(6, 0), Pos(6, 5), Pos(5, 5), Pos(3, 3), Pos(3, 5), Pos(5, 7)];
    DiagramLeads(ps, [4, 6, 7, 4, 3]);
    LeadsIsChain(g, Black, ps, [4, 6, 7, 4, 3]);
    hide Chain;
    NetworkInCoordinates(g, Black, ps);
  }

  lemma DiagramNetworkToo()
    ensures IsNetwork(DiagramBoard(), Black,
              [Pos(2, 0), Pos(2, 5), Pos(3, 5), Pos(1, 3), Pos(3, 3), Pos(5, 5), Pos(5, 7)])
  {
    hide Leads;
    hide Connected;
    hide Turns;
    var g := DiagramBoard();
    var ps := [Pos(2, 0), Pos(2, 5), Pos(3, 5), Pos(1, 3), Pos(3, 3), Pos(5, 5), Pos(5, 7)];
    DiagramLeadsToo(ps, [4, 2, 7, 2, 3, 4]);
    LeadsIsChain(g, Black, ps, [4, 2, 7, 2, 3, 4]);
    hide Chain;
    NetworkInCoordinates(g, Black, ps);
  }

  lemma DiagramTouch(p: Pos, a: Pos, b: Pos)
    requires OnDiagram(p) && OnDiagram(a) && OnDiagram(b) && Adjacent(p, a) && Adjacent(p, b)
    ensures a == b
  {}

  lemma DiagramLegal()
    ensures Legal(DiagramBoard())
  {
    DiagramSquares();
    DiagramChips();
    hide DiagramBoard;
    var g := DiagramBoard();
    forall p, c | p in g ensures |Neighbors(g, c, p)| <= 1 {
      AtMostOne(Neighbors(g, c, p));
      forall a, b | a in Neighbors(g, c, p) && b in Neighbors(g, c, p) ensures a == b { DiagramTouch(p, a, b); }
    }
  }

  lemma DiagramChips()
    ensures Count(DiagramBoard(), White) <= 10 && Count(DiagramBoard(), Black) <= 10
  {
    var g := DiagramBoard();
    assert |g.Keys| <= 10;
    hide DiagramBoard;
    SubsetSize(Chips(g, White), g.Keys);
    SubsetSize(Chips(g, Black), g.Keys);
  }

  /** Sequences that the description lists as no networks: a third chip in a goal area, or a chip used twice. */
  lemma DiagramNoNetworks()
    ensures !IsNetwork(DiagramBoard(), Black, [Pos(6, 0), Pos(2, 0), Pos(4, 2), Pos(3, 3), Pos(3, 5), Pos(5, 7)])
    ensures !IsNetwork(DiagramBoard(), Black, [Pos(2, 0), Pos(4, 2), Pos(6, 0), Pos(6, 5), Pos(5, 5), Pos(5, 7)])
    ensures !IsNetwork(DiagramBoard(), Black,
              [Pos(2, 0), Pos(2, 5), Pos(3, 5), Pos(3, 3), Pos(5, 5), Pos(3, 5), Pos(5, 7)])
  {
    hide Connected;
    hide Turns;
    hide DiagramBoard;
    var g := DiagramBoard();
    var ps := [Pos(6, 0), Pos(2, 0), Pos(4, 2), Pos(3, 3), Pos(3, 5), Pos(5, 7)];
    NetworkInCoordinates(g, Black, ps);
    assert ps[1] == Pos(2, 0);
    var qs := [Pos(2, 0), Pos(4, 2), Pos(6, 0), Pos(6, 5), Pos(5, 5), Pos(5, 7)];
    NetworkInCoordinates(g, Black, qs);
    assert qs[2] == Pos(6, 0);
    var rs := [Pos(2, 0), Pos(2, 5), Pos(3, 5), Pos(3, 3), Pos(5, 5), Pos(3, 5), Pos(5, 7)];
    assert rs[2] == rs[5];
  }

  /** The last one, with the eleventh chip, goes straight on at its second chip. */
  lemma DiagramNoTurn()
    ensures !IsNetwork(Put(DiagramBoard(), Pos(2, 7), Black), Black,
              [Pos(6, 0), Pos(4, 2), Pos(3, 3), Pos(3, 5), Pos(2, 5), Pos(2, 7)])
  {
    hide Ray;
    hide Connected;
    hide DiagramBoard;
    DiagramSquares();
    var g := Put(DiagramBoard(), Pos(2, 7), Black);
    var ps := [Pos(6, 0), Pos(4, 2), Pos(3, 3), Pos(3, 5), Pos(2, 5), Pos(2, 7)];
    assert Ray(g, Pos(6, 0), 5) == Some(Pos(4, 2)) by { RayIs(g, Pos(6, 0), 5, 2); }
    assert Ray(g, Pos(4, 2), 5) == Some(Pos(3, 3)) by { RayIs(g, Pos(4, 2), 5, 1); }
    assert !Turns(g, ps[0], ps[1], ps[2]);
  }

  /** Ten squares for each colour, no two of them next to each other. */
  function Place(c: Color, i: nat): (p: Pos)
    requires i < MAX_CHIPS
    ensures OnBoard(p) && !InCorner(p) && !InOppositeGoal(c, p) && OfColor(c, p)
    ensures i == if c == White then p.x / 2 + 4 * (p.y / 2) else p.x / 2 + 3 * (p.y / 2)
  {
    if c == White then Pos(2 * (i % 4), 2 * (i / 4) + 1) else Pos(2 * (i % 3) + 1, 2 * (i / 3))
  }

  predicate OfColor(c: Color, p: Pos) {
    if c == White then p.x % 2 == 0 && p.y % 2 == 1 else p.x % 2 == 1 && p.y % 2 == 0
  }

  /** The board holds the first `n` chips of the colour and no others of it. */
  ghost predicate Placed(g: Grid, c: Color, n: nat) {
    Count(g, c) == n <= MAX_CHIPS && forall p :: Holds(g, p, c) ==> exists i: nat :: i < n && p == Place(c, i)
  }

  lemma NonePlaced(c: Color)
    ensures Placed(map[], c, 0)
  {
    assert Chips(map[], c) == {};
  }

  lemma NextIsLegal(g: Grid, c: Color, n: nat, m: nat)
    requires n < MAX_CHIPS && Placed(g, c, n) && Placed(g, Other(c), m)
    ensures LegalMove(g, c, Add(Place(c, n)))
    ensures Placed(Put(g, Place(c, n), c), c, n + 1) && Placed(Put(g, Place(c, n), c), Other(c), m)
  {
    var p := Place(c, n);
    var h := Put(g, p, c);
    assert p !in g by {
      assert !Holds(g, p, c) && !Holds(g, p, Other(c));
    }
    PutCount(g, p, c);
    hide Count;
    forall q | Holds(h, q, c) ensures exists i: nat :: i < n + 1 && q == Place(c, i) {
      assert q == p || Holds(g, q, c);
    }
    forall q | Holds(h, q, Other(c)) ensures exists i: nat :: i < m && q == Place(Other(c), i) {
      assert Holds(g, q, Other(c));
    }
    NoneTouch(h, c);
  }

  lemma NoneTouch(g: Grid, c: Color)
    requires forall p :: Holds(g, p, c) ==> OfColor(c, p)
    ensures NoClusters(g, c)
  {
    forall p | p in g && g[p] == c ensures |Neighbors(g, c, p)| <= 1 {
      forall q | q in Neighbors(g, c, p) ensures false {
        assert Holds(g, p, c) && Holds(g, q, c);
      }
      assert Neighbors(g, c, p) == {};
    }
  }

  /** White begins, and each player places ten chips: from then on only step moves are legal. */
  method PlaceAll(player: MachinePlayer)
    requires player.Ready() && player.Now() == Game(map[], White, false)
    modifies player, player.board
    ensures player.Ready() && player.stepping && player.currentPlayer == White
  {
    hide Holds;
    NonePlaced(White);
    NonePlaced(Black);
    for i := 0 to MAX_CHIPS
      invariant player.Ready() && player.currentPlayer == White
      invariant Placed(player.board.grid, White, i) && Placed(player.board.grid, Black, i)
    {
      NextIsLegal(player.board.grid, White, i, i);
      var _ := player.MakeMove(White, Some(Add(Place(White, i))));
      NextIsLegal(player.board.grid, Black, i, i + 1);
      var _ := player.MakeMove(Black, Some(Add(Place(Black, i))));
    }
  }

  /**
   * The opponent is promised an answer to every move. After a game in which all chips were placed, a step move that
   * is illegal, because it comes from off the board, gets none.
   */
  method StepFromOutside(evaluate: Grid -> real) returns (player: MachinePlayer, r: Option<bool>)
    ensures fresh(player) && fresh(player.board) && player.Ready()
    ensures r == None && !MayMake(player.Now(), White, Some(Step(Pos(1, 1), Pos(-1, 0))))
  {
    player := new MachinePlayer(Black, 1, evaluate);
    PlaceAll(player);
    r := player.OpponentMove(Some(Step(Pos(1, 1), Pos(-1, 0))));
    OutsideIsIllegal(player.Now(), White, Some(Step(Pos(1, 1), Pos(-1, 0))));
  }
}
