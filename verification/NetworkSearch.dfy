/**
 The automatic player of the Network game: a depth-limited search that makes and unmakes moves on one
 shared board and prunes with a window, against plain minimax over all legal moves.
 */
module NetworkSearch {
  import opened Basics
  import opened NetworkGrid
  import opened NetworkRules
  import opened NetworkPaths
  import opened NetworkBoard

  datatype Move = Quit | Add(to: Pos) | Step(to: Pos, from: Pos)

  function Other(c: Color): Color {
    if c == White then Black else White
  }

  ghost predicate LegalMove(g: Grid, c: Color, m: Move) {
    match m
    case Quit => false
    case Add(to) => Count(g, c) < MAX_CHIPS && CanPlace(g, c, to)
    case Step(to, from) => Count(g, c) >= MAX_CHIPS && CanMove(g, c, from, to)
  }

  function Apply(g: Grid, c: Color, m: Move): Grid {
    match m
    case Quit => g
    case Add(to) => Put(g, to, c)
    case Step(to, from) => Put(Take(g, from), to, c)
  }

  // ---------- Scores ----------

  const WORST_ALPHA: real := -100.0
  const WORST_BETA: real := 100.0

  /** Black maximises and White minimises; a player starts from the worst score for that player. */
  function Worst(c: Color): real {
    if c == Black then WORST_ALPHA else WORST_BETA
  }

  function Better(c: Color, a: real, b: real): bool {
    if c == Black then a > b else a < b
  }

  function BestOf(c: Color, a: real, b: real): real {
    if Better(c, b, a) then b else a
  }

  /** Wins found deeper in the search score less. */
  function WinScore(depth: nat, winner: Color): real {
    var magnitude := if depth < 100 then 100.0 - (depth as real - 1.0)
                     else 1.0 / (depth as real - 98.988) + 1.01;
    if winner == White then -magnitude else magnitude
  }

  /** The order of win scores: an earlier win is strictly better for the winner, and every win beats any leaf score. */
  lemma WinScoreOrder(depth: nat, later: nat, winner: Color, leaf: real)
    requires -1.0 <= leaf <= 1.0
    ensures depth < later ==> Better(winner, WinScore(depth, winner), WinScore(later, winner))
    ensures Better(winner, WinScore(depth, winner), leaf)
  {
    if 100 <= depth < later { ReciprocalDecreases(depth as real - 98.988, later as real - 98.988); }
    if 100 <= later {
      ReciprocalDecreases(1.012, later as real - 98.988 + 1.0);
      ReciprocalBounds(later as real - 98.988);
    }
    if 100 <= depth { ReciprocalBounds(depth as real - 98.988); }
  }

  lemma ReciprocalDecreases(x: real, y: real)
    requires 0.0 < x < y
    ensures 1.0 / x > 1.0 / y
  {
    assert 1.0 / x - 1.0 / y == (y - x) / (x * y);
  }

  lemma ReciprocalBounds(x: real)
    requires x >= 1.012
    ensures 0.0 < 1.0 / x < 0.99
  {
    var r := 1.0 / x;
    assert r * x == 1.0;
    assert r > 0.0 && r * x >= r * 1.012;
  }

  // ---------- Plain minimax ----------

  /** How deep to look, and the score given to a board at that depth. */
  datatype Rules = Rules(searchDepth: nat, evaluate: Grid -> real)

  /** The last step of the source's evaluation: whatever the two sums are, the score lies between the wins. */
  function Scale(black: real, white: real): (r: real)
    requires black >= 0.0 && white >= 0.0
    ensures -1.0 < r < 1.0 && (r > 0.0 <==> black > white) && (r < 0.0 <==> white > black)
  {
    if black > white then
      var x := black - 0.83 * white;
      Fraction(x);
      x / (x + 1.0)
    else if white > black then
      var x := white - 0.83 * black;
      Fraction(x);
      -x / (x + 1.0)
    else 0.0
  }

  lemma Fraction(x: real)
    requires x > 0.0
    ensures 0.0 < x / (x + 1.0) < 1.0 && -x / (x + 1.0) == -(x / (x + 1.0))
  {
    var q := x / (x + 1.0);
    assert q * (x + 1.0) == x;
    assert q > 0.0;
  }

  ghost predicate Bounded(rules: Rules) {
    forall g :: -1.0 <= rules.evaluate(g) <= 1.0
  }

  function Square(i: int): Pos {
    Pos(i % 8, i / 8)
  }

  /** Every move that the search tries, in its order. */
  ghost function Candidates(g: Grid, c: Color): seq<Move> {
    if Count(g, c) < MAX_CHIPS then seq(64, i => Add(Square(i)))
    else seq(4096, i => Step(Square(i % 64), Square(i / 64)))
  }

  /** The value of a board without any pruning. */
  ghost function Plain(rules: Rules, g: Grid, c: Color, depth: nat): real
    requires depth <= rules.searchDepth
    decreases rules.searchDepth - depth, 1, 0
  {
    if HasNetwork(g, c) then WinScore(depth, c)
    else if HasNetwork(g, Other(c)) then WinScore(depth, Other(c))
    else if rules.searchDepth - depth < 1 then rules.evaluate(g)
    else Best(rules, g, c, depth, Candidates(g, c))
  }

  /** The search looks no further. */
  ghost predicate Terminal(rules: Rules, g: Grid, c: Color, depth: nat) {
    HasNetwork(g, c) || HasNetwork(g, Other(c)) || depth >= rules.searchDepth
  }

  /** The best score among the legal moves of a list. */
  ghost function Best(rules: Rules, g: Grid, c: Color, depth: nat, ms: seq<Move>): real
    requires depth < rules.searchDepth
    decreases rules.searchDepth - depth, 0, |ms|
  {
    if ms == [] then Worst(c)
    else
      var m, rest := ms[|ms| - 1], ms[..|ms| - 1];
      var v := Best(rules, g, c, depth, rest);
      if LegalMove(g, c, m) then BestOf(c, v, Child(rules, g, c, depth, m)) else v
  }

  /** The value after a move, with the other player to move. */
  ghost function Child(rules: Rules, g: Grid, c: Color, depth: nat, m: Move): real
    requires depth < rules.searchDepth
    decreases rules.searchDepth - depth, 0, 0
  {
    Plain(rules, Apply(g, c, m), Other(c), depth + 1)
  }

  lemma CandidatesComplete(g: Grid, c: Color, m: Move)
    requires Legal(g) && LegalMove(g, c, m)
    ensures m in Candidates(g, c)
  {
    match m
    case Add(to) =>
      AddCandidates(g, c, to.x, to.y);
    case Step(to, from) =>
      var i, j := 8 * to.y + to.x, 8 * from.y + from.x;
      SquareIndex(to);
      SquareIndex(from);
      StepCandidates(g, c, j, i);
      assert Candidates(g, c)[64 * j + i] == m;
  }

  lemma SquareOnBoard(i: nat)
    requires i < 64
    ensures OnBoard(Square(i))
  {}

  lemma SquareIndex(p: Pos)
    requires OnBoard(p)
    ensures 0 <= 8 * p.y + p.x < 64 && Square(8 * p.y + p.x) == p
  {}

  /** No listed legal move is better than the best, and the best is attained unless it is the starting score. */
  lemma {:induction false} BestIsBest(rules: Rules, g: Grid, c: Color, depth: nat, ms: seq<Move>)
    requires depth < rules.searchDepth
    ensures forall m | m in ms && LegalMove(g, c, m) ::
              !Better(c, Child(rules, g, c, depth, m), Best(rules, g, c, depth, ms))
    ensures !Better(c, Worst(c), Best(rules, g, c, depth, ms))
    ensures Best(rules, g, c, depth, ms) == Worst(c) ||
            exists m :: m in ms && LegalMove(g, c, m) && Child(rules, g, c, depth, m) == Best(rules, g, c, depth, ms)
    decreases |ms|
  {
    if ms != [] {
      var last := ms[|ms| - 1];
      BestIsBest(rules, g, c, depth, ms[..|ms| - 1]);
      assert ms == ms[..|ms| - 1] + [last];
    }
  }

  /** Plain minimax in the usual words: over all legal moves, in any order. */
  lemma PlainIsMinimax(rules: Rules, g: Grid, c: Color, depth: nat)
    requires Legal(g) && depth < rules.searchDepth && !HasNetwork(g, c) && !HasNetwork(g, Other(c))
    ensures forall m | LegalMove(g, c, m) ::
              !Better(c, Child(rules, g, c, depth, m), Plain(rules, g, c, depth))
    ensures Plain(rules, g, c, depth) == Worst(c) ||
            exists m :: LegalMove(g, c, m) && Child(rules, g, c, depth, m) == Plain(rules, g, c, depth)
  {
    hide LegalMove;
    BestIsBest(rules, g, c, depth, Candidates(g, c));
    forall m | LegalMove(g, c, m) ensures m in Candidates(g, c) { CandidatesComplete(g, c, m); }
  }

  // ---------- Forced wins ----------

  /** The player with the network has won; if both have one, the player to move has: the other one completed both. */
  ghost predicate Won(g: Grid, c: Color, winner: Color) {
    HasNetwork(g, winner) && (c == winner || !HasNetwork(g, Other(winner)))
  }

  /** The scores beyond those of an undecided board: positive for Black, negative for White. */
  predicate Winning(winner: Color, score: real) {
    if winner == Black then score > 1.0 else score < -1.0
  }

  /** A finished board is worth a win to the player who has won it. */
  lemma NetworkWins(rules: Rules, g: Grid, c: Color, depth: nat, winner: Color)
    requires depth <= rules.searchDepth && Won(g, c, winner)
    ensures Winning(winner, Plain(rules, g, c, depth))
  {
    hide HasNetwork;
    WinScoreOrder(depth, depth, winner, 1.0);
    WinScoreOrder(depth, depth, winner, -1.0);
  }

  /**
   * With `c` to move, `winner` can play so that within `n` moves there is a network that wins, or the other player has
   * no legal move.
   */
  ghost predicate Forces(g: Grid, c: Color, n: nat, winner: Color)
    decreases n
  {
    if HasNetwork(g, White) || HasNetwork(g, Black) then Won(g, c, winner)
    else if n == 0 then false
    else if c == winner then exists m :: LegalMove(g, c, m) && Forces(Apply(g, c, m), Other(c), n - 1, winner)
    else forall m :: LegalMove(g, c, m) ==> Forces(Apply(g, c, m), Other(c), n - 1, winner)
  }

  lemma LegalMoveKeepsLegal(g: Grid, c: Color, m: Move)
    requires Legal(g) && LegalMove(g, c, m)
    ensures Legal(Apply(g, c, m))
  {
    hide Legal;
    match m
    case Add(to) => PlaceKeepsLegal(g, c, to);
    case Step(to, from) =>
      TakeKeepsLegal(g, from);
      PlaceKeepsLegal(Take(g, from), c, to);
  }

  /** The search sees every win that can be forced within its depth, and takes nothing else for a win. */
  lemma {:induction false} ForcedWins(rules: Rules, g: Grid, c: Color, depth: nat, winner: Color)
    requires Legal(g) && Bounded(rules) && depth <= rules.searchDepth
    ensures Winning(winner, Plain(rules, g, c, depth)) <==> Forces(g, c, rules.searchDepth - depth, winner)
    decreases rules.searchDepth - depth
  {
    hide HasNetwork;
    hide Legal;
    hide LegalMove;
    if HasNetwork(g, c) || HasNetwork(g, Other(c)) {
      NetworkWins(rules, g, c, depth, if HasNetwork(g, c) then c else Other(c));
    } else if depth < rules.searchDepth {
      var n := rules.searchDepth - depth;
      hide Bounded;
      hide Plain;
      forall m | LegalMove(g, c, m)
        ensures Winning(winner, Child(rules, g, c, depth, m)) <==> Forces(Apply(g, c, m), Other(c), n - 1, winner)
      {
        LegalMoveKeepsLegal(g, c, m);
        ForcedWins(rules, Apply(g, c, m), Other(c), depth + 1, winner);
      }
      PlainIsMinimax(rules, g, c, depth);
    }
  }

  /** Below the root every value lies between the two starting scores. */
  lemma {:induction false} PlainBounded(rules: Rules, g: Grid, c: Color, depth: nat)
    requires Bounded(rules) && 1 <= depth <= rules.searchDepth
    ensures WORST_ALPHA <= Plain(rules, g, c, depth) <= WORST_BETA
    decreases rules.searchDepth - depth, 1, 0
  {
    if depth >= 100 { ReciprocalBounds(depth as real - 98.988); }
    if depth < rules.searchDepth {
      BestBounded(rules, g, c, depth, Candidates(g, c));
    }
  }

  lemma {:induction false} BestBounded(rules: Rules, g: Grid, c: Color, depth: nat, ms: seq<Move>)
    requires Bounded(rules) && depth < rules.searchDepth
    ensures WORST_ALPHA <= Best(rules, g, c, depth, ms) <= WORST_BETA
    decreases rules.searchDepth - depth, 0, |ms|
  {
    if ms != [] {
      BestBounded(rules, g, c, depth, ms[..|ms| - 1]);
      PlainBounded(rules, Apply(g, c, ms[|ms| - 1]), Other(c), depth + 1);
    }
  }

  // ---------- The window ----------

  ghost predicate Window(alpha: real, beta: real) {
    WORST_ALPHA <= alpha < beta <= WORST_BETA
  }

  /** What a pruned score says about the true value: exact inside the window, a bound outside. */
  ghost predicate Tells(alpha: real, beta: real, score: real, value: real) {
    && (score <= alpha ==> value <= score)
    && (alpha < score < beta ==> value == score)
    && (score >= beta ==> value >= score)
  }

  /** The variables of a move loop. */
  datatype Loop = Loop(alpha: real, beta: real, score: real, move: Option<Move>)

  function Start(c: Color, alpha: real, beta: real): Loop {
    Loop(alpha, beta, Worst(c), None)
  }

  /** The update after a reply, as the loops write it: the score replaces a side of the window, even to widen it. */
  function Absorb(c: Color, now: Loop, m: Move, reply: real): Loop {
    if c == Black && reply > now.score then Loop(reply, now.beta, reply, Some(m))
    else if c == White && reply < now.score then Loop(now.alpha, reply, reply, Some(m))
    else now
  }

  /** The score so far is the true best so far unless it lies beyond the window on entry, where it is a bound. */
  ghost predicate InStep(c: Color, alpha: real, beta: real, now: Loop, best: real) {
    && Window(alpha, beta) && Window(now.alpha, now.beta)
    && (c == Black ==> now.beta == beta)
    && (c == White ==> now.alpha == alpha)
    && (if now.score == Worst(c) then now.alpha == alpha && now.beta == beta && best == now.score
        else Better(c, now.score, Worst(c)) && now.score == (if c == Black then now.alpha else now.beta)
             && Tells(alpha, beta, now.score, best))
  }

  /** One reply: either the loop stays in step, or it stops with a score at or beyond the other side of the window. */
  lemma ReplyStep(c: Color, alpha: real, beta: real, now: Loop, best: real, m: Move, reply: real, value: real)
    requires InStep(c, alpha, beta, now, best) && Tells(now.alpha, now.beta, reply, value)
    ensures var next := Absorb(c, now, m, reply);
            if next.alpha >= next.beta
            then next.score == reply && (if c == Black then reply >= beta else reply <= alpha)
            else InStep(c, alpha, beta, next, BestOf(c, best, value))
    ensures Absorb(c, now, m, reply) != now ==> Better(c, reply, Worst(c)) && Tells(alpha, beta, reply, value)
  {}

  /** The move kept with a score: none for the starting score, otherwise a legal move that the score is about. */
  ghost predicate Keeps(rules: Rules, g: Grid, c: Color, depth: nat, alpha: real, beta: real,
                        move: Option<Move>, score: real)
    requires depth < rules.searchDepth
  {
    && (move.None? <==> score == Worst(c))
    && (move.Some? ==> LegalMove(g, c, move.value) && Tells(alpha, beta, score, Child(rules, g, c, depth, move.value)))
  }

  /** What a move loop promises at its end. */
  ghost predicate Done(rules: Rules, g: Grid, c: Color, depth: nat, alpha: real, beta: real,
                       move: Option<Move>, score: real)
    requires depth < rules.searchDepth
  {
    && Tells(alpha, beta, score, Best(rules, g, c, depth, Candidates(g, c)))
    && Keeps(rules, g, c, depth, alpha, beta, move, score)
  }

  /** What a move loop maintains after `n` candidates. */
  ghost predicate InLoop(rules: Rules, g: Grid, c: Color, depth: nat, alpha: real, beta: real, now: Loop, n: nat)
    requires depth < rules.searchDepth
  {
    && n <= |Candidates(g, c)|
    && InStep(c, alpha, beta, now, Best(rules, g, c, depth, Candidates(g, c)[..n]))
    && Keeps(rules, g, c, depth, alpha, beta, now.move, now.score)
  }

  lemma LoopStarts(rules: Rules, g: Grid, c: Color, depth: nat, alpha: real, beta: real)
    requires depth < rules.searchDepth && Window(alpha, beta)
    ensures InLoop(rules, g, c, depth, alpha, beta, Start(c, alpha, beta), 0)
  {}

  lemma BestNext(rules: Rules, g: Grid, c: Color, depth: nat, ms: seq<Move>, i: nat)
    requires depth < rules.searchDepth && i < |ms|
    ensures Best(rules, g, c, depth, ms[..i + 1]) ==
            var v := Best(rules, g, c, depth, ms[..i]);
            if LegalMove(g, c, ms[i]) then BestOf(c, v, Child(rules, g, c, depth, ms[i])) else v
  {
    assert ms[..i + 1][..i] == ms[..i];
  }

  lemma LoopSkips(rules: Rules, g: Grid, c: Color, depth: nat, alpha: real, beta: real, now: Loop, n: nat)
    requires depth < rules.searchDepth && InLoop(rules, g, c, depth, alpha, beta, now, n)
    requires n < |Candidates(g, c)| && !LegalMove(g, c, Candidates(g, c)[n])
    ensures InLoop(rules, g, c, depth, alpha, beta, now, n + 1)
  {
    hide InStep;
    hide LegalMove;
    BestNext(rules, g, c, depth, Candidates(g, c), n);
  }

  lemma LoopAbsorbs(rules: Rules, g: Grid, c: Color, depth: nat, alpha: real, beta: real, now: Loop, n: nat,
                    m: Move, reply: real)
    requires depth < rules.searchDepth && InLoop(rules, g, c, depth, alpha, beta, now, n)
    requires n < |Candidates(g, c)| && m == Candidates(g, c)[n] && LegalMove(g, c, m)
    requires Tells(now.alpha, now.beta, reply, Child(rules, g, c, depth, m))
    ensures var next := Absorb(c, now, m, reply);
            if next.alpha >= next.beta then Done(rules, g, c, depth, alpha, beta, next.move, next.score)
            else InLoop(rules, g, c, depth, alpha, beta, next, n + 1)
  {
    var ms := Candidates(g, c);
    BestNext(rules, g, c, depth, ms, n);
    var best, value := Best(rules, g, c, depth, ms[..n]), Child(rules, g, c, depth, m);
    ReplyStep(c, alpha, beta, now, best, m, reply, value);
    assert Window(now.alpha, now.beta) && Window(alpha, beta);
    hide InStep;
    hide LegalMove;
    if Absorb(c, now, m, reply) != now && (if c == Black then reply >= beta else reply <= alpha) {
      PruningIsSound(rules, g, c, depth, ms, m, alpha, beta, reply);
    }
  }

  /** A reply at or beyond the other side of the window decides the whole loop. */
  lemma {:induction false} PruningIsSound(rules: Rules, g: Grid, c: Color, depth: nat, ms: seq<Move>, m: Move,
                       alpha: real, beta: real, reply: real)
    requires depth < rules.searchDepth && m in ms && LegalMove(g, c, m) && alpha < beta
    requires Tells(alpha, beta, reply, Child(rules, g, c, depth, m))
    requires if c == Black then reply >= beta else reply <= alpha
    ensures Tells(alpha, beta, reply, Best(rules, g, c, depth, ms))
  {
    hide LegalMove;
    BestIsBest(rules, g, c, depth, ms);
  }

  lemma LoopEnds(rules: Rules, g: Grid, c: Color, depth: nat, alpha: real, beta: real, now: Loop)
    requires depth < rules.searchDepth
    requires InLoop(rules, g, c, depth, alpha, beta, now, |Candidates(g, c)|)
    ensures Done(rules, g, c, depth, alpha, beta, now.move, now.score)
  {
    hide LegalMove;
    var ms := Candidates(g, c);
    assert ms[..|ms|] == ms;
  }

  lemma AddCandidates(g: Grid, c: Color, x: int, y: int)
    requires Count(g, c) < MAX_CHIPS && 0 <= x < 8 && 0 <= y < 8
    ensures |Candidates(g, c)| == 64 && Candidates(g, c)[8 * y + x] == Add(Pos(x, y))
  {
    assert Square(8 * y + x) == Pos(x, y);
  }

  lemma StepCandidates(g: Grid, c: Color, i: nat, j: nat)
    requires Count(g, c) >= MAX_CHIPS && i < 64 && j < 64
    ensures |Candidates(g, c)| == 4096 && Candidates(g, c)[64 * i + j] == Step(Square(j), Square(i))
  {
    hide Square;
    hide Count;
    assert (64 * i + j) / 64 == i && (64 * i + j) % 64 == j;
  }

  /** From a square without a chip of the player there is no step move. */
  lemma {:induction false} NoStepsFrom(rules: Rules, g: Grid, c: Color, depth: nat, alpha: real, beta: real,
                                       now: Loop, i: nat, j: nat)
    requires depth < rules.searchDepth && i < 64 && j <= 64 && Count(g, c) >= MAX_CHIPS && !Holds(g, Square(i), c)
    requires InLoop(rules, g, c, depth, alpha, beta, now, 64 * i + j)
    ensures InLoop(rules, g, c, depth, alpha, beta, now, 64 * (i + 1))
    decreases 64 - j
  {
    if j < 64 {
      StepCandidates(g, c, i, j);
      hide Candidates;
      hide InLoop;
      hide Count;
      LoopSkips(rules, g, c, depth, alpha, beta, now, 64 * i + j);
      NoStepsFrom(rules, g, c, depth, alpha, beta, now, i, j + 1);
    }
  }

  /** With the widest window the pruned score is the plain value and the move kept attains it. */
  lemma RootIsExact(rules: Rules, g: Grid, c: Color, move: Option<Move>, score: real)
    requires Bounded(rules) && !Terminal(rules, g, c, 0)
    requires Tells(WORST_ALPHA, WORST_BETA, score, Plain(rules, g, c, 0))
    requires Keeps(rules, g, c, 0, WORST_ALPHA, WORST_BETA, move, score)
    ensures score == Plain(rules, g, c, 0)
    ensures move.Some? ==> Child(rules, g, c, 0, move.value) == score
  {
    hide LegalMove;
    BestBounded(rules, g, c, 0, Candidates(g, c));
    if move.Some? { PlainBounded(rules, Apply(g, c, move.value), Other(c), 1); }
  }

  /**
   * A move searched `n` deep on an undecided board gives away no win that can be forced and does not enter a loss that
   * can be avoided; a player who can force a win has a move.
   */
  ghost predicate KeepsForced(g: Grid, c: Color, n: nat, move: Option<Move>)
    requires n >= 1
  {
    if move.Some? then forall w :: Forces(g, c, n, w) <==> Forces(Apply(g, c, move.value), Other(c), n - 1, w)
    else !Forces(g, c, n, c)
  }

  lemma ChosenKeepsForced(rules: Rules, g: Grid, c: Color, move: Option<Move>)
    requires Legal(g) && Bounded(rules) && rules.searchDepth >= 1
    requires move.Some? ==> LegalMove(g, c, move.value) && Child(rules, g, c, 0, move.value) == Plain(rules, g, c, 0)
    requires move.None? ==> Plain(rules, g, c, 0) == Worst(c)
    ensures KeepsForced(g, c, rules.searchDepth, move)
  {
    hide HasNetwork;
    hide Legal;
    hide LegalMove;
    hide Bounded;
    hide Plain;
    forall w
      ensures Winning(w, Plain(rules, g, c, 0)) <==> Forces(g, c, rules.searchDepth, w)
      ensures move.Some? ==> (Winning(w, Child(rules, g, c, 0, move.value)) <==>
                Forces(Apply(g, c, move.value), Other(c), rules.searchDepth - 1, w))
    {
      ForcedWins(rules, g, c, 0, w);
      if move.Some? {
        LegalMoveKeepsLegal(g, c, move.value);
        ForcedWins(rules, Apply(g, c, move.value), Other(c), 1, w);
      }
    }
    hide Forces;
  }

  ghost predicate Undecided(g: Grid) {
    !HasNetwork(g, White) && !HasNetwork(g, Black)
  }

  /** If some move wins at once, the move is as good as that one: it has the best value that there is. */
  ghost predicate TakesWin(rules: Rules, g: Grid, c: Color, move: Option<Move>)
    requires rules.searchDepth >= 1
  {
    (exists m :: WinsAtOnce(g, c, m)) ==>
    move.Some? && Child(rules, g, c, 0, move.value) == if c == Black then 100.0 else -100.0
  }

  /** The move completes a network of the player and none of the other player. */
  ghost predicate WinsAtOnce(g: Grid, c: Color, m: Move) {
    LegalMove(g, c, m) && HasNetwork(Apply(g, c, m), c) && !HasNetwork(Apply(g, c, m), Other(c))
  }

  /** A win in one move is the best value that there is. */
  lemma BestIsAtOnce(rules: Rules, g: Grid, c: Color, m: Move)
    requires Legal(g) && Bounded(rules) && !Terminal(rules, g, c, 0) && WinsAtOnce(g, c, m)
    ensures Plain(rules, g, c, 0) == if c == Black then 100.0 else -100.0
  {
    hide HasNetwork;
    hide LegalMove;
    hide Legal;
    BestBounded(rules, g, c, 0, Candidates(g, c));
    PlainIsMinimax(rules, g, c, 0);
    assert Child(rules, g, c, 0, m) == WinScore(1, c);
  }

  lemma ChosenTakesWin(rules: Rules, g: Grid, c: Color, move: Option<Move>)
    requires Legal(g) && Bounded(rules) && !Terminal(rules, g, c, 0)
    requires move.Some? ==> Child(rules, g, c, 0, move.value) == Plain(rules, g, c, 0)
    requires move.None? ==> Plain(rules, g, c, 0) == Worst(c)
    ensures TakesWin(rules, g, c, move)
  {
    hide Plain;
    hide HasNetwork;
    hide LegalMove;
    hide Legal;
    if m :| WinsAtOnce(g, c, m) {
      BestIsAtOnce(rules, g, c, m);
    }
  }

  // ---------- A game ----------

  /** The chips, the player whose turn it is and whether only step moves are legal. */
  datatype Game = Game(grid: Grid, current: Color, stepping: bool)

  /** As long as nobody quits, the turn, the kind of move and the numbers of chips fit together. */
  ghost predicate InTurn(s: Game) {
    s.stepping || Count(s.grid, White) == Count(s.grid, Black) + if s.current == White then 0 else 1
  }

  /** The move may be made: it is the player's turn, and the move is of the right kind and legal, or ends the game. */
  ghost predicate MayMake(s: Game, c: Color, m: Option<Move>) {
    m.Some? && c == s.current && (m.value.Quit? || (m.value.Step? == s.stepping && LegalMove(s.grid, c, m.value)))
  }

  /** A step move is due, and the one that is offered comes from off the board. */
  predicate FromOutside(s: Game, c: Color, m: Option<Move>) {
    m.Some? && c == s.current && m.value.Step? && s.stepping && !OnBoard(m.value.from)
  }

  /**
   * What a call with a move of player `c` answers and does: a move that may be made is recorded, any other is refused,
   * unless it is a step move from off the board, which ends in an exception.
   */
  ghost predicate Recorded(s: Game, s': Game, c: Color, m: Option<Move>, r: Option<bool>) {
    && (r == None <==> FromOutside(s, c, m))
    && (r == Some(true) <==> MayMake(s, c, m))
    && (if r == Some(true) then s'.grid == Apply(s.grid, c, m.value) && s'.current == Other(s.current) else s' == s)
    && (InTurn(s) && !(r == Some(true) && m.value.Quit?) ==> InTurn(s'))
  }

  /** No move is refused by an exception that the rules allow. */
  lemma OutsideIsIllegal(s: Game, c: Color, m: Option<Move>)
    requires Legal(s.grid) && FromOutside(s, c, m)
    ensures !MayMake(s, c, m)
  {}

  /** What is left of a recorded move: the counts, and with them the turn. */
  lemma RecordedTurn(s: Game, s': Game, c: Color, m: Option<Move>)
    requires Legal(s.grid) && MayMake(s, c, m) && s' == Game(Apply(s.grid, c, m.value), Other(s.current), s'.stepping)
    requires s.stepping ==> s'.stepping
    requires s.stepping <==> Full(s.grid)
    ensures Recorded(s, s', c, m, Some(true)) && (s.stepping ==> Full(s'.grid))
  {
    hide Count;
    hide CanPlace;
    hide Apply;
    CountAfter(s.grid, c, m.value);
    if FromOutside(s, c, m) {
      OutsideIsIllegal(s, c, m);
    }
  }

  /** All chips are on the board. */
  ghost predicate Full(g: Grid) {
    Count(g, White) == MAX_CHIPS && Count(g, Black) == MAX_CHIPS
  }

  class MachinePlayer {
    const playerColor: Color
    const opponentColor: Color
    const rules: Rules
    const board: Board
    var currentPlayer: Color
    var stepping: bool // whether only step moves are legal

    constructor (color: Color, searchDepth: int, evaluate: Grid -> real)
      ensures playerColor == color && opponentColor == Other(color)
      ensures rules == Rules(if searchDepth < 1 then 1 else searchDepth, evaluate)
      ensures fresh(board) && Ready() && Now() == Game(map[], White, false)
    {
      playerColor, opponentColor := color, Other(color);
      rules := Rules(if searchDepth < 1 then 1 else searchDepth, evaluate);
      board := new Board();
      currentPlayer, stepping := White, false;
      new;
      assert Chips(board.grid, White) == {} && Chips(board.grid, Black) == {};
    }

    ghost function Now(): Game
      reads this, board
    {
      Game(board.grid, currentPlayer, stepping)
    }

    /** What holds between any two calls. */
    ghost predicate Ready()
      reads this, board
    {
      && board.Valid() && board.visited == {}
      && opponentColor == Other(playerColor) && rules.searchDepth >= 1
      && (stepping <==> Full(board.grid))
    }

    // ---------- The pruned search ----------

    /** The board is sound, holds these chips and has no square marked. */
    ghost predicate Stands(g: Grid)
      reads this, board
    {
      board.Valid() && board.grid == g && board.visited == {}
    }

    method Minimax(c: Color, depth: nat, alpha: real, beta: real) returns (move: Option<Move>, score: real)
      requires board.Valid() && board.visited == {}
      requires Bounded(rules) && depth <= rules.searchDepth && Window(alpha, beta)
      modifies board
      ensures board.Valid() && board.grid == old(board.grid) && board.visited == {}
      ensures board.connections == old(board.connections)
      ensures board.numWhite == old(board.numWhite) && board.numBlack == old(board.numBlack)
      ensures Tells(alpha, beta, score, Plain(rules, board.grid, c, depth))
      ensures if Terminal(rules, board.grid, c, depth) then move == None && score == Plain(rules, board.grid, c, depth)
              else Keeps(rules, board.grid, c, depth, alpha, beta, move, score)
      ensures forall winner :: Won(board.grid, c, winner) ==> Winning(winner, score)
      decreases rules.searchDepth - depth, 1
    {
      hide Bounded;
      hide LegalMove;
      forall winner | Won(board.grid, c, winner)
        ensures Winning(winner, Plain(rules, board.grid, c, depth))
      {
        NetworkWins(rules, board.grid, c, depth, winner);
      }
      score := Worst(c);
      move := None;
      var mine := board.FindNetwork(c);
      if mine {
        score := WinScore(depth, c);
        return;
      }
      var theirs := board.FindNetwork(Other(c));
      if theirs {
        score := WinScore(depth, Other(c));
        return;
      }
      if rules.searchDepth - depth < 1 {
        score := rules.evaluate(board.grid);
        return;
      }
      if board.CountColor(c) < 10 {
        move, score := AddMoves(c, depth, alpha, beta);
      } else {
        move, score := StepMoves(c, depth, alpha, beta);
      }
      ExactUnique(board.grid, board.connections, old(board.connections));
    }

    method AddMoves(c: Color, depth: nat, alpha0: real, beta0: real) returns (move: Option<Move>, score: real)
      requires Stands(board.grid) && Count(board.grid, c) < MAX_CHIPS
      requires Bounded(rules) && depth < rules.searchDepth && Window(alpha0, beta0)
      modifies board
      ensures Stands(old(board.grid))
      ensures Done(rules, old(board.grid), c, depth, alpha0, beta0, move, score)
      decreases rules.searchDepth - depth, 0, 2
    {
      assert DIMENSION == 8;
      hide *;
      ghost var g := board.grid;
      var now := Start(c, alpha0, beta0);
      LoopStarts(rules, g, c, depth, alpha0, beta0);
      for y := 0 to DIMENSION
        invariant Stands(g)
        invariant InLoop(rules, g, c, depth, alpha0, beta0, now, 8 * y)
      {
        for x := 0 to DIMENSION
          invariant Stands(g)
          invariant InLoop(rules, g, c, depth, alpha0, beta0, now, 8 * y + x)
        {
          AddCandidates(g, c, x, y);
          var stop;
          now, stop := ConsiderAdd(c, depth, alpha0, beta0, now, Pos(x, y), g, 8 * y + x);
          if stop {
            return now.move, now.score;
          }
        }
      }
      AddCandidates(g, c, 0, 0);
      LoopEnds(rules, g, c, depth, alpha0, beta0, now);
      return now.move, now.score;
    }

    /** The body of the add loop: make the move if it is legal, take the reply into account, unmake the move. */
    method ConsiderAdd(c: Color, depth: nat, alpha0: real, beta0: real, now: Loop, p: Pos, ghost g: Grid, ghost n: nat)
      returns (next: Loop, stop: bool)
      requires Stands(g) && Bounded(rules) && depth < rules.searchDepth && Count(g, c) < MAX_CHIPS
      requires InLoop(rules, g, c, depth, alpha0, beta0, now, n)
      requires n < |Candidates(g, c)| && Candidates(g, c)[n] == Add(p)
      modifies board
      ensures Stands(g)
      ensures if stop then Done(rules, g, c, depth, alpha0, beta0, next.move, next.score)
              else InLoop(rules, g, c, depth, alpha0, beta0, next, n + 1)
      decreases rules.searchDepth - depth, 0, 1
    {
      hide Bounded;
      hide InLoop;
      hide Done;
      hide Candidates;
      next := now;
      var ok := board.CanPlaceChip(c, p);
      if !ok {
        LoopSkips(rules, g, c, depth, alpha0, beta0, now, n);
        return next, false;
      }
      InLoopWindow(rules, g, c, depth, alpha0, beta0, now, n);
      board.PlaceChip(Some(c), p);
      var _, reply := Minimax(Other(c), depth + 1, now.alpha, now.beta);
      var _ := board.RemoveChip(p);
      TakeBack(g, c, p);
      LoopAbsorbs(rules, g, c, depth, alpha0, beta0, now, n, Add(p), reply);
      if c == Black && reply > now.score {
        next := Loop(reply, now.beta, reply, Some(Add(p)));
      } else if c == White && reply < now.score {
        next := Loop(now.alpha, reply, reply, Some(Add(p)));
      }
      return next, next.alpha >= next.beta;
    }

    method StepMoves(c: Color, depth: nat, alpha0: real, beta0: real) returns (move: Option<Move>, score: real)
      requires Stands(board.grid) && Count(board.grid, c) >= MAX_CHIPS
      requires Bounded(rules) && depth < rules.searchDepth && Window(alpha0, beta0)
      modifies board
      ensures Stands(old(board.grid))
      ensures Done(rules, old(board.grid), c, depth, alpha0, beta0, move, score)
      decreases rules.searchDepth - depth, 0, 3
    {
      hide *;
      ghost var g := board.grid;
      var now := Start(c, alpha0, beta0);
      LoopStarts(rules, g, c, depth, alpha0, beta0);
      for i := 0 to 64
        invariant Stands(g)
        invariant InLoop(rules, g, c, depth, alpha0, beta0, now, 64 * i)
      {
        var stop;
        now, stop := StepsFrom(c, depth, alpha0, beta0, now, i, g);
        if stop {
          return now.move, now.score;
        }
      }
      StepCandidates(g, c, 0, 0);
      LoopEnds(rules, g, c, depth, alpha0, beta0, now);
      return now.move, now.score;
    }

    /** All step moves of the chip on one square, if the player has a chip there. */
    method StepsFrom(c: Color, depth: nat, alpha0: real, beta0: real, now: Loop, i: nat, ghost g: Grid)
      returns (next: Loop, stop: bool)
      requires Stands(g) && Bounded(rules) && depth < rules.searchDepth && Count(g, c) >= MAX_CHIPS
      requires i < 64 && InLoop(rules, g, c, depth, alpha0, beta0, now, 64 * i)
      modifies board
      ensures Stands(g)
      ensures if stop then Done(rules, g, c, depth, alpha0, beta0, next.move, next.score)
              else InLoop(rules, g, c, depth, alpha0, beta0, next, 64 * (i + 1))
      decreases rules.searchDepth - depth, 0, 2
    {
      assert board.grid == g;
      hide *;
      SquareOnBoard(i);
      next, stop := now, false;
      if !Holds(board.grid, Square(i), c) {
        NoStepsFrom(rules, g, c, depth, alpha0, beta0, now, i, 0);
        return;
      }
      for j := 0 to 64
        invariant Stands(g)
        invariant InLoop(rules, g, c, depth, alpha0, beta0, next, 64 * i + j)
      {
        StepCandidates(g, c, i, j);
        next, stop := ConsiderStep(c, depth, alpha0, beta0, next, Square(i), Square(j), g, 64 * i + j);
        if stop {
          return;
        }
      }
    }

    /** The body of the step loop; putting the chip back where it came from is always legal. */
    method ConsiderStep(c: Color, depth: nat, alpha0: real, beta0: real, now: Loop, from: Pos, to: Pos,
                        ghost g: Grid, ghost n: nat)
      returns (next: Loop, stop: bool)
      requires Stands(g) && Bounded(rules) && depth < rules.searchDepth && Count(g, c) >= MAX_CHIPS
      requires InLoop(rules, g, c, depth, alpha0, beta0, now, n) && OnBoard(from)
      requires n < |Candidates(g, c)| && Candidates(g, c)[n] == Step(to, from)
      modifies board
      ensures Stands(g)
      ensures if stop then Done(rules, g, c, depth, alpha0, beta0, next.move, next.score)
              else InLoop(rules, g, c, depth, alpha0, beta0, next, n + 1)
      decreases rules.searchDepth - depth, 0, 1
    {
      hide Bounded;
      hide InLoop;
      hide Done;
      hide Candidates;
      hide Count;
      next := now;
      var ok := board.CanMoveChip(c, from, to);
      if !ok.value {
        LoopSkips(rules, g, c, depth, alpha0, beta0, now, n);
        return next, false;
      }
      InLoopWindow(rules, g, c, depth, alpha0, beta0, now, n);
      CanPutBack(g, from);
      var _ := board.RemoveChip(from);
      board.PlaceChip(Some(c), to);
      var _, reply := Minimax(Other(c), depth + 1, now.alpha, now.beta);
      var _ := board.RemoveChip(to);
      TakeBack(Take(g, from), c, to);
      board.PlaceChip(Some(c), from);
      LoopAbsorbs(rules, g, c, depth, alpha0, beta0, now, n, Step(to, from), reply);
      if c == Black && reply > now.score {
        next := Loop(reply, now.beta, reply, Some(Step(to, from)));
      } else if c == White && reply < now.score {
        next := Loop(now.alpha, reply, reply, Some(Step(to, from)));
      }
      return next, next.alpha >= next.beta;
    }

    // ---------- Playing ----------

    /**
     * The player's own move: hard-coded at the start, otherwise searched; recorded like any other move. It is always
     * legal on the board. It is not recorded if it is not the player's turn, or if the player is out of chips before
     * the other one is, which takes a player who quits.
     */
    method ChooseMove() returns (move: Option<Move>)
      requires Ready() && Bounded(rules)
      modifies this, board
      ensures Ready() && move != Some(Quit)
      ensures move.Some? ==> LegalMove(old(board.grid), playerColor, move.value)
      ensures Opening(old(board.grid), playerColor) ==>
                move == Some(Add(if playerColor == Black && FreeMiddle(old(board.grid)) then Pos(4, 4) else Pos(3, 3)))
      ensures Recorded(old(Now()), Now(), playerColor, move, Some(MayMake(old(Now()), playerColor, move)))
      ensures move.Some? && old(InTurn(Now())) && old(currentPlayer) == playerColor ==>
                MayMake(old(Now()), playerColor, move)
      ensures !Opening(old(board.grid), playerColor) ==>
                var g, value := old(board.grid), Plain(rules, old(board.grid), playerColor, 0);
                if move.Some? then Child(rules, g, playerColor, 0, move.value) == value
                else HasNetwork(g, White) || HasNetwork(g, Black) || value == Worst(playerColor)
      ensures !Opening(old(board.grid), playerColor) && Undecided(old(board.grid)) ==>
                && KeepsForced(old(board.grid), playerColor, rules.searchDepth, move)
                && TakesWin(rules, old(board.grid), playerColor, move)
    {
      hide NoClusters;
      hide Plain;
      hide Child;
      hide KeepsForced;
      hide TakesWin;
      ghost var g := board.grid;
      var numChips := board.numWhite + board.numBlack;
      if playerColor == White && numChips == 0 {
        FirstSquare(g);
        move := Some(Add(Pos(3, 3)));
      } else if playerColor == Black && numChips == 1 {
        SecondSquare(g);
        var ok := board.CanPlaceChip(playerColor, Pos(4, 4));
        move := Some(Add(if ok then Pos(4, 4) else Pos(3, 3)));
      } else {
        var score;
        move, score := Minimax(playerColor, 0, WORST_ALPHA, WORST_BETA);
        if !Terminal(rules, g, playerColor, 0) {
          RootIsExact(rules, g, playerColor, move, score);
          ChosenKeepsForced(rules, g, playerColor, move);
          ChosenTakesWin(rules, g, playerColor, move);
        }
      }
      var _ := ForceMove(move);
    }

    /** A move of the opponent, recorded if it is legal. */
    method OpponentMove(m: Option<Move>) returns (r: Option<bool>)
      requires Ready()
      modifies this, board
      ensures Ready() && Recorded(old(Now()), Now(), opponentColor, m, r)
    {
      r := MakeMove(opponentColor, m);
    }

    method ForceMove(m: Option<Move>) returns (r: Option<bool>)
      requires Ready()
      modifies this, board
      ensures Ready() && Recorded(old(Now()), Now(), playerColor, m, r)
    {
      r := MakeMove(playerColor, m);
    }

    /** Records a move if it is legal for the player whose turn it is. */
    method MakeMove(c: Color, m: Option<Move>) returns (r: Option<bool>)
      requires Ready()
      modifies this, board
      ensures Ready() && Recorded(old(Now()), Now(), c, m, r)
    {
      if m.None? {
        return Some(false);
      }
      ghost var s := Now();
      r := IsLegalMove(c, m.value);
      if r != Some(true) {
        return;
      }
      Place(c, m.value);
      currentPlayer := Other(currentPlayer);
      FullBoard(board.grid);
      if board.numWhite + board.numBlack == 20 {
        stepping := true;
      }
      RecordedTurn(s, Now(), c, m);
    }

    /** Puts the chip where it goes, after taking it from where it was. */
    method Place(c: Color, m: Move)
      requires board.Valid() && (m.Quit? || LegalMove(board.grid, c, m))
      modifies board
      ensures board.Valid() && board.visited == old(board.visited) && board.grid == Apply(old(board.grid), c, m)
    {
      hide NoClusters;
      hide Count;
      match m {
        case Quit => board.PlaceChip(Some(c), Pos(0, 0));
        case Add(to) => board.PlaceChip(Some(c), to);
        case Step(to, from) =>
          var _ := board.RemoveChip(from);
          board.PlaceChip(Some(c), to);
      }
    }

    method IsLegalMove(c: Color, m: Move) returns (r: Option<bool>)
      requires Ready()
      modifies board
      ensures board.Valid() && board.grid == old(board.grid) && board.visited == old(board.visited)
      ensures r == None <==> FromOutside(Now(), c, Some(m))
      ensures r == Some(true) <==> MayMake(Now(), c, Some(m))
    {
      if m.Quit? || m.Step? != stepping || c != currentPlayer {
        return Some(m.Quit? && c == currentPlayer);
      }
      if m.Add? {
        var ok := board.CanPlaceChip(c, m.to);
        r := Some(ok);
      } else {
        r := board.CanMoveChip(c, m.from, m.to);
      }
    }
  }

  /** The positions in which the first move of a player is fixed. */
  ghost predicate Opening(g: Grid, c: Color) {
    Count(g, White) + Count(g, Black) == if c == White then 0 else 1
  }

  predicate FreeMiddle(g: Grid) {
    Pos(4, 4) !in g
  }

  /** Next to at most one chip, a chip may go to any inner square that is free. */
  lemma OpeningIsLegal(g: Grid, c: Color, p: Pos)
    requires 1 <= p.x <= 6 && 1 <= p.y <= 6 && p !in g && Count(g, White) + Count(g, Black) <= 1
    ensures LegalMove(g, c, Add(p))
  {
    var h := Put(g, p, c);
    PutCount(g, p, c);
    assert Count(h, c) <= 2;
    forall q | q in h && h[q] == c ensures |Neighbors(h, c, q)| <= 1 {
      OthersNear(h, c, q);
    }
  }

  lemma OthersNear(g: Grid, c: Color, p: Pos)
    requires Holds(g, p, c)
    ensures |Neighbors(g, c, p)| < Count(g, c)
  {
    SubsetSize(Neighbors(g, c, p), Chips(g, c) - {p});
  }

  lemma ChipsBound(g: Grid, p: Pos, q: Pos)
    requires p in g && q in g && p != q
    ensures Count(g, White) + Count(g, Black) >= 2
  {
    SubsetSize({p, q}, Chips(g, White) + Chips(g, Black));
  }

  lemma FirstSquare(g: Grid)
    requires Count(g, White) + Count(g, Black) == 0
    ensures LegalMove(g, White, Add(Pos(3, 3)))
  {
    if Pos(3, 3) in g {
      SubsetSize({Pos(3, 3)}, Chips(g, White) + Chips(g, Black));
    }
    OpeningIsLegal(g, White, Pos(3, 3));
  }

  lemma SecondSquare(g: Grid)
    requires Count(g, White) + Count(g, Black) == 1
    ensures CanPlace(g, Black, Pos(4, 4)) <==> FreeMiddle(g)
    ensures LegalMove(g, Black, Add(if FreeMiddle(g) then Pos(4, 4) else Pos(3, 3)))
  {
    if Pos(4, 4) in g && Pos(3, 3) in g {
      ChipsBound(g, Pos(3, 3), Pos(4, 4));
    }
    OpeningIsLegal(g, Black, if Pos(4, 4) in g then Pos(3, 3) else Pos(4, 4));
  }

  /** Twenty chips are ten of each colour. */
  lemma FullBoard(g: Grid)
    requires Legal(g)
    ensures Full(g) <==> Count(g, White) + Count(g, Black) == 20
  {
    assert Count(g, White) <= MAX_CHIPS && Count(g, Black) <= MAX_CHIPS;
  }

  lemma CountAfter(g: Grid, c: Color, m: Move)
    requires m.Quit? || LegalMove(g, c, m)
    ensures forall d :: Count(Apply(g, c, m), d) == Count(g, d) + if d == c && m.Add? then 1 else 0
  {
    match m
    case Quit =>
    case Add(to) => PutCount(g, to, c);
    case Step(to, from) =>
      TakeCount(g, from);
      PutCount(Take(g, from), to, c);
  }

  /** A player may not pass: every move changes where the player's chips are. */
  lemma MovesMatter(g: Grid, c: Color, m: Move)
    requires LegalMove(g, c, m)
    ensures Chips(Apply(g, c, m), c) != Chips(g, c) && m.to in Chips(Apply(g, c, m), c) - Chips(g, c)
    ensures Chips(Apply(g, c, m), Other(c)) == Chips(g, Other(c))
  {
    hide NoClusters;
    hide Count;
    assert m.to in Chips(Apply(g, c, m), c) && m.to !in Chips(g, c);
  }

  lemma InLoopWindow(rules: Rules, g: Grid, c: Color, depth: nat, alpha: real, beta: real, now: Loop, n: nat)
    requires depth < rules.searchDepth && InLoop(rules, g, c, depth, alpha, beta, now, n)
    ensures Window(now.alpha, now.beta)
  {
    hide LegalMove;
  }
}
