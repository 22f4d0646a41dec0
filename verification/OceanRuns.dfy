/**
 * Run-length encodings of an ocean as values: what a list of runs decodes to, when it is as
 * compressed as it can be, and what putting one creature into one cell does to it.
 */
module OceanRuns {
  const EMPTY := 0
  const SHARK := 1
  const FISH := 2
  const NULL_HUNGER := -10

  /** The contents of a cell: its type, and the hunger if it holds a shark. */
  datatype Cell = Cell(kind: int, hunger: int)

  datatype Run = Run(cell: Cell, length: int)

  const Nothing := Cell(EMPTY, NULL_HUNGER)
  const Fish := Cell(FISH, NULL_HUNGER)

  /** Only sharks have a hunger. */
  predicate Known(c: Cell) {
    c.kind == SHARK || ((c.kind == EMPTY || c.kind == FISH) && c.hunger == NULL_HUNGER)
  }

  function Repeat(c: Cell, n: int): (r: seq<Cell>)
    ensures |r| == if n < 0 then 0 else n
    ensures forall i :: 0 <= i < |r| ==> r[i] == c
  {
    if n <= 0 then [] else seq(n, _ => c)
  }

  /** The cells that a list of runs stands for, row by row. */
  function Decode(runs: seq<Run>): seq<Cell> {
    if runs == [] then [] else Repeat(runs[0].cell, runs[0].length) + Decode(runs[1..])
  }

  predicate Sound(runs: seq<Run>) {
    forall i :: 0 <= i < |runs| ==> runs[i].length >= 1 && Known(runs[i].cell)
  }

  /** Maximally compressed: neighbouring runs hold different creatures. */
  predicate Compressed(runs: seq<Run>) {
    Sound(runs) && forall i :: 0 < i < |runs| ==> runs[i - 1].cell != runs[i].cell
  }

  lemma Associative(a: seq<Cell>, b: seq<Cell>, c: seq<Cell>)
    ensures a + (b + c) == (a + b) + c
  {}

  lemma {:induction false} DecodeConcat(a: seq<Run>, b: seq<Run>)
    ensures Decode(a + b) == Decode(a) + Decode(b)
  {
    if a == [] {
      assert a + b == b;
    } else {
      DecodeConcat(a[1..], b);
      assert (a + b)[0] == a[0] && (a + b)[1..] == a[1..] + b;
      Associative(Repeat(a[0].cell, a[0].length), Decode(a[1..]), Decode(b));
    }
  }

  lemma DecodeOne(r: Run)
    ensures Decode([r]) == Repeat(r.cell, r.length)
  {}

  /** Cell number `off` of run `k`, found in the decoded list. */
  lemma DecodeAt(runs: seq<Run>, k: int, off: int)
    requires 0 <= k < |runs| && 0 <= off < runs[k].length
    ensures var start := |Decode(runs[..k])|;
            start + runs[k].length <= |Decode(runs)| && Decode(runs)[start + off] == runs[k].cell
  {
    DecodeConcat(runs[..k], runs[k..]);
    assert runs == runs[..k] + runs[k..];
  }

  /** The compressed form is unique: two compressed lists with the same cells are the same list. */
  lemma {:induction false} CompressedUnique(a: seq<Run>, b: seq<Run>)
    requires Compressed(a) && Compressed(b) && Decode(a) == Decode(b)
    ensures a == b
  {
    if a != [] && b != [] {
      FirstRun(a, b);
      FirstRun(b, a);
      var n := a[0].length;
      assert Decode(a[1..]) == Decode(a)[n..] == Decode(b)[n..] == Decode(b[1..]);
      CompressedUnique(a[1..], b[1..]);
      assert a == [a[0]] + a[1..] && b == [b[0]] + b[1..];
    }
  }

  /** In a compressed list the cell after the first run differs from it. */
  lemma RunEnds(b: seq<Run>)
    requires Compressed(b) && b != []
    ensures |Decode(b)| >= b[0].length >= 1
    ensures forall i :: 0 <= i < b[0].length ==> Decode(b)[i] == b[0].cell
    ensures |Decode(b)| > b[0].length ==> Decode(b)[b[0].length] != b[0].cell
  {
    if |b| > 1 {
      assert b[1 - 1].cell != b[1].cell;
      assert Decode(b[1..])[0] == b[1].cell;
    }
  }

  lemma FirstRun(a: seq<Run>, b: seq<Run>)
    requires Compressed(a) && Compressed(b) && Decode(a) == Decode(b) && a != [] && b != []
    ensures a[0].cell == b[0].cell && a[0].length <= b[0].length
  {
    RunEnds(a);
    RunEnds(b);
    assert Decode(a)[0] == a[0].cell;
  }

  // ---------- Putting a creature into a cell ----------

  /** Runs `lo` to `hi` give way to the runs `mid`. */
  datatype Edit = Edit(lo: int, hi: int, mid: seq<Run>)

  function Spliced(runs: seq<Run>, e: Edit): seq<Run>
    requires 0 <= e.lo <= e.hi <= |runs|
  {
    runs[..e.lo] + e.mid + runs[e.hi..]
  }

  /** How many cells of `c` end right before cell `off` of run `k`. */
  function Lead(runs: seq<Run>, k: int, off: int, c: Cell): int
    requires 0 <= k < |runs|
  {
    if off == 0 && k > 0 && runs[k - 1].cell == c then runs[k - 1].length else 0
  }

  /** How many cells of `c` begin right after cell `off` of run `k`. */
  function Trail(runs: seq<Run>, k: int, off: int, c: Cell): int
    requires 0 <= k < |runs|
  {
    if off == runs[k].length - 1 && k + 1 < |runs| && runs[k + 1].cell == c then runs[k + 1].length else 0
  }

  lemma LeadTrail(runs: seq<Run>, k: int, off: int, c: Cell)
    requires Sound(runs) && 0 <= k < |runs|
    ensures Lead(runs, k, off, c) >= 0 && (Lead(runs, k, off, c) > 0 ==> off == 0)
    ensures Trail(runs, k, off, c) >= 0 && (Trail(runs, k, off, c) > 0 ==> off == runs[k].length - 1)
  {}

  function NonEmpty(c: Cell, n: int): seq<Run> {
    if n > 0 then [Run(c, n)] else []
  }

  /** What becomes of the runs when creature `c` is put into cell `off` of the empty run `k`. */
  function Plan(runs: seq<Run>, k: int, off: int, c: Cell): (e: Edit)
    requires Sound(runs) && 0 <= k < |runs| && 0 <= off < runs[k].length
    ensures 0 <= e.lo <= k < e.hi <= |runs|
  {
    var r, p, n := runs[k], Lead(runs, k, off, c), Trail(runs, k, off, c);
    Edit(if p > 0 then k - 1 else k,
         if n > 0 then k + 2 else k + 1,
         NonEmpty(r.cell, off) + [Run(c, p + 1 + n)] + NonEmpty(r.cell, r.length - 1 - off))
  }

  /** An occupied cell leaves the runs as they are. */
  function Added(runs: seq<Run>, k: int, off: int, c: Cell): seq<Run>
    requires Sound(runs) && 0 <= k < |runs| && 0 <= off < runs[k].length
  {
    if runs[k].cell.kind != EMPTY then runs else Spliced(runs, Plan(runs, k, off, c))
  }

  /** The same operation on the plain ocean: an occupied cell stays as it is. */
  function Placed(cells: seq<Cell>, p: int, c: Cell): seq<Cell>
    requires 0 <= p < |cells|
  {
    if cells[p].kind == EMPTY then cells[p := c] else cells
  }

  /** An edit that changes one cell of the runs it replaces changes one cell of the whole. */
  lemma SplicedDecodes(runs: seq<Run>, e: Edit, was: seq<Cell>, off: int, c: Cell)
    requires 0 <= e.lo <= e.hi <= |runs| && Decode(runs[e.lo..e.hi]) == was
    requires 0 <= off < |was| && Decode(e.mid) == was[off := c]
    ensures |Decode(runs[..e.lo])| + off < |Decode(runs)|
    ensures Decode(Spliced(runs, e)) == Decode(runs)[|Decode(runs[..e.lo])| + off := c]
  {
    var a, z := runs[..e.lo], runs[e.hi..];
    assert runs == a + runs[e.lo..e.hi] + z;
    DecodeConcat(a + runs[e.lo..e.hi], z);
    DecodeConcat(a, runs[e.lo..e.hi]);
    DecodeConcat(a + e.mid, z);
    DecodeConcat(a, e.mid);
    UpdatedMiddle(Decode(a), was, Decode(z), off, c);
    hide Decode;
  }

  lemma UpdatedMiddle(a: seq<Cell>, m: seq<Cell>, z: seq<Cell>, off: int, c: Cell)
    requires 0 <= off < |m|
    ensures (a + m + z)[|a| + off := c] == a + m[off := c] + z
  {}

  function Stretches(a: Cell, i: int, b: Cell, j: int, c: Cell, k: int): (r: seq<Cell>)
    requires i >= 0 && j >= 0 && k >= 0
    ensures |r| == i + j + k
  {
    Repeat(a, i) + Repeat(b, j) + Repeat(c, k)
  }

  lemma NonEmptyDecodes(c: Cell, n: int)
    requires n >= 0
    ensures Decode(NonEmpty(c, n)) == Repeat(c, n)
  {
    if n > 0 {
      DecodeOne(Run(c, n));
    }
  }

  /** The replaced runs are the empty run and those of its neighbours that hold `c`. */
  lemma PlanReplaces(runs: seq<Run>, k: int, off: int, c: Cell)
    requires Sound(runs) && 0 <= k < |runs| && 0 <= off < runs[k].length
    ensures var e, r := Plan(runs, k, off, c), runs[k];
            var p, n := Lead(runs, k, off, c), Trail(runs, k, off, c);
            Decode(runs[e.lo..e.hi]) == Stretches(c, p, r.cell, r.length, c, n)
  {
    var e, r := Plan(runs, k, off, c), runs[k];
    var p, n := Lead(runs, k, off, c), Trail(runs, k, off, c);
    assert runs[e.lo..e.hi] == NonEmpty(c, p) + [r] + NonEmpty(c, n);
    DecodeConcat(NonEmpty(c, p) + [r], NonEmpty(c, n));
    DecodeConcat(NonEmpty(c, p), [r]);
    NonEmptyDecodes(c, p);
    NonEmptyDecodes(c, n);
    DecodeOne(r);
    assert Stretches(c, p, r.cell, r.length, c, n) == Repeat(c, p) + Repeat(r.cell, r.length) + Repeat(c, n);
    hide *;
  }

  lemma PlanInserts(runs: seq<Run>, k: int, off: int, c: Cell)
    requires Sound(runs) && 0 <= k < |runs| && 0 <= off < runs[k].length
    ensures var e, r := Plan(runs, k, off, c), runs[k];
            var p, n := Lead(runs, k, off, c), Trail(runs, k, off, c);
            Decode(e.mid) == Stretches(r.cell, off, c, p + 1 + n, r.cell, r.length - 1 - off)
  {
    hide Decode;
    hide NonEmpty;
    hide Stretches;
    var r, p, n := runs[k], Lead(runs, k, off, c), Trail(runs, k, off, c);
    assert p >= 0 && n >= 0;
    ThreeDecode(r.cell, off, c, p + 1 + n, r.length - 1 - off);
  }

  lemma ThreeDecode(e: Cell, i: int, c: Cell, j: int, k: int)
    requires i >= 0 && j > 0 && k >= 0
    ensures Decode(NonEmpty(e, i) + [Run(c, j)] + NonEmpty(e, k)) == Stretches(e, i, c, j, e, k)
  {
    hide Decode;
    hide NonEmpty;
    var x, m, y := NonEmpty(e, i), [Run(c, j)], NonEmpty(e, k);
    DecodeConcat(x + m, y);
    DecodeConcat(x, m);
    NonEmptyDecodes(e, i);
    NonEmptyDecodes(e, k);
    DecodeOne(Run(c, j));
  }

  /** Changing one cell between two stretches of `c`: the stretches grow together, or the middle is cut. */
  lemma ChangedStretch(c: Cell, z: Cell, p: int, x: int, y: int, n: int)
    requires p >= 0 && x >= 0 && y >= 0 && n >= 0 && (p > 0 ==> x == 0) && (n > 0 ==> y == 0)
    ensures Stretches(c, p, z, x + 1 + y, c, n)[p + x := c] == Stretches(z, x, c, p + 1 + n, z, y)
  {}

  /** The cells before the edited runs. */
  lemma PlanStart(runs: seq<Run>, k: int, off: int, c: Cell)
    requires Sound(runs) && 0 <= k < |runs| && 0 <= off < runs[k].length
    ensures |Decode(runs[..Plan(runs, k, off, c).lo])| + Lead(runs, k, off, c) == |Decode(runs[..k])|
  {
    if Lead(runs, k, off, c) > 0 {
      assert runs[..k] == runs[..k - 1] + [runs[k - 1]];
      DecodeConcat(runs[..k - 1], [runs[k - 1]]);
      DecodeOne(runs[k - 1]);
    }
  }

  /** Decoding commutes with putting a creature into a cell. */
  lemma {:induction false} AddedDecodes(runs: seq<Run>, k: int, off: int, c: Cell)
    requires Sound(runs) && 0 <= k < |runs| && 0 <= off < runs[k].length
    ensures var p := |Decode(runs[..k])| + off;
            p < |Decode(runs)| && Decode(Added(runs, k, off, c)) == Placed(Decode(runs), p, c)
  {
    hide Decode;
    hide Plan;
    hide Lead;
    hide Trail;
    hide Stretches;
    hide Spliced;
    hide Sound;
    var r, p, n := runs[k], Lead(runs, k, off, c), Trail(runs, k, off, c);
    LeadTrail(runs, k, off, c);
    DecodeAt(runs, k, off);
    PlanStart(runs, k, off, c);
    PlanReplaces(runs, k, off, c);
    PlanInserts(runs, k, off, c);
    ChangedStretch(c, r.cell, p, off, r.length - 1 - off, n);
    SplicedDecodes(runs, Plan(runs, k, off, c), Stretches(c, p, r.cell, r.length, c, n), p + off, c);
  }

  lemma AddedSound(runs: seq<Run>, k: int, off: int, c: Cell)
    requires Sound(runs) && Known(c) && 0 <= k < |runs| && 0 <= off < runs[k].length
    ensures Sound(Added(runs, k, off, c))
  {
    var e := Plan(runs, k, off, c);
    assert Sound(e.mid);
    SplicedSound(runs, e);
    hide Plan;
  }

  lemma SplicedSound(runs: seq<Run>, e: Edit)
    requires Sound(runs) && Sound(e.mid) && 0 <= e.lo <= e.hi <= |runs|
    ensures Sound(Spliced(runs, e))
  {}

  /** Compressed runs that differ from both of their new neighbours fit in. */
  lemma SplicedCompressed(runs: seq<Run>, e: Edit)
    requires 0 <= e.lo <= e.hi <= |runs| && Compressed(runs) && Compressed(e.mid) && e.mid != []
    requires e.lo > 0 ==> runs[e.lo - 1].cell != e.mid[0].cell
    requires e.hi < |runs| ==> runs[e.hi].cell != e.mid[|e.mid| - 1].cell
    ensures Compressed(Spliced(runs, e))
  {
    var s, d := Spliced(runs, e), e.lo + |e.mid|;
    forall i | 0 < i < |s| ensures s[i - 1].cell != s[i].cell {
      if i > d {
        assert s[i] == runs[i - d + e.hi] && s[i - 1] == runs[i - d + e.hi - 1];
      } else if e.lo < i < d {
        assert s[i] == e.mid[i - e.lo] && s[i - 1] == e.mid[i - e.lo - 1];
      }
    }
  }

  /** A compressed list stays compressed. */
  lemma AddedCompressed(runs: seq<Run>, k: int, off: int, c: Cell)
    requires Compressed(runs) && Known(c) && c.kind != EMPTY && 0 <= k < |runs| && 0 <= off < runs[k].length
    ensures Compressed(Added(runs, k, off, c))
  {
    if runs[k].cell.kind == EMPTY {
      var e := Plan(runs, k, off, c);
      assert k > 0 ==> runs[k - 1].cell != runs[k].cell;
      assert k + 1 < |runs| ==> runs[k].cell != runs[k + 1].cell;
      assert e.lo < k && k > 1 ==> runs[k - 2].cell != runs[k - 1].cell;
      assert k + 1 < e.hi && k + 2 < |runs| ==> runs[k + 1].cell != runs[k + 2].cell;
      SplicedCompressed(runs, e);
      hide Spliced;
    }
  }

  // ---------- The edits step by step, as a list operation each ----------

  function Without(runs: seq<Run>, i: int): seq<Run>
    requires 0 <= i < |runs|
  {
    runs[..i] + runs[i + 1..]
  }

  function With(runs: seq<Run>, i: int, r: Run): seq<Run>
    requires 0 <= i <= |runs|
  {
    runs[..i] + [r] + runs[i..]
  }

  lemma PlanBoth(runs: seq<Run>, k: int, c: Cell)
    requires Sound(runs) && 0 < k < |runs| - 1 && runs[k].length == 1 && runs[k - 1].cell == runs[k + 1].cell == c
    ensures Spliced(runs, Plan(runs, k, 0, c))
            == Without(Without(runs, k - 1), k)[k - 1 := Run(c, 1 + runs[k - 1].length + runs[k + 1].length)]
  {}

  lemma PlanNext(runs: seq<Run>, k: int, c: Cell)
    requires Sound(runs) && 0 <= k < |runs| - 1 && runs[k].length == 1 && runs[k + 1].cell == c
    requires k > 0 ==> runs[k - 1].cell != c
    ensures Spliced(runs, Plan(runs, k, 0, c)) == Without(runs, k + 1)[k := Run(c, 1 + runs[k + 1].length)]
  {}

  lemma PlanPrev(runs: seq<Run>, k: int, c: Cell)
    requires Sound(runs) && 0 < k < |runs| && runs[k].length == 1 && runs[k - 1].cell == c
    requires k + 1 < |runs| ==> runs[k + 1].cell != c
    ensures Spliced(runs, Plan(runs, k, 0, c)) == Without(runs, k - 1)[k - 1 := Run(c, 1 + runs[k - 1].length)]
  {}

  lemma PlanAlone(runs: seq<Run>, k: int, c: Cell)
    requires Sound(runs) && 0 <= k < |runs| && runs[k].length == 1
    requires k > 0 ==> runs[k - 1].cell != c
    requires k + 1 < |runs| ==> runs[k + 1].cell != c
    ensures Spliced(runs, Plan(runs, k, 0, c)) == runs[k := Run(c, 1)]
  {}

  /** A cell moves from run `k` to run `j`. */
  function Moved(runs: seq<Run>, k: int, j: int): seq<Run>
    requires 0 <= k < |runs| && 0 <= j < |runs|
  {
    runs[j := Run(runs[j].cell, 1 + runs[j].length)][k := Run(runs[k].cell, runs[k].length - 1)]
  }

  /** A cell of run `k` becomes a new run before or after it. */
  function Grown(runs: seq<Run>, k: int, c: Cell, before: bool): seq<Run>
    requires 0 <= k < |runs|
  {
    var e := Run(runs[k].cell, runs[k].length - 1);
    if before then With(runs, k, Run(c, 1))[k + 1 := e] else With(runs, k + 1, Run(c, 1))[k := e]
  }

  lemma PlanFront(runs: seq<Run>, k: int, c: Cell)
    requires Sound(runs) && 0 <= k < |runs| && runs[k].length > 1
    ensures Spliced(runs, Plan(runs, k, 0, c))
            == if k > 0 && runs[k - 1].cell == c then Moved(runs, k, k - 1) else Grown(runs, k, c, true)
  {
    var e, rest := Plan(runs, k, 0, c), Run(runs[k].cell, runs[k].length - 1);
    if k > 0 && runs[k - 1].cell == c {
      assert e == Edit(k - 1, k + 1, [Run(c, 1 + runs[k - 1].length), rest]);
      SpliceTwo(runs, k - 1, e.mid[0], rest);
    } else {
      assert e == Edit(k, k + 1, [Run(c, 1), rest]);
      SpliceNew(runs, k, Run(c, 1), rest);
    }
  }

  lemma SpliceTwo(runs: seq<Run>, i: int, a: Run, b: Run)
    requires 0 <= i < |runs| - 1
    ensures Spliced(runs, Edit(i, i + 2, [a, b])) == runs[i := a][i + 1 := b]
  {}

  lemma SpliceNew(runs: seq<Run>, i: int, a: Run, b: Run)
    requires 0 <= i < |runs|
    ensures Spliced(runs, Edit(i, i + 1, [a, b])) == With(runs, i, a)[i + 1 := b] == With(runs, i + 1, b)[i := a]
  {}

  lemma PlanBack(runs: seq<Run>, k: int, c: Cell)
    requires Sound(runs) && 0 <= k < |runs| && runs[k].length > 1
    ensures Spliced(runs, Plan(runs, k, runs[k].length - 1, c))
            == if k + 1 < |runs| && runs[k + 1].cell == c then Moved(runs, k, k + 1) else Grown(runs, k, c, false)
  {
    var e, rest := Plan(runs, k, runs[k].length - 1, c), Run(runs[k].cell, runs[k].length - 1);
    if k + 1 < |runs| && runs[k + 1].cell == c {
      assert e == Edit(k, k + 2, [rest, Run(c, 1 + runs[k + 1].length)]);
      SpliceTwo(runs, k, rest, e.mid[1]);
    } else {
      assert e == Edit(k, k + 1, [rest, Run(c, 1)]);
      SpliceNew(runs, k, rest, Run(c, 1));
    }
  }

  lemma PlanMiddle(runs: seq<Run>, k: int, off: int, c: Cell)
    requires Sound(runs) && 0 <= k < |runs| && 0 < off < runs[k].length - 1
    ensures var e := runs[k].cell;
            Spliced(runs, Plan(runs, k, off, c))
            == With(With(runs[k := Run(c, 1)], k, Run(e, off)), k + 2, Run(e, runs[k].length - off - 1))
  {}
}
