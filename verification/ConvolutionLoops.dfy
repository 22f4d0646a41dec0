/** The two implementations of the convolution. Arrays that are only read are given as sequences. */
module ConvolutionLoops {
  import opened Convolution
  import opened RowMajor

  // ---------- The reference ----------

  /** What cell `p` has gained once the columns before `x`, and column `x` down to row `y`, are done. */
  ghost function Gained(t: Input, x: int, y: int, p: int): real
    requires Proper(t) && t.sizeX >= 1
  {
    if p % t.sizeX < x || (p % t.sizeX == x && p / t.sizeX < y) then Pixel(t, p % t.sizeX, p / t.sizeX) else 0.0
  }

  lemma GainedNext(t: Input, x: int, y: int, p: int)
    requires Proper(t) && 0 <= x < t.sizeX && 0 <= y < t.sizeY
    ensures p == Index(t.sizeX, x, y) ==>
              Gained(t, x, y, p) == 0.0 && Gained(t, x, y + 1, p) == Pixel(t, x, y)
    ensures p != Index(t.sizeX, x, y) ==> Gained(t, x, y + 1, p) == Gained(t, x, y, p)
  {
    hide Pixel;
    IndexSplits(t.sizeX, x, y);
    assert p == p / t.sizeX * t.sizeX + p % t.sizeX;
  }

  lemma GainedColumn(t: Input, x: int, p: int)
    requires Proper(t) && 0 <= x < t.sizeX && 0 <= p < t.sizeX * t.sizeY
    ensures Gained(t, x, t.sizeY, p) == Gained(t, x + 1, 0, p)
  {
    hide Pixel;
    IndexRow(t.sizeX, t.sizeY, p % t.sizeX, p / t.sizeX);
  }

  method Reference(t: Input, out: array<real>)
    requires Proper(t) && out.Length == |t.image|
    modifies out
    ensures IsAccumulated(Seen(t), old(out[..]), out[..])
  {
    hide Pixel;
    hide Gained;
    ghost var before, s := out[..], Seen(t);
    var x := 0;
    SomeColumns(t);
    StartGained(s);
    while x < t.sizeX
      invariant 0 <= x <= t.sizeX
      invariant forall p :: 0 <= p < out.Length ==> out[p] == before[p] + Gained(s, x, 0, p)
    {
      ReferenceColumn(t, out, x, before);
      x := x + 1;
    }
    EndGained(s);
  }

  lemma SomeColumns(t: Input)
    requires Proper(t)
    ensures |t.image| > 0 ==> t.sizeX >= 1
  {}

  lemma StartGained(t: Input)
    requires Proper(t)
    ensures t.sizeX >= 1 ==> forall p :: p >= 0 ==> Gained(t, 0, 0, p) == 0.0
  {
    forall p | t.sizeX >= 1 && p >= 0 ensures Gained(t, 0, 0, p) == 0.0 {
      Scaled(p / t.sizeX, t.sizeX);
    }
  }

  lemma EndGained(t: Input)
    requires Proper(t)
    ensures t.sizeX >= 1 ==> forall p :: Gained(t, t.sizeX, 0, p) == Pixel(t, p % t.sizeX, p / t.sizeX)
  {}

  method ReferenceColumn(t: Input, out: array<real>, x: int, ghost before: seq<real>)
    requires Proper(t) && out.Length == |t.image| == |before| && 0 <= x < t.sizeX
    requires forall p :: 0 <= p < out.Length ==> out[p] == before[p] + Gained(Seen(t), x, 0, p)
    modifies out
    ensures forall p :: 0 <= p < out.Length ==> out[p] == before[p] + Gained(Seen(t), x + 1, 0, p)
  {
    hide Pixel;
    hide Gained;
    ghost var s := Seen(t);
    var y := 0;
    while y < t.sizeY
      invariant 0 <= y <= t.sizeY
      invariant forall p :: 0 <= p < out.Length ==> out[p] == before[p] + Gained(s, x, y, p)
    {
      ghost var was := out[..];
      AddPixel(t, out, x, y);
      forall p | 0 <= p < out.Length ensures out[p] == before[p] + Gained(s, x, y + 1, p) {
        GainedNext(s, x, y, p);
        assert was[p] == before[p] + Gained(s, x, y, p);
      }
      y := y + 1;
    }
    forall p | 0 <= p < out.Length ensures out[p] == before[p] + Gained(s, x + 1, 0, p) {
      GainedColumn(s, x, p);
    }
  }

  /** The two inner loops: the kernel's columns and rows, counted from its center, which may be rounded down. */
  method AddPixel(t: Input, out: array<real>, x: int, y: int)
    requires Proper(t) && out.Length == |t.image| && 0 <= x < t.sizeX && 0 <= y < t.sizeY
    modifies out
    ensures 0 <= Index(t.sizeX, x, y) < out.Length
    ensures out[Index(t.sizeX, x, y)] == old(out[..])[Index(t.sizeX, x, y)] + Pixel(Seen(t), x, y)
    ensures forall p :: 0 <= p < out.Length && p != Index(t.sizeX, x, y) ==> out[p] == old(out[p])
  {
    hide Term;
    hide Seen;
    var centX, centY := CentX(t), CentY(t);
    var p := Index(t.sizeX, x, y);
    IndexRange(t.sizeX, t.sizeY, x, y);
    ghost var was, s := out[p], Seen(t);
    var i := -centX;
    while i <= centX
      invariant -centX <= i <= centX + 1
      invariant out[p] == was + SumByColumns(s, x, y, i + centX, t.kernelY)
      invariant forall q :: 0 <= q < out.Length && q != p ==> out[q] == old(out[q])
    {
      AddColumn(t, out, x, y, i);
      i := i + 1;
    }
    LastColumn(t, x, y);
  }

  method AddColumn(t: Input, out: array<real>, x: int, y: int, i: int)
    requires Proper(t) && out.Length == |t.image| && 0 <= x < t.sizeX && 0 <= y < t.sizeY
    requires -CentX(t) <= i <= CentX(t) && 0 <= Index(t.sizeX, x, y) < out.Length
    modifies out
    ensures out[Index(t.sizeX, x, y)]
            == old(out[..])[Index(t.sizeX, x, y)] + ColumnSum(Seen(t), x, y, i + CentX(t), t.kernelY)
    ensures forall p :: 0 <= p < out.Length && p != Index(t.sizeX, x, y) ==> out[p] == old(out[p])
  {
    hide Term;
    hide Index;
    hide Seen;
    var centX, centY := CentX(t), CentY(t);
    var p := Index(t.sizeX, x, y);
    ghost var was, s := out[p], Seen(t);
    var j := -centY;
    while j <= centY
      invariant -centY <= j <= centY + 1
      invariant out[p] == was + ColumnSum(s, x, y, i + centX, j + centY)
      invariant forall q :: 0 <= q < out.Length && q != p ==> out[q] == old(out[q])
    {
      TermFromCenter(t, x, y, i, j);
      if x + i > -1 && x + i < t.sizeX && y + j > -1 && y + j < t.sizeY {
        out[p] := out[p] + t.kernel[Index(t.kernelX, centX - i, centY - j)] * t.image[Index(t.sizeX, x + i, y + j)];
      }
      j := j + 1;
    }
    LastRow(t, x, y, i + centX);
  }

  /** The summand in terms of the distance from the kernel's center. */
  lemma TermFromCenter(t: Input, x: int, y: int, i: int, j: int)
    requires Proper(t) && -CentX(t) <= i <= CentX(t) && -CentY(t) <= j <= CentY(t)
    ensures var k, p := Index(t.kernelX, CentX(t) - i, CentY(t) - j), Index(t.sizeX, x + i, y + j);
            && 0 <= k < |t.kernel|
            && (InImage(t, x + i, y + j) ==> 0 <= p < |t.image|)
            && Term(Seen(t), x, y, i + CentX(t), j + CentY(t))
               == if InImage(t, x + i, y + j) then t.kernel[k] * t.image[p] else 0.0
  {
    hide Index;
    IndexRange(t.kernelX, t.kernelY, CentX(t) - i, CentY(t) - j);
    if InImage(t, x + i, y + j) {
      IndexRange(t.sizeX, t.sizeY, x + i, y + j);
    }
    SeenCoef(t, i + CentX(t), j + CentY(t));
  }

  /** The element that the reference takes for column `a` and row `b`: none for the last ones of an even side. */
  lemma SeenCoef(t: Input, a: int, b: int)
    requires Proper(t) && 0 <= a < t.kernelX && 0 <= b < t.kernelY
    ensures Coef(Seen(t), a, b)
            == if a <= 2 * CentX(t) && b <= 2 * CentY(t)
               then Nth(t.kernel, Index(t.kernelX, 2 * CentX(t) - a, 2 * CentY(t) - b)) else 0.0
  {
    hide Index;
    var m, n := t.kernelX - 1 - a, t.kernelY - 1 - b;
    IndexRange(t.kernelX, t.kernelY, m, n);
    IndexSplits(t.kernelX, m, n);
    assert m - (t.kernelX - 1) % 2 == 2 * CentX(t) - a && n - (t.kernelY - 1) % 2 == 2 * CentY(t) - b;
  }

  /** The row that the reference does not look at, if the side is even, adds nothing. */
  lemma LastRow(t: Input, x: int, y: int, a: int)
    requires Proper(t) && 0 <= a < t.kernelX
    ensures ColumnSum(Seen(t), x, y, a, 2 * CentY(t) + 1) == ColumnSum(Seen(t), x, y, a, t.kernelY)
  {
    hide Seen;
    hide Index;
    if t.kernelY % 2 == 0 {
      SeenCoef(t, a, t.kernelY - 1);
      assert ColumnSum(Seen(t), x, y, a, t.kernelY)
             == ColumnSum(Seen(t), x, y, a, t.kernelY - 1) + Term(Seen(t), x, y, a, t.kernelY - 1);
    }
  }

  lemma {:induction false} NoColumn(t: Input, x: int, y: int, m: nat)
    requires Proper(t) && t.kernelX % 2 == 0 && m <= t.kernelY
    ensures ColumnSum(Seen(t), x, y, t.kernelX - 1, m) == 0.0
  {
    hide Seen;
    hide Index;
    if m > 0 {
      NoColumn(t, x, y, m - 1);
      SeenCoef(t, t.kernelX - 1, m - 1);
    }
  }

  lemma LastColumn(t: Input, x: int, y: int)
    requires Proper(t)
    ensures SumByColumns(Seen(t), x, y, 2 * CentX(t) + 1, t.kernelY) == Pixel(Seen(t), x, y)
  {
    hide Term;
    hide ColumnSum;
    hide Moved;
    if t.kernelX % 2 == 0 {
      NoColumn(t, x, y, t.kernelY);
    }
  }

  // ---------- The padded image ----------

  /** The first `n` cells of the padded image are filled in. */
  ghost predicate Padded(t: Input, padded: array<real>, n: int)
    reads padded
    requires Proper(t)
  {
    && padded.Length == PaddedX(t) * PaddedY(t) && n <= padded.Length
    && forall p :: 0 <= p < n ==> PaddedX(t) >= 1 && padded[p] == PaddedAt(t, p % PaddedX(t), p / PaddedX(t))
  }

  /** Filling in the next cell. */
  method PadNext(t: Input, padded: array<real>, u: int, v: int, value: real)
    requires Proper(t) && 0 <= u < PaddedX(t) && 0 <= v < PaddedY(t) && value == PaddedAt(t, u, v)
    requires Padded(t, padded, Index(PaddedX(t), u, v))
    modifies padded
    ensures Padded(t, padded, Index(PaddedX(t), u + 1, v))
  {
    hide PaddedAt;
    var p := Index(PaddedX(t), u, v);
    IndexRange(PaddedX(t), PaddedY(t), u, v);
    IndexSplits(PaddedX(t), u, v);
    IndexNextRow(PaddedX(t), u, v);
    padded[p] := value;
  }

  /** Cells `u` to `to` of a padded row become zero. */
  method PadZeros(t: Input, padded: array<real>, from: int, to: int, v: int)
    requires Proper(t) && 0 <= from <= to <= PaddedX(t) && 0 <= v < PaddedY(t)
    requires to <= CentX(t) || CentX(t) + t.sizeX <= from
    requires Padded(t, padded, Index(PaddedX(t), from, v))
    modifies padded
    ensures Padded(t, padded, Index(PaddedX(t), to, v))
  {
    hide Padded;
    hide Index;
    var u := from;
    while u < to
      invariant from <= u <= to && Padded(t, padded, Index(PaddedX(t), u, v))
    {
      PadNext(t, padded, u, v, 0.0);
      u := u + 1;
    }
  }

  /** Whole rows above or below the image become zero. */
  method PadBlock(t: Input, padded: array<real>, from: int, to: int)
    requires Proper(t) && 0 <= from <= to <= PaddedY(t) && (to <= CentY(t) || CentY(t) + t.sizeY <= from)
    requires Padded(t, padded, Index(PaddedX(t), 0, from))
    modifies padded
    ensures Padded(t, padded, Index(PaddedX(t), 0, to))
  {
    ghost var width := PaddedX(t);
    RowStart(t, to);
    RowStart(t, from);
    var i := PaddedX(t) * from;
    while i < PaddedX(t) * to
      invariant 0 <= i <= padded.Length && Index(width, 0, from) <= i && Padded(t, padded, i)
      invariant i <= Index(width, 0, to) || i == Index(width, 0, from)
    {
      BlockCell(t, from, to, i);
      padded[i] := 0.0;
      i := i + 1;
    }
    BlockOrder(t, from, to);
  }

  lemma RowStart(t: Input, v: int)
    requires Proper(t) && 0 <= v <= PaddedY(t)
    ensures 0 <= PaddedX(t) * v == Index(PaddedX(t), 0, v) <= PaddedX(t) * PaddedY(t)
  {
    BlockOrder(t, v, PaddedY(t));
    BlockOrder(t, 0, v);
  }

  lemma BlockOrder(t: Input, from: int, to: int)
    requires Proper(t) && from <= to
    ensures PaddedX(t) * from <= PaddedX(t) * to
  {
    assert PaddedX(t) * (to - from) == PaddedX(t) * to - PaddedX(t) * from;
    if PaddedX(t) >= 1 {
      Scaled(to - from, PaddedX(t));
    }
  }

  lemma BlockCell(t: Input, from: int, to: int, i: int)
    requires Proper(t) && 0 <= from <= to && (to <= CentY(t) || CentY(t) + t.sizeY <= from)
    requires PaddedX(t) * from <= i < PaddedX(t) * to
    ensures PaddedX(t) >= 1 && PaddedAt(t, i % PaddedX(t), i / PaddedX(t)) == 0.0
  {
    assert PaddedX(t) >= 1;
    RowBetween(PaddedX(t), i, from, to);
  }

  /** A row of the image with its margins; the image is copied 32, then 4, then 1 at a time. */
  method PadRow(t: Input, padded: array<real>, y: int)
    requires Proper(t) && 0 <= y < t.sizeY && Padded(t, padded, Index(PaddedX(t), 0, y + CentY(t)))
    modifies padded
    ensures Padded(t, padded, Index(PaddedX(t), 0, y + 1 + CentY(t)))
  {
    hide Padded;
    hide Index;
    var v := y + CentY(t);
    PadZeros(t, padded, 0, CentX(t), v);
    var x := 0;
    while x < t.sizeX - 31
      invariant 0 <= x <= t.sizeX && Padded(t, padded, Index(PaddedX(t), x + CentX(t), v))
    {
      Copy4(t, padded, x, y);
      Copy4(t, padded, x + 4, y);
      Copy4(t, padded, x + 8, y);
      Copy4(t, padded, x + 12, y);
      Copy4(t, padded, x + 16, y);
      Copy4(t, padded, x + 20, y);
      Copy4(t, padded, x + 24, y);
      Copy4(t, padded, x + 28, y);
      x := x + 32;
    }
    while x < t.sizeX - 3
      invariant 0 <= x <= t.sizeX && Padded(t, padded, Index(PaddedX(t), x + CentX(t), v))
    {
      Copy4(t, padded, x, y);
      x := x + 4;
    }
    while x < t.sizeX
      invariant 0 <= x <= t.sizeX && Padded(t, padded, Index(PaddedX(t), x + CentX(t), v))
    {
      Copy1(t, padded, x, y);
      x := x + 1;
    }
    PadZeros(t, padded, t.sizeX + CentX(t), PaddedX(t), v);
    IndexNextRow(PaddedX(t), PaddedX(t), v);
  }

  method Copy1(t: Input, padded: array<real>, x: int, y: int)
    requires Proper(t) && 0 <= x < t.sizeX && 0 <= y < t.sizeY
    requires Padded(t, padded, Index(PaddedX(t), x + CentX(t), y + CentY(t)))
    modifies padded
    ensures Padded(t, padded, Index(PaddedX(t), x + 1 + CentX(t), y + CentY(t)))
  {
    hide Padded;
    hide Index;
    IndexRange(t.sizeX, t.sizeY, x, y);
    assert x + CentX(t) + 1 == x + 1 + CentX(t);
    PadNext(t, padded, x + CentX(t), y + CentY(t), t.image[Index(t.sizeX, x, y)]);
  }

  method Copy4(t: Input, padded: array<real>, x: int, y: int)
    requires Proper(t) && 0 <= x && x + 3 < t.sizeX && 0 <= y < t.sizeY
    requires Padded(t, padded, Index(PaddedX(t), x + CentX(t), y + CentY(t)))
    modifies padded
    ensures Padded(t, padded, Index(PaddedX(t), x + 4 + CentX(t), y + CentY(t)))
  {
    hide Padded;
    hide Index;
    Copy1(t, padded, x, y);
    Copy1(t, padded, x + 1, y);
    Copy1(t, padded, x + 2, y);
    Copy1(t, padded, x + 3, y);
  }

  method Pad(t: Input) returns (padded: array<real>)
    requires Proper(t)
    ensures fresh(padded) && Padded(t, padded, PaddedX(t) * PaddedY(t))
  {
    RowStart(t, PaddedY(t));
    padded := new real[PaddedX(t) * PaddedY(t)];
    assert Index(PaddedX(t), 0, 0) == 0;
    PadBlock(t, padded, 0, CentY(t));
    var y := 0;
    while y < t.sizeY
      invariant 0 <= y <= t.sizeY && Padded(t, padded, Index(PaddedX(t), 0, y + CentY(t)))
    {
      PadRow(t, padded, y);
      y := y + 1;
    }
    PadBlock(t, padded, CentY(t) + t.sizeY, PaddedY(t));
  }

  // ---------- The fast version ----------

  ghost predicate Flipped(t: Input, kern: array<real>)
    reads kern
  {
    kern.Length == |t.kernel| && forall i :: 0 <= i < kern.Length ==> kern[i] == t.kernel[|t.kernel| - 1 - i]
  }

  method Flip(t: Input) returns (kern: array<real>)
    ensures fresh(kern) && Flipped(t, kern)
  {
    kern := new real[|t.kernel|];
    var i := 0;
    while i < |t.kernel|
      invariant 0 <= i <= |t.kernel|
      invariant forall j :: 0 <= j < i ==> kern[j] == t.kernel[|t.kernel| - 1 - j]
    {
      kern[i] := t.kernel[|t.kernel| - 1 - i];
      i := i + 1;
    }
  }

  ghost predicate Prepared(t: Input, padded: array<real>, kern: array<real>)
    reads padded, kern
  {
    Proper(t) && Padded(t, padded, PaddedX(t) * PaddedY(t)) && Flipped(t, kern)
  }

  lemma KernelPosition(t: Input, i: int)
    requires Proper(t) && 0 <= i < |t.kernel|
    ensures var a, b := i % t.kernelX, i / t.kernelX;
            0 <= a < t.kernelX && 0 <= b < t.kernelY && i == Index(t.kernelX, a, b)
  {
    hide Index;
    IndexOf(t.kernelX, i);
    IndexRow(t.kernelX, t.kernelY, i % t.kernelX, i / t.kernelX);
  }

  lemma PaddedCell(t: Input, padded: array<real>, u: int, v: int)
    requires Proper(t) && Padded(t, padded, PaddedX(t) * PaddedY(t)) && 0 <= u < PaddedX(t) && 0 <= v < PaddedY(t)
    ensures var p := Index(PaddedX(t), u, v); 0 <= p < padded.Length && padded[p] == PaddedAt(t, u, v)
  {
    hide PaddedAt;
    IndexRange(PaddedX(t), PaddedY(t), u, v);
    IndexSplits(PaddedX(t), u, v);
  }

  lemma KernelCell(t: Input, kern: array<real>, a: int, b: int)
    requires Proper(t) && Flipped(t, kern) && 0 <= a < t.kernelX && 0 <= b < t.kernelY
    ensures var i := Index(t.kernelX, a, b);
            0 <= i < kern.Length && kern[i] == Nth(t.kernel, Index(t.kernelX, t.kernelX - 1 - a, t.kernelY - 1 - b))
  {
    IndexRange(t.kernelX, t.kernelY, a, b);
    FlippedIndex(t, a, b);
    hide Index;
  }

  /** All accesses are in range, and element `i` of the flipped kernel meets the right cell of the padded image. */
  lemma TermAt(t: Input, padded: array<real>, kern: array<real>, x: int, y: int, i: int)
    requires Prepared(t, padded, kern) && 0 <= x < t.sizeX && 0 <= y < t.sizeY && 0 <= i < kern.Length
    ensures var a, b := i % t.kernelX, i / t.kernelX;
            var p := Index(PaddedX(t), x + a, y + b);
            && 0 <= a < t.kernelX && 0 <= b < t.kernelY && 0 <= p < padded.Length
            && Acc(t, x, y, i + 1) == Acc(t, x, y, i) + kern[i] * padded[p]
  {
    hide Index;
    hide PaddedAt;
    hide Padded;
    hide Nth;
    KernelPosition(t, i);
    var a, b := i % t.kernelX, i / t.kernelX;
    PaddedCell(t, padded, x + a, y + b);
    KernelCell(t, kern, a, b);
  }

  lemma FlippedIndex(t: Input, a: int, b: int)
    ensures t.kernelX * t.kernelY - 1 - Index(t.kernelX, a, b) == Index(t.kernelX, t.kernelX - 1 - a, t.kernelY - 1 - b)
  {
    assert (t.kernelY - 1 - b) * t.kernelX == t.kernelY * t.kernelX - t.kernelX - b * t.kernelX;
  }

  /** Four neighbouring pixels in the lanes of one register. */
  datatype Lanes = Lanes(a: real, b: real, c: real, d: real)

  ghost predicate Sums(t: Input, x: int, y: int, i: int, r: Lanes)
    requires t.kernelX >= 1
  {
    && i >= 0 && r.a == Acc(t, x, y, i) && r.b == Acc(t, x + 1, y, i)
    && r.c == Acc(t, x + 2, y, i) && r.d == Acc(t, x + 3, y, i)
  }

  lemma Neighbours(width: int, u: int, v: int)
    ensures var p := Index(width, u, v);
            && Index(width, u + 1, v) == p + 1 && Index(width, u + 2, v) == p + 2
            && Index(width, u + 3, v) == p + 3 && Index(width, u + 4, v) == p + 4
  {}

  /** One multiplication and addition in all lanes, with the cell that starts at column `a` and row `b`. */
  method MulAdd(t: Input, padded: array<real>, kern: array<real>, x: int, y: int, i: int, a: int, b: int, r: Lanes)
    returns (r': Lanes)
    requires Prepared(t, padded, kern) && 0 <= x && x + 3 < t.sizeX && 0 <= y < t.sizeY && 0 <= i < kern.Length
    requires t.kernelX >= 1 && a == i % t.kernelX && b == i / t.kernelX && Sums(t, x, y, i, r)
    ensures Sums(t, x, y, i + 1, r')
  {
    hide Acc;
    hide Prepared;
    hide Index;
    TermAt(t, padded, kern, x, y, i);
    TermAt(t, padded, kern, x + 1, y, i);
    TermAt(t, padded, kern, x + 2, y, i);
    TermAt(t, padded, kern, x + 3, y, i);
    var p, k := Index(PaddedX(t), x + a, y + b), kern[i];
    Neighbours(PaddedX(t), x + a, y + b);
    assert x + 1 + a == x + a + 1 && x + 2 + a == x + a + 2 && x + 3 + a == x + a + 3;
    r' := Lanes(r.a + k * padded[p], r.b + k * padded[p + 1], r.c + k * padded[p + 2], r.d + k * padded[p + 3]);
  }

  ghost predicate Quad(t: Input, padded: array<real>, kern: array<real>, x: int, y: int)
    reads padded, kern
  {
    Prepared(t, padded, kern) && 0 <= x && x + 3 < t.sizeX && 0 <= y < t.sizeY
  }

  /** Odd kernel widths from 3 to 19: one row of the kernel per turn, written out in the source, as far as `limit`. */
  method ByRows(t: Input, padded: array<real>, kern: array<real>, x: int, y: int, limit: int)
    returns (i: int, r: Lanes)
    requires Quad(t, padded, kern, x, y) && limit <= kern.Length
    ensures 0 <= i <= kern.Length && t.kernelX >= 1 && Sums(t, x, y, i, r)
  {
    hide Index;
    hide Padded;
    hide Acc;
    r := Lanes(0.0, 0.0, 0.0, 0.0);
    NothingSummed(t, x, y);
    var temp := 0;
    i := 0;
    RowEnds(t, 0);
    while i < limit
      invariant 0 <= temp && 0 <= i <= kern.Length && i == Index(t.kernelX, 0, temp) && Sums(t, x, y, i, r)
    {
      RowEnds(t, temp);
      var c := 0;
      while c < t.kernelX
        invariant 0 <= c <= t.kernelX && Sums(t, x, y, i + c, r)
      {
        InRow(t, c, temp);
        r := MulAdd(t, padded, kern, x, y, i + c, c, temp, r);
        c := c + 1;
      }
      i := i + t.kernelX;
      temp := temp + 1;
    }
  }

  lemma NothingSummed(t: Input, x: int, y: int)
    requires t.kernelX >= 1
    ensures Sums(t, x, y, 0, Lanes(0.0, 0.0, 0.0, 0.0)) && Index(t.kernelX, 0, 0) == 0
  {}

  /** A row that begins inside the kernel ends inside it. */
  lemma RowEnds(t: Input, b: int)
    requires Proper(t) && b >= 0
    ensures Index(t.kernelX, 0, b) < |t.kernel| ==> Index(t.kernelX, 0, b) + t.kernelX <= |t.kernel|
    ensures Index(t.kernelX, 0, b + 1) == Index(t.kernelX, 0, b) + t.kernelX
  {
    if Index(t.kernelX, 0, b) < |t.kernel| {
      IndexRow(t.kernelX, t.kernelY, 0, b);
      IndexRange(t.kernelX, t.kernelY, t.kernelX - 1, b);
    }
  }

  lemma InRow(t: Input, c: int, b: int)
    requires t.kernelX >= 1 && 0 <= c < t.kernelX
    ensures var i := Index(t.kernelX, 0, b) + c; i % t.kernelX == c && i / t.kernelX == b
  {
    IndexSplits(t.kernelX, c, b);
  }

  /** Other kernel widths: nine elements per turn. */
  method ByNines(t: Input, padded: array<real>, kern: array<real>, x: int, y: int) returns (i: int, r: Lanes)
    requires Quad(t, padded, kern, x, y)
    ensures 0 <= i <= kern.Length && t.kernelX >= 1 && Sums(t, x, y, i, r)
  {
    hide Index;
    hide Padded;
    hide Acc;
    r := Lanes(0.0, 0.0, 0.0, 0.0);
    NothingSummed(t, x, y);
    i := 0;
    while i < kern.Length - 8
      invariant 0 <= i <= kern.Length && Sums(t, x, y, i, r)
    {
      var n := 0;
      while n < 9
        invariant 0 <= n <= 9 && Sums(t, x, y, i + n, r)
      {
        r := MulAdd(t, padded, kern, x, y, i + n, (i + n) % t.kernelX, (i + n) / t.kernelX, r);
        n := n + 1;
      }
      i := i + 9;
    }
  }

  /** Four pixels at once: the unrolled turns, then the rest of the kernel one element at a time. */
  method FourPixels(t: Input, padded: array<real>, kern: array<real>, x: int, y: int) returns (r: Lanes)
    requires Quad(t, padded, kern, x, y)
    ensures r == Lanes(Pixel(t, x, y), Pixel(t, x + 1, y), Pixel(t, x + 2, y), Pixel(t, x + 3, y))
  {
    hide Index;
    hide Padded;
    hide Acc;
    hide Pixel;
    var i;
    if t.kernelX == 3 && t.kernelY == 3 {
      i, r := ByRows(t, padded, kern, x, y, kern.Length);
    } else if 3 <= t.kernelX <= 19 && t.kernelX % 2 == 1 {
      i, r := ByRows(t, padded, kern, x, y, kern.Length - t.kernelX - 1);
    } else {
      i, r := ByNines(t, padded, kern, x, y);
    }
    while i < kern.Length
      invariant 0 <= i <= kern.Length && Sums(t, x, y, i, r)
    {
      r := MulAdd(t, padded, kern, x, y, i, i % t.kernelX, i / t.kernelX, r);
      i := i + 1;
    }
    OrdersAgree(t, x, y);
    OrdersAgree(t, x + 1, y);
    OrdersAgree(t, x + 2, y);
    OrdersAgree(t, x + 3, y);
  }

  // ---------- Writing the output ----------

  /** The cells before `n` have their final value, the others are as they were. */
  ghost predicate Written(t: Input, out: array<real>, before: seq<real>, n: int)
    reads out
    requires Proper(t)
  {
    && out.Length == |t.image| == |before| && 0 <= n <= out.Length
    && (forall p :: 0 <= p < n ==> t.sizeX >= 1 && out[p] == Stored(t, before, p))
    && (forall p :: n <= p < out.Length ==> out[p] == before[p])
  }

  method StoreFour(t: Input, out: array<real>, x: int, y: int, r: Lanes, ghost before: seq<real>)
    requires Proper(t) && 0 <= x && x % 4 == 0 && x + 3 < t.sizeX && 0 <= y < t.sizeY
    requires r == Lanes(Pixel(t, x, y), Pixel(t, x + 1, y), Pixel(t, x + 2, y), Pixel(t, x + 3, y))
    requires Written(t, out, before, Index(t.sizeX, x, y))
    modifies out
    ensures Written(t, out, before, Index(t.sizeX, x + 4, y))
  {
    hide Pixel;
    hide Proper;
    hide Index;
    hide Stored;
    StoredAt(t, before, x, y);
    StoredAt(t, before, x + 1, y);
    StoredAt(t, before, x + 2, y);
    StoredAt(t, before, x + 3, y);
    var p := Index(t.sizeX, x, y);
    Neighbours(t.sizeX, x, y);
    out[p], out[p + 1], out[p + 2], out[p + 3] := r.a, r.b, r.c, r.d;
  }

  lemma StoredAt(t: Input, before: seq<real>, x: int, y: int)
    requires Proper(t) && 0 <= x < t.sizeX && 0 <= y < t.sizeY
    ensures var p := Index(t.sizeX, x, y);
            && 0 <= p < |t.image|
            && Stored(t, before, p) == (if x < t.sizeX / 4 * 4 then 0.0 else Nth(before, p)) + Pixel(t, x, y)
  {
    hide Pixel;
    IndexRange(t.sizeX, t.sizeY, x, y);
    IndexSplits(t.sizeX, x, y);
  }

  /** A pixel that does not fill a vector is added to what is there. */
  method AddOne(t: Input, padded: array<real>, kern: array<real>, out: array<real>, x: int, y: int,
                ghost before: seq<real>)
    requires Prepared(t, padded, kern) && t.sizeX / 4 * 4 <= x < t.sizeX && 0 <= y < t.sizeY
    requires Written(t, out, before, Index(t.sizeX, x, y)) && out != padded && out != kern
    modifies out
    ensures Written(t, out, before, Index(t.sizeX, x + 1, y)) && Prepared(t, padded, kern)
  {
    hide Pixel;
    hide Acc;
    hide Padded;
    StoredAt(t, before, x, y);
    IndexNextRow(t.sizeX, x, y);
    var p := Index(t.sizeX, x, y);
    hide Index;
    hide Stored;
    NothingSummed(t, x, y);
    var i := 0;
    while i < kern.Length
      invariant 0 <= i <= kern.Length && Prepared(t, padded, kern)
      invariant out[p] == before[p] + Acc(t, x, y, i)
      invariant forall q :: 0 <= q < out.Length && q != p ==> out[q] == old(out[q])
    {
      TermAt(t, padded, kern, x, y, i);
      out[p] := out[p] + kern[i] * padded[Index(PaddedX(t), x + i % t.kernelX, y + i / t.kernelX)];
      i := i + 1;
    }
    OrdersAgree(t, x, y);
  }

  lemma ProperSize(t: Input)
    requires Proper(t)
    ensures t.sizeX >= 0
  {}

  /** The vectors end at the last multiple of four. */
  lemma WholeVectors(n: int, x: int)
    requires x % 4 == 0 && n - 3 <= x
    ensures n / 4 * 4 <= x
  {}

  method ConvolveRow(t: Input, padded: array<real>, kern: array<real>, out: array<real>, y: int,
                     ghost before: seq<real>)
    requires Prepared(t, padded, kern) && 0 <= y < t.sizeY
    requires Written(t, out, before, Index(t.sizeX, 0, y)) && out != padded && out != kern
    modifies out
    ensures Written(t, out, before, Index(t.sizeX, 0, y + 1)) && Prepared(t, padded, kern)
  {
    hide Padded;
    hide Written;
    hide Index;
    hide Pixel;
    hide Proper;
    ProperSize(t);
    var x := 0;
    while x < t.sizeX - 3
      invariant 0 <= x <= t.sizeX && x % 4 == 0 && Prepared(t, padded, kern)
      invariant Written(t, out, before, Index(t.sizeX, x, y))
    {
      var r := FourPixels(t, padded, kern, x, y);
      StoreFour(t, out, x, y, r, before);
      x := x + 4;
    }
    assert t.sizeX / 4 * 4 <= x by {
      WholeVectors(t.sizeX, x);
    }
    while x < t.sizeX
      invariant t.sizeX / 4 * 4 <= x <= t.sizeX && Prepared(t, padded, kern)
      invariant Written(t, out, before, Index(t.sizeX, x, y))
    {
      AddOne(t, padded, kern, out, x, y, before);
      x := x + 1;
    }
    IndexNextRow(t.sizeX, t.sizeX, y);
  }

  /** The padded, flipped, unrolled and vectorized convolution. */
  method Conv2D(t: Input, out: array<real>)
    requires Proper(t) && out.Length == |t.image|
    modifies out
    ensures IsStored(t, old(out[..]), out[..])
  {
    hide Padded;
    ghost var before := out[..];
    var padded := Pad(t);
    var kern := Flip(t);
    NoneWritten(t);
    var y := 0;
    while y < t.sizeY
      invariant 0 <= y <= t.sizeY && Prepared(t, padded, kern) && Written(t, out, before, Index(t.sizeX, 0, y))
    {
      ConvolveRow(t, padded, kern, out, y, before);
      y := y + 1;
    }
  }

  lemma NoneWritten(t: Input)
    ensures Index(t.sizeX, 0, 0) == 0 && Index(t.sizeX, 0, t.sizeY) == t.sizeX * t.sizeY
  {}

  /**
   * On two outputs with the same contents: with a kernel that has a center, the implementations agree exactly if the
   * vector cells were zero.
   */
  method RunBoth(t: Input, slow: array<real>, fast: array<real>)
    requires Proper(t) && slow.Length == fast.Length == |t.image| && slow != fast && slow[..] == fast[..]
    modifies slow, fast
    ensures IsAccumulated(Seen(t), old(slow[..]), slow[..]) && IsStored(t, old(slow[..]), fast[..])
    ensures Odd(t) ==>
              (fast[..] == slow[..] <==>
                 forall p :: 0 <= p < slow.Length && t.sizeX >= 1 && InVectors(t, p) ==> old(slow[..])[p] == 0.0)
  {
    ghost var before := slow[..];
    Reference(t, slow);
    Conv2D(t, fast);
    if Odd(t) {
      AgreeIff(t, before, slow[..], fast[..]);
    }
  }
}
