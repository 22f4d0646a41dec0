/**
 * Two-dimensional convolution: a sum column by column, as the reference computes it, and the same sum in the order in
 * which the fast version goes through the flipped kernel. Numbers are reals, so the order of the summands does not
 * matter. A kernel with an even side has no center, and there the two do not sum up the same things.
 */
module Convolution {
  import opened RowMajor

  datatype Input = Input(sizeX: int, sizeY: int, image: seq<real>, kernelX: int, kernelY: int, kernel: seq<real>)

  predicate Proper(t: Input) {
    && t.sizeX >= 0 && t.sizeY >= 0 && |t.image| == t.sizeX * t.sizeY
    && t.kernelX >= 1 && t.kernelY >= 1 && |t.kernel| == t.kernelX * t.kernelY
  }

  /** The kernel has a center. */
  predicate Odd(t: Input) {
    t.kernelX % 2 == 1 && t.kernelY % 2 == 1
  }

  function CentX(t: Input): int { (t.kernelX - 1) / 2 }
  function CentY(t: Input): int { (t.kernelY - 1) / 2 }
  function PaddedX(t: Input): int { t.kernelX - 1 + t.sizeX }
  function PaddedY(t: Input): int { t.kernelY - 1 + t.sizeY }

  function Nth(s: seq<real>, i: int): real {
    if 0 <= i < |s| then s[i] else 0.0
  }

  predicate InImage(t: Input, x: int, y: int) {
    0 <= x < t.sizeX && 0 <= y < t.sizeY
  }

  /** The image with a border of zeros around it. */
  function PaddedAt(t: Input, u: int, v: int): real {
    if InImage(t, u - CentX(t), v - CentY(t)) then Nth(t.image, Index(t.sizeX, u - CentX(t), v - CentY(t))) else 0.0
  }

  /** The element in column `a` and row `b` of the flipped kernel. */
  function Coef(t: Input, a: int, b: int): real {
    Nth(t.kernel, Index(t.kernelX, t.kernelX - 1 - a, t.kernelY - 1 - b))
  }

  /** The summand of pixel (x, y) for that element. */
  function Term(t: Input, x: int, y: int, a: int, b: int): real {
    Coef(t, a, b) * PaddedAt(t, x + a, y + b)
  }

  // ---------- The kernel as the reference sees it ----------

  /** Element `p` of the kernel after it was moved by one in every direction in which its side is even. */
  function Moved(t: Input, p: int): real
    requires t.kernelX >= 1
  {
    var m, n := p % t.kernelX - (t.kernelX - 1) % 2, p / t.kernelX - (t.kernelY - 1) % 2;
    if m < 0 || n < 0 then 0.0 else Nth(t.kernel, Index(t.kernelX, m, n))
  }

  /** The reference counts from a center that is rounded down, and never looks at the last column and row. */
  function Seen(t: Input): (s: Input)
    requires t.kernelX >= 1
    ensures Proper(t) ==> Proper(s)
  {
    t.(kernel := seq(|t.kernel|, p requires 0 <= p => Moved(t, p)))
  }

  // ---------- The sum by columns, as the reference adds it up ----------

  function ColumnSum(t: Input, x: int, y: int, a: int, m: nat): real {
    if m == 0 then 0.0 else ColumnSum(t, x, y, a, m - 1) + Term(t, x, y, a, m - 1)
  }

  function SumByColumns(t: Input, x: int, y: int, n: nat, m: nat): real {
    if n == 0 then 0.0 else SumByColumns(t, x, y, n - 1, m) + ColumnSum(t, x, y, n - 1, m)
  }

  function Pixel(t: Input, x: int, y: int): real
    requires Proper(t)
  {
    SumByColumns(t, x, y, t.kernelX, t.kernelY)
  }

  // ---------- The sum in one go through the flipped kernel ----------

  function Acc(t: Input, x: int, y: int, n: nat): real
    requires t.kernelX >= 1
  {
    if n == 0 then 0.0 else Acc(t, x, y, n - 1) + Term(t, x, y, (n - 1) % t.kernelX, (n - 1) / t.kernelX)
  }

  function RowSum(t: Input, x: int, y: int, n: nat, b: int): real {
    if n == 0 then 0.0 else RowSum(t, x, y, n - 1, b) + Term(t, x, y, n - 1, b)
  }

  lemma {:induction false} OneMoreRow(t: Input, x: int, y: int, n: nat, m: nat)
    ensures SumByColumns(t, x, y, n, m + 1) == SumByColumns(t, x, y, n, m) + RowSum(t, x, y, n, m)
  {
    hide Term;
    if n > 0 {
      OneMoreRow(t, x, y, n - 1, m);
    }
  }

  lemma {:induction false} NoRows(t: Input, x: int, y: int, n: nat)
    ensures SumByColumns(t, x, y, n, 0) == 0.0
  {
    if n > 0 {
      NoRows(t, x, y, n - 1);
    }
  }

  lemma {:induction false} AccInRow(t: Input, x: int, y: int, a: nat, b: nat)
    requires t.kernelX >= 1 && a <= t.kernelX && Index(t.kernelX, 0, b) >= 0
    ensures Acc(t, x, y, Index(t.kernelX, 0, b) + a) == Acc(t, x, y, Index(t.kernelX, 0, b)) + RowSum(t, x, y, a, b)
  {
    hide Term;
    if a > 0 {
      AccInRow(t, x, y, a - 1, b);
      IndexSplits(t.kernelX, a - 1, b);
    }
  }

  lemma {:induction false} AccRows(t: Input, x: int, y: int, m: nat)
    requires t.kernelX >= 1
    ensures Index(t.kernelX, 0, m) >= 0
    ensures Acc(t, x, y, Index(t.kernelX, 0, m)) == SumByColumns(t, x, y, t.kernelX, m)
  {
    hide Term;
    Scaled(m, t.kernelX);
    if m == 0 {
      NoRows(t, x, y, t.kernelX);
    } else {
      AccRows(t, x, y, m - 1);
      AccInRow(t, x, y, t.kernelX, m - 1);
      IndexNextRow(t.kernelX, t.kernelX, m - 1);
      OneMoreRow(t, x, y, t.kernelX, m - 1);
    }
  }

  /** Both orders give the same pixel. */
  lemma OrdersAgree(t: Input, x: int, y: int)
    requires Proper(t)
    ensures Acc(t, x, y, t.kernelX * t.kernelY) == Pixel(t, x, y)
  {
    hide Acc;
    hide Term;
    hide SumByColumns;
    AccRows(t, x, y, t.kernelY);
    assert Index(t.kernelX, 0, t.kernelY) == t.kernelX * t.kernelY by {
      hide *;
      IndexFirst(t.kernelX, t.kernelY);
    }
  }

  // ---------- The outputs ----------

  /** The value that the reference leaves in cell `p` of an output that held `before`. */
  function Accumulated(t: Input, before: seq<real>, p: int): real
    requires Proper(t) && t.sizeX >= 1
  {
    Nth(before, p) + Pixel(t, p % t.sizeX, p / t.sizeX)
  }

  /** The cells that the fast version computes four at a time, and stores without looking at what was there. */
  predicate InVectors(t: Input, p: int)
    requires t.sizeX >= 1
  {
    p % t.sizeX < t.sizeX / 4 * 4
  }

  function Stored(t: Input, before: seq<real>, p: int): real
    requires Proper(t) && t.sizeX >= 1
  {
    (if InVectors(t, p) then 0.0 else Nth(before, p)) + Pixel(t, p % t.sizeX, p / t.sizeX)
  }

  ghost predicate IsAccumulated(t: Input, before: seq<real>, after: seq<real>)
    requires Proper(t)
  {
    && |after| == |before| == |t.image|
    && forall p :: 0 <= p < |after| ==> t.sizeX >= 1 && after[p] == Accumulated(t, before, p)
  }

  ghost predicate IsStored(t: Input, before: seq<real>, after: seq<real>)
    requires Proper(t)
  {
    && |after| == |before| == |t.image|
    && forall p :: 0 <= p < |after| ==> t.sizeX >= 1 && after[p] == Stored(t, before, p)
  }

  /** With a kernel that has a center, fast and reference agree exactly on the outputs whose vector cells were zero. */
  lemma AgreeIff(t: Input, before: seq<real>, reference: seq<real>, fast: seq<real>)
    requires Proper(t) && Odd(t) && IsAccumulated(Seen(t), before, reference) && IsStored(t, before, fast)
    ensures fast == reference <==> forall p :: 0 <= p < |before| && t.sizeX >= 1 && InVectors(t, p) ==> before[p] == 0.0
  {
    OddSeen(t);
    hide Pixel;
    hide InVectors;
    hide Seen;
    if fast == reference {
      forall p | 0 <= p < |before| && t.sizeX >= 1 && InVectors(t, p) ensures before[p] == 0.0 {
        assert fast[p] == Stored(t, before, p) && reference[p] == Accumulated(t, before, p);
      }
    } else {
      var p :| 0 <= p < |fast| && fast[p] != reference[p];
      assert fast[p] == Stored(t, before, p) && reference[p] == Accumulated(t, before, p);
      assert InVectors(t, p);
    }
  }

  // ---------- Kernels without a center ----------

  lemma OddSeen(t: Input)
    requires Proper(t) && Odd(t)
    ensures Seen(t) == t
  {
    hide Moved;
    forall p | 0 <= p < |t.kernel| ensures Moved(t, p) == t.kernel[p] {
      OddMoved(t, p);
    }
  }

  lemma OddMoved(t: Input, p: int)
    requires t.kernelX >= 1 && Odd(t) && 0 <= p < |t.kernel|
    ensures Moved(t, p) == t.kernel[p]
  {
    hide Index;
    IndexOf(t.kernelX, p);
  }

  ghost predicate AllZero(k: seq<real>) {
    forall p :: 0 <= p < |k| ==> k[p] == 0.0
  }

  /** An element that is not moved in from outside comes from one before it, unless the kernel was not moved at all. */
  lemma MovedFrom(t: Input, p: int) returns (q: int)
    requires Proper(t) && !Odd(t) && 0 <= p < |t.kernel|
    ensures Moved(t, p) == 0.0 || (0 <= q < p && Moved(t, p) == t.kernel[q])
  {
    hide Index;
    var ex, ey := (t.kernelX - 1) % 2, (t.kernelY - 1) % 2;
    q := Index(t.kernelX, p % t.kernelX - ex, p / t.kernelX - ey);
    if p % t.kernelX >= ex && p / t.kernelX >= ey {
      MovedBack(t.kernelX, p, ex, ey);
    }
  }

  lemma MovedBack(width: int, p: int, ex: int, ey: int)
    requires width >= 1 && p >= 0 && 0 <= ex <= 1 && 0 <= ey <= 1 && ex + ey >= 1
    requires p % width >= ex && p / width >= ey
    ensures 0 <= Index(width, p % width - ex, p / width - ey) < p
  {
    var a, b := p % width, p / width;
    IndexOf(width, p);
    Back(width, a, b, ex, ey);
  }

  lemma Back(width: int, a: int, b: int, ex: int, ey: int)
    requires width >= 1 && 0 <= ex <= 1 && 0 <= ey <= 1 && ex + ey >= 1 && ex <= a && ey <= b
    ensures 0 <= Index(width, a - ex, b - ey) < Index(width, a, b)
  {
    Scaled(b - ey, width);
    assert ey == 1 ==> (b - 1) * width == b * width - width;
  }

  /** A kernel that looks the same after it was moved is zero, unless it was not moved at all. */
  lemma {:induction false} SeenSame(t: Input, p: int)
    requires Proper(t) && !Odd(t) && Seen(t).kernel == t.kernel && 0 <= p < |t.kernel|
    ensures t.kernel[p] == 0.0
    decreases p
  {
    hide Moved;
    assert t.kernel[p] == Seen(t).kernel[p] == Moved(t, p);
    var q := MovedFrom(t, p);
    if 0 <= q < p {
      SeenSame(t, q);
    }
  }

  /** The image of the size of the kernel that is 1 in one place and 0 everywhere else. */
  function Dot(kernelX: int, kernelY: int, kernel: seq<real>, at: int): Input
    requires 1 <= kernelX && 1 <= kernelY && |kernel| == kernelX * kernelY
  {
    Input(kernelX, kernelY, seq(|kernel|, p => if p == at then 1.0 else 0.0), kernelX, kernelY, kernel)
  }

  /** The image is 1 in one place and 0 everywhere else. */
  ghost predicate IsDot(t: Input, u: int, v: int) {
    && Proper(t) && InImage(t, u, v)
    && forall p :: 0 <= p < |t.image| ==> t.image[p] == if p == Index(t.sizeX, u, v) then 1.0 else 0.0
  }

  lemma DotPadded(t: Input, u: int, v: int, x: int, y: int)
    requires IsDot(t, u, v)
    ensures PaddedAt(t, x + CentX(t), y + CentY(t)) == if x == u && y == v then 1.0 else 0.0
  {
    hide Index;
    if InImage(t, x, y) {
      IndexRange(t.sizeX, t.sizeY, x, y);
      if Index(t.sizeX, x, y) == Index(t.sizeX, u, v) {
        IndexInjective(t.sizeX, x, y, u, v);
      }
    }
  }

  lemma {:induction false} DotColumn(t: Input, u: int, v: int, x: int, y: int, c: int, m: nat)
    requires IsDot(t, u, v)
    ensures var a, b := u - x + CentX(t), v - y + CentY(t);
            ColumnSum(t, x, y, c, m) == if c == a && 0 <= b < m then Coef(t, a, b) else 0.0
  {
    hide IsDot;
    hide PaddedAt;
    hide Coef;
    if m > 0 {
      DotColumn(t, u, v, x, y, c, m - 1);
      DotPadded(t, u, v, x + c - CentX(t), y + m - 1 - CentY(t));
    }
  }

  lemma {:induction false} DotSum(t: Input, u: int, v: int, x: int, y: int, n: nat)
    requires IsDot(t, u, v)
    ensures var a, b := u - x + CentX(t), v - y + CentY(t);
            SumByColumns(t, x, y, n, t.kernelY) == if 0 <= a < n && 0 <= b < t.kernelY then Coef(t, a, b) else 0.0
  {
    if n > 0 {
      DotSum(t, u, v, x, y, n - 1);
      DotColumn(t, u, v, x, y, n - 1, t.kernelY);
    }
    hide IsDot;
    hide Coef;
  }

  /** What a convolution is: the answer to a dot is the kernel itself, as it stands, around the place of the dot. */
  lemma DotResponse(t: Input, u: int, v: int, x: int, y: int)
    requires IsDot(t, u, v) && Odd(t)
    ensures var m, n := x - u + CentX(t), y - v + CentY(t);
            Pixel(t, x, y) == if 0 <= m < t.kernelX && 0 <= n < t.kernelY
                              then Nth(t.kernel, Index(t.kernelX, m, n)) else 0.0
  {
    hide Index;
    hide Nth;
    DotSum(t, u, v, x, y, t.kernelX);
  }

  lemma DotPixel(t: Input, a: int, b: int)
    requires Proper(t) && 0 <= a < t.kernelX && 0 <= b < t.kernelY
    requires t == Dot(t.kernelX, t.kernelY, t.kernel, Index(t.kernelX, a, b))
    ensures InImage(t, CentX(t), CentY(t)) && Pixel(t, CentX(t), CentY(t)) == Coef(t, a, b)
  {
    assert IsDot(t, a, b);
    DotSum(t, a, b, CentX(t), CentY(t), t.kernelX);
    hide IsDot;
    hide Coef;
  }

  /** Both convolutions are the same for every image. */
  ghost predicate SameForAll(kernelX: int, kernelY: int, kernel: seq<real>) {
    forall t: Input, x: int, y: int ::
      Proper(t) && t.kernelX == kernelX && t.kernelY == kernelY && t.kernel == kernel && InImage(t, x, y) ==>
        Pixel(Seen(t), x, y) == Pixel(t, x, y)
  }

  /**
   * The fast version sums up what the reference sums up, for every image, if and only if both sides of the kernel are
   * odd or all of it is zero.
   */
  lemma SameForAllIff(kernelX: int, kernelY: int, kernel: seq<real>)
    requires kernelX >= 1 && kernelY >= 1 && |kernel| == kernelX * kernelY
    ensures SameForAll(kernelX, kernelY, kernel) <==> (kernelX % 2 == 1 && kernelY % 2 == 1) || AllZero(kernel)
  {
    if SameForAll(kernelX, kernelY, kernel) {
      var t := Dot(kernelX, kernelY, kernel, 0);
      forall p | 0 <= p < |kernel| ensures Seen(t).kernel[p] == kernel[p] {
        DotTells(kernelX, kernelY, kernel, p);
      }
      assert Seen(t).kernel == kernel;
      if !Odd(t) {
        forall p | 0 <= p < |kernel| ensures kernel[p] == 0.0 {
          SeenSame(t, p);
        }
      }
    } else {
      var t: Input, x, y :| Proper(t) && t.kernelX == kernelX && t.kernelY == kernelY && t.kernel == kernel
                            && Pixel(Seen(t), x, y) != Pixel(t, x, y);
      if Odd(t) {
        OddSeen(t);
      } else if AllZero(kernel) {
        ZeroSeen(t);
      }
    }
  }

  lemma ZeroSeen(t: Input)
    requires Proper(t) && AllZero(t.kernel)
    ensures Seen(t) == t
  {}

  lemma CoefAt(t: Input, p: int)
    requires Proper(t) && 0 <= p < |t.kernel|
    ensures 0 <= p % t.kernelX < t.kernelX && 0 <= p / t.kernelX < t.kernelY
    ensures Coef(t, t.kernelX - 1 - p % t.kernelX, t.kernelY - 1 - p / t.kernelX) == t.kernel[p]
  {
    hide Index;
    IndexOf(t.kernelX, p);
    IndexRow(t.kernelX, t.kernelY, p % t.kernelX, p / t.kernelX);
  }

  /** One image for each element of the kernel tells whether the reference sees the same one. */
  lemma DotTells(kernelX: int, kernelY: int, kernel: seq<real>, p: int)
    requires kernelX >= 1 && kernelY >= 1 && |kernel| == kernelX * kernelY && 0 <= p < |kernel|
    requires SameForAll(kernelX, kernelY, kernel)
    ensures Moved(Dot(kernelX, kernelY, kernel, 0), p) == kernel[p]
  {
    hide Pixel;
    hide Index;
    hide Coef;
    hide Moved;
    CoefAt(Dot(kernelX, kernelY, kernel, 0), p);
    var a, b := kernelX - 1 - p % kernelX, kernelY - 1 - p / kernelX;
    var t := Dot(kernelX, kernelY, kernel, Index(kernelX, a, b));
    CoefAt(t, p);
    CoefAt(Seen(t), p);
    DotPixel(t, a, b);
    DotPixel(Seen(t), a, b);
    assert Pixel(Seen(t), CentX(t), CentY(t)) == Pixel(t, CentX(t), CentY(t));
    MovedAlike(t, Dot(kernelX, kernelY, kernel, 0), p);
  }

  lemma MovedAlike(t: Input, s: Input, p: int)
    requires t.kernelX >= 1 && s.kernelX == t.kernelX && s.kernelY == t.kernelY && s.kernel == t.kernel
    ensures Moved(t, p) == Moved(s, p)
  {}

  /** A kernel of two elements, of which the reference uses the first for a pixel and the fast version the second. */
  lemma EvenSideDiffers()
    ensures var t := Dot(2, 1, [0.0, 1.0], 0);
            Proper(t) && InImage(t, 0, 0) && Pixel(Seen(t), 0, 0) == 0.0 && Pixel(t, 0, 0) == 1.0
  {
    hide Pixel;
    hide Index;
    hide Coef;
    hide Moved;
    var t := Dot(2, 1, [0.0, 1.0], 0);
    var s := Seen(t);
    assert s.kernel[1] == Moved(t, 1);
    TwoMoved(t);
    CoefAt(t, 1);
    CoefAt(s, 1);
    IndexFirst(2, 0);
    DotPixel(t, 0, 0);
    SameDot(t, s);
    DotPixel(s, 0, 0);
  }

  lemma TwoMoved(t: Input)
    requires t.kernelX == 2 && t.kernelY == 1 && |t.kernel| == 2
    ensures Moved(t, 1) == t.kernel[0]
  {}

  lemma SameDot(t: Input, s: Input)
    requires |t.kernel| == |s.kernel| == 2 && t == Dot(2, 1, t.kernel, 0) && s == t.(kernel := s.kernel)
    ensures s == Dot(2, 1, s.kernel, 0)
  {}
}
