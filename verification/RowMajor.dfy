/** Cells of a grid numbered row by row. */
module RowMajor {

  function Index(width: int, x: int, y: int): int {
    y * width + x
  }

  lemma IndexFirst(width: int, y: int)
    ensures Index(width, 0, y) == width * y
  {}

  lemma Scaled(d: int, n: int)
    requires n >= 1
    ensures d >= 1 ==> d * n >= n
    ensures d <= -1 ==> d * n <= -n
    ensures d >= 0 ==> d * n >= 0
  {}

  /** Quotient and remainder are the numbers that fit. */
  lemma RemainderUnique(a: int, n: int, q: int, r: int)
    requires n >= 1 && a == q * n + r && 0 <= r < n
    ensures r == a % n && q == a / n
  {
    var d := a / n - q;
    assert d * n == r - a % n;
    Scaled(d, n);
  }

  /** The cells from the beginning of row `from` to that of row `to` lie in the rows between. */
  lemma RowBetween(n: int, a: int, from: int, to: int)
    requires n >= 1 && n * from <= a < n * to
    ensures from <= a / n < to
  {
    var q := a / n;
    assert q * n <= a < q * n + n;
    assert (q - to) * n == q * n - n * to && (from - 1 - q) * n == n * from - n - q * n;
    Scaled(q - to, n);
    Scaled(from - 1 - q, n);
  }

  lemma IndexRange(width: int, height: int, x: int, y: int)
    requires 0 <= x < width && 0 <= y < height
    ensures 0 <= Index(width, x, y) < width * height
  {
    Scaled(y, width);
    assert (height - 1 - y) * width == height * width - width - y * width;
    Scaled(height - 1 - y, width);
  }

  lemma IndexRow(width: int, height: int, x: int, y: int)
    requires 0 <= x < width && 0 <= y && Index(width, x, y) < width * height
    ensures y < height
  {
    assert (y - height) * width == y * width - height * width;
    Scaled(y - height, width);
  }

  /** The coordinates of a cell are the remainder and the quotient of its number. */
  lemma IndexSplits(width: int, x: int, y: int)
    requires 0 <= x < width
    ensures Index(width, x, y) % width == x && Index(width, x, y) / width == y
  {
    RemainderUnique(Index(width, x, y), width, y, x);
  }

  lemma IndexOf(width: int, p: int)
    requires width >= 1 && p >= 0
    ensures 0 <= p % width < width && 0 <= p / width && Index(width, p % width, p / width) == p
  {
    assert p / width * width + p % width == p;
    Scaled(p / width, width);
  }

  lemma IndexInjective(width: int, x: int, y: int, x': int, y': int)
    requires 0 <= x < width && 0 <= x' < width && Index(width, x, y) == Index(width, x', y')
    ensures x == x' && y == y'
  {
    IndexSplits(width, x, y);
    IndexSplits(width, x', y');
  }

  lemma IndexNextRow(width: int, x: int, y: int)
    ensures Index(width, x, y) == Index(width, x - width, y + 1)
    ensures Index(width, x + 1, y) == Index(width, x, y) + 1
  {}
}
