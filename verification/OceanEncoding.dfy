/**
 * The ocean as a grid of cells and as a run-length encoding, the conversions between the two, and the
 * operations that put a fish or a newborn shark into a cell of either of them.
 */
module OceanEncoding {
  import opened Basics
  import opened OceanRuns
  import opened Rings
  import opened RowMajor
  import opened RunList

  // ---------- Coordinates ----------

  /** The remainder that takes the sign of the dividend. */
  function JavaRem(a: int, n: int): int
    requires n >= 1
  {
    if a >= 0 then a % n else -(-a % n)
  }

  /** Coordinates outside the ocean wrap around. */
  function Wrap(a: int, n: int): (r: int)
    requires n >= 1
    ensures 0 <= r < n && r == a % n
  {
    var m := JavaRem(a, n);
    assert m < 0 ==> m + n == a % n by {
      if m < 0 { RemainderUnique(a, n, -(-a / n) - 1, m + n); }
    }
    assert a < 0 && m == 0 ==> a % n == 0 by {
      if a < 0 && m == 0 { RemainderUnique(a, n, -(-a / n), 0); }
    }
    if m < 0 then m + n else m
  }

  // ---------- The plain ocean ----------

  class Ocean {
    const width: int
    const height: int
    const starveTime: int
    const ocean: array2<Cell>
    ghost var cells: seq<Cell>  // the grid, row by row

    ghost predicate Valid()
      reads this, ocean
    {
      && width >= 1 && height >= 1 && ocean.Length0 == width && ocean.Length1 == height
      && |cells| == width * height
      && (forall i :: 0 <= i < |cells| ==> Known(cells[i]))
      && (forall x, y :: 0 <= x < width && 0 <= y < height ==> Shows(x, y))
    }

    ghost predicate Shows(x: int, y: int)
      requires 0 <= x < ocean.Length0 && 0 <= y < ocean.Length1
      reads this, ocean
    {
      0 <= Index(width, x, y) < |cells| && ocean[x, y] == cells[Index(width, x, y)]
    }

    constructor (i: int, j: int, starveTime: int)
      requires i >= 1 && j >= 1
      ensures Valid() && fresh(ocean) && width == i && height == j && this.starveTime == starveTime
      ensures cells == Repeat(Nothing, i * j)
    {
      width, height, this.starveTime := i, j, starveTime;
      ocean := new Cell[i, j]((_, _) => Nothing);
      cells := Repeat(Nothing, i * j);
      new;
      forall x, y | 0 <= x < width && 0 <= y < height ensures Shows(x, y) {
        IndexRange(width, height, x, y);
      }
    }

    method CellContents(x: int, y: int) returns (kind: int)
      requires Valid()
      ensures 0 <= Index(width, Wrap(x, width), Wrap(y, height)) < |cells|
      ensures kind == cells[Index(width, Wrap(x, width), Wrap(y, height))].kind
    {
      assert Shows(Wrap(x, width), Wrap(y, height));
      return ocean[Wrap(x, width), Wrap(y, height)].kind;
    }

    /**
     * The hunger of the shark in a cell. The coordinates are wrapped for the test, but not for the access: a shark
     * that is asked for from outside the grid is an index out of range.
     */
    method SharkFeeding(x: int, y: int) returns (hunger: Option<int>)
      requires Valid()
      ensures 0 <= Index(width, Wrap(x, width), Wrap(y, height)) < |cells|
      ensures var c := cells[Index(width, Wrap(x, width), Wrap(y, height))];
              hunger == if c.kind == SHARK && !(0 <= x < width && 0 <= y < height) then None else Some(c.hunger)
      ensures 0 <= x < width && 0 <= y < height ==> Shows(x, y) && hunger == Some(cells[Index(width, x, y)].hunger)
    {
      var kind := CellContents(x, y);
      if 0 <= x < width && 0 <= y < height {
        RemainderUnique(x, width, 0, x);
        RemainderUnique(y, height, 0, y);
        assert Shows(x, y);
      }
      if kind != SHARK {
        return Some(NULL_HUNGER);
      } else if 0 <= x < width && 0 <= y < height {
        return Some(ocean[x, y].hunger);
      } else {
        return None;
      }
    }

    /** Puts a creature into a cell unless the cell is occupied. */
    method Put(x: int, y: int, c: Cell)
      requires Valid() && Known(c)
      modifies this`cells, ocean
      ensures Valid() && 0 <= Index(width, Wrap(x, width), Wrap(y, height)) < |cells|
      ensures cells == Placed(old(cells), Index(width, Wrap(x, width), Wrap(y, height)), c)
    {
      var kind := CellContents(x, y);
      if kind == EMPTY {
        var x', y' := Wrap(x, width), Wrap(y, height);
        Write(x', y', c);
      }
    }

    method Write(x: int, y: int, c: Cell)
      requires Valid() && Known(c) && 0 <= x < width && 0 <= y < height
      modifies this`cells, ocean
      ensures Valid() && 0 <= Index(width, x, y) < |cells| && cells == old(cells)[Index(width, x, y) := c]
    {
      assert Shows(x, y);
      ghost var was := cells;
      ocean[x, y] := c;
      cells := cells[Index(width, x, y) := c];
      forall i, j | 0 <= i < width && 0 <= j < height ensures Shows(i, j) {
        assert old(Shows(i, j));
        if Index(width, i, j) == Index(width, x, y) {
          IndexInjective(width, i, j, x, y);
        }
      }
    }

    method AddFish(x: int, y: int)
      requires Valid()
      modifies this`cells, ocean
      ensures Valid() && 0 <= Index(width, Wrap(x, width), Wrap(y, height)) < |cells|
      ensures cells == Placed(old(cells), Index(width, Wrap(x, width), Wrap(y, height)), Fish)
    {
      Put(x, y, Fish);
    }

    /** A newborn shark has `starveTime` steps to live. */
    method AddShark(x: int, y: int)
      requires Valid()
      modifies this`cells, ocean
      ensures Valid() && 0 <= Index(width, Wrap(x, width), Wrap(y, height)) < |cells|
      ensures cells == Placed(old(cells), Index(width, Wrap(x, width), Wrap(y, height)), Cell(SHARK, starveTime))
    {
      Put(x, y, Cell(SHARK, starveTime));
    }
  }

  /** A shark in the corner of any ocean, asked for from one ocean further on. */
  method SharkNextDoor(i: int, j: int, starveTime: int) returns (hunger: Option<int>)
    requires i >= 1 && j >= 1 && starveTime >= 0
    ensures hunger == None
  {
    var sea := new Ocean(i, j, starveTime);
    sea.AddShark(0, 0);
    RemainderUnique(0, i, 0, 0);
    RemainderUnique(i, i, 1, 0);
    RemainderUnique(0, j, 0, 0);
    hunger := sea.SharkFeeding(i, 0);
  }

  // ---------- The encoded ocean ----------

  /** Encoding has come as far as `cells`: the finished runs, and a run still growing. */
  ghost predicate Encoded(runs: seq<Run>, curr: Cell, n: int, cells: seq<Cell>) {
    && Compressed(runs) && Known(curr) && n >= 1 && Decode(runs) + Repeat(curr, n) == cells
    && (runs != [] ==> runs[|runs| - 1].cell != curr)
  }

  /** The same, from the beginning on: nothing is encoded before cell 0. */
  ghost predicate EncodedTo(runs: seq<Run>, curr: Cell, n: int, cells: seq<Cell>, p: int) {
    && 0 <= p <= |cells| && cells != []
    && if p == 0 then runs == [] && n == 0 && curr == cells[0] else Encoded(runs, curr, n, cells[..p])
  }

  /** Cell `p` prolongs the growing run or finishes it. */
  lemma EncodedNext(runs: seq<Run>, curr: Cell, n: int, cells: seq<Cell>, p: int)
    requires EncodedTo(runs, curr, n, cells, p) && p < |cells| && Known(cells[p])
    ensures cells[p] == curr ==> EncodedTo(runs, curr, n + 1, cells, p + 1)
    ensures cells[p] != curr ==> EncodedTo(runs + [Run(curr, n)], cells[p], 1, cells, p + 1)
  {
    assert cells[..p + 1] == cells[..p] + [cells[p]];
    if p > 0 {
      if cells[p] == curr {
        EncodedSame(runs, curr, n, cells[..p]);
      } else {
        EncodedOther(runs, curr, n, cells[..p], cells[p]);
      }
    }
  }

  lemma EncodedNone(cells: seq<Cell>)
    requires cells != []
    ensures EncodedTo([], cells[0], 0, cells, 0)
  {}

  lemma EncodedAll(runs: seq<Run>, curr: Cell, n: int, cells: seq<Cell>)
    requires EncodedTo(runs, curr, n, cells, |cells|)
    ensures n >= 1 && Compressed(runs + [Run(curr, n)]) && Decode(runs + [Run(curr, n)]) == cells
  {
    assert cells[..|cells|] == cells;
    EncodedDone(runs, curr, n, cells);
  }

  lemma EncodedSame(runs: seq<Run>, curr: Cell, n: int, cells: seq<Cell>)
    requires Encoded(runs, curr, n, cells)
    ensures Encoded(runs, curr, n + 1, cells + [curr])
  {
    assert Repeat(curr, n + 1) == Repeat(curr, n) + [curr];
  }

  lemma EncodedDone(runs: seq<Run>, curr: Cell, n: int, cells: seq<Cell>)
    requires Encoded(runs, curr, n, cells)
    ensures Compressed(runs + [Run(curr, n)]) && Decode(runs + [Run(curr, n)]) == cells
  {
    DecodeConcat(runs, [Run(curr, n)]);
    DecodeOne(Run(curr, n));
  }

  lemma EncodedOther(runs: seq<Run>, curr: Cell, n: int, cells: seq<Cell>, c: Cell)
    requires Encoded(runs, curr, n, cells) && Known(c) && c != curr
    ensures Encoded(runs + [Run(curr, n)], c, 1, cells + [c])
  {
    EncodedDone(runs, curr, n, cells);
    assert Repeat(c, 1) == [c];
  }

  class RunLengthEncoding {
    const width: int
    const height: int
    const starveTime: int
    const list: DList

    ghost predicate Valid()
      reads list, list.ring
    {
      && width >= 1 && height >= 1 && list.Valid()
      && Sound(list.runs) && |Decode(list.runs)| == width * height
    }

    /** The encoding of an ocean. */
    constructor FromOcean(sea: Ocean)
      requires sea.Valid()
      ensures Valid() && width == sea.width && height == sea.height && starveTime == sea.starveTime
      ensures Compressed(list.runs) && Decode(list.runs) == sea.cells
      ensures fresh(list) && fresh(list.ring)
    {
      width, height, starveTime := sea.width, sea.height, sea.starveTime;
      list := new DList();
      new;
      hide Compressed;
      hide Decode;
      EncodeOcean(sea);
    }

    method EncodeOcean(sea: Ocean)
      requires sea.Valid() && sea.width == width && sea.height == height && list.Valid() && list.runs == []
      modifies list, list.ring`next, list.ring`prev
      ensures list.Valid() && fresh(set n | n in list.ring && n !in old(list.ring))
      ensures Compressed(list.runs) && Decode(list.runs) == sea.cells
    {
      hide EncodedTo;
      hide Compressed;
      hide Decode;
      hide Joined;
      hide Known;
      var currEncodeType, currEncodeLength, currSharkHunger := EncodeStart(sea);
      var y := 0;
      while y < sea.height
        invariant 0 <= y <= sea.height && list.Valid() && fresh(set n | n in list.ring && n !in old(list.ring))
        invariant EncodedTo(list.runs, Cell(currEncodeType, currSharkHunger), currEncodeLength, sea.cells,
                    Index(width, 0, y))
      {
        currEncodeType, currEncodeLength, currSharkHunger :=
          EncodeRow(sea, y, currEncodeType, currEncodeLength, currSharkHunger);
        y := y + 1;
      }
      EncodedAll(list.runs, Cell(currEncodeType, currSharkHunger), currEncodeLength, sea.cells);
      if currEncodeLength > 0 {
        list.Append(currEncodeType, currEncodeLength, currSharkHunger);
      }
    }

    method EncodeStart(sea: Ocean) returns (currEncodeType: int, currEncodeLength: int, currSharkHunger: int)
      requires sea.Valid()
      ensures EncodedTo([], Cell(currEncodeType, currSharkHunger), currEncodeLength, sea.cells, 0)
    {
      currEncodeType := sea.CellContents(0, 0);
      currEncodeLength := 0;
      var hunger := sea.SharkFeeding(0, 0);
      currSharkHunger := hunger.value;
      EncodedNone(sea.cells);
    }

    /** The inner loop of the encoding: one row of the ocean. */
    method EncodeRow(sea: Ocean, y: int, currEncodeType: int, currEncodeLength: int, currSharkHunger: int)
      returns (encodeType: int, encodeLength: int, sharkHunger: int)
      requires sea.Valid() && sea.width == width && 0 <= y < sea.height && list.Valid()
      requires EncodedTo(list.runs, Cell(currEncodeType, currSharkHunger), currEncodeLength, sea.cells,
                 Index(width, 0, y))
      modifies list, list.ring`next, list.ring`prev
      ensures list.Valid() && fresh(set n | n in list.ring && n !in old(list.ring))
      ensures EncodedTo(list.runs, Cell(encodeType, sharkHunger), encodeLength, sea.cells, Index(width, 0, y + 1))
    {
      hide EncodedTo;
      hide Joined;
      hide Index;
      encodeType, encodeLength, sharkHunger := currEncodeType, currEncodeLength, currSharkHunger;
      var x := 0;
      while x < sea.width
        invariant 0 <= x <= sea.width && list.Valid() && fresh(set n | n in list.ring && n !in old(list.ring))
        invariant EncodedTo(list.runs, Cell(encodeType, sharkHunger), encodeLength, sea.cells, Index(width, x, y))
      {
        encodeType, encodeLength, sharkHunger := EncodeCell(sea, x, y, encodeType, encodeLength, sharkHunger);
        x := x + 1;
      }
      IndexNextRow(width, x, y);
    }

    /** One cell of the ocean prolongs the growing run or finishes it. */
    method EncodeCell(sea: Ocean, x: int, y: int, currEncodeType: int, currEncodeLength: int, currSharkHunger: int)
      returns (encodeType: int, encodeLength: int, sharkHunger: int)
      requires sea.Valid() && sea.width == width && 0 <= x < sea.width && 0 <= y < sea.height && list.Valid()
      requires EncodedTo(list.runs, Cell(currEncodeType, currSharkHunger), currEncodeLength, sea.cells,
                 Index(width, x, y))
      modifies list, list.ring`next, list.ring`prev
      ensures list.Valid() && fresh(set n | n in list.ring && n !in old(list.ring))
      ensures EncodedTo(list.runs, Cell(encodeType, sharkHunger), encodeLength, sea.cells, Index(width, x + 1, y))
    {
      hide EncodedTo;
      hide Joined;
      encodeType := sea.CellContents(x, y);
      var hunger := sea.SharkFeeding(x, y);
      sharkHunger := hunger.value;
      RemainderUnique(x, sea.width, 0, x);
      RemainderUnique(y, sea.height, 0, y);
      IndexNextRow(width, x, y);
      EncodedNext(list.runs, Cell(currEncodeType, currSharkHunger), currEncodeLength, sea.cells, Index(width, x, y));
      if encodeType == currEncodeType && sharkHunger == currSharkHunger {
        encodeLength := currEncodeLength + 1;
      } else {
        list.Append(currEncodeType, currEncodeLength, currSharkHunger);
        encodeLength := 1;
      }
    }

    method GetEncodedPosition(x: int, y: int) returns (encodedPosition: int)
      requires width >= 1 && height >= 1
      ensures encodedPosition == Index(width, Wrap(x, width), Wrap(y, height))
      ensures 0 <= encodedPosition < width * height
    {
      var x', y' := Wrap(x, width), Wrap(y, height);
      encodedPosition := 0;
      while y' > 0
        invariant 0 <= y' <= Wrap(y, height) && encodedPosition == (Wrap(y, height) - y') * width
      {
        encodedPosition := encodedPosition + width;
        y' := y' - 1;
      }
      encodedPosition := encodedPosition + x';
      IndexRange(width, height, Wrap(x, width), Wrap(y, height));
    }

    /** Finds the run with cell number `pos`, and how far before the end of that run the cell lies. */
    method FindRun(pos: int) returns (currRun: DListNode, rest: int, ghost k: int, ghost off: int)
      requires Valid() && 0 <= pos < width * height
      ensures 0 <= k < |list.runs| && currRun == list.ring[k + 1]
      ensures 0 <= off < list.runs[k].length && |Decode(list.runs[..k])| + off == pos
      ensures rest == if off == 0 then 0 else off - list.runs[k].length
    {
      ghost var runs, ring := list.runs, list.ring;
      assert list.sentinel.next == ring[1];
      currRun, rest, k := list.sentinel.next, pos, 0;
      while rest > 0
        invariant 0 <= k <= |runs| && currRun == ring[k + 1]
        invariant |Decode(runs[..k])| + rest == pos
        invariant rest < 0 ==> k > 0 && rest > -runs[k - 1].length
        decreases |runs| - k
      {
        WithinTotal(runs, k, pos);
        assert ring[k + 1].next == ring[k + 2];
        rest := rest - currRun.runLength;
        currRun := currRun.next;
        k := k + 1;
      }
      WithinTotal(runs, k, pos);
      if rest < 0 {
        assert ring[k + 1].prev == ring[k];
        currRun := currRun.prev;
        k := k - 1;
        WithinTotal(runs, k, pos);
        off := runs[k].length + rest;
      } else {
        off := 0;
      }
    }

    /** Puts `n` creatures into consecutive empty cells, row by row; a full row goes on in the next one. */
    method Lay(sea: Ocean, x: int, y: int, n: int, c: Cell) returns (insertX: int, insertY: int)
      requires sea.Valid() && sea.width == width && Known(c) && n >= 0 && 0 <= x <= width && 0 <= y
      requires 0 <= Index(width, x, y) && Index(width, x, y) + n <= |sea.cells|
      requires forall i :: Index(width, x, y) <= i < Index(width, x, y) + n ==> sea.cells[i].kind == EMPTY
      modifies sea`cells, sea.ocean
      ensures sea.Valid() && 0 <= insertX <= width && 0 <= insertY
      ensures Index(width, insertX, insertY) == Index(width, x, y) + n
      ensures var p, was := Index(width, x, y), old(sea.cells);
              sea.cells == was[..p] + Repeat(c, n) + was[p + n..]
    {
      ghost var p, was := Index(width, x, y), sea.cells;
      insertX, insertY := x, y;
      var toAdd := n;
      while toAdd > 0
        invariant 0 <= toAdd <= n && sea.Valid() && 0 <= insertX <= width && 0 <= insertY
        invariant Index(width, insertX, insertY) == p + (n - toAdd)
        invariant sea.cells == was[..p] + Repeat(c, n - toAdd) + was[p + (n - toAdd)..]
      {
        insertX, insertY := LayOne(sea, insertX, insertY, c);
        PlacedNext(was, p, n - toAdd, c);
        toAdd := toAdd - 1;
      }
    }

    method LayOne(sea: Ocean, x: int, y: int, c: Cell) returns (insertX: int, insertY: int)
      requires sea.Valid() && sea.width == width && Known(c) && 0 <= x <= width && 0 <= y
      requires 0 <= Index(width, x, y) < |sea.cells|
      modifies sea`cells, sea.ocean
      ensures sea.Valid() && 0 <= insertX <= width && 0 <= insertY
      ensures Index(width, insertX, insertY) == Index(width, x, y) + 1
      ensures sea.cells == Placed(old(sea.cells), Index(width, x, y), c)
    {
      insertX, insertY := x, y;
      IndexNextRow(width, x, y);
      if insertX >= width {
        insertX := insertX - width;
        insertY := insertY + 1;
      }
      IndexRow(width, sea.height, insertX, insertY);
      RemainderUnique(insertX, width, 0, insertX);
      RemainderUnique(insertY, sea.height, 0, insertY);
      sea.Put(insertX, insertY, c);
      IndexNextRow(width, insertX, insertY);
      insertX := insertX + 1;
    }

    /** An empty run moves the insertion point on by its length. */
    method Skip(x: int, y: int) returns (insertX: int, insertY: int)
      requires 1 <= width && 0 <= x && 0 <= y
      ensures 0 <= insertX <= width && 0 <= insertY && Index(width, insertX, insertY) == Index(width, x, y)
    {
      insertX, insertY := x, y;
      while insertX > width
        invariant 0 <= insertX && 0 <= insertY && Index(width, insertX, insertY) == Index(width, x, y)
      {
        IndexNextRow(width, insertX, insertY);
        insertX := insertX - width;
        insertY := insertY + 1;
      }
    }

    /** The ocean that the runs stand for, cell by cell. */
    method ToOcean() returns (sea: Ocean)
      requires Valid()
      ensures fresh(sea) && fresh(sea.ocean) && sea.Valid()
      ensures sea.width == width && sea.height == height && sea.starveTime == starveTime
      ensures sea.cells == Decode(list.runs)
    {
      hide Decode;
      hide Joined;
      sea := new Ocean(width, height, starveTime);
      ghost var runs, total := list.runs, width * height;
      list.First();
      var currNode := list.sentinel.next;
      var insertX, insertY, i := 0, 0, 0;
      DecodeNone();
      assert runs[..0] == [];
      while i < list.size
        invariant 0 <= i <= |runs| && currNode == list.ring[i + 1] && sea.Valid()
        invariant 0 <= insertX <= width && 0 <= insertY
        invariant Laid(sea.cells, runs, i, total) && Index(width, insertX, insertY) == |Decode(runs[..i])|
      {
        list.Links(i + 1);
        insertX, insertY := LayRun(sea, currNode, insertX, insertY, i, total);
        currNode := currNode.next;
        i := i + 1;
      }
      assert runs[..|runs|] == runs;
    }

    method LayRun(sea: Ocean, currNode: DListNode, x: int, y: int, ghost i: int, ghost total: int)
      returns (insertX: int, insertY: int)
      requires sea.Valid() && sea.width == width && list.Valid() && Sound(list.runs) && total == |Decode(list.runs)|
      requires 0 <= i < |list.runs| && currNode == list.ring[i + 1] && 0 <= x <= width && 0 <= y
      requires Laid(sea.cells, list.runs, i, total) && Index(width, x, y) == |Decode(list.runs[..i])|
      modifies sea`cells, sea.ocean
      ensures sea.Valid() && 0 <= insertX <= width && 0 <= insertY
      ensures Laid(sea.cells, list.runs, i + 1, total) && Index(width, insertX, insertY) == |Decode(list.runs[..i + 1])|
    {
      hide Decode;
      hide Joined;
      list.Links(i + 1);
      ghost var r := list.runs[i];
      LaidNext(sea.cells, list.runs, i);
      if currNode.runType == EMPTY {
        insertX, insertY := Skip(x + currNode.runLength, y);
      } else {
        insertX, insertY := Lay(sea, x, y, currNode.runLength, Cell(currNode.runType, currNode.hunger));
      }
    }

    /** Walks through the runs and reports what is wrong with them, by the numbers of the error messages. */
    method Check() returns (errors: set<int>)
      requires list.Valid()
      requires forall i :: 0 <= i < |list.runs| ==> list.runs[i].cell.kind in {EMPTY, SHARK, FISH}
      ensures errors == {} <==>
                && Compressed(list.runs) && |Decode(list.runs)| == width * height
                && (forall i :: 0 <= i < |list.runs| && list.runs[i].cell.kind == SHARK ==>
                    list.runs[i].cell.hunger >= 0)
    {
      hide Joined;
      ghost var runs := list.runs;
      list.First();
      var numCells, currRun, i := 0, list.sentinel.next, 0;
      errors := {};
      while i < list.size
        invariant 0 <= i <= |runs| && currRun == list.ring[i + 1] && numCells == Sum(runs[..i])
        invariant errors == {} <==> forall j :: 0 <= j < i ==> Fine(runs, j)
      {
        list.Links(i + 1);
        assert runs[..i + 1][..i] == runs[..i];
        numCells := numCells + currRun.runLength;
        var found := CheckRun(currRun, currRun.next, i);
        errors := errors + found;
        currRun := currRun.next;
        i := i + 1;
      }
      assert runs[..|runs|] == runs;
      if numCells != width * height {
        errors := errors + {5};
      }
      FineRuns(runs);
    }

    method CheckRun(currRun: DListNode, nextRun: DListNode, ghost i: int) returns (errors: set<int>)
      requires list.Valid() && 0 <= i < |list.runs| && currRun == list.ring[i + 1] && nextRun == list.ring[i + 2]
      requires forall i :: 0 <= i < |list.runs| ==> list.runs[i].cell.kind in {EMPTY, SHARK, FISH}
      ensures errors == {} <==> Fine(list.runs, i)
    {
      assert list.ring[i + 1].Holds() == list.runs[i];
      assert i + 1 < |list.runs| ==> list.ring[i + 1 + 1].Holds() == list.runs[i + 1];
      errors := {};
      if currRun.runLength < 1 {
        errors := errors + {4};
      }
      if currRun.runType == SHARK && nextRun.runType == SHARK && currRun.hunger == nextRun.hunger {
        errors := errors + {1};
      } else if currRun.runType == FISH && nextRun.runType == FISH {
        errors := errors + {2};
      } else if currRun.runType == EMPTY && nextRun.runType == EMPTY {
        errors := errors + {3};
      }
      if currRun.runType == SHARK && currRun.hunger < 0 {
        errors := errors + {6};
      } else if (currRun.runType == EMPTY || currRun.runType == FISH) && currRun.hunger != NULL_HUNGER {
        errors := errors + {7};
      }
    }

    predicate Matches(node: DListNode, c: Cell)
      reads node
    {
      node.runType == c.kind && (c.kind == SHARK ==> node.hunger == c.hunger)
    }

    /** A neighbour matches just if it is a run of the same creature; the sentinel matches nothing. */
    lemma Neighbours(currRun: DListNode, c: Cell, k: int)
      requires list.Valid() && Sound(list.runs) && Known(c) && c.kind != EMPTY
      requires 0 <= k < |list.runs| && currRun == list.ring[k + 1]
      ensures currRun.prev == list.ring[k] && currRun.next == list.ring[k + 2]
      ensures Matches(list.ring[k], c) <==> k > 0 && list.runs[k - 1].cell == c
      ensures Matches(list.ring[k + 2], c) <==> k + 1 < |list.runs| && list.runs[k + 1].cell == c
    {
      assert list.ring[k + 1].Holds() == list.runs[k];
      assert k > 0 ==> list.ring[k - 1 + 1].Holds() == list.runs[k - 1];
      assert k + 1 < |list.runs| ==> list.ring[k + 1 + 1].Holds() == list.runs[k + 1];
    }

    /** The empty run and both its neighbours become one run. */
    method MergeBoth(currRun: DListNode, c: Cell, ghost k: int)
      requires list.Valid() && 0 < k < |list.runs| - 1 && currRun == list.ring[k + 1]
      modifies list, list.ring
      ensures list.Valid() && forall n :: n in list.ring ==> n in old(list.ring)
      ensures var runs := old(list.runs);
              list.runs
                  == Without(Without(runs, k - 1), k)[k - 1 := Run(c, 1 + runs[k - 1].length + runs[k + 1].length)]
    {
      hide Joined;
      hide Once;
      list.Links(k);
      list.Links(k + 1);
      list.Links(k + 2);
      var newRunLength := 1 + currRun.prev.runLength + currRun.next.runLength;
      list.RemoveNode(currRun.prev, k);
      list.Links(k);
      list.RemoveNode(currRun.next, k + 1);
      list.SetRun(currRun, c.kind, newRunLength, c.hunger, k);
    }

    method MergeNext(currRun: DListNode, c: Cell, ghost k: int)
      requires list.Valid() && 0 <= k < |list.runs| - 1 && currRun == list.ring[k + 1]
      modifies list, list.ring
      ensures list.Valid() && forall n :: n in list.ring ==> n in old(list.ring)
      ensures var runs := old(list.runs);
              list.runs == Without(runs, k + 1)[k := Run(c, 1 + runs[k + 1].length)]
    {
      hide Joined;
      hide Once;
      list.Links(k + 1);
      list.Links(k + 2);
      var newRunLength := 1 + currRun.next.runLength;
      list.RemoveNode(currRun.next, k + 2);
      list.SetRun(currRun, c.kind, newRunLength, c.hunger, k + 1);
    }

    method MergePrev(currRun: DListNode, c: Cell, ghost k: int)
      requires list.Valid() && 0 < k < |list.runs| && currRun == list.ring[k + 1]
      modifies list, list.ring
      ensures list.Valid() && forall n :: n in list.ring ==> n in old(list.ring)
      ensures var runs := old(list.runs);
              list.runs == Without(runs, k - 1)[k - 1 := Run(c, 1 + runs[k - 1].length)]
    {
      hide Joined;
      hide Once;
      list.Links(k);
      list.Links(k + 1);
      var newRunLength := 1 + currRun.prev.runLength;
      list.RemoveNode(currRun.prev, k);
      list.SetRun(currRun, c.kind, newRunLength, c.hunger, k);
    }

    /** An empty run of one cell: it takes the creature and joins with neighbours that hold the same. */
    method Fill(currRun: DListNode, c: Cell, ghost k: int)
      requires list.Valid() && Sound(list.runs) && Known(c) && c.kind != EMPTY
      requires 0 <= k < |list.runs| && currRun == list.ring[k + 1] && list.runs[k].length == 1
      modifies list, list.ring
      ensures list.Valid() && forall n :: n in list.ring ==> n in old(list.ring)
      ensures list.runs == Spliced(old(list.runs), Plan(old(list.runs), k, 0, c))
    {
      hide Plan;
      hide Spliced;
      hide Without;
      hide Joined;
      hide Once;
      Neighbours(currRun, c, k);
      if Matches(currRun.prev, c) && Matches(currRun.next, c) {
        PlanBoth(list.runs, k, c);
        MergeBoth(currRun, c, k);
      } else if Matches(currRun.next, c) {
        PlanNext(list.runs, k, c);
        MergeNext(currRun, c, k);
      } else if Matches(currRun.prev, c) {
        PlanPrev(list.runs, k, c);
        MergePrev(currRun, c, k);
      } else {
        PlanAlone(list.runs, k, c);
        list.Links(k + 1);
        list.SetRun(currRun, c.kind, currRun.runLength, c.hunger, k + 1);
      }
    }

    method Split(currRun: DListNode, newNode: DListNode, before: bool, ghost k: int)
      requires list.Valid() && 0 <= k < |list.runs| && currRun == list.ring[k + 1] && newNode !in list.ring
      modifies list, list.ring, newNode
      ensures list.Valid() && forall n :: n in list.ring ==> n in old(list.ring) || n == newNode
      ensures var runs, r := old(list.runs), old(newNode.Holds());
              var e := Run(runs[k].cell, runs[k].length - 1);
              list.runs == if before then With(runs, k, r)[k + 1 := e] else With(runs, k + 1, r)[k := e]
    {
      hide Joined;
      hide Once;
      list.Links(k + 1);
      if before {
        list.AddBefore(currRun, newNode, k + 1);
        list.SetRun(currRun, currRun.runType, currRun.runLength - 1, currRun.hunger, k + 2);
      } else {
        list.AddAfter(currRun, newNode, k + 1);
        list.SetRun(currRun, currRun.runType, currRun.runLength - 1, currRun.hunger, k + 1);
      }
    }

    /** A new run of one cell at one end of a longer run. */
    method PutNew(currRun: DListNode, c: Cell, before: bool, ghost k: int)
      requires list.Valid() && 0 <= k < |list.runs| && currRun == list.ring[k + 1]
      modifies list, list.ring
      ensures list.Valid() && fresh(set n | n in list.ring && n !in old(list.ring))
      ensures list.runs == Grown(old(list.runs), k, c, before)
    {
      hide Joined;
      hide Once;
      hide With;
      var newNode := new DListNode(c.kind, 1, c.hunger);
      Split(currRun, newNode, before, k);
    }

    /** A cell moves from the empty run to its neighbour at position `j` of the ring. */
    method Shift(currRun: DListNode, other: DListNode, ghost k: int, ghost j: int)
      requires list.Valid() && 0 <= k < |list.runs| && currRun == list.ring[k + 1]
      requires 0 <= j < |list.runs| && j != k && other == list.ring[j + 1]
      modifies list, list.ring
      ensures list.Valid() && list.ring == old(list.ring)
      ensures list.runs == Moved(old(list.runs), k, j)
    {
      hide Joined;
      list.Links(k + 1);
      list.Links(j + 1);
      list.SetRun(other, other.runType, 1 + other.runLength, other.hunger, j + 1);
      list.SetRun(currRun, currRun.runType, currRun.runLength - 1, currRun.hunger, k + 1);
    }

    /** The first cell of a longer empty run. */
    method AtFront(currRun: DListNode, c: Cell, ghost k: int)
      requires list.Valid() && Sound(list.runs) && Known(c) && c.kind != EMPTY
      requires 0 <= k < |list.runs| && currRun == list.ring[k + 1] && list.runs[k].length > 1
      modifies list, list.ring
      ensures list.Valid() && fresh(set n | n in list.ring && n !in old(list.ring))
      ensures list.runs == Spliced(old(list.runs), Plan(old(list.runs), k, 0, c))
    {
      hide Plan;
      hide Spliced;
      hide Moved;
      hide Grown;
      hide Sound;
      hide Joined;
      hide Once;
      Neighbours(currRun, c, k);
      PlanFront(list.runs, k, c);
      if Matches(currRun.prev, c) {
        Shift(currRun, currRun.prev, k, k - 1);
      } else {
        PutNew(currRun, c, true, k);
      }
    }

    /** The last cell of a longer empty run. */
    method AtBack(currRun: DListNode, c: Cell, ghost k: int)
      requires list.Valid() && Sound(list.runs) && Known(c) && c.kind != EMPTY
      requires 0 <= k < |list.runs| && currRun == list.ring[k + 1] && list.runs[k].length > 1
      modifies list, list.ring
      ensures list.Valid() && fresh(set n | n in list.ring && n !in old(list.ring))
      ensures list.runs == Spliced(old(list.runs), Plan(old(list.runs), k, old(list.runs)[k].length - 1, c))
    {
      hide Plan;
      hide Spliced;
      hide Moved;
      hide Grown;
      hide Sound;
      hide Joined;
      hide Once;
      Neighbours(currRun, c, k);
      PlanBack(list.runs, k, c);
      if Matches(currRun.next, c) {
        Shift(currRun, currRun.next, k, k + 1);
      } else {
        PutNew(currRun, c, false, k);
      }
    }

    /** A cell in the middle splits the run in three. */
    method InMiddle(currRun: DListNode, rest: int, c: Cell, ghost k: int)
      requires list.Valid() && Sound(list.runs)
      requires 0 <= k < |list.runs| && currRun == list.ring[k + 1] && list.runs[k].cell.kind == EMPTY
      requires -list.runs[k].length < rest < -1
      modifies list, list.ring
      ensures list.Valid() && fresh(set n | n in list.ring && n !in old(list.ring))
      ensures var runs := old(list.runs);
              list.runs == Spliced(runs, Plan(runs, k, runs[k].length + rest, c))
    {
      hide Plan;
      hide Spliced;
      hide Joined;
      hide Once;
      list.Links(k + 1);
      PlanMiddle(list.runs, k, list.runs[k].length + rest, c);
      var firstSplitLength := currRun.runLength + rest;
      var secondSplitLength := currRun.runLength - firstSplitLength - 1;
      var firstSplit := new DListNode(EMPTY, firstSplitLength, NULL_HUNGER);
      var secondSplit := new DListNode(EMPTY, secondSplitLength, NULL_HUNGER);
      list.SetRun(currRun, c.kind, 1, c.hunger, k + 1);
      Enclose(currRun, firstSplit, secondSplit, k);
    }

    /** New nodes on both sides of a node. */
    method Enclose(currRun: DListNode, firstSplit: DListNode, secondSplit: DListNode, ghost k: int)
      requires list.Valid() && 0 <= k < |list.runs| && currRun == list.ring[k + 1]
      requires firstSplit !in list.ring && secondSplit !in list.ring && firstSplit != secondSplit
      modifies list, list.ring, firstSplit, secondSplit
      ensures list.Valid() && forall n :: n in list.ring ==> n in old(list.ring) || n == firstSplit || n == secondSplit
      ensures list.runs == With(With(old(list.runs), k, old(firstSplit.Holds())), k + 2, old(secondSplit.Holds()))
    {
      hide Joined;
      hide Once;
      list.AddBefore(currRun, firstSplit, k + 1);
      list.AddAfter(currRun, secondSplit, k + 2);
    }

    /** What `addFish` and `addShark` do; they differ in the creature and in how they compare it with a run. */
    method Add(x: int, y: int, c: Cell)
      requires Valid() && Known(c) && c.kind != EMPTY
      modifies list, list.ring
      ensures Valid() && fresh(set n | n in list.ring && n !in old(list.ring))
      ensures 0 <= Index(width, Wrap(x, width), Wrap(y, height)) < |Decode(old(list.runs))|
      ensures Decode(list.runs) == Placed(Decode(old(list.runs)), Index(width, Wrap(x, width), Wrap(y, height)), c)
      ensures Compressed(old(list.runs)) ==> Compressed(list.runs)
    {
      hide Decode;
      hide Plan;
      hide Spliced;
      hide Joined;
      hide Compressed;
      var encodedPosition := GetEncodedPosition(x, y);
      var currRun, rest;
      ghost var k, off;
      currRun, rest, k, off := FindRun(encodedPosition);
      AddedDecodes(list.runs, k, off, c);
      AddedSound(list.runs, k, off, c);
      if Compressed(list.runs) {
        AddedCompressed(list.runs, k, off, c);
      }
      Place(currRun, rest, c, k, off);
    }

    method Place(currRun: DListNode, rest: int, c: Cell, ghost k: int, ghost off: int)
      requires list.Valid() && Sound(list.runs) && Known(c) && c.kind != EMPTY
      requires 0 <= k < |list.runs| && currRun == list.ring[k + 1] && 0 <= off < list.runs[k].length
      requires rest == if off == 0 then 0 else off - list.runs[k].length
      modifies list, list.ring
      ensures list.Valid() && fresh(set n | n in list.ring && n !in old(list.ring))
      ensures list.runs == Added(old(list.runs), k, off, c)
    {
      hide Plan;
      hide Spliced;
      hide Joined;
      assert list.ring[k + 1].Holds() == list.runs[k];
      if currRun.runType != EMPTY {
        return;
      }
      if currRun.runLength == 1 {
        Fill(currRun, c, k);
      } else if rest == 0 {
        AtFront(currRun, c, k);
      } else if rest == -1 {
        AtBack(currRun, c, k);
      } else {
        InMiddle(currRun, rest, c, k);
      }
    }

    method AddFish(x: int, y: int)
      requires Valid()
      modifies list, list.ring
      ensures Valid() && fresh(set n | n in list.ring && n !in old(list.ring))
      ensures 0 <= Index(width, Wrap(x, width), Wrap(y, height)) < |Decode(old(list.runs))|
      ensures Decode(list.runs) == Placed(Decode(old(list.runs)), Index(width, Wrap(x, width), Wrap(y, height)), Fish)
      ensures Compressed(old(list.runs)) ==> Compressed(list.runs)
    {
      hide Decode;
      Add(x, y, Fish);
    }

    method AddShark(x: int, y: int)
      requires Valid()
      modifies list, list.ring
      ensures Valid() && fresh(set n | n in list.ring && n !in old(list.ring))
      ensures 0 <= Index(width, Wrap(x, width), Wrap(y, height)) < |Decode(old(list.runs))|
      ensures Decode(list.runs)
              == Placed(Decode(old(list.runs)), Index(width, Wrap(x, width), Wrap(y, height)), Cell(SHARK, starveTime))
      ensures Compressed(old(list.runs)) ==> Compressed(list.runs)
    {
      hide Decode;
      Add(x, y, Cell(SHARK, starveTime));
    }
  }

  /** The first `i` runs have been laid out, and the rest of the ocean is still empty. */
  ghost predicate Laid(cells: seq<Cell>, runs: seq<Run>, i: int, total: int)
    requires 0 <= i <= |runs|
  {
    var d := Decode(runs[..i]);
    |d| <= total && cells == d + Repeat(Nothing, total - |d|)
  }

  /** Laying out run `i` replaces as many empty cells; an empty run replaces them by themselves. */
  lemma LaidNext(cells: seq<Cell>, runs: seq<Run>, i: int)
    requires Sound(runs) && 0 <= i < |runs| && Laid(cells, runs, i, |Decode(runs)|)
    ensures var p, r := |Decode(runs[..i])|, runs[i];
            && p + r.length <= |cells| == |Decode(runs)| && |Decode(runs[..i + 1])| == p + r.length
            && (forall j :: p <= j < |cells| ==> cells[j] == Nothing)
            && (r.cell.kind == EMPTY ==> Laid(cells, runs, i + 1, |cells|))
            && Laid(cells[..p] + Repeat(r.cell, r.length) + cells[p + r.length..], runs, i + 1, |cells|)
  {
    var p, r := |Decode(runs[..i])|, runs[i];
    DecodeAt(runs, i, 0);
    assert runs[..i + 1] == runs[..i] + [r];
    DecodeConcat(runs[..i], [r]);
    DecodeOne(r);
    hide Decode;
    assert cells[..p] + Repeat(r.cell, r.length) + cells[p + r.length..]
           == Decode(runs[..i + 1]) + Repeat(Nothing, |cells| - p - r.length);
    if r.cell.kind == EMPTY {
      assert r.cell == Nothing;
      assert cells[..p] + Repeat(r.cell, r.length) + cells[p + r.length..] == cells;
    }
  }

  lemma DecodeNone()
    ensures Decode([]) == []
  {}

  lemma PlacedNext(was: seq<Cell>, p: int, k: int, c: Cell)
    requires 0 <= p && 0 <= k && p + k < |was| && was[p + k].kind == EMPTY
    ensures Placed(was[..p] + Repeat(c, k) + was[p + k..], p + k, c) == was[..p] + Repeat(c, k + 1) + was[p + (k + 1)..]
  {}

  function Sum(runs: seq<Run>): int {
    if runs == [] then 0 else Sum(runs[..|runs| - 1]) + runs[|runs| - 1].length
  }

  lemma {:induction false} SumDecoded(runs: seq<Run>)
    requires forall i :: 0 <= i < |runs| ==> runs[i].length >= 1
    ensures Sum(runs) == |Decode(runs)|
  {
    if runs != [] {
      var n := |runs| - 1;
      SumDecoded(runs[..n]);
      assert runs == runs[..n] + [runs[n]];
      DecodeConcat(runs[..n], [runs[n]]);
      DecodeOne(runs[n]);
    }
  }

  /** Nothing to report about run `i`. */
  ghost predicate Fine(runs: seq<Run>, i: int)
    requires 0 <= i < |runs|
  {
    var r := runs[i];
    && r.length >= 1
    && (i + 1 < |runs| ==>
          var next := runs[i + 1].cell;
          r.cell.kind != next.kind || (r.cell.kind == SHARK && r.cell.hunger != next.hunger))
    && (if r.cell.kind == SHARK then r.cell.hunger >= 0 else r.cell.hunger == NULL_HUNGER)
  }

  lemma FineRuns(runs: seq<Run>)
    requires forall i :: 0 <= i < |runs| ==> runs[i].cell.kind in {EMPTY, SHARK, FISH}
    ensures (forall j :: 0 <= j < |runs| ==> Fine(runs, j)) <==>
              && Compressed(runs)
              && (forall i :: 0 <= i < |runs| && runs[i].cell.kind == SHARK ==> runs[i].cell.hunger >= 0)
    ensures Compressed(runs) ==> Sum(runs) == |Decode(runs)|
  {
    if forall j :: 0 <= j < |runs| ==> Fine(runs, j) {
      forall i | 0 < i < |runs| ensures runs[i - 1].cell != runs[i].cell {
        assert Fine(runs, i - 1);
      }
      forall i | 0 <= i < |runs|
        ensures runs[i].length >= 1 && Known(runs[i].cell) && (runs[i].cell.kind == SHARK ==> runs[i].cell.hunger >= 0)
      {
        assert Fine(runs, i);
      }
    }
    if Compressed(runs) {
      SumDecoded(runs);
    }
    if Compressed(runs) && forall i :: 0 <= i < |runs| && runs[i].cell.kind == SHARK ==> runs[i].cell.hunger >= 0 {
      forall j | 0 <= j < |runs| ensures Fine(runs, j) {
        assert Known(runs[j].cell) && runs[j].length >= 1;
        assert j + 1 < |runs| ==> Known(runs[j + 1].cell) && runs[j + 1 - 1].cell != runs[j + 1].cell;
      }
    }
  }

  // ---------- The promises that span both representations ----------

  /** Encoding an ocean and decoding it again gives back every cell. */
  method OceanRoundTrip(sea: Ocean) returns (back: Ocean)
    requires sea.Valid()
    ensures back.Valid() && back.width == sea.width && back.height == sea.height && back.starveTime == sea.starveTime
    ensures forall x, y :: 0 <= x < sea.width && 0 <= y < sea.height ==> back.ocean[x, y] == sea.ocean[x, y]
  {
    var e := new RunLengthEncoding.FromOcean(sea);
    back := e.ToOcean();
    forall x, y | 0 <= x < sea.width && 0 <= y < sea.height ensures back.ocean[x, y] == sea.ocean[x, y] {
      assert sea.Shows(x, y) && back.Shows(x, y);
    }
  }

  /** Decoding a compressed encoding and encoding it again gives back every run. */
  method EncodingRoundTrip(e: RunLengthEncoding) returns (back: RunLengthEncoding)
    requires e.Valid() && Compressed(e.list.runs)
    ensures back.Valid() && back.list.runs == e.list.runs
  {
    hide Compressed;
    hide Decode;
    var sea := e.ToOcean();
    back := new RunLengthEncoding.FromOcean(sea);
    CompressedUnique(e.list.runs, back.list.runs);
  }

  /**
   * Adding a creature to the encoding and decoding it is the same as decoding it and adding the creature to the
   * ocean; the compressed encoding of that ocean is the one that the edit left behind.
   */
  method AddingCommutes(e: RunLengthEncoding, x: int, y: int, shark: bool)
    returns (sea: Ocean, again: RunLengthEncoding)
    requires e.Valid() && Compressed(e.list.runs)
    modifies e.list, e.list.ring
    ensures e.Valid() && sea.Valid() && again.Valid()
    ensures sea.cells == Decode(e.list.runs) && again.list.runs == e.list.runs
  {
    hide Decode;
    hide Compressed;
    sea := e.ToOcean();
    if shark {
      sea.AddShark(x, y);
      e.AddShark(x, y);
    } else {
      sea.AddFish(x, y);
      e.AddFish(x, y);
    }
    again := new RunLengthEncoding.FromOcean(sea);
    CompressedUnique(e.list.runs, again.list.runs);
  }

  /** The first creature to come to a cell stays: a second one does not even change the runs. */
  method SecondIsRefused(e: RunLengthEncoding, x: int, y: int, shark: bool)
    requires e.Valid() && Compressed(e.list.runs)
    modifies e.list, e.list.ring
    ensures e.Valid() && 0 <= Index(e.width, Wrap(x, e.width), Wrap(y, e.height)) < |Decode(e.list.runs)|
    ensures var p := Index(e.width, Wrap(x, e.width), Wrap(y, e.height));
            && 0 <= p < |Decode(old(e.list.runs))|
            && Decode(e.list.runs)[p] ==
               if Decode(old(e.list.runs))[p].kind != EMPTY then Decode(old(e.list.runs))[p]
               else if shark then Cell(SHARK, e.starveTime) else Fish
  {
    hide Decode;
    hide Compressed;
    if shark {
      e.AddShark(x, y);
    } else {
      e.AddFish(x, y);
    }
    ghost var runs := e.list.runs;
    if shark {
      e.AddFish(x, y);
    } else {
      e.AddShark(x, y);
    }
    CompressedUnique(runs, e.list.runs);
    assert e.list.runs == runs;
  }

  lemma WithinTotal(runs: seq<Run>, k: int, pos: int)
    requires Sound(runs) && 0 <= k <= |runs| && 0 <= pos < |Decode(runs)|
    ensures |Decode(runs[..k])| <= pos ==> k < |runs|
    ensures k < |runs| ==> |Decode(runs[..k + 1])| == |Decode(runs[..k])| + runs[k].length
  {
    assert runs[..|runs|] == runs;
    if k < |runs| {
      assert runs[..k + 1] == runs[..k] + [runs[k]];
      DecodeConcat(runs[..k], [runs[k]]);
      DecodeOne(runs[k]);
    }
  }
}
