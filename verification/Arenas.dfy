/**
 * The allocator's state as a value: pages divided into blocks of one size, lists of free blocks, and blocks of several
 * pages. A block is named by its page and its number in the page; its address follows from the block size.
 */
module Arenas {
  import opened Basics

  const PGSIZE := 4096
  const HEADER := 12        // bytes of the header at the beginning of every arena
  const DESCS := 7

  datatype Block = Block(page: int, idx: int)

  /** A page of small blocks with its count of free ones, or a run of pages for one big block. */
  datatype Arena = Small(desc: int, freeCnt: int) | Big(pages: int)

  datatype Heap = Heap(arenas: map<int, Arena>, free: seq<seq<Block>>, live: set<Block>)

  function Size(d: int): (r: int)
    ensures 16 <= r <= 1024
  {
    if d <= 0 then 16 else if d == 1 then 32 else if d == 2 then 64 else if d == 3 then 128
    else if d == 4 then 256 else if d == 5 then 512 else 1024
  }

  function PerArena(d: int): (r: int)
    ensures r >= 3 && HEADER + Slot(d, r) <= PGSIZE
  {
    (PGSIZE - HEADER) / Size(d)
  }

  /** Where block `i` begins, counted from the end of the header. */
  function Slot(d: int, i: int): int {
    i * Size(d)
  }

  lemma SlotOrder(d: int, i: int, j: int)
    requires i < j
    ensures Slot(d, i) + Size(d) <= Slot(d, j)
  {
    assert Slot(d, i) + Size(d) == (i + 1) * Size(d);
    assert (j - i - 1) * Size(d) >= 0;
    assert (j - i - 1) * Size(d) == Slot(d, j) - (i + 1) * Size(d);
  }

  // ---------- Addresses ----------

  function Address(h: Heap, b: Block): int
    requires b.page in h.arenas
  {
    match h.arenas[b.page]
    case Small(d, _) => b.page * PGSIZE + HEADER + Slot(d, b.idx)
    case Big(_) => b.page * PGSIZE + HEADER
  }

  /** The bytes that the caller may use. */
  function BlockSize(h: Heap, b: Block): int
    requires b.page in h.arenas
  {
    match h.arenas[b.page]
    case Small(d, _) => Size(d)
    case Big(n) => PGSIZE * n - HEADER
  }

  function Pages(a: Arena): int {
    if a.Small? then 1 else a.pages
  }

  predicate IsBlock(h: Heap, b: Block) {
    && b.page in h.arenas
    && match h.arenas[b.page]
       case Small(d, _) => 0 <= b.idx < PerArena(d)
       case Big(n) => b.idx == 0 && n >= 1
  }

  /** A block lies within its arena and clear of the header. */
  lemma WithinArena(h: Heap, b: Block)
    requires IsBlock(h, b)
    ensures var a := h.arenas[b.page];
            && b.page * PGSIZE + HEADER <= Address(h, b)
            && Address(h, b) + BlockSize(h, b) <= (b.page + Pages(a)) * PGSIZE
            && (a.Small? ==> Address(h, b) / PGSIZE == b.page)
            && BlockSize(h, b) >= 16
  {
    if h.arenas[b.page].Small? {
      var d := h.arenas[b.page].desc;
      assert Slot(d, 0) == 0;
      SlotOrder(d, b.idx, PerArena(d));
      if b.idx > 0 {
        SlotOrder(d, 0, b.idx);
      }
    }
  }

  /** The pages of different arenas are different. */
  ghost predicate PagesDisjoint(h: Heap) {
    forall p, q :: p in h.arenas && q in h.arenas && p < q ==> p + Pages(h.arenas[p]) <= q
  }

  /** Different blocks have no byte in common. */
  lemma BlocksDisjoint(h: Heap, b: Block, c: Block)
    requires PagesDisjoint(h) && IsBlock(h, b) && IsBlock(h, c) && b != c
    ensures Address(h, b) + BlockSize(h, b) <= Address(h, c) || Address(h, c) + BlockSize(h, c) <= Address(h, b)
  {
    hide Slot;
    hide Size;
    hide PerArena;
    WithinArena(h, b);
    WithinArena(h, c);
    if b.page == c.page {
      var d := h.arenas[b.page].desc;
      if b.idx < c.idx {
        SlotOrder(d, b.idx, c.idx);
      } else {
        SlotOrder(d, c.idx, b.idx);
      }
    }
  }

  // ---------- The invariant ----------

  ghost predicate InFree(h: Heap, d: int, b: Block) {
    0 <= d < |h.free| && b in h.free[d]
  }

  /** The free lists hold blocks of their size, each once, that are not in use. */
  ghost predicate ListsOk(h: Heap) {
    && |h.free| == DESCS
    && (forall d :: 0 <= d < DESCS ==> NoDup(h.free[d]))
    && (forall d, b :: InFree(h, d, b) ==>
          b !in h.live && IsBlock(h, b) && h.arenas[b.page].Small? && h.arenas[b.page].desc == d)
  }

  ghost function FreeIn(q: seq<Block>, p: int): set<Block> {
    set b | b in q && b.page == p
  }

  /** Every block of an arena is in use or on the free list, and the arena counts the free ones. */
  ghost predicate ArenaOk(h: Heap, p: int) {
    && p in h.arenas
    && match h.arenas[p]
       case Small(d, c) =>
         && 0 <= d < |h.free| && c == |FreeIn(h.free[d], p)|
         && (forall i :: 0 <= i < PerArena(d) ==> Block(p, i) in h.live || InFree(h, d, Block(p, i)))
       case Big(n) => n >= 1 && Block(p, 0) in h.live
  }

  ghost predicate LiveOk(h: Heap) {
    forall b :: b in h.live ==> IsBlock(h, b)
  }

  /** Some block of an arena of small blocks is in use; otherwise its page is given back. */
  ghost predicate Busy(h: Heap, p: int) {
    p in h.arenas && (h.arenas[p].Small? ==> h.arenas[p].freeCnt < PerArena(h.arenas[p].desc))
  }

  ghost predicate Ok(h: Heap) {
    && ListsOk(h) && LiveOk(h) && PagesDisjoint(h)
    && (forall p :: p in h.arenas ==> ArenaOk(h, p))
  }

  ghost predicate Valid(h: Heap) {
    Ok(h) && forall p :: p in h.arenas ==> Busy(h, p)
  }

  // ---------- Counting ----------

  function AllBlocks(p: int, n: int): (r: seq<Block>)
    requires n >= 0
    ensures |r| == n && forall i :: 0 <= i < n ==> r[i] == Block(p, i)
  {
    seq(n, i => Block(p, i))
  }

  /** The blocks 0 to n of a page, as a set. */
  function BlockSet(p: int, n: int): (r: set<Block>)
    requires n >= 0
    ensures |r| == n && forall b :: b in r <==> b.page == p && 0 <= b.idx < n
  {
    if n == 0 then {} else BlockSet(p, n - 1) + {Block(p, n - 1)}
  }

  /** An arena never counts more free blocks than it has, and as many only if none is in use. */
  lemma FreeCount(h: Heap, p: int)
    requires Ok(h) && p in h.arenas && h.arenas[p].Small?
    ensures var d, c := h.arenas[p].desc, h.arenas[p].freeCnt;
            0 <= c <= PerArena(d) && (c == PerArena(d) ==> forall b :: b in h.live ==> b.page != p)
  {
    hide PerArena;
    hide NoDup;
    assert ArenaOk(h, p);
    var d := h.arenas[p].desc;
    var f, all := FreeIn(h.free[d], p), BlockSet(p, PerArena(d));
    forall b | b in f ensures b in all {
      assert InFree(h, d, b);
    }
    SubsetSize(f, all);
    if |f| == PerArena(d) {
      forall b | b in h.live ensures b.page != p {
        assert IsBlock(h, b);
        assert b.page == p ==> b in all;
        assert b in f ==> InFree(h, d, b);
      }
    }
  }

  // ---------- A new arena ----------

  /** Pages that no arena lies on. */
  ghost predicate PagesFree(h: Heap, p: int, n: int) {
    forall q :: q in h.arenas ==> q + Pages(h.arenas[q]) <= p || p + n <= q
  }

  function WithArena(h: Heap, d: int, p: int): Heap
    requires 0 <= d < |h.free|
  {
    h.(arenas := h.arenas[p := Small(d, PerArena(d))], free := h.free[d := AllBlocks(p, PerArena(d))])
  }

  lemma WithArenaOk(h: Heap, d: int, p: int)
    requires Ok(h) && 0 <= d < DESCS && h.free[d] == [] && PagesFree(h, p, 1)
    ensures Ok(WithArena(h, d, p)) && p !in h.arenas
  {
    hide PerArena;
    hide NoDup;
    var h', n := WithArena(h, d, p), PerArena(d);
    assert p !in h.arenas;
    WithArenaLists(h, d, p);
    assert FreeIn(h'.free[d], p) == BlockSet(p, n) by {
      forall b ensures b in FreeIn(h'.free[d], p) <==> b in BlockSet(p, n) {
        if b.page == p && 0 <= b.idx < n {
          assert h'.free[d][b.idx] == b;
        }
      }
    }
    forall i | 0 <= i < n ensures InFree(h', d, Block(p, i)) {
      assert h'.free[d][i] == Block(p, i);
    }
    forall q | q in h'.arenas ensures ArenaOk(h', q) {
      if q != p {
        ArenaStays(h, h', q, d);
      }
    }
    hide ListsOk;
    hide LiveOk;
  }

  lemma WithArenaLists(h: Heap, d: int, p: int)
    requires ListsOk(h) && LiveOk(h) && PagesDisjoint(h) && 0 <= d < DESCS && h.free[d] == [] && PagesFree(h, p, 1)
    requires p !in h.arenas
    ensures var h' := WithArena(h, d, p); ListsOk(h') && LiveOk(h') && PagesDisjoint(h')
  {
    hide PerArena;
    var h' := WithArena(h, d, p);
    forall b | b in h.live ensures b.page != p && IsBlock(h', b) {
      assert IsBlock(h, b);
    }
    forall e, b | InFree(h', e, b)
      ensures b !in h'.live && IsBlock(h', b) && h'.arenas[b.page].Small? && h'.arenas[b.page].desc == e
    {
      if e != d {
        assert InFree(h, e, b);
      } else {
        var i :| 0 <= i < |h'.free[d]| && h'.free[d][i] == b;
        assert b == Block(p, i);
      }
    }
    forall e | 0 <= e < DESCS ensures NoDup(h'.free[e]) {
      assert NoDup(h.free[e]);
    }
  }

  /** An arena does not notice a change of a list that holds none of its blocks before and after. */
  lemma ArenaStays(h: Heap, h': Heap, q: int, d: int)
    requires ArenaOk(h, q) && q in h'.arenas && h'.arenas[q] == h.arenas[q] && |h'.free| == |h.free|
    requires forall e :: 0 <= e < |h.free| && e != d ==> h'.free[e] == h.free[e]
    requires 0 <= d < |h.free| && forall b: Block :: b.page == q ==> (b in h'.free[d] <==> b in h.free[d])
    requires forall b: Block :: b.page == q ==> (b in h'.live <==> b in h.live)
    ensures ArenaOk(h', q)
  {
    hide PerArena;
    if h.arenas[q].Small? {
      var e := h.arenas[q].desc;
      assert FreeIn(h'.free[e], q) == FreeIn(h.free[e], q);
      forall i | 0 <= i < PerArena(e) ensures Block(q, i) in h'.live || InFree(h', e, Block(q, i)) {
        assert Block(q, i) in h.live || InFree(h, e, Block(q, i));
      }
    }
  }

  // ---------- A block is handed out ----------

  function Popped(h: Heap, d: int): Heap
    requires 0 <= d < |h.free| && h.free[d] != [] && h.free[d][0].page in h.arenas && h.arenas[h.free[d][0].page].Small?
  {
    var b := h.free[d][0];
    var a := h.arenas[b.page];
    Heap(h.arenas[b.page := a.(freeCnt := a.freeCnt - 1)], h.free[d := h.free[d][1..]], h.live + {b})
  }

  lemma FirstFree(h: Heap, d: int)
    requires ListsOk(h) && 0 <= d < DESCS && h.free[d] != []
    ensures var b := h.free[d][0];
            b !in h.live && IsBlock(h, b) && h.arenas[b.page].Small? && h.arenas[b.page].desc == d
  {
    assert InFree(h, d, h.free[d][0]);
  }

  lemma PoppedLists(h: Heap, d: int)
    requires Ok(h) && 0 <= d < DESCS && h.free[d] != []
    requires h.free[d][0].page in h.arenas && h.arenas[h.free[d][0].page].Small?
    ensures ListsOk(Popped(h, d)) && LiveOk(Popped(h, d)) && PagesDisjoint(Popped(h, d))
  {
    hide PerArena;
    FirstFree(h, d);
    var h', b := Popped(h, d), h.free[d][0];
    forall e, c | InFree(h', e, c)
      ensures c !in h'.live && IsBlock(h', c) && h'.arenas[c.page].Small? && h'.arenas[c.page].desc == e
    {
      assert InFree(h, e, c);
      assert c != b;
    }
    forall c | c in h'.live ensures IsBlock(h', c) {
      assert IsBlock(h, c);
    }
    forall e | 0 <= e < DESCS ensures NoDup(h'.free[e]) {
      assert NoDup(h.free[e]);
    }
    forall p, q | p in h'.arenas && q in h'.arenas && p < q ensures p + Pages(h'.arenas[p]) <= q {
      assert p + Pages(h.arenas[p]) <= q;
    }
  }

  lemma PoppedOk(h: Heap, d: int)
    requires Ok(h) && 0 <= d < DESCS && h.free[d] != []
    requires h.free[d][0].page in h.arenas && h.arenas[h.free[d][0].page].Small?
    ensures Ok(Popped(h, d))
  {
    hide PerArena;
    PoppedLists(h, d);
    FirstFree(h, d);
    var h', q := Popped(h, d), h.free[d];
    var b := q[0];
    assert NoDup(q);
    forall c ensures c in q[1..] <==> c in q && c != b {}
    forall p | p in h'.arenas ensures ArenaOk(h', p) {
      assert ArenaOk(h, p);
      if p != b.page {
        ArenaStays(h, h', p, d);
      } else {
        assert FreeIn(q[1..], p) == FreeIn(q, p) - {b};
        forall i | 0 <= i < PerArena(d) ensures Block(p, i) in h'.live || InFree(h', d, Block(p, i)) {
          assert Block(p, i) in h.live || InFree(h, d, Block(p, i));
        }
      }
    }
    hide NoDup;
  }

  // ---------- A block comes back ----------

  function Pushed(h: Heap, b: Block): Heap
    requires b.page in h.arenas && h.arenas[b.page].Small? && 0 <= h.arenas[b.page].desc < |h.free|
  {
    var a := h.arenas[b.page];
    Heap(h.arenas[b.page := a.(freeCnt := a.freeCnt + 1)], h.free[a.desc := [b] + h.free[a.desc]], h.live - {b})
  }

  lemma LiveSmall(h: Heap, b: Block)
    requires Ok(h) && b in h.live
    ensures IsBlock(h, b) && (h.arenas[b.page].Small? ==> 0 <= h.arenas[b.page].desc < DESCS)
    ensures forall d :: !InFree(h, d, b)
  {
    assert IsBlock(h, b) && ArenaOk(h, b.page);
  }

  lemma PushedLists(h: Heap, b: Block)
    requires Ok(h) && b in h.live && b.page in h.arenas && h.arenas[b.page].Small?
             && 0 <= h.arenas[b.page].desc < |h.free|
    ensures ListsOk(Pushed(h, b)) && LiveOk(Pushed(h, b)) && PagesDisjoint(Pushed(h, b))
  {
    hide PerArena;
    LiveSmall(h, b);
    var h', d := Pushed(h, b), h.arenas[b.page].desc;
    assert !InFree(h, d, b);
    forall e, c | InFree(h', e, c)
      ensures c !in h'.live && IsBlock(h', c) && h'.arenas[c.page].Small? && h'.arenas[c.page].desc == e
    {
      assert InFree(h, e, c) || (e == d && c == b);
    }
    forall c | c in h'.live ensures IsBlock(h', c) {
      assert IsBlock(h, c);
    }
    forall e | 0 <= e < DESCS ensures NoDup(h'.free[e]) {
      assert NoDup(h.free[e]);
    }
    forall p, q | p in h'.arenas && q in h'.arenas && p < q ensures p + Pages(h'.arenas[p]) <= q {
      assert p + Pages(h.arenas[p]) <= q;
    }
  }

  lemma PushedOk(h: Heap, b: Block)
    requires Ok(h) && b in h.live && b.page in h.arenas && h.arenas[b.page].Small?
             && 0 <= h.arenas[b.page].desc < |h.free|
    ensures Ok(Pushed(h, b))
  {
    hide PerArena;
    hide NoDup;
    PushedLists(h, b);
    LiveSmall(h, b);
    var h', d := Pushed(h, b), h.arenas[b.page].desc;
    assert !InFree(h, d, b);
    forall p | p in h'.arenas ensures ArenaOk(h', p) {
      assert ArenaOk(h, p);
      if p != b.page {
        ArenaStays(h, h', p, d);
      } else {
        assert FreeIn(h'.free[d], p) == FreeIn(h.free[d], p) + {b};
        forall i | 0 <= i < PerArena(d) ensures Block(p, i) in h'.live || InFree(h', d, Block(p, i)) {
          assert Block(p, i) in h.live || InFree(h, d, Block(p, i));
        }
      }
    }
  }

  /** A list without the blocks of a page. */
  function Without(q: seq<Block>, p: int): (r: seq<Block>)
    ensures forall b :: b in r <==> b in q && b.page != p
    ensures NoDup(q) ==> NoDup(r)
  {
    if q == [] then [] else
    var r := Without(q[1..], p);
    assert q == [q[0]] + q[1..];
    if q[0].page == p then r else [q[0]] + r
  }

  function DroppedArena(h: Heap, p: int): Heap
    requires p in h.arenas && h.arenas[p].Small? && 0 <= h.arenas[p].desc < |h.free|
  {
    var d := h.arenas[p].desc;
    h.(arenas := h.arenas - {p}, free := h.free[d := Without(h.free[d], p)])
  }

  lemma DroppedArenaOk(h: Heap, p: int)
    requires Ok(h) && p in h.arenas && h.arenas[p].Small? && 0 <= h.arenas[p].desc < |h.free|
    requires h.arenas[p].freeCnt >= PerArena(h.arenas[p].desc)
    ensures Ok(DroppedArena(h, p)) && h.arenas[p].freeCnt == PerArena(h.arenas[p].desc)
    ensures forall b :: b in h.live ==> b.page != p
  {
    hide PerArena;
    FreeCount(h, p);
    var h', d := DroppedArena(h, p), h.arenas[p].desc;
    DroppedLists(h, p);
    forall q | q in h'.arenas ensures ArenaOk(h', q) {
      ArenaStays(h, h', q, d);
    }
    hide ListsOk;
    hide LiveOk;
  }

  lemma DroppedLists(h: Heap, p: int)
    requires Ok(h) && p in h.arenas && h.arenas[p].Small? && 0 <= h.arenas[p].desc < |h.free|
    requires forall b :: b in h.live ==> b.page != p
    ensures ListsOk(DroppedArena(h, p)) && LiveOk(DroppedArena(h, p)) && PagesDisjoint(DroppedArena(h, p))
  {
    hide PerArena;
    var h', d := DroppedArena(h, p), h.arenas[p].desc;
    forall e, c | InFree(h', e, c)
      ensures c !in h'.live && IsBlock(h', c) && h'.arenas[c.page].Small? && h'.arenas[c.page].desc == e
    {
      assert InFree(h, e, c);
    }
    forall c | c in h'.live ensures IsBlock(h', c) {
      assert IsBlock(h, c);
    }
    forall e | 0 <= e < DESCS ensures NoDup(h'.free[e]) {
      assert NoDup(h.free[e]);
    }
  }

  // ---------- Big blocks ----------

  function WithBig(h: Heap, p: int, n: int): Heap {
    h.(arenas := h.arenas[p := Big(n)], live := h.live + {Block(p, 0)})
  }

  lemma WithBigOk(h: Heap, p: int, n: int)
    requires Ok(h) && n >= 1 && PagesFree(h, p, n)
    ensures Ok(WithBig(h, p, n)) && p !in h.arenas
  {
    hide PerArena;
    var h' := WithBig(h, p, n);
    assert p !in h.arenas by {
      assert p in h.arenas ==> ArenaOk(h, p);
    }
    forall b | b in h.live ensures b.page != p && IsBlock(h', b) {
      assert IsBlock(h, b);
    }
    forall e, c | InFree(h', e, c)
      ensures c !in h'.live && IsBlock(h', c) && h'.arenas[c.page].Small? && h'.arenas[c.page].desc == e
    {
      assert InFree(h, e, c);
    }
    forall q | q in h'.arenas ensures ArenaOk(h', q) {
      if q != p {
        ArenaStays(h, h', q, 0);
      }
    }
  }

  function WithoutBig(h: Heap, p: int): Heap {
    h.(arenas := h.arenas - {p}, live := h.live - {Block(p, 0)})
  }

  lemma WithoutBigOk(h: Heap, p: int)
    requires Ok(h) && p in h.arenas && h.arenas[p].Big?
    ensures Ok(WithoutBig(h, p))
  {
    hide PerArena;
    var h' := WithoutBig(h, p);
    forall b | b in h'.live ensures IsBlock(h', b) {
      assert IsBlock(h, b);
    }
    forall e, c | InFree(h', e, c)
      ensures c !in h'.live && IsBlock(h', c) && h'.arenas[c.page].Small? && h'.arenas[c.page].desc == e
    {
      assert InFree(h, e, c);
    }
    forall q | q in h'.arenas ensures ArenaOk(h', q) {
      ArenaStays(h, h', q, 0);
    }
  }
}
