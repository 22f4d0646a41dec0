/**
 * The kernel's allocator. Pages come from the page allocator, whose choice is an argument: it hands out pages that
 * nobody has, or nothing. Sizes are 32-bit numbers. Locks are left out: every operation runs under its lock.
 */
module Malloc {
  import opened Basics
  import opened Arenas

  const WORD := 0x1_0000_0000

  /** The pages for a big block, in 32-bit arithmetic. */
  function PageCount(size: int): int {
    (size + HEADER + PGSIZE - 1) % WORD / PGSIZE
  }

  /** The greatest request that is rounded up without wrapping around to a page that is too small. */
  const MAX_SIZE := WORD - HEADER

  /** The pages hold the request unless the request wraps around; exactly then there are some, but not enough. */
  lemma PageCountEnough(size: int)
    requires 0 <= size < WORD && PageCount(size) >= 1
    ensures PGSIZE * PageCount(size) - HEADER >= size <==> size <= MAX_SIZE
  {}

  lemma WrapsAround()
    ensures PageCount(WORD - 1) == 1 && PGSIZE * PageCount(WORD - 1) - HEADER < WORD - 1
  {}

  function Product(a: int, b: int): int {
    a * b
  }

  /** The size that `calloc` asks for. */
  function Cut(a: int, b: int): int {
    Product(a, b) % WORD
  }

  lemma CutRange(a: int, b: int)
    requires 0 <= a && 0 <= b
    ensures 0 <= Cut(a, b) < WORD && (Product(a, b) < WORD ==> Cut(a, b) == Product(a, b))
  {
    assert a * b >= 0;
  }

  lemma BigFits(size: int)
    ensures PGSIZE * PageCount(size) - HEADER <= MAX_SIZE
  {}

  /** A product of 2^32 + 131073 is taken for one of 131073, which is not below either factor. */
  lemma CutProductPasses()
    ensures Cut(0x10001, 0x10001) == 0x20001 < Product(0x10001, 0x10001)
  {}

  /**
   * Of a request for a big block: what is copied into the new block fits if and only if the request does not wrap
   * around or the old block fits into one page.
   */
  lemma CopyFits(newSize: int, oldSize: int)
    requires 1024 < newSize < WORD && PageCount(newSize) >= 1
    ensures Min(newSize, oldSize) <= PGSIZE * PageCount(newSize) - HEADER <==> !Overruns(newSize, oldSize)
  {
    PageCountEnough(newSize);
  }

  /** The greatest request, made for a block of three pages, gets one page for all that is copied. */
  lemma CopyOverruns()
    ensures PageCount(WORD - 1) == 1 && Overruns(WORD - 1, 3 * PGSIZE - HEADER)
    ensures Min(WORD - 1, 3 * PGSIZE - HEADER) > PGSIZE * PageCount(WORD - 1) - HEADER
  {}

  /** The request wraps around, and the old block is larger than the page that it gets. */
  predicate Overruns(newSize: int, oldSize: int) {
    newSize > MAX_SIZE && oldSize > PGSIZE - HEADER
  }

  function Min(a: int, b: int): int {
    if a < b then a else b
  }

  function Read(mem: map<int, int>, a: int): int {
    if a in mem then mem[a] else 0
  }

  /** The `n` bytes from `to` on are what those from `from` on were. */
  ghost predicate Copied(mem: map<int, int>, to: int, was: map<int, int>, from: int, n: int) {
    forall a :: to <= a < to + n ==> Read(mem, a) == Read(was, a - to + from)
  }

  ghost predicate Cleared(mem: map<int, int>, start: int, n: int) {
    forall a :: start <= a < start + n ==> Read(mem, a) == 0
  }

  /** A block keeps its place and its size. */
  ghost predicate SameSpot(h: Heap, h': Heap, b: Block) {
    && b.page in h.arenas && b.page in h'.arenas
    && Address(h', b) == Address(h, b) && BlockSize(h', b) == BlockSize(h, b)
  }

  /** The pages of an arena are clear of the blocks of others. */
  lemma OutsideArena(h: Heap, b: Block, p: int)
    requires PagesDisjoint(h) && IsBlock(h, b) && p in h.arenas && b.page != p
    ensures Address(h, b) + BlockSize(h, b) <= p * PGSIZE || (p + Pages(h.arenas[p])) * PGSIZE <= Address(h, b)
  {
    hide Slot;
    hide PerArena;
    hide Size;
    WithinArena(h, b);
  }

  /** Blocks of descriptor `d` are the smallest that have room for the size. */
  predicate ClassOf(size: int, d: int) {
    0 < size && 0 <= d < DESCS && Size(d) >= size && forall e :: 0 <= e < d ==> Size(e) < size
  }

  lemma NoClass()
    ensures forall d :: !ClassOf(0, d)
  {}

  lemma OneClass(size: int, d: int)
    requires 0 < size && 0 <= d <= DESCS && (d < DESCS ==> Size(d) >= size) && forall e :: 0 <= e < d ==> Size(e) < size
    ensures forall e :: ClassOf(size, e) <==> e == d < DESCS
  {
    hide Size;
  }

  class Allocator {
    var arenas: map<int, Arena>
    var free: seq<seq<Block>>
    var mem: map<int, int>
    ghost var live: set<Block>

    ghost function Now(): Heap
      reads this
    {
      Heap(arenas, free, live)
    }

    /** What is known of places and sizes at run time. */
    function Layout(): Heap
      reads this
    {
      Heap(arenas, free, {})
    }

    constructor ()
      ensures Valid(Now()) && live == {} && arenas == map[]
    {
      arenas, mem, live := map[], map[], {};
      free := seq(DESCS, _ => []);
    }

    /** The block sizes of the descriptors: 16, doubled as long as it is below half a page. */
    static method MallocInit() returns (sizes: seq<int>)
      ensures |sizes| == DESCS && forall d :: 0 <= d < DESCS ==> sizes[d] == Size(d)
    {
      var blockSize := 16;
      sizes := [];
      while blockSize < PGSIZE / 2
        invariant |sizes| <= DESCS && blockSize == (if |sizes| == DESCS then 2048 else Size(|sizes|))
        invariant forall d :: 0 <= d < |sizes| ==> sizes[d] == Size(d)
        decreases DESCS - |sizes|
      {
        sizes := sizes + [blockSize];
        blockSize := blockSize * 2;
      }
    }

    /** The smallest size that is large enough. */
    method FindDesc(size: int) returns (d: int)
      ensures 0 <= d <= DESCS && (d < DESCS ==> Size(d) >= size) && forall e :: 0 <= e < d ==> Size(e) < size
    {
      d := 0;
      while d < DESCS && Size(d) < size
        invariant 0 <= d <= DESCS && forall e :: 0 <= e < d ==> Size(e) < size
      {
        d := d + 1;
      }
    }

    /** A new block, of at least `size` bytes unless the size wraps around; nothing else moves. */
    method Malloc(size: int, page: Option<int>) returns (r: Option<Block>)
      requires Valid(Now()) && 0 <= size < WORD
      requires page.Some? ==> PagesFree(Now(), page.value, if size <= 1024 then 1 else PageCount(size))
      modifies this`arenas, this`free, this`live
      ensures Valid(Now())
      ensures r == None ==> Now() == old(Now())
      ensures r.Some? ==> r.value !in old(live) && live == old(live) + {r.value} && r.value.page in arenas
      ensures r.Some? ==> (BlockSize(Now(), r.value) >= size <==> size <= MAX_SIZE)
      ensures r.Some? && size > 1024 ==> BlockSize(Now(), r.value) == PGSIZE * PageCount(size) - HEADER >= 1
      ensures r.Some? ==> BlockSize(Now(), r.value) <= MAX_SIZE
      ensures forall b :: b in old(live) ==> SameSpot(old(Now()), Now(), b)
      ensures size == 0 ==> r == None
      ensures r == None && size > 0 ==> page == None || (size > 1024 && PageCount(size) == 0)
      ensures forall d :: ClassOf(size, d) ==>
                && (r == None <==> page == None && old(free[d]) == [])
                && (r.Some? ==> BlockSize(Now(), r.value) == Size(d))
                && (old(free[d]) != [] ==> r == Some(old(free[d][0])) && arenas.Keys == old(arenas).Keys)
    {
      hide ClassOf;
      if size == 0 {
        NoClass();
        return None;
      }
      var d := FindDesc(size);
      OneClass(size, d);
      assert Size(DESCS - 1) == 1024;
      if d == DESCS {
        r := MallocBig(PageCount(size), page);
        if r.Some? {
          PageCountEnough(size);
          BigFits(size);
        }
      } else {
        LiveStay(Now());
        if free[d] != [] {
          FirstFree(Now(), d);
        }
        r := MallocSmall(d, page);
      }
    }

    method MallocBig(pageCnt: int, page: Option<int>) returns (r: Option<Block>)
      requires Valid(Now()) && (page.Some? ==> PagesFree(Now(), page.value, pageCnt))
      modifies this`arenas, this`live
      ensures Valid(Now())
      ensures r == None ==> Now() == old(Now())
      ensures r.Some? ==> r.value !in old(live) && live == old(live) + {r.value}
      ensures r.Some? ==> pageCnt >= 1 && page.Some? && r.value == Block(page.value, 0)
      ensures r.Some? ==> Now() == WithBig(old(Now()), page.value, pageCnt)
      ensures r == None ==> page == None || pageCnt <= 0
      ensures forall b :: b in old(live) ==> SameSpot(old(Now()), Now(), b)
    {
      hide PerArena;
      hide ListsOk;
      hide ArenaOk;
      if page == None || pageCnt <= 0 {
        LiveStay(Now());
        return None;
      }
      ghost var h := Now();
      var p := page.value;
      WithBigOk(h, p, pageCnt);
      LiveStay(h);
      arenas := arenas[p := Big(pageCnt)];
      live := live + {Block(p, 0)};
      return Some(Block(p, 0));
    }

    method MallocSmall(d: int, page: Option<int>) returns (r: Option<Block>)
      requires Valid(Now()) && 0 <= d < DESCS && |free| == DESCS && (page.Some? ==> PagesFree(Now(), page.value, 1))
      requires free[d] != [] ==> free[d][0].page in arenas && arenas[free[d][0].page].Small?
      modifies this`arenas, this`free, this`live
      ensures Valid(Now())
      ensures r == None ==> Now() == old(Now())
      ensures r.Some? ==> r.value !in old(live) && live == old(live) + {r.value}
      ensures r.Some? ==> r.value.page in arenas && BlockSize(Now(), r.value) == Size(d)
      ensures r == None <==> old(free[d]) == [] && page == None
      ensures r.Some? && old(free[d]) != [] ==> Now() == old(Popped(Now(), d)) && r.value == old(free[d][0])
      ensures r.Some? && old(free[d]) == [] ==> Now() == Popped(old(WithArena(Now(), d, page.value)), d)
      ensures forall b :: b in old(live) ==> SameSpot(old(Now()), Now(), b)
    {
      hide PerArena;
      hide Size;
      hide ListsOk;
      hide ArenaOk;
      ghost var h := Now();
      LiveStay(h);
      if free[d] == [] {
        if page == None {
          return None;
        }
        WithArenaOk(h, d, page.value);
        AddArena(d, page.value);
        LiveStay(Now());
      }
      FreeCounts(Now(), d);
      PoppedOk(Now(), d);
      var b := free[d][0];
      free := free[d := free[d][1..]];
      arenas := arenas[b.page := arenas[b.page].(freeCnt := arenas[b.page].freeCnt - 1)];
      live := live + {b};
      return Some(b);
    }

    /** A page becomes an arena, and all its blocks go to the free list. */
    method AddArena(d: int, p: int)
      requires 0 <= d < |free| && free[d] == []
      modifies this`arenas, this`free
      ensures Now() == WithArena(old(Now()), d, p)
    {
      ghost var was := free;
      arenas := arenas[p := Small(d, PerArena(d))];
      var i := 0;
      while i < PerArena(d)
        invariant 0 <= i <= PerArena(d) && arenas == old(arenas)[p := Small(d, PerArena(d))]
        invariant |free| == |was| && free == was[d := free[d]]
        invariant |free[d]| == i && forall j :: 0 <= j < i ==> free[d][j] == Block(p, j)
      {
        free := free[d := free[d] + [Block(p, i)]];
        i := i + 1;
      }
      assert free[d] == AllBlocks(p, PerArena(d));
      assert Now().free == WithArena(old(Now()), d, p).free;
      assert Now().arenas == WithArena(old(Now()), d, p).arenas;
    }

    /**
     * A block for `a` times `b` bytes, all zero. The product is cut to 32 bits, and the comparison with the factors
     * does not always notice: a block that is returned has room for all if and only if the product itself fits. If
     * even the cut product wraps around, clearing would run over the end of the block, and the model stops there.
     */
    method Calloc(a: int, b: int, page: Option<int>) returns (r: Option<Block>, ok: bool)
      requires Valid(Now()) && 0 <= a < WORD && 0 <= b < WORD
      requires page.Some? ==> PagesFree(Now(), page.value, if Cut(a, b) <= 1024 then 1 else PageCount(Cut(a, b)))
      modifies this
      ensures Valid(Now())
      ensures r == None ==> Now() == old(Now())
      ensures r.Some? ==> r.value !in old(live) && live == old(live) + {r.value} && r.value.page in arenas
      ensures r.Some? ==> (BlockSize(Now(), r.value) >= Product(a, b) <==> Product(a, b) <= MAX_SIZE)
      ensures r.Some? ==> Cut(a, b) >= a && Cut(a, b) >= b
      ensures r == None && page.Some? ==> Cut(a, b) < a || Cut(a, b) < b || Cut(a, b) == 0
                                          || (Cut(a, b) > 1024 && PageCount(Cut(a, b)) == 0)
      ensures !ok <==> r.Some? && Cut(a, b) > MAX_SIZE
      ensures r.Some? && ok ==>
                && Cut(a, b) <= BlockSize(Now(), r.value)
                && Cleared(mem, Address(Now(), r.value), Cut(a, b))
      ensures forall c, x :: c in old(live) && Within(Now(), c, x) ==>
                Within(old(Now()), c, x) && Read(mem, x) == Read(old(mem), x)
    {
      hide PerArena;
      hide Slot;
      hide Size;
      hide ListsOk;
      hide ArenaOk;
      hide PageCount;
      hide Product;
      hide Cut;
      CutRange(a, b);
      ghost var h := Now();
      LiveStay(h);
      ok := true;
      var size := Cut(a, b);
      if size < a || size < b {
        return None, true;
      }
      r := Malloc(size, page);
      if r.Some? {
        LiveStay(Now());
        OthersApart(Now(), r.value);
        ok := size <= BlockSize(Layout(), r.value);
        if ok {
          Memset(Address(Layout(), r.value), size, 0);
        }
      }
    }

    // ---------- Giving back ----------

    method Memset(start: int, n: int, value: int)
      requires n >= 0
      modifies this`mem
      ensures forall a :: Read(mem, a) == if start <= a < start + n then value else Read(old(mem), a)
    {
      var i := 0;
      while i < n
        invariant 0 <= i <= n
        invariant forall a :: Read(mem, a) == if start <= a < start + i then value else Read(old(mem), a)
      {
        mem := mem[start + i := value];
        i := i + 1;
      }
    }

    /** Gives a block back, and the page with it if that leaves no block of the arena in use. */
    method Free(p: Option<Block>)
      requires Valid(Now()) && (p.Some? ==> p.value in live)
      modifies this
      ensures Valid(Now()) && live == if p.Some? then old(live) - {p.value} else old(live)
      ensures forall b :: b in live ==> SameSpot(old(Now()), Now(), b)
      ensures forall b, a :: b in live && Within(Now(), b, a) ==> Read(mem, a) == Read(old(mem), a)
    {
      hide PerArena;
      hide Slot;
      hide ListsOk;
      hide ArenaOk;
      LiveStay(Now());
      if p.Some? {
        LiveSmall(Now(), p.value);
        if arenas[p.value.page].Small? {
          FreeSmall(p.value);
        } else {
          FreeBig(p.value);
        }
      }
    }

    method FreeBig(b: Block)
      requires Valid(Now()) && b in live && b.page in arenas && arenas[b.page].Big?
      modifies this
      ensures Valid(Now()) && live == old(live) - {b}
      ensures forall c :: c in live ==> SameSpot(old(Now()), Now(), c)
      ensures forall c, a :: c in live && Within(Now(), c, a) ==> Read(mem, a) == Read(old(mem), a)
    {
      hide PerArena;
      hide Slot;
      hide ListsOk;
      hide ArenaOk;
      ghost var h := Now();
      LiveStay(h);
      WithoutBigOk(h, b.page);
      OthersOutside(h, b.page);
      Memset(b.page * PGSIZE, arenas[b.page].pages * PGSIZE, 0xcc);
      arenas := arenas - {b.page};
      live := live - {b};
      LiveStay(Now());
      forall c, a | c in live && Within(Now(), c, a) ensures Read(mem, a) == Read(old(mem), a) {
        assert Within(h, c, a) && c.page != b.page;
      }
    }

    method FreeSmall(b: Block)
      requires Valid(Now()) && b in live && b.page in arenas && arenas[b.page].Small?
               && 0 <= arenas[b.page].desc < |free|
      modifies this
      ensures Valid(Now()) && live == old(live) - {b}
      ensures var h := old(Pushed(Now(), b));
              Now() == if Busy(h, b.page) then h else DroppedArena(h, b.page)
      ensures forall c :: c in live ==> SameSpot(old(Now()), Now(), c)
      ensures forall c, a :: c in live && Within(Now(), c, a) ==> Read(mem, a) == Read(old(mem), a)
    {
      hide PerArena;
      hide Slot;
      hide ListsOk;
      hide ArenaOk;
      hide Size;
      hide Pushed;
      hide DroppedArena;
      ghost var h := Now();
      LiveStay(h);
      LiveSmall(h, b);
      PushedOk(h, b);
      var d := arenas[b.page].desc;
      Clear(b);
      ghost var cleared := mem;
      Push(b, d);
      LiveStay(Now());
      ghost var h' := Now();
      if arenas[b.page].freeCnt >= PerArena(d) {
        DropArena(b.page, d);
      }
      forall c, a | c in live && Within(Now(), c, a) ensures Read(mem, a) == Read(old(mem), a) {
        assert Within(h', c, a) && Within(h, c, a);
      }
    }

    /** Overwrites a small block, and no other. */
    method Clear(b: Block)
      requires Valid(Now()) && b in live && b.page in arenas && arenas[b.page].Small?
      modifies this`mem
      ensures forall c, a :: c in live && c != b && Within(Now(), c, a) ==> Read(mem, a) == Read(old(mem), a)
    {
      hide PerArena;
      hide Slot;
      hide ListsOk;
      hide ArenaOk;
      OthersApart(Now(), b);
      Memset(Address(Layout(), b), BlockSize(Layout(), b), 0xcc);
    }

    /** Puts a block at the head of its free list. */
    method Push(b: Block, d: int)
      requires b.page in arenas && arenas[b.page].Small? && arenas[b.page].desc == d && 0 <= d < |free|
      modifies this`arenas, this`free, this`live
      ensures Now() == old(Pushed(Now(), b)) && arenas.Keys == old(arenas).Keys
      ensures forall q :: q in arenas && q != b.page ==> arenas[q] == old(arenas)[q]
      ensures forall c: Block :: c.page in arenas ==>
              && Address(Now(), c) == Address(old(Now()), c) && BlockSize(Now(), c) == BlockSize(old(Now()), c)
      ensures arenas[b.page] == Small(d, old(arenas)[b.page].freeCnt + 1) && live == old(live) - {b}
    {
      hide Slot;
      hide Size;
      free := free[d := [b] + free[d]];
      arenas := arenas[b.page := arenas[b.page].(freeCnt := arenas[b.page].freeCnt + 1)];
      live := live - {b};
    }

    /** An arena without a block in use gives its page back. */
    method DropArena(p: int, d: int)
      requires Ok(Now()) && p in arenas && arenas[p].Small? && arenas[p].desc == d && 0 <= d < |free|
      requires arenas[p].freeCnt >= PerArena(d) && forall q :: q in arenas && q != p ==> Busy(Now(), q)
      modifies this`arenas, this`free, this`mem
      ensures Valid(Now()) && Now() == old(DroppedArena(Now(), p))
      ensures forall c :: c in live ==> SameSpot(old(Now()), Now(), c)
      ensures forall c, a :: c in live && Within(Now(), c, a) ==> Read(mem, a) == Read(old(mem), a)
    {
      hide PerArena;
      hide Slot;
      hide ListsOk;
      hide ArenaOk;
      ghost var h := Now();
      LiveStay(h);
      DroppedArenaOk(h, p);
      OthersOutside(h, p);
      Unlist(d, p);
      Memset(p * PGSIZE, PGSIZE, 0xcc);
      arenas := arenas - {p};
      assert Now() == DroppedArena(h, p);
      forall c, a | c in live && Within(Now(), c, a) ensures Read(mem, a) == Read(old(mem), a) {
        assert Within(h, c, a) && c.page != p;
      }
    }

    /** Copies bytes between ranges that do not overlap. */
    method Memcpy(to: int, from: int, n: int)
      requires n >= 0 && (to + n <= from || from + n <= to)
      modifies this`mem
      ensures Copied(mem, to, old(mem), from, n)
      ensures forall a :: !(to <= a < to + n) ==> Read(mem, a) == Read(old(mem), a)
    {
      var k := 0;
      while k < n
        invariant 0 <= k <= n
        invariant Copied(mem, to, old(mem), from, k)
        invariant forall a :: !(to <= a < to + k) ==> Read(mem, a) == Read(old(mem), a)
      {
        ghost var m := mem;
        assert Read(m, from + k) == Read(old(mem), from + k);
        mem := mem[to + k := Read(mem, from + k)];
        forall a | to <= a < to + k + 1 ensures Read(mem, a) == Read(old(mem), a - to + from) {
          assert a != to + k ==> Read(mem, a) == Read(m, a);
        }
        k := k + 1;
      }
    }

    /**
     * Moves a block to one of another size. The bytes that both have room for stay, and so do the other blocks.
     * Without memory the old block stays as it is. If the copy would run over the end of the new block, which the
     * sizes decide, the model stops before it: nothing can be said of the memory after that.
     */
    method Realloc(oldBlock: Option<Block>, newSize: int, page: Option<int>) returns (r: Option<Block>, ok: bool)
      requires Valid(Now()) && 0 <= newSize < WORD && (oldBlock.Some? ==> oldBlock.value in live)
      requires page.Some? ==> PagesFree(Now(), page.value, if newSize <= 1024 then 1 else PageCount(newSize))
      modifies this
      ensures Valid(Now())
      ensures oldBlock.Some? ==> oldBlock.value.page in old(arenas)
      ensures !ok <==> r.Some? && oldBlock.Some? && Overruns(newSize, BlockSize(old(Now()), oldBlock.value))
      ensures newSize == 0 ==> r == None && live == if oldBlock.Some? then old(live) - {oldBlock.value} else old(live)
      ensures newSize > 0 && r == None ==> Now() == old(Now()) && mem == old(mem)
      ensures r.Some? ==> r.value !in old(live) && r.value.page in arenas
      ensures r.Some? ==> (BlockSize(Now(), r.value) >= newSize <==> newSize <= MAX_SIZE)
      ensures r.Some? && ok ==> live == old(live) - (if oldBlock.Some? then {oldBlock.value} else {}) + {r.value}
      ensures r.Some? && !ok ==> live == old(live) + {r.value}
      ensures r.Some? && oldBlock.Some? && ok ==>
                var n := Min(newSize, BlockSize(old(Now()), oldBlock.value));
                && n <= BlockSize(Now(), r.value)
                && Copied(mem, Address(Now(), r.value), old(mem), Address(old(Now()), oldBlock.value), n)
      ensures r.Some? && oldBlock.Some? && !ok ==>
                Min(newSize, BlockSize(old(Now()), oldBlock.value)) > BlockSize(Now(), r.value)
      ensures forall b, a :: b in live && b in old(live) && Within(Now(), b, a) ==>
                Within(old(Now()), b, a) && Read(mem, a) == Read(old(mem), a)
    {
      hide PerArena;
      hide Slot;
      hide Size;
      hide ListsOk;
      hide ArenaOk;
      hide PageCount;
      ghost var h := Now();
      LiveStay(h);
      ok := true;
      if newSize == 0 {
        Free(oldBlock);
        return None, true;
      }
      r := Malloc(newSize, page);
      if oldBlock.Some? && r.Some? {
        ghost var h' := Now();
        if newSize > 1024 {
          CopyFits(newSize, BlockSize(h, oldBlock.value));
        }
        var oldSize := BlockSize(Layout(), oldBlock.value);
        ok := Min(newSize, oldSize) <= BlockSize(Layout(), r.value);
        if ok {
          MoveTo(oldBlock.value, r.value, newSize);
          assert r.value in live && SameSpot(h', Now(), r.value);
        }
      }
    }

    /** Copies the first `n` bytes of one block into another, and changes no third one. */
    method CopyBlock(b: Block, c: Block, n: int)
      requires Valid(Now()) && b in live && c in live && b != c && b.page in arenas && c.page in arenas
      requires 0 <= n <= BlockSize(Now(), b) && n <= BlockSize(Now(), c)
      modifies this`mem
      ensures Copied(mem, Address(Now(), c), old(mem), Address(Now(), b), n)
      ensures forall x, a :: x in live && x != c && Within(Now(), x, a) ==> Read(mem, a) == Read(old(mem), a)
    {
      hide PerArena;
      hide Slot;
      hide Size;
      hide ListsOk;
      hide ArenaOk;
      ghost var h := Now();
      LiveStay(h);
      OthersApart(h, c);
      BlocksDisjoint(h, b, c);
      hide Copied;
      Memcpy(Address(Layout(), c), Address(Layout(), b), n);
      forall x, a | x in live && x != c && Within(Now(), x, a) ensures Read(mem, a) == Read(old(mem), a) {
        assert !Within(h, c, a);
      }
    }

    /** Copies what fits into the new block and frees the old one. */
    method MoveTo(b: Block, c: Block, newSize: int)
      requires Valid(Now()) && b in live && c in live && b != c && b.page in arenas && c.page in arenas
      requires 0 <= newSize && Min(newSize, BlockSize(Now(), b)) <= BlockSize(Now(), c)
      modifies this
      ensures Valid(Now()) && live == old(live) - {b} && (forall x :: x in live ==> SameSpot(old(Now()), Now(), x))
      ensures c.page in arenas
      ensures Copied(mem, Address(Now(), c), old(mem), Address(old(Now()), b), Min(newSize, BlockSize(old(Now()), b)))
      ensures forall x, a :: x in live && x != c && Within(Now(), x, a) ==> Read(mem, a) == Read(old(mem), a)
    {
      hide PerArena;
      hide Slot;
      hide Size;
      hide ListsOk;
      hide ArenaOk;
      hide Valid;
      hide Read;
      ghost var h := Now();
      BlockHasBytes(h, b);
      var minSize := Min(newSize, BlockSize(Layout(), b));
      CopyBlock(b, c, minSize);
      ghost var copied := mem;
      Free(Some(b));
      assert c in live && SameSpot(h, Now(), c);
      forall a | Address(h, c) <= a < Address(h, c) + minSize
        ensures Read(mem, a) == Read(old(mem), a - Address(h, c) + Address(h, b))
      {
        assert Within(Now(), c, a);
        assert Read(copied, a) == Read(old(mem), a - Address(h, c) + Address(h, b));
      }
      forall x, a | x in live && x != c && Within(Now(), x, a) ensures Read(mem, a) == Read(old(mem), a) {
        assert SameSpot(h, Now(), x) && Within(h, x, a);
      }
    }

    /** Takes all blocks of a page off the free list. */
    method Unlist(d: int, p: int)
      requires 0 <= d < |free|
      modifies this`free
      ensures free == old(free)[d := Without(old(free)[d], p)]
    {
      free := free[d := Without(free[d], p)];
    }
  }

  /** Address `a` belongs to the block. */
  ghost predicate Within(h: Heap, b: Block, a: int) {
    b.page in h.arenas && Address(h, b) <= a < Address(h, b) + BlockSize(h, b)
  }

  lemma OthersOutside(h: Heap, p: int)
    requires Ok(h) && p in h.arenas
    ensures forall b, a :: b in h.live && b.page != p && Within(h, b, a) ==>
              !(p * PGSIZE <= a < (p + Pages(h.arenas[p])) * PGSIZE)
  {
    hide Slot;
    forall b, a | b in h.live && b.page != p && Within(h, b, a)
      ensures !(p * PGSIZE <= a < (p + Pages(h.arenas[p])) * PGSIZE)
    {
      OutsideArena(h, b, p);
    }
  }

  lemma OthersApart(h: Heap, b: Block)
    requires Ok(h) && b in h.live
    ensures forall c, a :: c in h.live && c != b && Within(h, c, a) ==> !Within(h, b, a)
  {
    hide Slot;
    forall c, a | c in h.live && c != b && Within(h, c, a) ensures !Within(h, b, a) {
      assert IsBlock(h, b) && IsBlock(h, c);
      BlocksDisjoint(h, b, c);
    }
  }

  lemma BlockHasBytes(h: Heap, b: Block)
    requires Valid(h) && b in h.live
    ensures b.page in h.arenas && BlockSize(h, b) > 0
  {
    LiveStay(h);
    WithinArena(h, b);
  }

  lemma LiveStay(h: Heap)
    requires Ok(h)
    ensures |h.free| == DESCS && forall b :: b in h.live ==> IsBlock(h, b) && SameSpot(h, h, b)
  {}

  /** The first free block and the arena it is taken from. */
  lemma FreeCounts(h: Heap, d: int)
    requires Ok(h) && 0 <= d < DESCS && |h.free| == DESCS && h.free[d] != []
    ensures var b := h.free[d][0];
            && b !in h.live && b.page in h.arenas && h.arenas[b.page].Small? && h.arenas[b.page].desc == d
            && h.arenas[b.page].freeCnt <= PerArena(d)
  {
    FirstFree(h, d);
    FreeCount(h, h.free[d][0].page);
  }
}
