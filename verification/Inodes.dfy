/**
 * The inode layer: a map of free sectors, inodes that are created on the disk, opened, removed and closed, and reads
 * and writes in chunks of at most a sector. Whether memory can be allocated and whether the free map can be written
 * back is decided by the caller.
 */
module Inodes {
  import opened Basics
  import opened Volume

  /** An inode in memory. */
  class Inode {
    const sector: int
    const start: int
    const length: int
    var openCnt: int
    var removed: bool
    var denyWriteCnt: int

    constructor (sector: int, start: int, length: int)
      ensures this.sector == sector && this.start == start && this.length == length
      ensures openCnt == 1 && !removed && denyWriteCnt == 0
    {
      this.sector, this.start, this.length := sector, start, length;
      openCnt, removed, denyWriteCnt := 1, false, 0;
    }
  }

  class FileSystem {
    const size: int
    var disk: map<int, Block>
    var used: set<int>
    var openInodes: seq<Inode>
    ghost var files: map<int, File>

    ghost function Now(): View
      reads this
    {
      View(disk, used, files)
    }

    /** An open inode repeats what the disk says. */
    ghost predicate Mirrors(inode: Inode)
      reads this, inode
    {
      && inode.sector in files && files[inode.sector].start == inode.start
      && |files[inode.sector].bytes| == inode.length && inode.openCnt >= 1
    }

    ghost predicate OpenOk()
      reads this, openInodes
    {
      && (forall i :: 0 <= i < |openInodes| ==> Mirrors(openInodes[i]))
      && (forall i, j :: 0 <= i < j < |openInodes| ==> openInodes[i].sector != openInodes[j].sector)
    }

    ghost predicate Valid()
      reads this, openInodes
    {
      Ok(size, Now()) && OpenOk()
    }

    constructor (size: int, disk: map<int, Block>, used: set<int>)
      ensures Valid() && this.size == size && Now() == View(disk, used, map[]) && openInodes == []
    {
      this.size, this.disk, this.used := size, disk, used;
      openInodes, files := [], map[];
    }

    // ---------- The free map ----------

    /** Whether `cnt` sectors from `start` on are free. */
    method AllFree(start: int, cnt: int) returns (r: bool)
      requires 0 <= start && start + cnt <= size
      ensures r <==> Free(size, Now(), start, cnt)
    {
      var x := start;
      while x < start + cnt
        invariant start <= x && (cnt >= 0 ==> x <= start + cnt)
        invariant forall y :: start <= y < x ==> y !in used
      {
        if x in used {
          return false;
        }
        x := x + 1;
      }
      return true;
    }

    /** The first `cnt` free sectors in a row. */
    method Scan(cnt: int) returns (r: Option<int>)
      requires cnt >= 0
      ensures r.Some? ==> Free(size, Now(), r.value, cnt) && 0 <= r.value && r.value + cnt <= size
      ensures forall i :: 0 <= i && i + cnt <= size && Free(size, Now(), i, cnt) ==> r.Some? && r.value <= i
    {
      var i := 0;
      while i + cnt <= size
        invariant 0 <= i
        invariant forall j :: 0 <= j < i ==> !Free(size, Now(), j, cnt)
        decreases size - i
      {
        var free := AllFree(i, cnt);
        if free {
          return Some(i);
        }
        i := i + 1;
      }
      return None;
    }

    /** Takes sectors from the free map, unless there are not enough in a row or the map cannot be written back. */
    method FreeMapAllocate(cnt: int, written: bool) returns (r: Option<int>)
      requires cnt >= 0
      modifies this`used
      ensures r.Some? ==> Free(size, old(Now()), r.value, cnt) && 0 <= r.value && r.value + cnt <= size
      ensures r.Some? ==> forall x :: x in used <==> x in old(used) || r.value <= x < r.value + cnt
      ensures r == None ==> used == old(used)
      ensures !written ==> r == None
      ensures written ==> forall i :: 0 <= i && i + cnt <= size && Free(size, old(Now()), i, cnt) ==>
                r.Some? && r.value <= i
    {
      var sector := Scan(cnt);
      assert Now() == old(Now());
      if sector == None || !written {
        return None;
      }
      used := used + Sectors(sector.value, cnt);
      return sector;
    }

    /** Gives sectors back; the source asserts that they are in use. */
    method FreeMapRelease(start: int, cnt: int)
      requires forall x :: start <= x < start + cnt ==> x in used
      modifies this`used
      ensures forall x :: x in used <==> x in old(used) && !(start <= x < start + cnt)
    {
      used := used - Sectors(start, cnt);
    }

    // ---------- Creating, opening, removing and closing ----------

    /** A new file of zeros; its inode goes to a sector that the caller has allocated. */
    method InodeCreate(sector: int, length: int, memory: bool, written: bool) returns (success: bool)
      requires Valid() && length >= 0 && Reserved(size, Now(), sector)
      modifies this`disk, this`used, this`files
      ensures Valid()
      ensures success <==> memory && written && exists i :: FreeRun(size, old(Now()), i, BytesToSectors(length))
      ensures !success ==> Now() == old(Now())
      ensures success ==> exists start :: Created(old(Now()), Now(), sector, start, length)
    {
      hide Ok;
      hide Reserved;
      if !memory {
        return false;
      }
      ghost var v := Now();
      var sectors := BytesToSectors(length);
      var start := FreeMapAllocate(sectors, written);
      if start == None {
        return false;
      }
      assert FreeRun(size, v, start.value, sectors);
      ReservedFacts(size, v, sector, start.value, sectors);
      disk := disk[sector := InodeBlock(start.value, length)];
      WriteZeros(sector, start.value, sectors, v);
      files := files[sector := File(start.value, Zeros(length))];
      assert Created(v, Now(), sector, start.value, length);
      CreatedOk(size, v, Now(), sector, start.value, length);
      StillOpen(v, sector);
      return true;
    }

    /** The open inodes do not notice a new file. */
    lemma StillOpen(v: View, sector: int)
      requires sector !in v.files && sector in files && files == v.files[sector := files[sector]]
      requires forall i :: 0 <= i < |openInodes| ==>
                 && openInodes[i].openCnt >= 1 && openInodes[i].sector in v.files
                 && v.files[openInodes[i].sector].start == openInodes[i].start
                 && |v.files[openInodes[i].sector].bytes| == openInodes[i].length
      requires forall i, j :: 0 <= i < j < |openInodes| ==> openInodes[i].sector != openInodes[j].sector
      ensures OpenOk()
    {}

    method WriteZeros(sector: int, start: int, sectors: int, ghost v: View)
      requires sectors >= 0 && sector in disk && !(start <= sector < start + sectors)
      requires forall x :: x in v.disk && x != sector ==> x in disk && disk[x] == v.disk[x]
      modifies this`disk
      ensures sector in disk && disk[sector] == old(disk)[sector]
      ensures forall x :: start <= x < start + sectors ==> x in disk && disk[x] == Data(Zeros(SECTOR))
      ensures forall x :: x in v.disk && x != sector && !(start <= x < start + sectors) ==>
                x in disk && disk[x] == v.disk[x]
    {
      var i := 0;
      while i < sectors
        invariant 0 <= i <= sectors && sector in disk && disk[sector] == old(disk)[sector]
        invariant forall x :: start <= x < start + i ==> x in disk && disk[x] == Data(Zeros(SECTOR))
        invariant forall x :: x in v.disk && x != sector && !(start <= x < start + i) ==>
                    x in disk && disk[x] == v.disk[x]
      {
        disk := disk[start + i := Data(Zeros(SECTOR))];
        i := i + 1;
      }
    }

    /** Opens a file; there is at most one inode in memory per file. */
    method InodeOpen(sector: int, memory: bool) returns (inode: Inode?)
      requires Valid() && sector in files
      modifies this`openInodes, openInodes
      ensures Valid() && Now() == old(Now())
      ensures inode != null ==> inode in openInodes && inode.sector == sector
      ensures inode != null && inode in old(openInodes) ==>
                openInodes == old(openInodes) && inode.openCnt == old(inode.openCnt) + 1
      ensures inode != null && inode !in old(openInodes) ==>
                && fresh(inode) && inode.openCnt == 1 && !inode.removed && inode.denyWriteCnt == 0
                && openInodes == [inode] + old(openInodes)
      ensures forall k: Inode :: k in old(openInodes) ==>
                k.removed == old(k.removed) && (k != inode ==> k.openCnt == old(k.openCnt))
      ensures inode == null <==> !memory && forall k: Inode :: k in old(openInodes) ==> k.sector != sector
      ensures inode == null ==> openInodes == old(openInodes)
    {
      hide Ok;
      var i := 0;
      while i < |openInodes|
        invariant 0 <= i <= |openInodes| && Valid() && Now() == old(Now()) && openInodes == old(openInodes)
        invariant forall j :: 0 <= j < i ==> openInodes[j].sector != sector
        invariant forall k: Inode :: k in openInodes ==> k.removed == old(k.removed) && k.openCnt == old(k.openCnt)
      {
        inode := openInodes[i];
        if inode.sector == sector {
          inode.openCnt := inode.openCnt + 1;
          return;
        }
        i := i + 1;
      }
      if !memory {
        return null;
      }
      OnDisk(size, Now(), sector);
      inode := new Inode(sector, disk[sector].start, disk[sector].length);
      openInodes := [inode] + openInodes;
    }

    method InodeRemove(inode: Inode)
      requires Valid() && inode in openInodes
      modifies inode`removed
      ensures Valid() && inode.removed
    {
      inode.removed := true;
    }

    /** The last one to close a removed file gives its sectors back; until then the file stays. */
    method InodeClose(inode: Inode)
      requires Valid() && inode in openInodes
      modifies this`openInodes, this`used, this`files, inode`openCnt
      ensures Valid() && disk == old(disk)
      ensures Now() == if old(inode.openCnt) == 1 && inode.removed then Removed(old(Now()), inode.sector)
                       else old(Now())
      ensures inode.openCnt == old(inode.openCnt) - 1 && (inode in openInodes <==> inode.openCnt > 0)
      ensures forall k: Inode :: k in old(openInodes) && k != inode ==> k in openInodes
    {
      hide Ok;
      ghost var v := Now();
      ghost var i :| 0 <= i < |openInodes| && openInodes[i] == inode;
      if inode.openCnt > 1 {
        inode.openCnt := inode.openCnt - 1;
        return;
      }
      inode.openCnt := inode.openCnt - 1;
      Unlist(inode, i);
      if inode.removed {
        Release(inode);
        RemovedOk(size, v, inode.sector);
      }
    }

    /** Gives back the sector of the inode and those of its data. */
    method Release(inode: Inode)
      requires Ok(size, Now()) && inode.sector in files
      requires files[inode.sector].start == inode.start && |files[inode.sector].bytes| == inode.length
      modifies this`used, this`files
      ensures Now() == Removed(old(Now()), inode.sector)
    {
      hide Ok;
      ghost var v := Now();
      OwnedUsed(size, v, inode.sector);
      FreeMapRelease(inode.sector, 1);
      FreeMapRelease(inode.start, BytesToSectors(inode.length));
      files := files - {inode.sector};
      ghost var want := Removed(v, inode.sector).used;
      forall x ensures x in used <==> x in want {
        assert Owns(v, inode.sector, x) <==> x == inode.sector || InExtent(v.files[inode.sector], x);
      }
    }

    /** Takes an inode off the list of open ones. */
    method Unlist(inode: Inode, ghost i: int)
      requires 0 <= i < |openInodes| && openInodes[i] == inode
      requires forall j :: 0 <= j < |openInodes| && j != i ==> Mirrors(openInodes[j])
      requires forall i, j :: 0 <= i < j < |openInodes| ==> openInodes[i].sector != openInodes[j].sector
      modifies this`openInodes
      ensures OpenOk() && openInodes == old(openInodes[..i] + openInodes[i + 1..])
      ensures inode !in openInodes && forall j :: 0 <= j < |openInodes| ==> openInodes[j].sector != inode.sector
    {
      var j := 0;
      while openInodes[j] != inode
        invariant 0 <= j <= i
        decreases i - j
      {
        j := j + 1;
      }
      openInodes := openInodes[..j] + openInodes[j + 1..];
    }

    // ---------- Reading and writing ----------

    /** The sector of a byte, or -1 past the end. */
    function ByteToSector(inode: Inode, pos: int): int {
      if pos < inode.length then inode.start + (if pos >= 0 then pos / SECTOR else -(-pos / SECTOR)) else -1
    }

    /**
     * Reads up to `count` bytes; less only at the end of the file or for want of memory. An access that would leave
     * the file's sectors or the buffer, which a negative offset leads to, is where the model stops.
     */
    method InodeReadAt(inode: Inode, count: int, offset: int, memory: bool) returns (data: seq<Byte>, ok: bool)
      requires Valid() && inode in openInodes
      ensures !ok <==> Strays(count, offset, memory)
      ensures offset < 0 ==> data == []
      ensures offset >= 0 ==> |data| <= Available(count, offset, inode.length)
      ensures offset >= 0 && memory ==> |data| == Available(count, offset, inode.length)
      ensures offset >= 0 && !memory ==> |data| == InSectors(count, offset, inode.length)
      ensures data == [] || (offset >= 0 && data == files[inode.sector].bytes[offset..offset + |data|])
    {
      hide Ok;
      hide ChunkSize;
      hide Whole;
      hide SectorOfs;
      hide Aligned;
      hide InSectors;
      ghost var bytes := files[inode.sector].bytes;
      data, ok := [], true;
      AlignedStart(offset);
      var left, at := count, offset;
      while left > 0
        invariant at == offset + |data| && left == count - |data|
        invariant data == [] || (offset >= 0 && at <= |bytes| && data == bytes[offset..at] && left >= 0)
        invariant !memory ==> Aligned(offset, |data|)
        decreases left
      {
        var chunk := ChunkSize(inode.length, left, at);
        ChunkBounds(inode.length, left, at);
        if chunk <= 0 || (!Whole(chunk, at) && !memory) {
          if offset >= 0 && !memory {
            AlignedEnds(inode.length, count, offset, |data|);
          }
          return;
        }
        if at < 0 {
          return [], false;
        }
        AlignedNext(offset, |data|, chunk);
        var piece := ReadChunk(inode, chunk, at);
        SliceNext(bytes, offset, at, at + chunk);
        data := data + piece;
        left := left - chunk;
        at := at + chunk;
      }
      if !memory {
        AlignedAll(inode.length, count, offset, |data|);
      }
    }

    /** A whole sector is read directly; a part of one is cut out of what the sector holds. */
    method ReadChunk(inode: Inode, chunk: int, at: int) returns (piece: seq<Byte>)
      requires Valid() && inode in openInodes && at >= 0 && 0 < chunk && at + chunk <= inode.length
      requires at % SECTOR + chunk <= SECTOR
      ensures at + chunk <= |files[inode.sector].bytes| && piece == files[inode.sector].bytes[at..at + chunk]
    {
      hide Ok;
      ChunkOnDisk(size, Now(), inode.sector, at, chunk);
      var block := disk[ByteToSector(inode, at)];
      piece := if Whole(chunk, at) then block.bytes else block.bytes[SectorOfs(at)..SectorOfs(at) + chunk];
    }

    /** Writes up to `count` bytes into the file, and touches no sector that the file does not own. */
    method InodeWriteAt(inode: Inode, buffer: seq<Byte>, count: int, offset: int, memory: bool)
      returns (written: int, ok: bool)
      requires Valid() && inode in openInodes && count <= |buffer|
      modifies this`disk, this`files
      ensures Valid()
      ensures !ok <==> inode.denyWriteCnt == 0 && Strays(count, offset, memory)
      ensures offset < 0 || inode.denyWriteCnt != 0 ==> written == 0
      ensures offset >= 0 ==> 0 <= written <= Available(count, offset, inode.length)
      ensures offset >= 0 && inode.denyWriteCnt == 0 && memory ==> written == Available(count, offset, inode.length)
      ensures offset >= 0 && inode.denyWriteCnt == 0 && !memory ==> written == InSectors(count, offset, inode.length)
      ensures written == 0 ==> Now() == old(Now())
      ensures var s := inode.sector; var f := old(files)[s];
              written > 0 ==> files == old(files)[s := f.(bytes := Overwritten(f.bytes, offset, buffer[..written]))]
      ensures forall x :: !Owns(old(Now()), inode.sector, x) ==>
                (x in disk <==> x in old(disk)) && (x in disk ==> disk[x] == old(disk)[x])
    {
      hide Ok;
      hide ChunkSize;
      hide Whole;
      hide SectorOfs;
      hide Overwritten;
      hide Aligned;
      hide InSectors;
      written, ok := 0, true;
      if inode.denyWriteCnt != 0 {
        return;
      }
      AlignedStart(offset);
      ghost var v := Now();
      var left, at := count, offset;
      while left > 0
        invariant Valid() && 0 <= written && at == offset + written && left == count - written
        invariant written > 0 ==> offset >= 0 && at <= inode.length && left >= 0
        invariant Progress(v, Now(), inode.sector, offset, buffer, written)
        invariant !memory ==> Aligned(offset, written)
        decreases left
      {
        var chunk := ChunkSize(inode.length, left, at);
        ChunkBounds(inode.length, left, at);
        if chunk <= 0 || (!Whole(chunk, at) && !memory) {
          if offset >= 0 && !memory {
            AlignedEnds(inode.length, count, offset, written);
          }
          return;
        }
        if at < 0 {
          return 0, false;
        }
        AlignedNext(offset, written, chunk);
        ghost var v' := Now();
        WriteChunk(inode, buffer[written..written + chunk], at);
        ProgressNext(v, v', inode.sector, offset, buffer, written, chunk);
        left := left - chunk;
        at := at + chunk;
        written := written + chunk;
      }
      if !memory {
        AlignedAll(inode.length, count, offset, written);
      }
    }

    /** A whole sector goes to the disk as it is; a part of one is put into what the sector holds. */
    method WriteChunk(inode: Inode, data: seq<Byte>, at: int)
      requires Valid() && inode in openInodes && at >= 0 && 0 < |data| && at + |data| <= inode.length
      requires at % SECTOR + |data| <= SECTOR
      modifies this`disk, this`files
      ensures Valid() && IsData(old(Now()), inode.start + at / SECTOR)
      ensures inode.sector in old(files) && |old(files)[inode.sector].bytes| == inode.length
      ensures Now() == ChunkWritten(old(Now()), inode.sector, at, data)
    {
      hide Ok;
      ghost var v, s := Now(), inode.sector;
      ChunkOnDisk(size, v, s, at, |data|);
      var x, ofs := ByteToSector(inode, at), at % SECTOR;
      if ofs == 0 && |data| == SECTOR {
        disk := disk[x := Data(data)];
      } else {
        var bounce := Zeros(SECTOR);
        if ofs > 0 || |data| < SECTOR - ofs {
          bounce := disk[x].bytes;
        }
        disk := disk[x := Data(bounce[..ofs] + data + bounce[ofs + |data|..])];
      }
      files := files[s := files[s].(bytes := Overwritten(files[s].bytes, at, data))];
      assert disk[x].bytes == Overwritten(v.disk[x].bytes, ofs, data);
      ChunkWrittenOk(size, v, s, at, data);
    }
  }

  /** How many of `count` bytes from `offset` on there are in a file. */
  function Available(count: int, offset: int, length: int): int {
    if count <= 0 || offset >= length then 0 else if count < length - offset then count else length - offset
  }

  /** How many of them can go without a buffer: whole sectors, from the beginning of one. */
  function InSectors(count: int, offset: int, length: int): int {
    if offset % SECTOR != 0 then 0 else Available(count, offset, length) / SECTOR * SECTOR
  }

  /** Only whole sectors were moved so far. */
  predicate Aligned(offset: int, n: int) {
    n % SECTOR == 0 && (n == 0 || offset % SECTOR == 0)
  }

  lemma AlignedStart(offset: int)
    ensures Aligned(offset, 0)
  {}

  lemma AlignedNext(offset: int, n: int, chunk: int)
    requires offset + n >= 0
    ensures Aligned(offset, n) && Whole(chunk, offset + n) ==> Aligned(offset, n + chunk)
  {}

  /** Where the transfer stops for want of a buffer, or at the end, less than a sector is left. */
  lemma AlignedEnds(length: int, count: int, offset: int, n: int)
    requires 0 <= n < count && 0 <= offset && (offset + n <= length || n == 0) && Aligned(offset, n)
    requires var chunk := ChunkSize(length, count - n, offset + n); chunk <= 0 || !Whole(chunk, offset + n)
    ensures n == InSectors(count, offset, length)
  {
    var all := Available(count, offset, length);
    if offset % SECTOR == 0 {
      assert (offset + n) % SECTOR == 0;
      Floor(all, n);
    }
  }

  lemma AlignedAll(length: int, count: int, offset: int, n: int)
    requires n >= 0 && Aligned(offset, n)
    requires if n == 0 then count <= 0 else n == count && 0 <= offset && offset + n <= length
    ensures n == InSectors(count, offset, length)
  {
    if offset % SECTOR == 0 {
      Floor(n, n);
    }
  }

  lemma Floor(all: int, n: int)
    requires n % SECTOR == 0 && n <= all < n + SECTOR
    ensures all / SECTOR * SECTOR == n
  {}

  /** The remainder as the source computes it, with the sign of the offset. */
  function SectorOfs(offset: int): int {
    if offset >= 0 then offset % SECTOR else -(-offset % SECTOR)
  }

  /** How much to copy from or to the sector with byte `offset`. */
  function ChunkSize(length: int, count: int, offset: int): int {
    var inodeLeft := length - offset;
    var sectorLeft := SECTOR - SectorOfs(offset);
    var minLeft := if inodeLeft < sectorLeft then inodeLeft else sectorLeft;
    if count < minLeft then count else minLeft
  }

  /** A whole sector is transferred without a buffer. */
  predicate Whole(chunk: int, offset: int) {
    SectorOfs(offset) == 0 && chunk == SECTOR
  }

  /** There is a chunk as long as the end is not reached; it fits into the file and into one sector. */
  lemma ChunkBounds(length: int, count: int, at: int)
    requires length >= 0 && count > 0
    ensures var chunk := ChunkSize(length, count, at);
            && (chunk > 0 <==> at < length)
            && (chunk > 0 && at >= 0 ==> chunk <= count && at + chunk <= length && at % SECTOR + chunk <= SECTOR)
            && (at < 0 ==> (Whole(chunk, at) <==> at % SECTOR == 0 && count >= SECTOR))
            && (at >= 0 ==> SectorOfs(at) == at % SECTOR)
  {}

  /** There is something to transfer before the beginning of the file, and memory for a buffer or no need for one. */
  predicate Strays(count: int, offset: int, memory: bool) {
    offset < 0 && count > 0 && (memory || (offset % SECTOR == 0 && count >= SECTOR))
  }

  lemma SliceNext(bytes: seq<Byte>, a: int, b: int, c: int)
    requires 0 <= a <= b <= c <= |bytes|
    ensures bytes[a..b] + bytes[b..c] == bytes[a..c]
  {}

  /** A chunk of a file lies in one sector of the disk. */
  lemma ChunkOnDisk(size: int, v: View, s: int, at: int, n: int)
    requires Ok(size, v) && s in v.files && 0 <= at && 0 < n && at + n <= |v.files[s].bytes|
             && at % SECTOR + n <= SECTOR
    ensures var x := v.files[s].start + at / SECTOR;
            && IsData(v, x) && Owns(v, s, x)
            && v.files[s].bytes[at..at + n] == v.disk[x].bytes[at % SECTOR..at % SECTOR + n]
  {
    var f := v.files[s];
    assert Holds(v, s);
    assert InExtent(f, f.start + at / SECTOR);
    forall k | at <= k < at + n ensures f.bytes[k] == v.disk[f.start + at / SECTOR].bytes[k - at + at % SECTOR] {
      assert f.bytes[k] == ByteAt(v, f, k);
    }
  }

  /** `n` bytes of the buffer have been written. */
  ghost predicate Progress(v: View, v': View, s: int, offset: int, buffer: seq<Byte>, n: int) {
    && 0 <= n <= |buffer| && s in v.files && v'.used == v.used
    && (if n == 0 then v' == v
        else 0 <= offset && offset + n <= |v.files[s].bytes|
             && v'.files == v.files[s := v.files[s].(bytes := Overwritten(v.files[s].bytes, offset, buffer[..n]))])
    && forall x :: !Owns(v, s, x) ==> (x in v'.disk <==> x in v.disk) && (x in v'.disk ==> v'.disk[x] == v.disk[x])
  }

  lemma OverwrittenOn(bytes: seq<Byte>, at: int, data: seq<Byte>, m: int, n: int)
    requires 0 <= at && 0 <= m <= n <= |data| && at + n <= |bytes|
    ensures Overwritten(Overwritten(bytes, at, data[..m]), at + m, data[m..n]) == Overwritten(bytes, at, data[..n])
  {}

  lemma ProgressNext(v: View, v': View, s: int, offset: int, buffer: seq<Byte>, n: int, chunk: int)
    requires Progress(v, v', s, offset, buffer, n) && 0 <= offset && 0 < chunk && n + chunk <= |buffer|
    requires offset + n + chunk <= |v.files[s].bytes| && s in v'.files && |v'.files[s].bytes| == |v.files[s].bytes|
    requires (offset + n) % SECTOR + chunk <= SECTOR && IsData(v', v'.files[s].start + (offset + n) / SECTOR)
    ensures Progress(v, ChunkWritten(v', s, offset + n, buffer[n..n + chunk]), s, offset, buffer, n + chunk)
  {
    var bytes := v.files[s].bytes;
    assert v'.files[s].start == v.files[s].start;
    if n > 0 {
      OverwrittenOn(bytes, offset, buffer, n, n + chunk);
    }
    assert buffer[..n + chunk] == buffer[..n] + buffer[n..n + chunk];
    hide Overwritten;
    assert Owns(v, s, v.files[s].start + (offset + n) / SECTOR);
  }

  lemma OnDisk(size: int, v: View, s: int)
    requires Ok(size, v) && s in v.files
    ensures s in v.disk && v.disk[s] == InodeBlock(v.files[s].start, |v.files[s].bytes|)
  {
    assert Holds(v, s);
  }

  lemma OwnedUsed(size: int, v: View, s: int)
    requires Ok(size, v) && s in v.files
    ensures forall x :: x == s || InExtent(v.files[s], x) ==> x in v.used
    ensures !InExtent(v.files[s], s)
  {
    forall x | x == s || InExtent(v.files[s], x) ensures x in v.used {
      assert Owns(v, s, x);
    }
  }

  /** What was written is read back, and no other file has changed. */
  method WriteThenRead(fs: FileSystem, inode: Inode, buffer: seq<Byte>, offset: int)
    returns (written: int, data: seq<Byte>, ok: bool)
    requires fs.Valid() && inode in fs.openInodes && inode.denyWriteCnt == 0
    modifies fs`disk, fs`files
    ensures fs.Valid() && (!ok <==> offset < 0 && buffer != [])
    ensures ok ==> written == Available(|buffer|, offset, inode.length) && data == buffer[..written]
    ensures forall s :: s in fs.files && s != inode.sector ==> s in old(fs.files) && fs.files[s] == old(fs.files)[s]
  {
    hide Ok;
    ghost var bytes := fs.files[inode.sector].bytes;
    written, ok := fs.InodeWriteAt(inode, buffer, |buffer|, offset, true);
    data := [];
    if ok {
      data, ok := fs.InodeReadAt(inode, written, offset, true);
      assert written > 0 ==> fs.files[inode.sector].bytes == Overwritten(bytes, offset, buffer[..written]);
    }
  }

  /** A file of one byte, and a read and a write of one byte before it: both stray. */
  method BeforeTheFile() returns (read: bool, write: bool)
    ensures !read && !write
  {
    var fs := new FileSystem(2, map[], {0});
    assert FreeRun(2, fs.Now(), 1, BytesToSectors(1));
    var _ := fs.InodeCreate(0, 1, true, true);
    var inode := fs.InodeOpen(0, true);
    var _, r := fs.InodeReadAt(inode, 1, -1, true);
    var _, w := fs.InodeWriteAt(inode, [0], 1, -1, true);
    return r, w;
  }
}
