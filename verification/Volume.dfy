/**
 * What is on the disk: every file has an inode block and a run of data blocks. The values here relate the disk to
 * the files as flat byte arrays.
 */
module Volume {
  type Byte = x: int | 0 <= x < 256

  const SECTOR := 512

  datatype Block = Data(bytes: seq<Byte>) | InodeBlock(start: int, length: int)

  datatype File = File(start: int, bytes: seq<Byte>)

  datatype View = View(disk: map<int, Block>, used: set<int>, files: map<int, File>)

  function BytesToSectors(size: int): int
    requires size >= 0
  {
    (size + SECTOR - 1) / SECTOR
  }

  predicate InExtent(f: File, x: int) {
    f.start <= x < f.start + BytesToSectors(|f.bytes|)
  }

  /** The file with its inode in sector `s` owns sector `x`. */
  predicate Owns(v: View, s: int, x: int) {
    s in v.files && (x == s || InExtent(v.files[s], x))
  }

  /** Owned sectors are marked as used, and no sector has two owners. */
  ghost predicate Disjoint(size: int, v: View) {
    && (forall s, x :: Owns(v, s, x) ==> x in v.used && 0 <= x < size)
    && (forall s, t, x :: Owns(v, s, x) && Owns(v, t, x) ==> s == t)
    && (forall s :: s in v.files ==> !InExtent(v.files[s], s))
  }

  ghost predicate IsData(v: View, x: int) {
    x in v.disk && v.disk[x].Data? && |v.disk[x].bytes| == SECTOR
  }

  /** The disk holds the file: its inode, and its bytes in consecutive sectors. */
  ghost predicate Holds(v: View, s: int) {
    && s in v.files
    && var f := v.files[s];
    && s in v.disk && v.disk[s] == InodeBlock(f.start, |f.bytes|)
    && (forall x :: InExtent(f, x) ==> IsData(v, x))
    && (forall i :: 0 <= i < |f.bytes| ==> IsData(v, f.start + i / SECTOR) && f.bytes[i] == ByteAt(v, f, i))
  }

  ghost function ByteAt(v: View, f: File, i: int): Byte
    requires IsData(v, f.start + i / SECTOR)
  {
    v.disk[f.start + i / SECTOR].bytes[i % SECTOR]
  }

  ghost predicate Ok(size: int, v: View) {
    Disjoint(size, v) && forall s :: s in v.files ==> Holds(v, s)
  }

  /** A file depends on the sectors it owns and on nothing else. */
  lemma HoldsStays(v: View, v': View, s: int)
    requires Holds(v, s) && s in v'.files && v'.files[s] == v.files[s]
    requires forall x :: Owns(v, s, x) ==> x in v.disk && x in v'.disk && v'.disk[x] == v.disk[x]
    ensures Holds(v', s)
  {
    var f := v.files[s];
    forall i | 0 <= i < |f.bytes| ensures IsData(v', f.start + i / SECTOR) && f.bytes[i] == ByteAt(v', f, i) {
      assert InExtent(f, f.start + i / SECTOR);
      assert Owns(v, s, f.start + i / SECTOR);
    }
    forall x | InExtent(f, x) ensures IsData(v', x) {
      assert Owns(v, s, x);
    }
    assert Owns(v, s, s);
  }

  // ---------- A new file ----------

  function Zeros(n: int): (r: seq<Byte>)
    requires n >= 0
    ensures |r| == n && forall i :: 0 <= i < n ==> r[i] == 0
  {
    seq(n, _ => 0)
  }

  ghost predicate Free(size: int, v: View, start: int, cnt: int) {
    forall x :: start <= x < start + cnt ==> 0 <= x < size && x !in v.used
  }

  /** The same of sectors of the disk. */
  ghost predicate FreeRun(size: int, v: View, start: int, cnt: int) {
    0 <= start && start + cnt <= size && Free(size, v, start, cnt)
  }

  /** A sector that is in use, but not by a file. */
  ghost predicate Reserved(size: int, v: View, x: int) {
    0 <= x < size && x in v.used && forall s :: !Owns(v, s, x)
  }

  lemma ReservedFacts(size: int, v: View, sector: int, start: int, cnt: int)
    requires Reserved(size, v, sector) && Free(size, v, start, cnt)
    ensures sector !in v.files && !(start <= sector < start + cnt)
  {
    assert !Owns(v, sector, sector) && sector in v.used;
  }

  /** `cnt` sectors from `start` on. */
  function Sectors(start: int, cnt: int): (r: set<int>)
    ensures forall x :: x in r <==> start <= x < start + cnt
    decreases if cnt < 0 then 0 else cnt
  {
    if cnt <= 0 then {} else Sectors(start, cnt - 1) + {start + cnt - 1}
  }

  ghost predicate Created(v: View, v': View, sector: int, start: int, length: int)
    requires length >= 0
  {
    var cnt := BytesToSectors(length);
    && v'.files == v.files[sector := File(start, Zeros(length))]
    && (forall x :: x in v'.used <==> x in v.used || start <= x < start + cnt)
    && sector in v'.disk && v'.disk[sector] == InodeBlock(start, length)
    && (forall x :: start <= x < start + cnt ==> x in v'.disk && v'.disk[x] == Data(Zeros(SECTOR)))
    && (forall x :: x in v.disk && x != sector && !(start <= x < start + cnt) ==>
        x in v'.disk && v'.disk[x] == v.disk[x])
  }

  lemma CreatedDisjoint(size: int, v: View, v': View, sector: int, start: int, length: int)
    requires Disjoint(size, v) && length >= 0 && Reserved(size, v, sector)
    requires Free(size, v, start, BytesToSectors(length)) && Created(v, v', sector, start, length)
    ensures Disjoint(size, v')
  {
    forall s, x | Owns(v', s, x) && s != sector ensures Owns(v, s, x) {}
    forall x | Owns(v', sector, x)
      ensures x in v'.used && 0 <= x < size
              && (x == sector || (start <= x < start + BytesToSectors(length) && x !in v.used))
    {
      assert x in v.used || x !in v.used;
    }
    assert !Owns(v, sector, sector);
  }

  lemma CreatedOk(size: int, v: View, v': View, sector: int, start: int, length: int)
    requires Ok(size, v) && length >= 0 && Reserved(size, v, sector)
    requires Free(size, v, start, BytesToSectors(length)) && Created(v, v', sector, start, length)
    ensures Ok(size, v')
  {
    CreatedDisjoint(size, v, v', sector, start, length);
    forall s | s in v'.files ensures Holds(v', s) {
      if s != sector {
        forall x | Owns(v, s, x) ensures x in v.disk && x in v'.disk && v'.disk[x] == v.disk[x] {
          assert x in v.used && !Owns(v, s, sector);
          assert x == s || InExtent(v.files[s], x);
        }
        HoldsStays(v, v', s);
      }
    }
  }

  // ---------- A file goes ----------

  /** The sectors of a file are released. */
  function Removed(v: View, s: int): View
    requires s in v.files
  {
    v.(files := v.files - {s}, used := set x | x in v.used && !Owns(v, s, x))
  }

  lemma RemovedOk(size: int, v: View, s: int)
    requires Ok(size, v) && s in v.files
    ensures Ok(size, Removed(v, s))
  {
    var v' := Removed(v, s);
    forall t, x | Owns(v', t, x) ensures Owns(v, t, x) && t != s {}
    forall t | t in v'.files ensures Holds(v', t) {
      forall x | Owns(v, t, x) ensures x in v.disk {
        assert Holds(v, t);
        assert x == t || (InExtent(v.files[t], x) && IsData(v, x));
      }
      HoldsStays(v, v', t);
    }
  }

  // ---------- A chunk is written ----------

  /** `data` replaces the bytes from `at` on. */
  function Overwritten(bytes: seq<Byte>, at: int, data: seq<Byte>): seq<Byte>
    requires 0 <= at && at + |data| <= |bytes|
  {
    bytes[..at] + data + bytes[at + |data|..]
  }

  /** A chunk that lies within one sector goes to that sector of the disk and to that place of the file. */
  function ChunkWritten(v: View, s: int, offset: int, data: seq<Byte>): View
    requires s in v.files && 0 <= offset && offset + |data| <= |v.files[s].bytes|
    requires offset % SECTOR + |data| <= SECTOR && IsData(v, v.files[s].start + offset / SECTOR)
  {
    var f := v.files[s];
    var x := f.start + offset / SECTOR;
    v.(disk := v.disk[x := Data(Overwritten(v.disk[x].bytes, offset % SECTOR, data))],
       files := v.files[s := f.(bytes := Overwritten(f.bytes, offset, data))])
  }

  lemma ChunkWrittenOk(size: int, v: View, s: int, offset: int, data: seq<Byte>)
    requires Ok(size, v) && s in v.files && 0 <= offset && 0 < |data| && offset + |data| <= |v.files[s].bytes|
    requires offset % SECTOR + |data| <= SECTOR && IsData(v, v.files[s].start + offset / SECTOR)
    ensures Ok(size, ChunkWritten(v, s, offset, data))
  {
    var f := v.files[s];
    var v' := ChunkWritten(v, s, offset, data);
    var x := f.start + offset / SECTOR;
    assert InExtent(f, x) && Owns(v, s, x);
    forall t, y ensures Owns(v', t, y) <==> Owns(v, t, y) {}
    assert Disjoint(size, v') by { hide Holds; hide ChunkWritten; }
    forall t | t in v'.files ensures Holds(v', t) {
      if t != s {
        forall y | Owns(v, t, y) ensures y in v.disk && v'.disk[y] == v.disk[y] {
          assert Holds(v, t);
          assert y == t || IsData(v, y);
          assert y != x;
        }
        HoldsStays(v, v', t);
      } else {
        ChunkHolds(size, v, s, offset, data);
      }
    }
  }

  lemma ChunkHolds(size: int, v: View, s: int, offset: int, data: seq<Byte>)
    requires Ok(size, v) && s in v.files && 0 <= offset && 0 < |data| && offset + |data| <= |v.files[s].bytes|
    requires offset % SECTOR + |data| <= SECTOR && IsData(v, v.files[s].start + offset / SECTOR)
    ensures Holds(ChunkWritten(v, s, offset, data), s)
  {
    var f := v.files[s];
    var v' := ChunkWritten(v, s, offset, data);
    var f' := v'.files[s];
    var x := f.start + offset / SECTOR;
    assert Holds(v, s);
    assert InExtent(f, x) && x != s;
    forall y | InExtent(f', y) ensures IsData(v', y) {
      assert InExtent(f, y) && IsData(v, y);
    }
    forall i | 0 <= i < |f'.bytes| ensures IsData(v', f'.start + i / SECTOR) && f'.bytes[i] == ByteAt(v', f', i) {
      assert InExtent(f', f'.start + i / SECTOR);
      ByteMoves(v, s, offset, data, i);
    }
  }

  /** Byte `i` of the file after the chunk was written. */
  lemma ByteMoves(v: View, s: int, offset: int, data: seq<Byte>, i: int)
    requires Holds(v, s) && 0 <= offset && 0 < |data| && offset + |data| <= |v.files[s].bytes|
    requires offset % SECTOR + |data| <= SECTOR && IsData(v, v.files[s].start + offset / SECTOR)
    requires 0 <= i < |v.files[s].bytes|
    ensures var v' := ChunkWritten(v, s, offset, data);
            IsData(v', v'.files[s].start + i / SECTOR) && v'.files[s].bytes[i] == ByteAt(v', v'.files[s], i)
  {
    var f := v.files[s];
    assert IsData(v, f.start + i / SECTOR) && f.bytes[i] == ByteAt(v, f, i);
    if i / SECTOR == offset / SECTOR {
      assert i % SECTOR - offset % SECTOR == i - offset;
    } else {
      assert i < offset || offset + |data| <= i;
    }
  }
}
