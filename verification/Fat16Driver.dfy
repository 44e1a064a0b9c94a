/** The FAT16 driver (kernel/fs/fat16.c): a cached FAT, two sector buffers and a disk, all changed
    in place. */
module Fat16Driver {
  import opened Bytes
  import opened Fat16Layout
  import opened Fat16Image
  import opened Fat16Dir
  import opened Fat16Name
  import opened Fat16Write

  /** A position in a directory walk; dir 0 steps through the root region, others through a chain. */
  datatype DirIter = DirIter(dir: nat, rootSector: nat, cluster: nat, clusterSector: nat)

  datatype Scan = Hit | Stop | Miss

  /** The file called name in directory d, with data to be stored at pos. */
  ghost function FileJob(g: Geo, L: Layout, T: Tree, disk: seq<Sector>, fat: seq<u16>, d: nat, name: seq<byte>,
      pos: nat, data: seq<byte>): Job
  {
    var k := Find(View(g, L, disk, d), Name83(name), 0);
    Job(g, L, T, disk, fat, d, if k < 0 then 0 else k, pos, data)
  }

  /** name is a plain file of directory d, pos is not past its end and pos + n fits 32 bits. */
  ghost predicate MayWrite(g: Geo, L: Layout, disk: seq<Sector>, d: nat, name: seq<byte>, pos: nat, n: nat) {
    var v := View(g, L, disk, d);
    var k := Find(v, Name83(name), 0);
    k >= 0 && !IsDir(Slot(v, k)) && pos <= SizeOf(Slot(v, k)) && pos + n < 0x1_0000_0000
  }

  class Driver {
    const g: Geo
    const disk: array<Sector>
    const fat: array<u16>
    const dirBuf: array<byte>
    const sectorBuf: array<byte>

    /** The chains and the tree the volume holds. */
    ghost var L: Layout
    ghost var T: Tree
    /** Every image the disk has gone through, one per sector write. */
    ghost var trail: seq<seq<Sector>>

    /** Sizes and separation of the buffers; nothing about what is on the disk. */
    ghost predicate Shaped()
      reads this
    {
      && disk.Length >= SectorCount(g) && FatsOk(g)
      && fat.Length == 256 * g.fatSectors
      && dirBuf.Length == 512 && sectorBuf.Length == 512
      && dirBuf != sectorBuf
    }

    /** fat16_init once the geometry is known: caches copy 0 of the FAT. L0 and T0 are what the volume holds. */
    constructor (g: Geo, disk: array<Sector>, ghost L0: Layout, ghost T0: Tree)
      requires disk.Length >= SectorCount(g) && FatsOk(g) && g.fatStart + g.fatSectors <= disk.Length
      ensures this.g == g && this.disk == disk && L == L0 && T == T0 && trail == []
      ensures Shaped() && fat[..] == DiskFat(g, disk[..])
      ensures fresh(fat) && fresh(dirBuf) && fresh(sectorBuf)
    {
      this.g, this.disk, L, T, trail := g, disk, L0, T0, [];
      fat := new u16[256 * g.fatSectors](i => 0);
      dirBuf, sectorBuf := new byte[512](i => 0), new byte[512](i => 0);
      new;
      var c := 0;
      while c < 256 * g.fatSectors
        modifies fat
        invariant 0 <= c <= 256 * g.fatSectors && fat[..c] == DiskFat(g, disk[..])[..c]
      {
        fat[c] := U16(disk[g.fatStart + c / 256][2 * (c % 256)..2 * (c % 256) + 2]);
        c := c + 1;
      }
    }

    method BlockWrite(lba: nat, s: Sector)
      requires lba < disk.Length
      modifies disk, this`trail
      ensures disk[..] == old(disk[..])[lba := s]
      ensures trail == old(trail) + [disk[..]]
    {
      disk[lba] := s;
      trail := trail + [disk[..]];
    }

    method BlockRead(lba: nat, buf: array<byte>)
      requires lba < disk.Length && buf.Length == 512
      modifies buf
      ensures buf[..] == disk[lba]
    {
      var s := disk[lba];
      forall i | 0 <= i < 512 {
        buf[i] := s[i];
      }
    }

    /** Takes the lowest free cluster and marks it end of chain; 0 when there is none. */
    method AllocCluster() returns (c: nat)
      requires fat.Length == 256 * g.fatSectors
      modifies fat
      ensures c == 0 ==> fat[..] == old(fat[..]) && FreeSet(g, fat[..]) == {}
      ensures c != 0 ==> 2 <= c < g.clusters && old(fat[c]) == 0 && fat[..] == old(fat[..])[c := END]
      ensures c != 0 ==> forall c' :: 2 <= c' < c ==> old(fat[c']) != 0
    {
      c := 2;
      while c < g.clusters
        invariant 2 <= c <= g.clusters
        invariant forall c' :: 2 <= c' < c ==> fat[c'] != 0
        invariant fat[..] == old(fat[..])
      {
        if fat[c] == 0 {
          fat[c] := END;
          return;
        }
        c := c + 1;
      }
      c := 0;
    }

    /** Writes the cached FAT to every copy. */
    method FlushFat()
      requires Shaped()
      modifies disk, this`trail
      ensures |trail| >= |old(trail)| && trail[..|old(trail)|] == old(trail)
      ensures Synced(g, disk[..], fat[..])
      ensures forall a :: g.rootStart <= a < disk.Length ==> disk[a] == old(disk[a])
      ensures forall i :: |old(trail)| <= i < |trail| ==> Flushing(g, old(disk[..]), fat[..], trail[i])
      ensures |trail| >= |old(trail)| + g.fatSectors && trail[|trail| - 1] == disk[..]
      ensures forall i :: |old(trail)| <= i < |trail| ==>
                FlushCut(g, old(disk[..]), fat[..], trail[i], i + 1 - |old(trail)|)
    {
      hide Flushing, FlushCut, FlushedUpTo;
      FlushBegins(g, disk[..], fat[..]);
      ghost var n0 := |trail|;
      var f := 0;
      while f < g.numFats
        invariant 0 <= f <= g.numFats
        invariant |trail| >= n0 && trail[..n0] == old(trail) && (f == 0 ==> |trail| == n0)
        invariant f > 0 ==> |trail| >= n0 + g.fatSectors && trail[|trail| - 1] == disk[..]
        invariant forall i :: n0 <= i < |trail| ==> FlushCut(g, old(disk[..]), fat[..], trail[i], i + 1 - n0)
        invariant FlushedUpTo(g, old(disk[..]), fat[..], disk[..], f, 0)
        invariant forall i :: |old(trail)| <= i < |trail| ==> Flushing(g, old(disk[..]), fat[..], trail[i])
      {
        var s := 0;
        while s < g.fatSectors
          invariant 0 <= s <= g.fatSectors
          invariant |trail| >= n0 && trail[..n0] == old(trail) && (f == 0 ==> |trail| == n0 + s)
          invariant f > 0 ==> |trail| >= n0 + g.fatSectors
          invariant s > 0 ==> trail[|trail| - 1] == disk[..]
          invariant forall i :: n0 <= i < |trail| ==> FlushCut(g, old(disk[..]), fat[..], trail[i], i + 1 - n0)
          invariant FlushedUpTo(g, old(disk[..]), fat[..], disk[..], f, s)
          invariant forall i :: |old(trail)| <= i < |trail| ==> Flushing(g, old(disk[..]), fat[..], trail[i])
        {
          FatLbaBound(g, disk[..], f, s);
          ghost var before := disk[..];
          BlockWrite(FatLba(g, f, s), FatSector(fat[..], s));
          FlushStep(g, old(disk[..]), fat[..], before, f, s);
          FlushedIsCut(g, old(disk[..]), fat[..], disk[..], f, s + 1, |trail| - n0);
          s := s + 1;
        }
        FlushNextCopy(g, old(disk[..]), fat[..], disk[..], f);
        f := f + 1;
      }
      FlushEnds(g, old(disk[..]), fat[..], disk[..]);
    }

    // ---- walking and searching a directory ---------------------------------------------------

    /** it has delivered the first j sectors of its directory. */
    ghost predicate IterAt(it: DirIter, j: nat)
      reads this
    {
      if it.dir == 0 then it.rootSector == j <= g.rootSectors
      else
        && it.dir in L.chains
        && it.cluster in L.owner && L.owner[it.cluster].0 == it.dir
        && L.owner[it.cluster].1 < |L.chains[it.dir]|
        && L.chains[it.dir][L.owner[it.cluster].1] == it.cluster
        && it.clusterSector <= g.spc
        && j == At(g, L.owner[it.cluster].1, it.clusterSector)
    }

    method StartIter(d: nat) returns (it: DirIter)
      requires Shaped() && LayoutOk(g, fat[..], L) && (d == 0 || d in L.chains)
      ensures it.dir == d && IterAt(it, 0)
    {
      it := DirIter(d, 0, d, 0);
      if d != 0 { assert LinkOk(g, fat[..], L, d, 0); }
    }

    /** Loads the next sector of the directory into dirBuf; no more after the last one, and then the
        iterator stands on the last cluster of a subdirectory. */
    method NextSector(it: DirIter, ghost j: nat) returns (more: bool, it': DirIter, lba: nat)
      requires Shaped() && LayoutOk(g, fat[..], L) && IterAt(it, j)
      modifies dirBuf
      ensures it'.dir == it.dir
      ensures more <==> j < Span(g, L, it.dir)
      ensures more ==> lba == Lba(g, L, it.dir, j) < disk.Length && dirBuf[..] == disk[lba] && IterAt(it', j + 1)
      ensures !more && it.dir != 0 ==> it'.cluster == L.chains[it.dir][|L.chains[it.dir]| - 1]
    {
      it' := it;
      lba := 0;
      if it.dir == 0 {
        if it.rootSector >= g.rootSectors {
          return false, it', lba;
        }
        lba := g.rootStart + it.rootSector;
        LbaLocate(g, fat[..], L, 0, j);
        BlockRead(lba, dirBuf);
        it' := it.(rootSector := it.rootSector + 1);
        return true, it', lba;
      }
      ghost var i := L.owner[it.cluster].1;
      assert LinkOk(g, fat[..], L, it.dir, i);
      ghost var n := |L.chains[it.dir]|;
      if it.clusterSector >= g.spc {
        AtNext(g, i);
        var next := fat[it.cluster];
        if i + 1 < n { assert LinkOk(g, fat[..], L, it.dir, i + 1); }
        if next < 2 || next >= END_MIN {
          return false, it', lba;
        }
        assert LinkOk(g, fat[..], L, it.dir, i + 1);
        it' := it'.(cluster := next, clusterSector := 0);
        i := i + 1;
      }
      AtIndex(g, i, it'.clusterSector);
      AtBound(g, j, n);
      LbaLocate(g, fat[..], L, it.dir, j);
      lba := ClusterLba(g, it'.cluster) + it'.clusterSector;
      BlockRead(lba, dirBuf);
      it' := it'.(clusterSector := it'.clusterSector + 1);
      return true, it', lba;
    }

    /** Searches the sixteen entries in dirBuf, which holds sector j of the directory v. */
    method ScanSector(name: seq<byte>, ghost v: seq<Sector>, ghost j: nat) returns (r: Scan, i: nat)
      requires dirBuf.Length == 512 && j < |v| && v[j] == dirBuf[..]
      ensures i <= 16 && (r == Miss <==> i == 16)
      ensures r == Hit ==> Find(v, name, 16 * j) == 16 * j + i && Slot(v, 16 * j + i) == dirBuf[32 * i..32 * i + 32]
      ensures r == Stop ==> Find(v, name, 16 * j) == -1
      ensures r == Miss ==> Find(v, name, 16 * j) == Find(v, name, 16 * (j + 1))
    {
      hide Find, Slot;
      i := 0;
      while i < 16
        invariant 0 <= i <= 16
        invariant Find(v, name, 16 * j) == Find(v, name, 16 * j + i)
      {
        var e := dirBuf[32 * i..32 * i + 32];
        FindStep(v, name, j, i);
        if IsEmpty(e) { return Stop, i; }
        if IsLive(e) && NameOf(e) == name { return Hit, i; }
        i := i + 1;
      }
      r := Miss;
    }

    /** Searches directory d for name: the first live match before the first empty slot. */
    method DirLookup(d: nat, name: seq<byte>) returns (found: bool, e: Entry, lba: nat, index: nat, ghost k: nat)
      requires Shaped() && LayoutOk(g, fat[..], L) && (d == 0 || d in L.chains) && |name| == 11
      modifies dirBuf
      ensures Find(View(g, L, disk[..], d), name, 0) == if found then k else -1
      ensures found ==> index == k % 16 && lba == Lba(g, L, d, k / 16) < disk.Length && dirBuf[..] == disk[lba]
      ensures found ==> e == Slot(View(g, L, disk[..], d), k) == dirBuf[32 * index..32 * index + 32]
    {
      hide Find, Slot, LayoutOk, View, Lba, Span;
      ghost var v := View(g, L, disk[..], d);
      var it := StartIter(d);
      ghost var j := 0;
      e, lba, index, k := Zeros(32), 0, 0, 0;
      while true
        invariant IterAt(it, j) && it.dir == d && j <= |v|
        invariant disk[..] == old(disk[..]) && fat[..] == old(fat[..])
        invariant Find(v, name, 0) == Find(v, name, 16 * j)
        decreases |v| - j
      {
        var more;
        more, it, lba := NextSector(it, j);
        if !more {
          FindEnd(v, name, 16 * j);
          return false, e, lba, index, k;
        }
        ViewAt(g, L, disk[..], d, j);
        var scan, i := ScanSector(name, v, j);
        if scan == Stop { return false, e, lba, index, k; }
        if scan == Hit {
          e, index, k := dirBuf[32 * i..32 * i + 32], i, 16 * j + i;
          SlotIndex(j, i);
          return true, e, lba, index, k;
        }
        j := j + 1;
      }
    }

    // ---- positional write ----------------------------------------------------------------------

    /** The cluster after the ci-th one of the job's file, allocated if the chain ends there; 0 when
        that takes a new cluster and none is free. */
    method NextCluster(ghost J: Job, ghost t: nat, cluster: nat, ghost ci: nat, ghost w: nat)
      returns (next: nat, grew: bool)
      requires Shaped() && JobOk(J) && J.g == g
      requires Writing(J, t, fat[..], L, disk[..], w) && Standing(J, t, L, cluster, ci)
      modifies fat, this`L
      ensures next == 0 || !grew ==> fat[..] == old(fat[..]) && L == old(L)
      ensures next == 0 || grew ==> ci + 1 == old(|L.chains[t]|)
      ensures next == 0 ==> FreeSet(g, fat[..]) == {}
      ensures next != 0 ==> Writing(J, t, fat[..], L, disk[..], w) && Standing(J, t, L, next, ci + 1)
    {
      hide Writing, JobTree, Synced;
      WritingLinks(J, t, fat[..], L, disk[..], w, ci);
      next, grew := fat[cluster], false;
      if next < 2 || next >= END_MIN {
        ghost var fat0, disk0 := fat[..], disk[..];
        next := AllocCluster();
        if next == 0 { return; }
        WritingGrow(J, t, fat0, L, disk0, w, next);
        fat[cluster] := next;
        L := Grow(L, t, next);
        grew := true;
        ghost var fat1: seq<u16> := fat0[next := END];
        assert fat[..] == fat1[cluster := next] && disk[..] == disk0;
      }
    }

    /** Finds, or allocates, the cluster that holds byte pos of the job's file; fails only when that
        takes a new cluster and none is free. t is the file's first cluster from now on. */
    method Seek(ghost J: Job, first: nat, pos: nat)
      returns (ok: bool, t: nat, cluster: nat, dirty: bool, isNew: bool, ghost ci: nat)
      requires Shaped() && JobOk(J) && J.g == g && J.L == L && J.fat == fat[..] && J.disk == disk[..]
      requires first == J.First() && pos == J.pos
      modifies fat, this`L
      ensures !ok ==> fat[..] == J.fat && L == J.L
      ensures !ok ==> FreeSet(g, J.fat) == {} && J.pos == 512 * At(g, |J.Chain()|, 0)
      ensures ok ==> Writing(J, t, fat[..], L, disk[..], 0) && Standing(J, t, L, cluster, ci)
      ensures ok ==> J.pos == 512 * At(g, ci, 0) + OffsetIn(g, J.pos)
      ensures ok && isNew ==> OffsetIn(g, J.pos) == 0 && J.Size() == J.pos
      ensures ok && !dirty ==> fat[..] == J.fat && L == J.L
    {
      hide JobTree, Synced, Writing, View, Slot, At, OffsetIn, FreeSet;
      JobFile(J);
      JobStart(J);
      FirstByte(g);
      t, cluster, dirty, isNew, ci := first, first, false, false, 0;
      if first < 2 {
        cluster := AllocCluster();
        if cluster == 0 { return false, t, cluster, dirty, isNew, ci; }
        WritingStarted(J, cluster);
        L := Start(L, cluster);
        return true, cluster, cluster, true, true, 0;
      }
      WritingExisting(J);
      var target := ClusterOf(g, pos);
      SeekBound(J);
      var idx := 0;
      while idx < target
        invariant 0 <= idx <= target && ci == idx
        invariant disk[..] == J.disk
        invariant Writing(J, t, fat[..], L, disk[..], 0) && Standing(J, t, L, cluster, ci)
        invariant dirty ==> idx == target == |J.Chain()|
        invariant !dirty ==> fat[..] == J.fat && L == J.L && !isNew
      {
        var next, grew := NextCluster(J, t, cluster, ci, 0);
        if next == 0 {
          assert !dirty;
          return false, t, cluster, dirty, isNew, ci;
        }
        if grew { dirty, isNew := true, true; } else { isNew := false; }
        cluster := next;
        idx, ci := idx + 1, ci + 1;
      }
      ok := true;
    }

    method CopyBytes(secOff: nat, n: nat, buf: seq<byte>, written: nat)
      requires sectorBuf.Length == 512 && secOff + n <= 512 && written + n <= |buf|
      modifies sectorBuf
      ensures sectorBuf[..] == Patch(old(sectorBuf[..]), secOff, buf[written..written + n])
    {
      hide Patch;
      ghost var was := sectorBuf[..];
      PatchNothing(was, secOff, buf, written);
      var i := 0;
      while i < n
        invariant 0 <= i <= n
        invariant sectorBuf[..] == Patch(was, secOff, buf[written..written + i])
      {
        PatchNext(was, secOff, buf, written, i);
        ghost var before := sectorBuf[..];
        sectorBuf[secOff + i] := buf[written + i];
        assert sectorBuf[..] == before[secOff + i := buf[written + i]];
        i := i + 1;
      }
    }

    /** Stores n bytes of buf into the sector at lba: read, patch and write back, where a sector of a
        cluster allocated by this write starts as zeros and a fully overwritten one is not read. */
    method StoreSector(lba: nat, secOff: nat, n: nat, isNew: bool, buf: seq<byte>, written: nat)
      returns (ghost base: Sector)
      requires Shaped() && lba < disk.Length && secOff + n <= 512 && written + n <= |buf|
      modifies disk, sectorBuf, this`trail
      ensures n < 512 ==> base == if isNew then Zeros(512) else old(disk[lba])
      ensures disk[..] == old(disk[..])[lba := Patch(base, secOff, buf[written..written + n])]
      ensures trail == old(trail) + [disk[..]]
    {
      if n < 512 {
        if isNew {
          forall i | 0 <= i < 512 { sectorBuf[i] := 0; }
        } else {
          BlockRead(lba, sectorBuf);
        }
      }
      base := sectorBuf[..];
      CopyBytes(secOff, n, buf, written);
      BlockWrite(lba, sectorBuf[..]);
    }

    /** One turn of the data loop: fills the sector the cursor is in as far as buf reaches. */
    method StoreChunk(ghost J: Job, ghost t: nat, cluster: nat, ghost ci: nat, off: nat, isNew: bool, buf: seq<byte>,
        written: nat, ghost n0: nat)
      returns (n: nat)
      requires Shaped() && JobOk(J) && J.g == g && buf == J.data && written < |buf|
      requires Writing(J, t, fat[..], L, disk[..], written)
      requires Cursor(J, t, L, written, cluster, ci, off) && off < 512 * g.spc
      requires isNew ==> J.Size() <= J.pos + written && off % 512 == 0
      requires n0 <= |trail| && TrailSafe(J, written, trail, n0)
      modifies disk, sectorBuf, this`trail
      ensures 0 < n <= |buf| - written
      ensures off + n <= 512 * g.spc && (written + n < |buf| ==> (off + n) % 512 == 0)
      ensures Writing(J, t, fat[..], L, disk[..], written + n)
      ensures n0 <= |trail| && trail[..n0] == old(trail[..n0]) && TrailSafe(J, written + n, trail, n0)
    {
      hide Writing, JobTree, Synced, CrashSafe, TrailSafe, Patch, At, ClusterLba, Lba, View, Slot, Span;
      WritingTarget(J, t, fat[..], L, disk[..], written);
      CursorSector(J, t, fat[..], L, disk[..], written, cluster, ci, off);
      var lba := ClusterLba(g, cluster) + off / 512;
      n := 512 - off % 512;
      if n > |buf| - written { n := |buf| - written; }
      ChunkFits(g, off, |buf| - written, n);
      ghost var fat0, disk0, trail0 := fat[..], disk[..], trail;
      ghost var base := StoreSector(lba, off % 512, n, isNew, buf, written);
      ghost var disk1 := disk[..];
      assert fat[..] == fat0 && trail == trail0 + [disk1];
      assert BufferOk(J, written, n, isNew, disk0[lba], base);
      StoreStep(J, t, fat0, L, disk0, written, n, cluster, ci, off, isNew, base);
      TrailExtend(J, written, written + n, trail0, n0, disk1);
    }

    /** The data loop: stores buf from the cursor on, growing the chain as clusters fill up. Stops
        short only when the disk is full, with the last cluster filled to the end. */
    method StoreData(ghost J: Job, t: nat, cluster0: nat, pos: nat, buf: seq<byte>, isNew0: bool, ghost ci0: nat)
      returns (written: nat, dirty: bool)
      requires Shaped() && JobOk(J) && J.g == g && pos == J.pos && buf == J.data && |buf| > 0
      requires Writing(J, t, fat[..], L, disk[..], 0)
      requires Cursor(J, t, L, 0, cluster0, ci0, OffsetIn(g, J.pos))
      requires isNew0 ==> OffsetIn(g, J.pos) == 0 && J.Size() == J.pos
      modifies disk, fat, sectorBuf, this`L, this`trail
      ensures 0 < written <= |buf| && Writing(J, t, fat[..], L, disk[..], written)
      ensures J.pos <= |J.Old()| && t in L.chains && |L.chains[t]| == Clusters(g, |J.After(written)|)
      ensures written < |buf| ==> FreeSet(g, fat[..]) == {} && J.pos + written == 512 * At(g, |L.chains[t]|, 0)
      ensures !dirty ==> fat[..] == old(fat[..]) && L == old(L)
      ensures |old(trail)| <= |trail| && trail[..|old(trail)|] == old(trail)
      ensures TrailSafe(J, written, trail, |old(trail)|)
    {
      hide Writing, JobTree, Synced, CrashSafe, TrailSafe, Clusters, FreeSet, At, View, Slot, Content, OffsetIn;
      JobFile(J);
      var cluster, isNew, off: nat := cluster0, isNew0, OffsetIn(g, pos);
      ghost var ci := ci0;
      written, dirty := 0, false;
      TrailStart(J, trail);
      while written < |buf|
        invariant 0 <= written <= |buf| && (if written < |buf| then off < 512 * g.spc else off > 0)
        invariant Writing(J, t, fat[..], L, disk[..], written) && Cursor(J, t, L, written, cluster, ci, off)
        invariant isNew && written < |buf| ==> J.Size() <= J.pos + written && off % 512 == 0
        invariant !dirty ==> fat[..] == old(fat[..]) && L == old(L)
        invariant |old(trail)| <= |trail| && trail[..|old(trail)|] == old(trail)
        invariant TrailSafe(J, written, trail, |old(trail)|)
        decreases |buf| - written
      {
        var n := StoreChunk(J, t, cluster, ci, off, isNew, buf, written, |old(trail)|);
        written, off := written + n, off + n;
        if off >= 512 * g.spc && written < |buf| {
          AtNext(g, ci);
          var next, grew := NextCluster(J, t, cluster, ci, written);
          if next == 0 {
            ChainExact(J, t, L, written, cluster, ci, off);
            return;
          }
          if grew { SizeFits(J, ci + 1); }
          dirty, isNew := dirty || grew, grew;
          cluster, off := next, 0;
          ci := ci + 1;
        }
      }
      ChainExact(J, t, L, written, cluster, ci, off);
    }

    /** Rewrites the first cluster and the size of slot i in dirBuf and writes the sector back. */
    method UpdateEntry(lba: nat, i: nat, first: u16, size: u32)
      requires Shaped() && lba < disk.Length && i < 16 && dirBuf[..] == disk[lba]
      modifies disk, dirBuf, this`trail
      ensures disk[..] == old(disk[..])[lba := SetSlot(old(disk[lba]), i,
              Resized(old(dirBuf[32 * i..32 * i + 32]), first, size))]
      ensures trail == old(trail) + [disk[..]]
    {
      ghost var s: Sector, e: Entry := dirBuf[..], dirBuf[32 * i..32 * i + 32];
      var tail := Le16(first) + Le32(size);
      forall b | 0 <= b < 6 { dirBuf[32 * i + 26 + b] := tail[b]; }
      assert dirBuf[..] == SetSlot(s, i, Resized(e, first, size));
      BlockWrite(lba, dirBuf[..]);
    }

    /** Flushes the FAT if the chain grew. */
    method CommitFat(ghost J: Job, ghost t: nat, ghost written: nat, dirty: bool, ghost n0: nat)
      requires Shaped() && JobOk(J) && J.g == g && Writing(J, t, fat[..], L, disk[..], written)
      requires !dirty ==> fat[..] == J.fat
      requires n0 <= |trail| && TrailSafe(J, written, trail, n0)
      modifies disk, this`trail
      ensures Synced(g, disk[..], fat[..])
      ensures forall a :: g.rootStart <= a < disk.Length ==> disk[a] == old(disk[a])
      ensures n0 <= |trail| && trail[..n0] == old(trail[..n0]) && TrailSafe(J, written, trail, n0)
    {
      hide Writing, JobTree, CrashSafe, TrailSafe, Synced, Flushing;
      ghost var fat0, data, trail0 := fat[..], disk[..], trail;
      if dirty {
        FlushFat();
        assert fat[..] == fat0;
        TrailFlush(J, t, fat0, L, data, written, trail0, trail, n0);
      } else {
        SyncedKept(J, t, L, data, written);
      }
    }

    /** Looks the entry up again and gives it its first cluster and size. */
    method CommitEntry(ghost J: Job, t: nat, parent: nat, name: seq<byte>, ghost written: nat, newSize: nat,
        ghost data: seq<Sector>)
      requires Shaped() && JobOk(J) && J.g == g && Writing(J, t, fat[..], L, data, written) && written > 0
      requires J.pos <= |J.Old()| && |L.chains[t]| == Clusters(g, |J.After(written)|)
      requires parent == J.d && |name| == 11 && Find(J.Dir(), name, 0) == J.k
      requires t < 0x1_0000 && newSize == |J.After(written)| < 0x1_0000_0000
      requires Synced(g, disk[..], fat[..])
      requires |data| == disk.Length && forall a :: g.rootStart <= a < disk.Length ==> disk[a] == data[a]
      modifies disk, dirBuf, this`trail
      ensures Written(J, t, fat[..], L, disk[..], written)
      ensures trail == old(trail) + [disk[..]] && CrashSafe(J, written, NewEntry(J, t, written), disk[..])
    {
      hide Writing, JobTree, CrashSafe, Find, Written, Clusters, Reslotted, Synced;
      ghost var fat0, disk1 := fat[..], disk[..];
      DirBeforeCommit(J, t, fat0, L, data, disk1, written);
      WritingTarget(J, t, fat0, L, data, written);
      var found, e, lba, index, k := DirLookup(parent, name);
      ViewAt(g, L, disk1, parent, k / 16);
      CommitSlot(J, t, fat0, L, data, disk1, written, NewEntry(J, t, written));
      LbaLocate(g, fat0, L, parent, k / 16);
      UpdateEntry(lba, index, t, newSize);
      ghost var disk2 := disk[..];
      assert fat[..] == fat0;
      SyncedAbove(g, disk1, fat0, lba, disk2[lba]);
      CommitWritten(J, t, fat0, L, data, disk2, written);
      FinalImageIsSafe(J, t, fat0, L, data, disk2, written);
    }

    /** The volume has chains and the cached FAT is the one on disk. */
    ghost predicate Mounted()
      reads this, disk, fat
    {
      Shaped() && LayoutOk(g, fat[..], L) && Synced(g, disk[..], fat[..])
    }

    /** ... and it is a valid FAT16 tree. */
    ghost predicate Valid()
      reads this, disk, fat
    {
      Mounted() && TreeOk(g, L, disk[..], T)
    }

    ghost function JobFor(d: nat, name: seq<byte>, pos: nat, data: seq<byte>): Job
      requires Shaped()
      reads this, disk, fat
    {
      FileJob(g, L, T, disk[..], fat[..], d, name, pos, data)
    }

    ghost predicate CanWrite(d: nat, name: seq<byte>, pos: nat, n: nat)
      requires Shaped()
      reads this, disk
    {
      MayWrite(g, L, disk[..], d, name, pos, n)
    }

    lemma JobIsOk(d: nat, name: seq<byte>, pos: nat, data: seq<byte>)
      requires Valid() && IsDirectory(T, d) && CanWrite(d, name, pos, |data|)
      ensures JobOk(JobFor(d, name, pos, data))
    {
      var v := View(g, L, disk[..], d);
      var k := Find(v, Name83(name), 0);
      assert DirOk(g, L, T, d, v);
      assert EntryOk(g, L, T, d, k, Slot(v, k));
    }

    /** Every image the disk went through since the trail had n0 of them is safe for the job. */
    ghost predicate Safely(J: Job, t: nat, w: nat, n0: nat)
      reads this
      requires t < 0x1_0000 && J.pos <= |J.Old()| && w <= |J.data| && |J.After(w)| < 0x1_0000_0000
    {
      && n0 <= |trail|
      && forall i :: n0 <= i < |trail| ==>
           SafeUpTo(J, w, trail[i]) || CrashSafe(J, w, NewEntry(J, t, w), trail[i])
    }

    /** The body of fat16_write_at once the entry is found: seek, store, commit. */
    method Perform(ghost J: Job, parent: nat, name83: seq<byte>, first: nat, size: nat, pos: nat, buf: seq<byte>)
      returns (r: int, t: nat, newSize: nat)
      requires Shaped() && JobOk(J) && J.g == g && J.L == L && J.T == T && J.fat == fat[..] && J.disk == disk[..]
      requires parent == J.d && |name83| == 11 && Find(J.Dir(), name83, 0) == J.k
      requires first == J.First() && size == J.Size() && pos == J.pos && buf == J.data && |buf| > 0
      modifies disk, fat, dirBuf, sectorBuf, this
      ensures r == -1 || r > 0
      ensures r == -1 ==> Room(J) == 0
      ensures r == -1 ==> disk[..] == J.disk && fat[..] == J.fat && L == J.L && T == J.T && trail == old(trail)
      ensures r > 0 ==> r == if |buf| < Room(J) then |buf| else Room(J)
      ensures r > 0 ==> Written(J, t, fat[..], L, disk[..], r) && newSize == |J.After(r)| && T == HomeAt(J, t)
      ensures r > 0 ==> |old(trail)| <= |trail| && trail[..|old(trail)|] == old(trail) && Safely(J, t, r, |old(trail)|)
    {
      hide JobTree, Writing, Written, CrashSafe, Find, View, Slot, SafeUpTo, Room, Synced, FreeSet, Clusters, At,
        OffsetIn;
      JobFile(J);
      ghost var n0 := |trail|;
      var ok, cluster, dirty, isNew;
      ghost var ci;
      ok, t, cluster, dirty, isNew, ci := Seek(J, first, pos);
      if !ok {
        RoomNone(J);
        return -1, t, size;
      }
      var written, dirty2 := StoreData(J, t, cluster, pos, buf, isNew, ci);
      ghost var data := disk[..];
      RoomBound(J, t, fat[..], L, data, written);
      TargetIsShort(J, t, fat[..], L, data, written);
      newSize := if pos + written > size then pos + written else size;
      CommitFat(J, t, written, dirty || dirty2, n0);
      if newSize != size || t != first {
        CommitEntry(J, t, parent, name83, written, newSize, data);
      } else {
        CommitNothing(J, t, fat[..], L, data, disk[..], written);
        CommitWritten(J, t, fat[..], L, data, disk[..], written);
      }
      T := HomeAt(J, t);
      r := written;
    }

    /** fat16_write_at: stores buf at byte pos of an existing file, growing it as needed. Refused
        calls and a full disk change nothing; otherwise as much is stored as fits, and a power cut
        after any sector write leaves a volume that reads as before or as after, up to a prefix of
        the data. */
    method WriteAt(parent: nat, name: seq<byte>, pos: nat, buf: seq<byte>) returns (r: int, first: nat, size: nat)
      requires Valid() && IsDirectory(T, parent)
      modifies disk, fat, dirBuf, sectorBuf, this
      ensures Valid()
      ensures r <= 0 ==> disk[..] == old(disk[..]) && fat[..] == old(fat[..]) && L == old(L) && T == old(T) &&
                         trail == old(trail)
      ensures !old(CanWrite(parent, name, pos, |buf|)) ==> r == -1
      ensures old(CanWrite(parent, name, pos, |buf|)) ==>
                var J := old(JobFor(parent, name, pos, buf));
                Room(J) >= 0 && r == if |buf| == 0 then 0
                  else if Room(J) == 0 then -1 else if |buf| < Room(J) then |buf| else Room(J)
      ensures r == 0 ==>
                var J := old(JobFor(parent, name, pos, buf));
                first == J.First() && size == J.Size()
      ensures r > 0 ==>
                var J := old(JobFor(parent, name, pos, buf));
                && Written(J, first, fat[..], L, disk[..], r)
                && size == |J.After(r)| && T == HomeAt(J, first)
                && |old(trail)| <= |trail| && trail[..|old(trail)|] == old(trail) && Safely(J, first, r, |old(trail)|)
    {
      hide LayoutOk, Synced, TreeOk, JobTree, Written, CrashSafe, Find, View, Slot, SafeUpTo, Room;
      var name83 := To83(name);
      DirHasChain(parent);
      var found, e, lba, index, k := DirLookup(parent, name83);
      first, size := FirstOf(e), SizeOf(e);
      if !found || IsDir(e) || pos > size || |buf| > 0xFFFF_FFFF - pos {
        return -1, first, size;
      }
      ghost var J := JobFor(parent, name, pos, buf);
      JobIsOk(parent, name, pos, buf);
      RoomNonneg(J);
      if |buf| == 0 { return 0, first, size; }
      r, first, size := Perform(J, parent, name83, first, size, pos, buf);
      if r > 0 { WrittenIsValid(J, first, fat[..], L, disk[..], r); }
    }

    lemma DirHasChain(d: nat)
      requires Valid() && IsDirectory(T, d)
      ensures d == 0 || d in L.chains
    {
      if d != 0 { assert LinkedIn(g, L, disk[..], T, d); }
    }

    // ---- positional read ------------------------------------------------------------------------

    /** Copies n bytes of the sector at lba, from offset off on, to buf. */
    method ReadChunk(lba: nat, off: nat, n: nat, buf: array<byte>, at: nat)
      requires Shaped() && lba < disk.Length && off + n <= 512 && at + n <= buf.Length && buf != sectorBuf
      modifies buf, sectorBuf
      ensures buf[..] == Patch(old(buf[..]), at, disk[lba][off..off + n])
    {
      BlockRead(lba, sectorBuf);
      var i := 0;
      while i < n
        invariant 0 <= i <= n
        invariant sectorBuf[..] == disk[lba]
        invariant buf[..] == Patch(old(buf[..]), at, disk[lba][off..off + i])
      {
        PatchNext(old(buf[..]), at, disk[lba], off, i);
        buf[at + i] := sectorBuf[off + i];
        i := i + 1;
      }
    }

    /** The cluster of object o that holds byte pos, found by following the chain. */
    method SeekRead(o: nat, pos: nat) returns (ok: bool, cluster: nat, ghost ci: nat)
      requires Shaped() && LayoutOk(g, fat[..], L) && o in L.chains && o != 0
      ensures ok <==> pos < 512 * Span(g, L, o)
      ensures ok ==> ci < |L.chains[o]| && cluster == L.chains[o][ci] && ci == ClusterOf(g, pos)
    {
      hide LayoutOk, At, ClusterOf;
      FirstIsCluster(g, fat[..], L, o);
      cluster, ci := o, 0;
      var idx, target := 0, ClusterOf(g, pos);
      TargetInChain(g, pos, |L.chains[o]|);
      while idx < target
        invariant ci == idx <= target
        invariant ci < |L.chains[o]| && cluster == L.chains[o][ci]
      {
        NextLink(o, ci);
        var next := fat[cluster];
        if next >= END_MIN { return false, cluster, ci; }
        cluster := next;
        idx, ci := idx + 1, ci + 1;
      }
      ok := true;
    }

    /** One sector of the read loop. */
    method ReadStep(ghost o: nat, ghost ci: nat, cluster: nat, off: nat, pos: nat, n: nat, read: nat,
        buf: array<byte>, ghost buf0: seq<byte>)
      returns (copy: nat)
      requires Shaped() && LayoutOk(g, fat[..], L) && o != 0 && o in L.chains && ci < |L.chains[o]| &&
               cluster == L.chains[o][ci]
      requires pos + read == 512 * At(g, ci, 0) + off && off < 512 * g.spc && read < n <= buf.Length && buf != sectorBuf
      requires |buf0| == buf.Length && pos + read <= |Flat(View(g, L, disk[..], o))|
      requires buf[..] == Patch(buf0, 0, Flat(View(g, L, disk[..], o))[pos..pos + read])
      modifies buf, sectorBuf
      ensures 0 < copy <= n - read && off + copy <= 512 * g.spc && (copy < n - read ==> (off + copy) % 512 == 0)
      ensures pos + read + copy <= |Flat(View(g, L, disk[..], o))|
      ensures buf[..] == Patch(buf0, 0, Flat(View(g, L, disk[..], o))[pos..pos + read + copy])
    {
      hide LayoutOk, View, Flat, At, ClusterLba, Patch;
      copy := 512 - off % 512;
      if copy > n - read { copy := n - read; }
      ChunkFits(g, off, n - read, copy);
      ObjectByte(g, fat[..], L, disk[..], o, ci, pos + read, off, copy);
      ghost var b := Flat(View(g, L, disk[..], o));
      PatchAppend(buf0, b, pos, pos + read, pos + read + copy);
      ReadChunk(ClusterLba(g, cluster) + off / 512, off % 512, copy, buf, read);
    }

    /** The sectors of one cluster, from off on. */
    method ReadCluster(ghost o: nat, ghost ci: nat, cluster: nat, off0: nat, pos: nat, n: nat, read0: nat,
        buf: array<byte>, ghost buf0: seq<byte>)
      returns (read: nat, off: nat)
      requires Shaped() && LayoutOk(g, fat[..], L) && o != 0 && o in L.chains && ci < |L.chains[o]| &&
               cluster == L.chains[o][ci]
      requires pos + read0 == 512 * At(g, ci, 0) + off0 && off0 < 512 * g.spc && read0 < n <= buf.Length &&
               buf != sectorBuf
      requires |buf0| == buf.Length && pos + read0 <= |Flat(View(g, L, disk[..], o))|
      requires buf[..] == Patch(buf0, 0, Flat(View(g, L, disk[..], o))[pos..pos + read0])
      modifies buf, sectorBuf
      ensures read0 < read <= n && (read < n ==> off == 512 * g.spc) && pos + read == 512 * At(g, ci, 0) + off
      ensures pos + read <= |Flat(View(g, L, disk[..], o))|
      ensures buf[..] == Patch(buf0, 0, Flat(View(g, L, disk[..], o))[pos..pos + read])
    {
      hide LayoutOk, View, Flat, At, Patch;
      ghost var b := Flat(View(g, L, disk[..], o));
      read, off := read0, off0;
      while off < 512 * g.spc && read < n
        invariant read0 <= read <= n && pos + read <= |b| && off <= 512 * g.spc && (off0 < off ==> read0 < read)
        invariant disk[..] == old(disk[..]) && fat[..] == old(fat[..])
        invariant pos + read == 512 * At(g, ci, 0) + off
        invariant buf[..] == Patch(buf0, 0, b[pos..pos + read])
        decreases n - read
      {
        var copy := ReadStep(o, ci, cluster, off, pos, n, read, buf, buf0);
        read, off := read + copy, off + copy;
      }
    }

    /** Length after clamping to the file size, with the 32-bit sum of the comparison. */
    static function ClampedLen(pos: nat, len: nat, fileSize: nat): (n: nat)
      requires pos < fileSize
      ensures n <= len && (len > 0 ==> n > 0)
    {
      if (pos + len) % 0x1_0000_0000 > fileSize then fileSize - pos else len
    }

    /** The clamp stops at the end of the file exactly when the 32-bit sum does not wrap; when it does, nothing is
        clamped. */
    static lemma ClampIsExact(pos: nat, len: nat, fileSize: nat)
      requires pos < fileSize < 0x1_0000_0000 && 0 < len < 0x1_0000_0000
      ensures (ClampedLen(pos, len, fileSize) == if pos + len > fileSize then fileSize - pos else len) <==>
              pos + len < 0x1_0000_0000
      ensures pos + len >= 0x1_0000_0000 ==> ClampedLen(pos, len, fileSize) == len
    {
    }

    /** The read loop: up to n bytes of object o from pos on, or to the end of its chain. */
    method ReadRun(o: nat, pos: nat, buf: array<byte>, n: nat) returns (read: nat)
      requires Shaped() && LayoutOk(g, fat[..], L) && buf != sectorBuf && 0 < n <= buf.Length
      requires o in L.chains && o != 0
      modifies buf, sectorBuf
      ensures var size := 512 * Span(g, L, o);
              read == if size <= pos then 0 else if n <= size - pos then n else size - pos
      ensures read == 0 ==> buf[..] == old(buf[..])
      ensures read > 0 ==> pos + read <= 512 * Span(g, L, o) &&
                           buf[..] == Patch(old(buf[..]), 0, Flat(View(g, L, disk[..], o))[pos..pos + read])
    {
      hide LayoutOk, View, Flat, At, Patch, ClusterOf, OffsetIn, Span;
      ghost var ci: nat;
      var cluster: nat;
      var ok;
      ok, cluster, ci := SeekRead(o, pos);
      if !ok { return 0; }
      NextLink(o, ci);
      var off: nat := OffsetIn(g, pos);
      ghost var buf0, b := buf[..], Flat(View(g, L, disk[..], o));
      PatchNothing(buf0, 0, b, pos);
      read := 0;
      while read < n && cluster < END_MIN
        invariant 0 <= read <= n && pos + read <= |b|
        invariant disk[..] == old(disk[..]) && fat[..] == old(fat[..])
        invariant read < n && cluster < END_MIN ==>
                    ci < |L.chains[o]| && cluster == L.chains[o][ci] && pos + read == 512 * At(g, ci, 0) + off &&
                      off < 512 * g.spc
        invariant read < n && cluster >= END_MIN ==> pos + read == |b|
        invariant buf[..] == Patch(buf0, 0, b[pos..pos + read])
        decreases n - read
      {
        read, off := ReadCluster(o, ci, cluster, off, pos, n, read, buf, buf0);
        if read < n {
          NextLink(o, ci);
          EndOfChain(g, L, o, ci);
          cluster, off := fat[cluster], 0;
          ci := ci + 1;
        }
      }
    }

    /** fat16_read_at: copies bytes of the chain that starts at first, from pos on, until the clamped
        length or the end of the chain. */
    method ReadAt(first: nat, pos: nat, buf: array<byte>, len: nat, fileSize: nat) returns (r: int)
      requires Shaped() && LayoutOk(g, fat[..], L) && buf != sectorBuf && len <= buf.Length
      requires pos < fileSize ==> first in L.chains
      modifies buf, sectorBuf
      ensures len == 0 ==> r == -1
      ensures len > 0 && pos >= fileSize ==> r == 0
      ensures r <= 0 ==> buf[..] == old(buf[..])
      ensures len > 0 && pos < fileSize ==>
                var n, size := ClampedLen(pos, len, fileSize), 512 * Span(g, L, first);
                r == (if size <= pos then 0 else if n <= size - pos then n else size - pos) <= buf.Length
      ensures r > 0 ==>
                && pos + r <= 512 * Span(g, L, first)
                && buf[..] == Patch(old(buf[..]), 0, Flat(View(g, L, disk[..], first))[pos..pos + r])
      ensures disk[..] == old(disk[..]) && fat[..] == old(fat[..])
    {
      hide View, Flat, Patch, LayoutOk, Span;
      if len == 0 { return -1; }
      if pos >= fileSize { return 0; }
      FirstIsCluster(g, fat[..], L, first);
      var n := ClampedLen(pos, len, fileSize);
      r := ReadRun(first, pos, buf, n);
    }

    /** The FAT entry of the ci-th cluster of o is the next one or an end mark. */
    lemma NextLink(o: nat, ci: nat)
      requires Shaped() && LayoutOk(g, fat[..], L) && o in L.chains && ci < |L.chains[o]|
      ensures 2 <= L.chains[o][ci] < fat.Length && L.chains[o][ci] < END_MIN
      ensures ci + 1 < |L.chains[o]| ==> fat[L.chains[o][ci]] == L.chains[o][ci + 1] < END_MIN
      ensures ci + 1 == |L.chains[o]| ==> fat[L.chains[o][ci]] >= END_MIN
    {
      assert LinkOk(g, fat[..], L, o, ci);
      if ci + 1 < |L.chains[o]| { assert LinkOk(g, fat[..], L, o, ci + 1); }
    }
  }

  /** img is disk0 with the first s sectors of FAT copy f, and all of the copies before it, set to fat. */
  ghost predicate FlushedUpTo(g: Geo, disk0: seq<Sector>, fat: seq<u16>, img: seq<Sector>, f: nat, s: nat) {
    && |img| == |disk0| && |fat| == 256 * g.fatSectors
    && (forall a :: g.rootStart <= a < |img| ==> img[a] == disk0[a])
    && (forall f', s' :: 0 <= f' < g.numFats && 0 <= s' < g.fatSectors ==>
          SectorAt(img, FatLba(g, f', s')) ==
            if f' < f || (f' == f && s' < s) then FatSector(fat, s') else SectorAt(disk0, FatLba(g, f', s')))
  }

  /** The images of the flush extend a safe trail. */
  lemma TrailFlush(J: Job, t: nat, fat: seq<u16>, L: Layout, disk: seq<Sector>, w: nat, trail: seq<seq<Sector>>,
      trail': seq<seq<Sector>>, n: nat)
    requires JobOk(J) && Writing(J, t, fat, L, disk, w)
    requires n <= |trail| && trail <= trail' && TrailSafe(J, w, trail, n)
    requires forall i :: |trail| <= i < |trail'| ==> Flushing(J.g, disk, fat, trail'[i])
    ensures TrailSafe(J, w, trail', n)
  {
    hide CrashSafe, JobTree, Synced, Writing;
    forall i | n <= i < |trail'|
      ensures SafeUpTo(J, w, trail'[i])
    {
      if i < |trail| {
        assert SafeUpTo(J, w, trail[i]);
      } else {
        FlushIsSafe(J, t, fat, L, disk, w, trail'[i]);
      }
    }
  }

  /** img can occur while fat is being flushed over disk0: outside the FAT copies nothing changes and
      every sector of copy 0 is still the old one or already the new one. */
  ghost predicate Flushing(g: Geo, disk0: seq<Sector>, fat: seq<u16>, img: seq<Sector>) {
    && |img| == |disk0| && |fat| == 256 * g.fatSectors
    && (forall a :: g.rootStart <= a < |img| ==> img[a] == disk0[a])
    && (forall s :: 0 <= s < g.fatSectors ==>
          SectorAt(img, g.fatStart + s) == FatSector(fat, s) ||
            SectorAt(img, g.fatStart + s) == SectorAt(disk0, g.fatStart + s))
  }

  lemma FlushStep(g: Geo, disk0: seq<Sector>, fat: seq<u16>, img: seq<Sector>, f: nat, s: nat)
    requires DiskOk(g, disk0) && FatsOk(g) && f < g.numFats && s < g.fatSectors
    requires FlushedUpTo(g, disk0, fat, img, f, s)
    ensures FatLba(g, f, s) < |img|
    ensures FlushedUpTo(g, disk0, fat, img[FatLba(g, f, s) := FatSector(fat, s)], f, s + 1)
    ensures Flushing(g, disk0, fat, img[FatLba(g, f, s) := FatSector(fat, s)])
  {
    FatLbaBound(g, disk0, f, s);
    var img' := img[FatLba(g, f, s) := FatSector(fat, s)];
    forall f', s' | 0 <= f' < g.numFats && 0 <= s' < g.fatSectors
      ensures SectorAt(img', FatLba(g, f', s')) ==
            if f' < f || (f' == f && s' < s + 1) then FatSector(fat, s') else SectorAt(disk0, FatLba(g, f', s'))
    {
      FatLbaDistinct(g, f, s, f', s');
      assert SectorAt(img, FatLba(g, f', s')) ==
            if f' < f || (f' == f && s' < s) then FatSector(fat, s') else SectorAt(disk0, FatLba(g, f', s'));
    }
    FlushedIsFlushing(g, disk0, fat, img', f, s + 1);
  }

  lemma FlushedIsFlushing(g: Geo, disk0: seq<Sector>, fat: seq<u16>, img: seq<Sector>, f: nat, s: nat)
    requires FlushedUpTo(g, disk0, fat, img, f, s)
    ensures Flushing(g, disk0, fat, img)
  {
    hide FatLba, FatSector, SectorAt;
    forall s' | 0 <= s' < g.fatSectors
      ensures SectorAt(img, g.fatStart + s') == FatSector(fat, s') ||
              SectorAt(img, g.fatStart + s') == SectorAt(disk0, g.fatStart + s')
    {
      FatLbaFirst(g, s');
    }
  }

  /** img is base with the first n sectors of FAT copy 0 written from fat, and perhaps other copies. */
  ghost predicate FlushCut(g: Geo, base: seq<Sector>, fat: seq<u16>, img: seq<Sector>, n: nat) {
    && |img| == |base| && |fat| == 256 * g.fatSectors
    && (forall a :: g.rootStart <= a < |img| ==> img[a] == base[a])
    && (forall s :: 0 <= s < g.fatSectors ==>
          FatCopy(g, img, s) == if s < n then FatSector(fat, s) else FatCopy(g, base, s))
  }

  /** Sector s of FAT copy 0. */
  function FatCopy(g: Geo, img: seq<Sector>, s: nat): Sector { SectorAt(img, g.fatStart + s) }

  lemma FlushedIsCut(g: Geo, disk0: seq<Sector>, fat: seq<u16>, img: seq<Sector>, f: nat, s: nat, n: nat)
    requires FlushedUpTo(g, disk0, fat, img, f, s) && g.numFats > 0 && s <= g.fatSectors && f < g.numFats
    requires if f == 0 then n == s else n >= g.fatSectors
    ensures FlushCut(g, disk0, fat, img, n)
  {
    hide FatLba, FatSector, SectorAt;
    forall s' | 0 <= s' < g.fatSectors
      ensures FatCopy(g, img, s') == if s' < n then FatSector(fat, s') else FatCopy(g, disk0, s')
    {
      FatLbaFirst(g, s');
      assert SectorAt(img, FatLba(g, 0, s')) ==
            if 0 < f || s' < s then FatSector(fat, s') else SectorAt(disk0, FatLba(g, 0, s'));
    }
  }

  lemma FlushBegins(g: Geo, disk: seq<Sector>, fat: seq<u16>)
    requires DiskOk(g, disk) && FatsOk(g) && |fat| == 256 * g.fatSectors
    ensures FlushedUpTo(g, disk, fat, disk, 0, 0)
  {
  }

  lemma FlushEnds(g: Geo, disk0: seq<Sector>, fat: seq<u16>, img: seq<Sector>)
    requires DiskOk(g, disk0) && FatsOk(g) && FlushedUpTo(g, disk0, fat, img, g.numFats, 0)
    ensures Synced(g, img, fat) && forall a :: g.rootStart <= a < |img| ==> img[a] == disk0[a]
  {
    hide FatLba, FatSector, SectorAt;
  }

  lemma FatLbaFirst(g: Geo, s: nat)
    ensures FatLba(g, 0, s) == g.fatStart + s
  {
  }

  lemma FlushNextCopy(g: Geo, disk0: seq<Sector>, fat: seq<u16>, img: seq<Sector>, f: nat)
    requires FlushedUpTo(g, disk0, fat, img, f, g.fatSectors)
    ensures FlushedUpTo(g, disk0, fat, img, f + 1, 0)
  {
  }

  lemma FatLbaDistinct(g: Geo, f: nat, s: nat, f': nat, s': nat)
    requires s < g.fatSectors && s' < g.fatSectors
    ensures FatLba(g, f, s) == FatLba(g, f', s') ==> f == f' && s == s'
  {
    DivMod(f, s, g.fatSectors);
    DivMod(f', s', g.fatSectors);
  }
}
