/** The stream layer over FAT16 files: vfs_write and the 128-byte chunk loop of sys_write. */
module Vfs {
  import opened Bytes
  import opened Fat16Layout
  import opened Fat16Image
  import opened Fat16Dir
  import opened Fat16Name
  import opened Fat16Write
  import opened Fat16Driver

  datatype Backend = RamFs | Fat16 | PipeRead | PipeWrite

  /** vfs_fd_t, as a FAT16 file uses it: the entry is (parent, name), pos the stream position. */
  class Fd {
    var used: bool
    var backend: Backend
    var first: nat
    var size: nat
    var pos: nat
    var parent: nat
    var name: seq<byte>

    constructor (parent: nat, name: seq<byte>, first: nat, size: nat)
      ensures used && backend == Fat16 && pos == 0
      ensures this.parent == parent && this.name == name && this.first == first && this.size == size
    {
      used, backend, pos := true, Fat16, 0;
      this.parent, this.name, this.first, this.size := parent, name, first, size;
    }
  }

  /** A write of one chunk is a step of the write of all of J's data: the job for the chunk that
      starts at w, on the volume where the first w bytes are written. */
  ghost function Rest(J: Job, t: nat, fat: seq<u16>, L: Layout, disk: seq<Sector>, w: nat, n: nat): Job
    requires w + n <= |J.data|
  {
    Job(J.g, L, HomeAt(J, t), disk, fat, J.d, J.k, J.pos + w, J.data[w..w + n])
  }

  /** The entry, the bytes and the space the next chunk finds. */
  lemma RestFile(J: Job, t: nat, fat: seq<u16>, L: Layout, disk: seq<Sector>, w: nat, n: nat)
    requires JobOk(J) && Written(J, t, fat, L, disk, w) && w + n <= |J.data|
    ensures var K := Rest(J, t, fat, L, disk, w, n);
            && K.Entry0() == NewEntry(J, t, w) && K.First() == t && K.Size() == |J.After(w)| && K.Old() == J.After(w)
            && K.pos <= K.Size() && IsLive(K.Entry0()) && !IsDir(K.Entry0())
            && t != 0 && t != J.d && t in L.chains && K.Chain() == L.chains[t]
            && |View(J.g, L, disk, J.d)| == |J.Dir()|
  {
    hide JobTree, TreeOk, LayoutOk, Synced, DiskOk, View, Slot, Content, At, OtherSlot;
    JobEntry(J);
    AfterAt(J, w);
    TargetNotDir(J, t, L);
    SpanSame(J.g, J.L, L, J.d);
    assert NameOf(NewEntry(J, t, w))[0] == NameOf(J.Entry0())[0];
  }

  lemma JobEntry(J: Job)
    requires JobOk(J)
    ensures IsLive(J.Entry0()) && !IsDir(J.Entry0())
  {
  }

  lemma SpanSame(g: Geo, L: Layout, L': Layout, o: nat)
    requires o in L.chains <==> o in L'.chains
    requires o in L.chains ==> L.chains[o] == L'.chains[o]
    ensures Span(g, L, o) == Span(g, L', o)
  {
  }

  lemma RestJob(J: Job, t: nat, fat: seq<u16>, L: Layout, disk: seq<Sector>, w: nat, n: nat)
    requires JobOk(J) && Written(J, t, fat, L, disk, w) && w + n <= |J.data|
    ensures JobOk(Rest(J, t, fat, L, disk, w, n))
    ensures Room(Rest(J, t, fat, L, disk, w, n)) == Room(J) - w
  {
    hide TreeOk, LayoutOk, Synced, DiskOk, View, Slot, Content, At, FreeSet;
    RestFile(J, t, fat, L, disk, w, n);
  }

  lemma ResizedTwice(e: Entry, f: u16, s: u32, f': u16, s': u32)
    ensures Resized(Resized(e, f, s), f', s') == Resized(e, f', s')
  {
  }

  /** Writing the first w bytes and then m more is writing w + m bytes. */
  lemma WrittenChain(J: Job, t: nat, fat: seq<u16>, L: Layout, disk: seq<Sector>, w: nat, n: nat, t': nat,
      fat': seq<u16>, L': Layout, disk': seq<Sector>, m: nat)
    requires JobOk(J) && Written(J, t, fat, L, disk, w) && w + n <= |J.data| && m <= n
    requires Written(Rest(J, t, fat, L, disk, w, n), t', fat', L', disk', m)
    ensures t' == t && Written(J, t, fat', L', disk', w + m)
  {
    hide TreeOk, LayoutOk, Synced, DiskOk, View, Slot, Content, FreeSet, JobTree, OtherSlot, Resized;
    var K := Rest(J, t, fat, L, disk, w, n);
    RestFile(J, t, fat, L, disk, w, n);
    ChainsThen(J, t, L, K, t', L');
    SpliceTwice(J.Old(), J.pos, J.data[..w], K.data[..m]);
    assert J.data[..w] + K.data[..m] == J.data[..w + m];
    assert K.After(m) == J.After(w + m);
    ResizedTwice(J.Entry0(), t, |J.After(w)|, t, |K.After(m)|);
    assert HomeAt(K, t) == HomeAt(J, t);
    hide SameChains;
    forall d, k | OtherSlot(J, d, k)
      ensures Slot(View(J.g, L', disk', d), k) == Slot(View(J.g, J.L, J.disk, d), k)
    {
      OtherSlotStays(J, t, fat, L, disk, w, n, d, k);
    }
  }

  lemma ChainsThen(J: Job, t: nat, L: Layout, K: Job, t': nat, L': Layout)
    requires SameChains(J, t, L) && K.L == L && K.First() == t && K.Chain() == L.chains[t] && t != 0 &&
             SameChains(K, t', L')
    ensures t' == t && SameChains(J, t, L')
  {
    hide View, Slot;
  }

  lemma OtherSlotStays(J: Job, t: nat, fat: seq<u16>, L: Layout, disk: seq<Sector>, w: nat, n: nat, d: nat, k: nat)
    requires JobOk(J) && SameChains(J, t, L) && OtherSlot(J, d, k) && w + n <= |J.data|
    ensures OtherSlot(Rest(J, t, fat, L, disk, w, n), d, k)
  {
    hide JobTree, Synced;
    TargetNotDir(J, t, L);
    SpanSame(J.g, J.L, L, d);
  }

  // ---- crash safety of a stream -----------------------------------------------------------------

  /** What another file's entry leads to is on the written volume as it was. */
  lemma WrittenOther(J: Job, t: nat, fat: seq<u16>, L: Layout, disk: seq<Sector>, w: nat, d: nat, k: nat)
    requires JobOk(J) && Written(J, t, fat, L, disk, w) && OtherSlot(J, d, k) && OtherFile(J, d, k)
    ensures |disk| >= J.g.fatStart + J.g.fatSectors && |J.disk| >= J.g.fatStart + J.g.fatSectors
    ensures var x := Slot(View(J.g, J.L, J.disk, d), k);
            ReadDisk(J.g, disk, FirstOf(x), SizeOf(x)) == ReadDisk(J.g, J.disk, FirstOf(x), SizeOf(x))
  {
    hide JobTree, TreeOk, LayoutOk, Synced, DiskOk, View, Slot, OtherSlot, OtherFile, DiskFat, ReadDisk, Covers,
      Clusters;
    var x := Slot(View(J.g, J.L, J.disk, d), k);
    var f := FirstOf(x);
    OtherFileChain(J, t, L, d, k);
    JobLayout(J);
    SyncedDiskFat(J.g, disk, fat);
    SyncedDiskFat(J.g, J.disk, J.fat);
    if f == 0 {
      ReadNothing(J.g, disk);
      ReadNothing(J.g, J.disk);
    } else {
      OldChainOnDisk(J, f);
      forall i | 0 <= i < |L.chains[f]| - 1
        ensures L.chains[f][i] < |fat| && fat[L.chains[f][i]] == L.chains[f][i + 1]
      {
        ChainLink(J.g, fat, L, f, i);
      }
      ReadDiskIsContent(J.g, fat, L, disk, f, SizeOf(x));
      ReadDiskIsContent(J.g, J.fat, J.L, J.disk, f, SizeOf(x));
    }
  }

  /** An image that is safe for the next chunk is safe for the whole write. */
  lemma SafeThen(J: Job, t: nat, fat: seq<u16>, L: Layout, disk: seq<Sector>, w: nat, n: nat, j: nat, e: Entry,
      img: seq<Sector>)
    requires JobOk(J) && Written(J, t, fat, L, disk, w) && w + n <= |J.data|
    requires CrashSafe(Rest(J, t, fat, L, disk, w, n), j, e, img)
    ensures w + j <= |J.data| && CrashSafe(J, w + j, e, img)
  {
    hide JobTree, TreeOk, LayoutOk, Synced, DiskOk, View, Slot, OtherSlot, DiskFat, ReadDisk, Covers, Content,
      FreeSet, ChainThere, OtherFile;
    var K := Rest(J, t, fat, L, disk, w, n);
    SyncedDiskFat(J.g, J.disk, J.fat);
    RestFile(J, t, fat, L, disk, w, n);
    SpliceTwice(J.Old(), J.pos, J.data[..w], K.data[..j]);
    assert J.data[..w] + K.data[..j] == J.data[..w + j];
    assert K.After(j) == J.After(w + j);
    TargetNotDir(J, t, L);
    forall d, k | OtherSlot(J, d, k)
      ensures Slot(View(J.g, J.L, img, d), k) == Slot(View(J.g, J.L, J.disk, d), k)
      ensures OtherFile(J, d, k) ==>
                var x := Slot(View(J.g, J.L, J.disk, d), k);
                ReadDisk(J.g, img, FirstOf(x), SizeOf(x)) == ReadDisk(J.g, J.disk, FirstOf(x), SizeOf(x))
    {
      OtherThen(J, t, fat, L, disk, w, n, j, e, img, d, k);
    }
    ViewSameChain(J.g, J.L, L, img, J.d);
  }

  lemma OtherThen(J: Job, t: nat, fat: seq<u16>, L: Layout, disk: seq<Sector>, w: nat, n: nat, j: nat, e: Entry,
      img: seq<Sector>, d: nat, k: nat)
    requires JobOk(J) && Written(J, t, fat, L, disk, w) && w + n <= |J.data| && OtherSlot(J, d, k)
    requires CrashSafe(Rest(J, t, fat, L, disk, w, n), j, e, img)
    ensures Slot(View(J.g, J.L, img, d), k) == Slot(View(J.g, J.L, J.disk, d), k)
    ensures |img| >= J.g.fatStart + J.g.fatSectors && |J.disk| >= J.g.fatStart + J.g.fatSectors
    ensures OtherFile(J, d, k) ==>
              var x := Slot(View(J.g, J.L, J.disk, d), k);
              ReadDisk(J.g, img, FirstOf(x), SizeOf(x)) == ReadDisk(J.g, J.disk, FirstOf(x), SizeOf(x))
  {
    hide JobTree, TreeOk, LayoutOk, Synced, DiskOk, View, Slot, OtherSlot, DiskFat, ReadDisk, Covers, Content,
      FreeSet, ChainThere;
    SyncedDiskFat(J.g, J.disk, J.fat);
    OtherSlotStays(J, t, fat, L, disk, w, n, d, k);
    OtherIsDirectory(J, t, L, d, k);
    ViewSameChain(J.g, J.L, L, img, d);
    if OtherFile(J, d, k) { WrittenOther(J, t, fat, L, disk, w, d, k); }
  }

  lemma OtherIsDirectory(J: Job, t: nat, L: Layout, d: nat, k: nat)
    requires JobOk(J) && SameChains(J, t, L) && OtherSlot(J, d, k)
    ensures d != t
  {
    hide JobTree, Synced;
    TargetNotDir(J, t, L);
  }

  lemma SafeFirst(J: Job, n: nat, j: nat, e: Entry, img: seq<Sector>)
    requires n <= |J.data| && CrashSafe(Chunk(J, J.fat, J.L, J.T, J.disk, 0, n), j, e, img)
    ensures CrashSafe(J, j, e, img)
  {
    hide View, Slot, DiskFat, ReadDisk, Covers, Content;
    var K := Chunk(J, J.fat, J.L, J.T, J.disk, 0, n);
    assert K.data[..j] == J.data[..j];
    assert K.After(j) == J.After(j);
    forall d, k | OtherSlot(J, d, k)
      ensures OtherSlot(K, d, k) && (OtherFile(J, d, k) <==> OtherFile(K, d, k))
    {
    }
  }

  /** A cut at img leaves at most the first w bytes of the stream stored, under the old entry or under one that
      some of the chunks written by then have left. */
  ghost predicate StreamSafe(J: Job, w: nat, img: seq<Sector>) {
    exists j: nat, i: nat, e: Entry :: i <= j <= w && CrashSafe(J, j, e, img) && EntryAfter(J, i, e)
  }

  /** Entry e is the job's, with the size the file has after i bytes. */
  ghost predicate EntryAfter(J: Job, i: nat, e: Entry) {
    e == J.Entry0() || (J.pos <= |J.Old()| && i <= |J.data| && |J.After(i)| < 0x1_0000_0000 &&
      e == Resized(J.Entry0(), FirstOf(e), |J.After(i)|))
  }

  ghost predicate StreamTrail(J: Job, w: nat, trail: seq<seq<Sector>>, n0: nat) {
    forall i :: n0 <= i < |trail| ==> StreamSafe(J, w, trail[i])
  }

  /** The images of one more chunk extend the safe trail of the stream. */
  lemma TrailThen(J: Job, t: nat, fat: seq<u16>, L: Layout, T: Tree, disk: seq<Sector>, w: nat, n: nat, t': nat,
      m: nat, img: seq<Sector>)
    requires JobOk(J) && Progress(J, t, fat, L, T, disk, w) && w + n <= |J.data| && m <= n && t' < 0x1_0000
    requires var K := Chunk(J, fat, L, T, disk, w, n);
             && K.pos <= |K.Old()| && |K.After(m)| < 0x1_0000_0000 && (w > 0 ==> t' == t)
             && (SafeUpTo(K, m, img) || CrashSafe(K, m, NewEntry(K, t', m), img))
    ensures StreamSafe(J, w + m, img)
  {
    hide JobTree, Synced, Written, CrashSafe;
    var K := Chunk(J, fat, L, T, disk, w, n);
    if SafeUpTo(K, m, img) {
      var j: nat :| j <= m && CrashSafe(K, j, K.Entry0(), img);
      ChunkSafe(J, t, fat, L, T, disk, w, n, j, K.Entry0(), img);
      ChunkEntry(J, t, fat, L, T, disk, w, n, t', m);
      assert w <= w + j <= w + m;
    } else {
      ChunkSafe(J, t, fat, L, T, disk, w, n, m, NewEntry(K, t', m), img);
      ChunkEntry(J, t, fat, L, T, disk, w, n, t', m);
    }
  }

  lemma ChunkSafe(J: Job, t: nat, fat: seq<u16>, L: Layout, T: Tree, disk: seq<Sector>, w: nat, n: nat, j: nat,
      e: Entry, img: seq<Sector>)
    requires JobOk(J) && Progress(J, t, fat, L, T, disk, w) && w + n <= |J.data|
    requires CrashSafe(Chunk(J, fat, L, T, disk, w, n), j, e, img)
    ensures CrashSafe(J, w + j, e, img)
  {
    hide JobTree, Synced, Written, CrashSafe;
    if w == 0 { SafeFirst(J, n, j, e, img); } else { SafeThen(J, t, fat, L, disk, w, n, j, e, img); }
  }

  lemma ChunkEntry(J: Job, t: nat, fat: seq<u16>, L: Layout, T: Tree, disk: seq<Sector>, w: nat, n: nat, t': nat,
      m: nat)
    requires JobOk(J) && Progress(J, t, fat, L, T, disk, w) && w + n <= |J.data| && m <= n && t' < 0x1_0000
    requires var K := Chunk(J, fat, L, T, disk, w, n); K.pos <= |K.Old()| && |K.After(m)| < 0x1_0000_0000
    ensures EntryAfter(J, w, Chunk(J, fat, L, T, disk, w, n).Entry0())
    ensures EntryAfter(J, w + m, NewEntry(Chunk(J, fat, L, T, disk, w, n), t', m))
  {
    hide JobTree, Synced, Written, Content, View, Slot;
    var K := Chunk(J, fat, L, T, disk, w, n);
    if w == 0 {
      JobFile(J);
      assert K.data[..m] == J.data[..m];
      assert K.After(m) == J.After(m);
    } else {
      RestEntry(J, t, fat, L, disk, w, n, t', m);
    }
  }

  /** The entry for m bytes stored is an entry at all. */
  ghost predicate Grows(K: Job, m: nat) {
    K.pos <= |K.Old()| && m <= |K.data| && |K.After(m)| < 0x1_0000_0000
  }

  lemma RestEntry(J: Job, t: nat, fat: seq<u16>, L: Layout, disk: seq<Sector>, w: nat, n: nat, t': nat, m: nat)
    requires JobOk(J) && Written(J, t, fat, L, disk, w) && w + n <= |J.data| && m <= n && t' < 0x1_0000
    requires Grows(Rest(J, t, fat, L, disk, w, n), m)
    ensures EntryAfter(J, w, Rest(J, t, fat, L, disk, w, n).Entry0())
    ensures EntryAfter(J, w + m, NewEntry(Rest(J, t, fat, L, disk, w, n), t', m))
  {
    hide JobTree, Synced, Written, Content, View, Slot, Resized;
    var K := Rest(J, t, fat, L, disk, w, n);
    WrittenIsValid(J, t, fat, L, disk, w);
    RestFile(J, t, fat, L, disk, w, n);
    SpliceTwice(J.Old(), J.pos, J.data[..w], K.data[..m]);
    assert J.data[..w] + K.data[..m] == J.data[..w + m];
    assert K.After(m) == J.After(w + m);
    ResizedTwice(J.Entry0(), t, |J.After(w)|, t', |K.After(m)|);
  }

  /** The volume of job J with the first w bytes of its data written. */
  ghost predicate Progress(J: Job, t: nat, fat: seq<u16>, L: Layout, T: Tree, disk: seq<Sector>, w: nat) {
    if w == 0 then fat == J.fat && L == J.L && T == J.T && disk == J.disk
    else Written(J, t, fat, L, disk, w) && T == HomeAt(J, t)
  }

  ghost function Chunk(J: Job, fat: seq<u16>, L: Layout, T: Tree, disk: seq<Sector>, w: nat, n: nat): Job
    requires w + n <= |J.data|
  {
    Job(J.g, L, T, disk, fat, J.d, J.k, J.pos + w, J.data[w..w + n])
  }

  lemma ChunkJob(J: Job, t: nat, fat: seq<u16>, L: Layout, T: Tree, disk: seq<Sector>, w: nat, n: nat)
    requires JobOk(J) && Progress(J, t, fat, L, T, disk, w) && w + n <= |J.data|
    ensures JobOk(Chunk(J, fat, L, T, disk, w, n))
    ensures Room(Chunk(J, fat, L, T, disk, w, n)) == Room(J) - w
    ensures NameOf(Chunk(J, fat, L, T, disk, w, n).Entry0()) == NameOf(J.Entry0())
  {
    hide JobTree, Synced, Written, View, Slot, Room;
    if w > 0 {
      RestJob(J, t, fat, L, disk, w, n);
      RestFile(J, t, fat, L, disk, w, n);
      WrittenIsValid(J, t, fat, L, disk, w);
    } else {
      ChunkFirst(J, n);
    }
  }

  lemma ChunkFirst(J: Job, n: nat)
    requires JobOk(J) && n <= |J.data|
    ensures var K := Chunk(J, J.fat, J.L, J.T, J.disk, 0, n);
            JobOk(K) && Room(K) == Room(J) && K.Entry0() == J.Entry0()
  {
    hide View, Slot, TreeOk, LayoutOk, DiskOk, Synced;
  }

  lemma WrittenPrefix(J: Job, n: nat, t: nat, fat: seq<u16>, L: Layout, disk: seq<Sector>, m: nat)
    requires n <= |J.data| && m <= n && Written(Chunk(J, J.fat, J.L, J.T, J.disk, 0, n), t, fat, L, disk, m)
    ensures Written(J, t, fat, L, disk, m)
  {
    hide TreeOk, LayoutOk, Synced, DiskOk, View, Slot, Content, FreeSet;
    var K := Chunk(J, J.fat, J.L, J.T, J.disk, 0, n);
    assert K.data[..m] == J.data[..m];
    assert K.After(m) == J.After(m);
    forall d, k | OtherSlot(J, d, k)
      ensures OtherSlot(K, d, k)
    {
    }
  }

  lemma ChunkStep(J: Job, t: nat, fat: seq<u16>, L: Layout, T: Tree, disk: seq<Sector>, w: nat, n: nat, t': nat,
      fat': seq<u16>, L': Layout, disk': seq<Sector>, m: nat)
    requires JobOk(J) && Progress(J, t, fat, L, T, disk, w) && w + n <= |J.data| && 0 < m <= n
    requires Written(Chunk(J, fat, L, T, disk, w, n), t', fat', L', disk', m)
    ensures w > 0 ==> t' == t
    ensures Progress(J, t', fat', L', HomeAt(Chunk(J, fat, L, T, disk, w, n), t'), disk', w + m)
  {
    hide JobTree, Synced, Written;
    if w == 0 {
      WrittenPrefix(J, n, t', fat', L', disk', m);
    } else {
      WrittenChain(J, t, fat, L, disk, w, n, t', fat', L', disk', m);
    }
  }

  /** The lookup of a job's name finds its slot. */
  lemma FindJob(J: Job)
    requires JobOk(J)
    ensures Find(J.Dir(), NameOf(J.Entry0()), 0) == J.k
  {
    FindIndexed(J.g, J.L, J.T, J.d, J.Dir(), NameOf(J.Entry0()), 0, J.k);
  }

  /** vfs_write on a FAT16 stream: writes at the position and advances it; -1 when not everything
      fitted, with what did fit kept. */
  method VfsWrite(dr: Driver, fd: Fd, buf: seq<byte>) returns (r: int)
    requires dr.Valid() && fd.backend != PipeWrite
    requires fd.used && fd.backend == Fat16 ==> IsDirectory(dr.T, fd.parent)
    modifies dr, dr.disk, dr.fat, dr.dirBuf, dr.sectorBuf, fd`first, fd`size, fd`pos
    ensures dr.Valid()
    ensures var ok := old(fd.used && fd.backend == Fat16 && dr.CanWrite(fd.parent, fd.name, fd.pos, |buf|));
            && r == (if fd.used && fd.backend == Fat16 && |buf| == 0 then 0
                     else if ok && Room(old(dr.JobFor(fd.parent, fd.name, fd.pos, buf))) >= |buf| then 0 else -1)
            && (if ok && |buf| > 0 && Room(old(dr.JobFor(fd.parent, fd.name, fd.pos, buf))) != 0 then
                  var J := old(dr.JobFor(fd.parent, fd.name, fd.pos, buf));
                  var w := if |buf| < Room(J) then |buf| else Room(J);
                  && w > 0 && Written(J, fd.first, dr.fat[..], dr.L, dr.disk[..], w) && dr.T == HomeAt(J, fd.first)
                  && fd.pos == old(fd.pos) + w && fd.size == |J.After(w)|
                  && |old(dr.trail)| <= |dr.trail| && dr.trail[..|old(dr.trail)|] == old(dr.trail)
                  && dr.Safely(J, fd.first, w, |old(dr.trail)|)
                else
                  && dr.trail == old(dr.trail) && dr.fat[..] == old(dr.fat[..]) && dr.disk[..] == old(dr.disk[..]) &&
                     dr.L == old(dr.L) && dr.T == old(dr.T)
                  && fd.pos == old(fd.pos) && fd.first == old(fd.first) && fd.size == old(fd.size))
  {
    hide LayoutOk, Synced, TreeOk, Written, CrashSafe, Find, View, Slot, Room, Driver.JobFor, Driver.CanWrite,
      Driver.Safely;
    if !fd.used || fd.backend != Fat16 { return -1; }
    if |buf| == 0 { return 0; }
    var n, first, size := dr.WriteAt(fd.parent, fd.name, fd.pos, buf);
    if n < 0 { return -1; }
    fd.first, fd.size, fd.pos := first, size, fd.pos + n;
    r := if n == |buf| then 0 else -1;
  }

  /** The write of the next chunk, seen by the driver, is the next chunk of the whole job. */
  lemma StreamChunk(dr: Driver, J: Job, t: nat, name: seq<byte>, w: nat, n: nat)
    requires dr.Valid() && J.g == dr.g && JobOk(J) && NameOf(J.Entry0()) == Name83(name)
    requires Progress(J, t, dr.fat[..], dr.L, dr.T, dr.disk[..], w) && w + n <= |J.data|
    ensures dr.CanWrite(J.d, name, J.pos + w, n)
    ensures dr.JobFor(J.d, name, J.pos + w, J.data[w..w + n]) == Chunk(J, dr.fat[..], dr.L, dr.T, dr.disk[..], w, n)
    ensures Room(Chunk(J, dr.fat[..], dr.L, dr.T, dr.disk[..], w, n)) == Room(J) - w
    ensures IsDirectory(dr.T, J.d)
  {
    hide Find, Room, Progress, JobTree, TreeOk, LayoutOk, Synced, View, Slot;
    var K := Chunk(J, dr.fat[..], dr.L, dr.T, dr.disk[..], w, n);
    ChunkJob(J, t, dr.fat[..], dr.L, dr.T, dr.disk[..], w, n);
    FindJob(K);
    JobFits(K);
  }

  lemma JobFits(J: Job)
    requires JobOk(J)
    ensures !IsDir(J.Entry0()) && J.pos <= J.Size() && J.pos + |J.data| < 0x1_0000_0000 && IsDirectory(J.T, J.d)
  {
  }

  const CHUNK: nat := 128

  /** What the caller is told when w of n bytes were stored: all of them, or the whole chunks among them. */
  function Reported(w: int, n: nat): (r: int)
    ensures w == n ==> r == n
    ensures 0 <= w < n ==> if w < 128 then r == -1 else r % 128 == 0 && r <= w < r + 128
  {
    if w == n then n else if w < CHUNK then -1 else CHUNK * (w / CHUNK)
  }

  lemma ReportedShort(i: nat, w: int, n: nat)
    requires CHUNK * i <= w < CHUNK * i + CHUNK && w < n
    ensures Reported(w, n) == if i > 0 then CHUNK * i else -1
  {
    assert w / CHUNK == i;
  }

  /** How much of n bytes from pos on ends below 4 GB: all of them, or whole chunks. */
  function Below4G(pos: nat, n: nat): (m: nat)
    requires pos < 0x1_0000_0000
    ensures m <= n && pos + m < 0x1_0000_0000
    ensures m < n ==> m % CHUNK == 0 && pos + m + CHUNK >= 0x1_0000_0000 && pos + n >= 0x1_0000_0000
  {
    if pos + n < 0x1_0000_0000 then n else CHUNK * ((0xFFFF_FFFF - pos) / CHUNK)
  }

  /** A longer write is refused only for what would refuse a shorter one too. */
  lemma RefusedToo(dr: Driver, parent: nat, name: seq<byte>, pos: nat, n: nat, m: nat)
    requires dr.Shaped() && pos + n < 0x1_0000_0000
    ensures pos + m < 0x1_0000_0000 ==> (dr.CanWrite(parent, name, pos, n) <==> dr.CanWrite(parent, name, pos, m))
    ensures pos + m >= 0x1_0000_0000 ==> !dr.CanWrite(parent, name, pos, m)
  {
  }

  lemma {:induction false} TrailGoesOn(J: Job, t: nat, fat: seq<u16>, L: Layout, T: Tree, disk: seq<Sector>, w: nat,
      n: nat, t': nat, m: nat, trail: seq<seq<Sector>>, trail': seq<seq<Sector>>, n0: nat)
    requires JobOk(J) && Progress(J, t, fat, L, T, disk, w) && w + n <= |J.data| && m <= n && t' < 0x1_0000
    requires n0 <= |trail| <= |trail'| && trail'[..|trail|] == trail && StreamTrail(J, w, trail, n0)
    requires var K := Chunk(J, fat, L, T, disk, w, n);
             && K.pos <= |K.Old()| && |K.After(m)| < 0x1_0000_0000 && (w > 0 ==> t' == t)
             && forall i :: |trail| <= i < |trail'| ==>
                SafeUpTo(K, m, trail'[i]) || CrashSafe(K, m, NewEntry(K, t', m), trail'[i])
    ensures StreamTrail(J, w + m, trail', n0)
  {
    hide JobTree, Synced, CrashSafe, Progress, SafeUpTo, NewEntry, EntryAfter, Chunk;
    forall i | n0 <= i < |trail'|
      ensures StreamSafe(J, w + m, trail'[i])
    {
      if i < |trail| {
        assert trail'[i] == trail'[..|trail|][i] == trail[i];
        assert StreamSafe(J, w, trail[i]);
      } else {
        TrailThen(J, t, fat, L, T, disk, w, n, t', m, trail'[i]);
      }
    }
  }

  /** One chunk of a stream. When it goes on, as much of it is stored as there is room for; otherwise it is refused. */
  method StreamStep(dr: Driver, fd: Fd, chunk: seq<byte>, ghost goes: bool, ghost J: Job, ghost total: nat,
      ghost n0: nat) returns (q: int)
    requires dr.Valid() && fd.used && fd.backend == Fat16 && 0 < |chunk| && IsDirectory(dr.T, fd.parent) &&
             n0 <= |dr.trail|
    requires goes ==> OnStream(J, dr.g, fd.parent, fd.name, fd.pos, chunk, total)
    requires goes ==> Progress(J, fd.first, dr.fat[..], dr.L, dr.T, dr.disk[..], total) &&
                      StreamTrail(J, total, dr.trail, n0)
    requires !goes ==> !dr.CanWrite(fd.parent, fd.name, fd.pos, |chunk|)
    modifies dr, dr.disk, dr.fat, dr.dirBuf, dr.sectorBuf, fd`first, fd`size, fd`pos
    ensures dr.Valid() && IsDirectory(dr.T, fd.parent)
    ensures goes ==>
              var m := if |chunk| < Room(J) - total then |chunk| else Room(J) - total;
              && q == (if m == |chunk| then 0 else -1) && fd.pos == old(fd.pos) + m
              && Progress(J, fd.first, dr.fat[..], dr.L, dr.T, dr.disk[..], total + m)
              && StreamTrail(J, total + m, dr.trail, n0)
    ensures n0 <= |dr.trail| && dr.trail[..n0] == old(dr.trail[..n0])
    ensures !goes ==>
              && q == -1 && dr.trail == old(dr.trail) && fd.pos == old(fd.pos) && fd.first == old(fd.first)
              && dr.fat[..] == old(dr.fat[..]) && dr.disk[..] == old(dr.disk[..]) && dr.L == old(dr.L) &&
                 dr.T == old(dr.T)
  {
    hide LayoutOk, Synced, TreeOk, Written, Find, View, Slot, Room, Progress, JobTree, Driver.JobFor, Driver.CanWrite,
      HomeAt, StreamTrail, SafeUpTo, CrashSafe, IsDirectory;
    if goes { StreamChunk(dr, J, fd.first, fd.name, total, |chunk|); }
    ghost var t, fat0, L0, T0, disk0, trail0 := fd.first, dr.fat[..], dr.L, dr.T, dr.disk[..], dr.trail;
    q := VfsWrite(dr, fd, chunk);
    if goes && Room(J) != total {
      ghost var m := if |chunk| < Room(J) - total then |chunk| else Room(J) - total;
      ChunkStep(J, t, fat0, L0, T0, disk0, total, |chunk|, fd.first, dr.fat[..], dr.L, dr.disk[..], m);
      WrittenIsValid(Chunk(J, fat0, L0, T0, disk0, total, |chunk|), fd.first, dr.fat[..], dr.L, dr.disk[..], m);
      TrailGoesOn(J, t, fat0, L0, T0, disk0, total, |chunk|, fd.first, m, trail0, dr.trail, n0);
      StreamChunk(dr, J, fd.first, fd.name, total + m, 0);
    }
  }

  /** The next bytes of job J, from total on, are the chunk at the stream's position. */
  ghost predicate OnStream(J: Job, g: Geo, parent: nat, name: seq<byte>, pos: nat, chunk: seq<byte>, total: nat) {
    && JobOk(J) && J.g == g && NameOf(J.Entry0()) == Name83(name) && J.d == parent && pos == J.pos + total
    && total + |chunk| <= |J.data| && chunk == J.data[total..total + |chunk|] && total <= Room(J)
  }

  /** Job J is the write of data at pos to the file that (parent, name) names. */
  ghost predicate StreamOf(J: Job, g: Geo, parent: nat, name: seq<byte>, pos: nat, data: seq<byte>) {
    JobOk(J) && J.g == g && NameOf(J.Entry0()) == Name83(name) && J.d == parent && J.pos == pos && J.data == data
  }

  lemma NextChunk(J: Job, g: Geo, parent: nat, name: seq<byte>, pos: nat, buf: seq<byte>, m: nat, total: nat, want: nat)
    requires m <= |buf| && StreamOf(J, g, parent, name, pos, buf[..m]) && total + want <= m && total <= Room(J)
    ensures OnStream(J, g, parent, name, pos + total, buf[total..total + want], total)
  {
    hide JobTree, Synced, Room, Name83, View, Slot;
    PrefixPart(buf, m, total, total + want);
  }

  /** A chunk that does not end below 4 GB is the first one behind the bytes that do. */
  lemma StopsHere(pos: nat, n: nat, total: nat, want: nat, i: nat)
    requires pos < 0x1_0000_0000 && total < n && total == CHUNK * i <= Below4G(pos, n) < total + want
    requires want == if n - total > CHUNK then CHUNK else n - total
    ensures total == Below4G(pos, n) < n && pos + total + want >= 0x1_0000_0000
  {
    var m := Below4G(pos, n);
    assert m < n && m == CHUNK * (m / CHUNK);
    assert m / CHUNK == i;
  }

  lemma ReportedAll(n: nat)
    ensures Reported(n, n) == n
  {
  }

  /** The chunk loop of sys_write on a FAT16 file: what is on disk afterwards is what one write of the
      whole buffer would have left, as far as it ends below 4 GB; only whole chunks are reported; and
      every image on the way is safe. */
  method WriteStream(dr: Driver, fd: Fd, buf: seq<byte>) returns (r: int)
    requires dr.Valid() && fd.used && fd.backend == Fat16 && IsDirectory(dr.T, fd.parent) && fd.pos < 0x1_0000_0000
    modifies dr, dr.disk, dr.fat, dr.dirBuf, dr.sectorBuf, fd`first, fd`size, fd`pos
    ensures dr.Valid() && |old(dr.trail)| <= |dr.trail| && dr.trail[..|old(dr.trail)|] == old(dr.trail)
    ensures !old(dr.CanWrite(fd.parent, fd.name, fd.pos, Below4G(fd.pos, |buf|))) ==>
              && r == (if |buf| == 0 then 0 else -1) && fd.pos == old(fd.pos) && dr.trail == old(dr.trail)
              && dr.fat[..] == old(dr.fat[..]) && dr.disk[..] == old(dr.disk[..]) && dr.L == old(dr.L) &&
                 dr.T == old(dr.T)
    ensures old(dr.CanWrite(fd.parent, fd.name, fd.pos, Below4G(fd.pos, |buf|))) ==>
              var J := old(dr.JobFor(fd.parent, fd.name, fd.pos, buf[..Below4G(fd.pos, |buf|)]));
              var w := if |J.data| < Room(J) then |J.data| else Room(J);
              && 0 <= w && Progress(J, fd.first, dr.fat[..], dr.L, dr.T, dr.disk[..], w)
              && fd.pos == old(fd.pos) + w
              && r == Reported(w, |buf|)
              && StreamTrail(J, w, dr.trail, |old(dr.trail)|)
  {
    hide LayoutOk, Synced, TreeOk, Written, Find, View, Slot, Room, Progress, JobTree, Driver.JobFor, Driver.CanWrite,
      HomeAt, StreamTrail, Below4G, Reported, OnStream, StreamOf, IsDirectory;
    ghost var m, n0, pos0 := Below4G(fd.pos, |buf|), |dr.trail|, fd.pos;
    ghost var can, J := dr.CanWrite(fd.parent, fd.name, fd.pos, m), dr.JobFor(fd.parent, fd.name, fd.pos, buf[..m]);
    if can { StreamStart(dr, J, fd.parent, fd.name, fd.pos, buf[..m], fd.first); }
    var total := 0;
    ghost var i: nat := 0;
    while total < |buf|
      invariant 0 <= total <= |buf| && (total < |buf| ==> total == CHUNK * i) && total <= m
      invariant dr.Valid() && fd.pos == pos0 + total && n0 <= |dr.trail| && dr.trail[..n0] == old(dr.trail)
      invariant can ==> total <= Room(J) && Progress(J, fd.first, dr.fat[..], dr.L, dr.T, dr.disk[..], total)
      invariant can ==> StreamTrail(J, total, dr.trail, n0) && IsDirectory(dr.T, fd.parent)
      invariant !can ==>
        && total == 0 && dr.fat[..] == old(dr.fat[..]) && dr.disk[..] == old(dr.disk[..]) && dr.L == old(dr.L) &&
           dr.T == old(dr.T)
        && !dr.CanWrite(fd.parent, fd.name, fd.pos, m) && IsDirectory(dr.T, fd.parent) && dr.trail == old(dr.trail)
    {
      var want := if |buf| - total > CHUNK then CHUNK else |buf| - total;
      ghost var goes := can && total + want <= m;
      if goes {
        NextChunk(J, dr.g, fd.parent, fd.name, pos0, buf, m, total, want);
      } else if can {
        StopsHere(pos0, |buf|, total, want, i);
      }
      RefusedToo(dr, fd.parent, fd.name, fd.pos, if can then 0 else m, want);
      var q := StreamStep(dr, fd, buf[total..total + want], goes, J, total, n0);
      if q < 0 {
        if can { ReportedShort(i, if m < Room(J) then m else Room(J), |buf|); }
        return if total > 0 then total else -1;
      }
      total, i := total + want, i + 1;
    }
    ReportedAll(|buf|);
    return total;
  }

  lemma StreamStart(dr: Driver, J: Job, parent: nat, name: seq<byte>, pos: nat, buf: seq<byte>, t: nat)
    requires dr.Valid() && IsDirectory(dr.T, parent) && dr.CanWrite(parent, name, pos, |buf|)
    requires J == dr.JobFor(parent, name, pos, buf)
    ensures StreamOf(J, dr.g, parent, name, pos, buf) && Room(J) >= 0 && |J.data| == |buf|
    ensures Progress(J, t, dr.fat[..], dr.L, dr.T, dr.disk[..], 0) && StreamTrail(J, 0, dr.trail, |dr.trail|)
  {
    dr.JobIsOk(parent, name, pos, buf);
    RoomNonneg(J);
  }
}
