/** Reading a file by its name (fat16_find and fat16_read_at, as vfs_open and vfs_read use them), and what a read after
    a write gives back. */
module Fat16Read {
  import opened Bytes
  import opened Fat16Layout
  import opened Fat16Image
  import opened Fat16Dir
  import opened Fat16Name
  import opened Fat16Write
  import opened Fat16Driver
  import opened Fat16Path

  /** What a read of len bytes from pos on of a file with these bytes has to give: all of them up to the end of the
      file, in front of what buf held before. */
  predicate ReadOf(file: seq<byte>, pos: nat, len: nat, buf0: seq<byte>, buf: seq<byte>, r: int) {
    && r == (if pos >= |file| then 0 else if pos + len > |file| then |file| - pos else len)
    && r <= |buf| == |buf0| && (forall i :: 0 <= i < r ==> buf[i] == file[pos + i])
    && forall i :: r <= i < |buf| ==> buf[i] == buf0[i]
  }

  /** The chain of a plain file of a valid tree is long enough for its size. */
  lemma FileIsCovered(J: Job)
    requires JobTree(J)
    ensures J.Size() > 0 ==> J.First() in J.L.chains
    ensures J.Size() <= 512 * Span(J.g, J.L, J.First()) && |J.Old()| == J.Size()
    ensures var b := Flat(View(J.g, J.L, J.disk, J.First()));
            J.Size() <= |b| && forall i :: 0 <= i < J.Size() ==> J.Old()[i] == b[i]
  {
    hide JobTree, View, Slot, Clusters, At;
    JobFile(J);
    if J.First() != 0 { ClustersBound(J.g, J.Size(), |J.Chain()|); }
  }

  /** fat16_find: the file that path names, from directory cwd on; none for directories. */
  method FindFile(dr: Driver, cwd: nat, path: seq<byte>) returns (found: bool, e: Entry, ghost d: nat, ghost k: nat)
    requires dr.Valid() && IsDirectory(dr.T, cwd)
    modifies dr.dirBuf
    ensures dr.disk[..] == old(dr.disk[..]) && dr.fat[..] == old(dr.fat[..])
    ensures found <==> NamesFile(dr.g, dr.L, dr.disk[..], cwd, path)
    ensures found ==> FoundAt(dr.g, dr.L, dr.disk[..], dr.T, cwd, path, d, k, e)
  {
    hide TreeOk, LayoutOk, Synced, View, Find, Slot, Resolve;
    var ok, parent, name := ResolvePath(dr, cwd, path);
    d, k, e := parent, 0, Zeros(32);
    if !ok { return false, e, d, k; }
    dr.DirHasChain(parent);
    var lba, index;
    found, e, lba, index, k := dr.DirLookup(parent, name);
    found := found && !IsDir(e);
  }

  ghost predicate NamesFile(g: Geo, L: Layout, disk: seq<Sector>, cwd: nat, path: seq<byte>) {
    var p := Resolve(g, L, disk, cwd, path);
    && p.Place?
    && var k := Find(View(g, L, disk, p.dir), p.name, 0);
       k >= 0 && !IsDir(Slot(View(g, L, disk, p.dir), k))
  }

  ghost predicate FoundAt(g: Geo, L: Layout, disk: seq<Sector>, T: Tree, cwd: nat, path: seq<byte>, d: nat, k: nat,
      e: Entry)
  {
    && IsDirectory(T, d) && Resolve(g, L, disk, cwd, path).Place? && Resolve(g, L, disk, cwd, path).dir == d
    && k == Find(View(g, L, disk, d), Resolve(g, L, disk, cwd, path).name, 0)
    && k < 16 * |View(g, L, disk, d)| && e == Slot(View(g, L, disk, d), k)
  }

  /** The file in slot k of d, as a job that stores nothing. */
  ghost function FileIn(g: Geo, L: Layout, T: Tree, disk: seq<Sector>, fat: seq<u16>, d: nat, k: nat): Job {
    Job(g, L, T, disk, fat, d, k, 0, [])
  }

  lemma FileInTree(g: Geo, L: Layout, T: Tree, disk: seq<Sector>, fat: seq<u16>, d: nat, k: nat)
    requires DiskOk(g, disk) && LayoutOk(g, fat, L) && TreeOk(g, L, disk, T) && IsDirectory(T, d)
    requires k < 16 * |View(g, L, disk, d)| && IsLive(Slot(View(g, L, disk, d), k)) &&
             !IsDir(Slot(View(g, L, disk, d), k))
    ensures JobTree(FileIn(g, L, T, disk, fat, d, k))
  {
    var v := View(g, L, disk, d);
    assert DirOk(g, L, T, d, v);
    assert EntryOk(g, L, T, d, k, Slot(v, k));
    hide View, Slot, LayoutOk;
  }

  /** vfs_open and a vfs_read at position pos: every byte asked for, up to the end of the file. */
  method ReadFile(dr: Driver, cwd: nat, path: seq<byte>, pos: nat, buf: array<byte>, len: nat) returns (r: int)
    requires dr.Valid() && IsDirectory(dr.T, cwd) && len <= buf.Length && buf != dr.sectorBuf && buf != dr.dirBuf
    modifies buf, dr.dirBuf, dr.sectorBuf
    ensures dr.disk[..] == old(dr.disk[..]) && dr.fat[..] == old(dr.fat[..])
    ensures !NamesFile(dr.g, dr.L, dr.disk[..], cwd, path) || len == 0 ==> r == -1 && buf[..] == old(buf[..])
    ensures NamesFile(dr.g, dr.L, dr.disk[..], cwd, path) && len > 0 && pos + len < 0x1_0000_0000 ==>
              var p := Resolve(dr.g, dr.L, dr.disk[..], cwd, path);
              var slots := View(dr.g, dr.L, dr.disk[..], p.dir);
              var e := Slot(slots, Find(slots, p.name, 0));
              ReadOf(Content(dr.g, dr.L, dr.disk[..], FirstOf(e), SizeOf(e)), pos, len, old(buf[..]), buf[..], r)
  {
    hide TreeOk, LayoutOk, Synced, View, Find, Slot, Resolve, Content, Span;
    var found, e, d, k := FindFile(dr, cwd, path);
    if !found || len == 0 { return -1; }
    ghost var J := FileIn(dr.g, dr.L, dr.T, dr.disk[..], dr.fat[..], d, k);
    FileInTree(dr.g, dr.L, dr.T, dr.disk[..], dr.fat[..], d, k);
    r := ReadWhole(dr, J, FirstOf(e), SizeOf(e), pos, buf, len);
  }

  /** A positional read of a file that the volume holds. */
  method ReadWhole(dr: Driver, ghost J: Job, first: nat, size: nat, pos: nat, buf: array<byte>, len: nat)
    returns (r: int)
    requires dr.Shaped() && JobTree(J) && J.g == dr.g && J.L == dr.L && J.fat == dr.fat[..] && J.disk == dr.disk[..]
    requires first == J.First() && size == J.Size() && 0 < len <= buf.Length && buf != dr.sectorBuf
    modifies buf, dr.sectorBuf
    ensures dr.disk[..] == old(dr.disk[..]) && dr.fat[..] == old(dr.fat[..])
    ensures pos + len < 0x1_0000_0000 ==> ReadOf(J.Old(), pos, len, old(buf[..]), buf[..], r)
  {
    hide JobTree, LayoutOk, View, Slot, Span, Flat, Content, Patch, ReadOf, Driver.ClampedLen;
    JobLayout(J);
    FileIsCovered(J);
    ghost var b := Flat(View(J.g, J.L, J.disk, first));
    r := dr.ReadAt(first, pos, buf, len, size);
    if pos + len < 0x1_0000_0000 {
      if pos < size { Driver.ClampIsExact(pos, len, size); }
      PatchIsRead(J.Old(), b, pos, len, old(buf[..]), buf[..], r);
    }
  }

  lemma PatchIsRead(file: seq<byte>, b: seq<byte>, pos: nat, len: nat, buf0: seq<byte>, buf: seq<byte>, r: int)
    requires |file| <= |b| && (forall i :: 0 <= i < |file| ==> file[i] == b[i]) && len <= |buf0|
    requires r == if pos >= |file| then 0 else if pos + len > |file| then |file| - pos else len
    requires buf == if r == 0 then buf0 else Patch(buf0, 0, b[pos..pos + r])
    ensures ReadOf(file, pos, len, buf0, buf, r)
  {
    if r > 0 {
      forall i | 0 <= i < r
        ensures buf[i] == file[pos + i]
      {
        assert buf[0..r][i] == b[pos..pos + r][i];
      }
    }
  }

  /** A write of data at pos to a file and a read of the file afterwards, as far as buf goes from position p on: what
      was stored is there, with the old bytes around it. */
  method WriteThenRead(dr: Driver, parent: nat, name: seq<byte>, pos: nat, data: seq<byte>, p: nat, buf: array<byte>)
    returns (w: int, r: int)
    requires dr.Valid() && IsDirectory(dr.T, parent) && buf != dr.sectorBuf && buf != dr.dirBuf && 0 < buf.Length
    requires p + buf.Length < 0x1_0000_0000
    modifies dr, dr.disk, dr.fat, dr.dirBuf, dr.sectorBuf, buf
    ensures dr.Valid()
    ensures w > 0 ==>
              var J := old(dr.JobFor(parent, name, pos, data));
              && w <= |data| && J.pos <= |J.Old()|
              && ReadOf(J.After(w), p, buf.Length, old(buf[..]), buf[..], r)
              && (p == 0 && |J.After(w)| <= buf.Length ==> r == |J.After(w)| && buf[..r] == J.After(w))
  {
    hide TreeOk, LayoutOk, Synced, View, Find, Slot, Written, Room, Driver.Safely, JobTree, Splice, Content, ReadOf,
      HomeAt, Driver.CanWrite, MayWrite, FileJob, IsDirectory;
    var first, size;
    ghost var J := dr.JobFor(parent, name, pos, data);
    JobGeometry(dr.g, dr.L, dr.T, dr.disk[..], dr.fat[..], parent, name, pos, data);
    if dr.CanWrite(parent, name, pos, |data|) { dr.JobIsOk(parent, name, pos, data); }
    w, first, size := dr.WriteAt(parent, name, pos, data);
    r := 0;
    if w > 0 {
      ghost var K := FileIn(dr.g, dr.L, dr.T, dr.disk[..], dr.fat[..], J.d, J.k);
      WrittenFile(J, first, dr.fat[..], dr.L, dr.disk[..], w);
      r := ReadWhole(dr, K, first, size, p, buf, buf.Length);
      WholeRead(J.After(w), buf.Length, old(buf[..]), buf[..], r);
    }
  }

  lemma WholeRead(file: seq<byte>, len: nat, buf0: seq<byte>, buf: seq<byte>, r: int)
    ensures ReadOf(file, 0, len, buf0, buf, r) && |file| <= len ==> r == |file| <= |buf| && buf[..r] == file
  {
  }

  lemma JobGeometry(g: Geo, L: Layout, T: Tree, disk: seq<Sector>, fat: seq<u16>, d: nat, name: seq<byte>, pos: nat,
      data: seq<byte>)
    ensures var J := FileJob(g, L, T, disk, fat, d, name, pos, data); J.g == g && J.data == data
  {
  }

  lemma WrittenFile(J: Job, t: nat, fat: seq<u16>, L: Layout, disk: seq<Sector>, w: nat)
    requires JobOk(J) && Written(J, t, fat, L, disk, w)
    ensures var K := FileIn(J.g, L, HomeAt(J, t), disk, fat, J.d, J.k);
            && J.pos <= |J.Old()| && w <= |J.data|
            && JobTree(K) && K.First() == t && K.Size() == |J.After(w)| && K.Old() == J.After(w)
  {
    hide View, Content, TreeOk, LayoutOk, Synced, FreeSet, DiskOk, Slot, OtherSlot, Splice;
    TargetNotDir(J, t, L);
    JobFile(J);
  }
}
