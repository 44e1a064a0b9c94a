/** Whole runs: any sequence of file-system calls keeps the volume a tree. */
module Fat16Runs {
  import opened Bytes
  import opened Fat16Layout
  import opened Fat16Image
  import opened Fat16Dir
  import opened Fat16Name
  import opened Fat16Write
  import opened Fat16Driver
  import opened Fat16Path
  import opened Fat16GetPath
  import opened Fat16Create
  import opened Fat16Insert
  import opened Fat16Cuts
  import opened Fat16DirOps
  import opened Fat16Replace

  datatype Op =
    | MakeFile(path: seq<byte>)
    | MakeDir(path: seq<byte>)
    | Store(path: seq<byte>, pos: nat, data: seq<byte>)
    | Replace(path: seq<byte>, data: seq<byte>)
    | ChangeDir(path: seq<byte>)

  /** Paths are C strings, and lengths 32-bit numbers. */
  predicate CallOk(op: Op) { 0 !in op.path && (op.Replace? ==> |op.data| < 0x1_0000_0000) }

  /** A mounted volume and the current directory, as a value. */
  datatype Volume = Volume(g: Geo, L: Layout, T: Tree, disk: seq<Sector>, fat: seq<u16>, cwd: nat)

  ghost function Of(dr: Driver, cwd: nat): Volume
    reads dr, dr.disk, dr.fat
  {
    Volume(dr.g, dr.L, dr.T, dr.disk[..], dr.fat[..], cwd)
  }

  ghost predicate IsValid(V: Volume) {
    && LayoutOk(V.g, V.fat, V.L) && Synced(V.g, V.disk, V.fat) && TreeOk(V.g, V.L, V.disk, V.T)
    && IsDirectory(V.T, V.cwd)
  }

  /** Whatever chains and tree one reads into it, this is no valid volume. */
  ghost predicate Ruined(V: Volume) {
    Synced(V.g, V.disk, V.fat) ==> NoTree(V.g, V.disk)
  }

  ghost function PlaceOf(V: Volume, path: seq<byte>): Place { Resolve(V.g, V.L, V.disk, V.cwd, path) }

  /** What a call on path finds when it looks for a place to make an entry. */
  ghost function MakingAt(V: Volume, path: seq<byte>, asDir: bool): Outcome {
    Making(V.g, V.L, V.disk, V.fat, PlaceOf(V, path), asDir)
  }

  /** The file a path names can take n bytes at pos. */
  ghost predicate WritableAt(V: Volume, path: seq<byte>, pos: nat, n: nat) {
    PlaceOf(V, path).Place? && MayWrite(V.g, V.L, V.disk, PlaceOf(V, path).dir, LastComp(SkipSlashes(path)), pos, n)
  }

  ghost function JobAt(V: Volume, path: seq<byte>, pos: nat, data: seq<byte>): Job
    requires PlaceOf(V, path).Place?
  {
    FileJob(V.g, V.L, V.T, V.disk, V.fat, PlaceOf(V, path).dir, LastComp(SkipSlashes(path)), pos, data)
  }

  /** The new contents take more clusters than the file has and are free. */
  ghost predicate TooBig(J: Job) { Clusters(J.g, |J.data|) > |FreeSet(J.g, J.fat)| + |J.Chain()| }

  /** The calls that leave no valid volume: they make a dot entry in the root, or replace a file by more than
      there is room for, unless the driver gives up with the old chain built again. */
  ghost predicate Breaks(V: Volume, op: Op) {
    match op
    case MakeFile(path) => RootDot(PlaceOf(V, path)) && MakingAt(V, path, false) == Added
    case MakeDir(path) => RootDot(PlaceOf(V, path)) && MakingAt(V, path, true) == Added
    case Replace(path, data) =>
      WritableAt(V, path, 0, |data|) && TooBig(JobAt(V, path, 0, data)) && !Rebuilt(JobAt(V, path, 0, data))
    case _ => false
  }

  // ---- what the calls do ----------------------------------------------------------------------------------------

  /** fat16_create. */
  ghost predicate FileMade(V: Volume, path: seq<byte>, V': Volume) {
    var p := PlaceOf(V, path);
    if MakingAt(V, path, false) != Added then V' == V
    else
      && p.Place? && |p.name| == 11 && p.dir in V.T.used && V'.g == V.g && V'.cwd == V.cwd
      && var e := MakeEntry(p.name, ATTR_ARCHIVE, 0, 0);
      exists k: nat ::
        && InsertedInto(V.g, V.L, V.disk, V'.L, V'.disk, p.dir, k, e)
        && |FreeSet(V.g, V'.fat)| + Grown(View(V.g, V.L, V.disk, p.dir)) == |FreeSet(V.g, V.fat)|
        && (!RootDot(p) ==> V'.T == AddEntry(V.T, p.dir, k, e))
  }

  /** The entry e for the new directory c is in slot k of its parent, and c holds its dot entries. */
  ghost predicate DirPut(V: Volume, p: Place, V': Volume, k: nat, c: nat)
    requires p.Place? && |p.name| == 11 && p.dir in V.T.used
  {
    && c < 0x1_0000 && c !in V.L.chains && c in V'.L.chains && JustDots(View(V.g, V'.L, V'.disk, c), c, p.dir)
    && var e := MakeEntry(p.name, ATTR_DIRECTORY, c, 0);
    && |FreeSet(V.g, V'.fat)| + 1 + Grown(View(V.g, V.L, V.disk, p.dir)) == |FreeSet(V.g, V.fat)|
    && PutIn(Insertion(V.g, V.L, V.T, V.disk, p.dir, k, e, V'.L, V'.disk))
    && (!RootDot(p) ==> V'.T == MadeDir(V.T, p.dir, k, e, c))
  }

  /** fat16_mkdir. A refused call may have written to a free cluster. */
  ghost predicate DirectoryMade(V: Volume, path: seq<byte>, V': Volume) {
    var p := PlaceOf(V, path);
    && V'.g == V.g && V'.cwd == V.cwd
    && if MakingAt(V, path, true) != Added then
         && V' == V.(disk := V'.disk)
         && forall o :: View(V.g, V.L, V'.disk, o) == View(V.g, V.L, V.disk, o)
       else
         && p.Place? && |p.name| == 11 && p.dir in V.T.used
         && exists k: nat, c: nat :: DirPut(V, p, V', k, c)
  }

  /** fat16_write_at: as much of data as there is room for. */
  ghost predicate StoredAt(V: Volume, path: seq<byte>, pos: nat, data: seq<byte>, V': Volume) {
    if !WritableAt(V, path, pos, |data|) || data == [] || Room(JobAt(V, path, pos, data)) <= 0 then V' == V
    else
      && V'.g == V.g && V'.cwd == V.cwd
      && var J := JobAt(V, path, pos, data);
      exists t: nat ::
        && Written(J, t, V'.fat, V'.L, V'.disk, if |data| < Room(J) then |data| else Room(J))
        && V'.T == HomeAt(J, t)
  }

  /** fat16_write_file. */
  ghost predicate ReplacedAt(V: Volume, path: seq<byte>, data: seq<byte>, V': Volume) {
    if !WritableAt(V, path, 0, |data|) then V' == V
    else
      && V'.g == V.g && V'.cwd == V.cwd
      && exists t: nat :: ReplacesBy(JobAt(V, path, 0, data), V', t)
  }

  ghost predicate ReplacesBy(J: Job, V': Volume, t: nat) {
    if TooBig(J) then Abandoned(J, t, V'.fat, V'.L, V'.disk) && V'.T == J.T
    else Replaced(J, t, V'.fat, V'.L, V'.disk) && V'.T == TreeWith(J, t)
  }

  /** The working directory set to what a path names. */
  ghost predicate MovedTo(V: Volume, path: seq<byte>, V': Volume) {
    var r := ResolveDir(V.g, V.L, V.disk, V.cwd, path);
    V' == if r.Dir? then V.(cwd := r.cluster) else V
  }

  ghost predicate Does(V: Volume, op: Op, V': Volume) {
    match op
    case MakeFile(path) => FileMade(V, path, V')
    case MakeDir(path) => DirectoryMade(V, path, V')
    case Store(path, pos, data) => StoredAt(V, path, pos, data, V')
    case Replace(path, data) => ReplacedAt(V, path, data, V')
    case ChangeDir(path) => MovedTo(V, path, V')
  }

  /** The states a volume goes through when these calls are made one after the other. */
  ghost predicate IsRun(trace: seq<Volume>, ops: seq<Op>) {
    |trace| == |ops| + 1 && forall i :: 0 <= i < |ops| ==> Does(trace[i], ops[i], trace[i + 1])
  }

  /** Calls that never break, whatever the volume: no dot component at the end of a path, and no replacement. */
  predicate NeverBreaks(op: Op) {
    var c := LastComp(SkipSlashes(op.path));
    !op.Replace? && (op.MakeFile? || op.MakeDir? ==> c != [PERIOD] && c != [PERIOD, PERIOD])
  }

  lemma NeverRootDot(g: Geo, L: Layout, disk: seq<Sector>, cwd: nat, path: seq<byte>)
    requires 0 !in path
    ensures var c := LastComp(SkipSlashes(path)); c != [PERIOD] && c != [PERIOD, PERIOD] ==>
                                                  !RootDot(Resolve(g, L, disk, cwd, path))
  {
    hide Name83, Walk;
    var c, p := LastComp(SkipSlashes(path)), SkipSlashes(path);
    PlaceName(g, L, disk, cwd, path);
    if p != [] {
      SkipInside(path);
      WalkName(g, L, disk, if path[0] == SLASH then 0 else cwd, p);
      NotDotName(c);
    }
  }

  lemma NotDotName(c: seq<byte>)
    requires c != [] && 0 !in c
    ensures c != [PERIOD] && c != [PERIOD, PERIOD] ==> Name83(c) != DOT && Name83(c) != DOTDOT
  {
    ComponentIsGood(c);
    if c != [PERIOD] && c != [PERIOD, PERIOD] && c[0] == DELETED {
      var b := Take(Before(c, PERIOD), 8);
      assert b != [] && b[0] == DELETED;
      assert Pad(UpperAll(b), 8)[0] == DELETED;
    }
  }

  /** What a valid tree means for one directory: live names are unique, "." and ".." lead to the
      directory and its parent, the parent is nearer to the root, and nothing follows an empty slot. */
  lemma DirectoryFacts(g: Geo, fat: seq<u16>, L: Layout, disk: seq<Sector>, T: Tree, d: nat)
    requires LayoutOk(g, fat, L) && TreeOk(g, L, disk, T) && IsDirectory(T, d)
    ensures var v := View(g, L, disk, d);
            && (forall j: nat, k: nat ::
                  (j < 16 * |v| && k < 16 * |v| && IsLive(Slot(v, j)) && IsLive(Slot(v, k)) &&
                    NameOf(Slot(v, j)) == NameOf(Slot(v, k))) ==> j == k)
            && (forall j: nat, k: nat :: j <= k < 16 * |v| && IsEmpty(Slot(v, j)) ==> IsEmpty(Slot(v, k)))
    ensures d != 0 ==> d in T.parent && Depth(T, T.parent[d]) < Depth(T, d)
    ensures d != 0 ==>
              var v := View(g, L, disk, d);
              && Find(v, DOT, 0) == 0 && FirstOf(Slot(v, 0)) == d
              && Find(v, DOTDOT, 0) == 1 && FirstOf(Slot(v, 1)) == T.parent[d]
  {
    var v := View(g, L, disk, d);
    assert DirOk(g, L, T, d, v);
    hide Slot, Find;
    forall j: nat, k: nat | j < 16 * |v| && k < 16 * |v|
      ensures IsLive(Slot(v, j)) && IsLive(Slot(v, k)) && NameOf(Slot(v, j)) == NameOf(Slot(v, k)) ==> j == k
      ensures j <= k && IsEmpty(Slot(v, j)) ==> IsEmpty(Slot(v, k))
    {
      assert EntryOk(g, L, T, d, j, Slot(v, j)) && EntryOk(g, L, T, d, k, Slot(v, k));
    }
    if d != 0 { SubdirFacts(g, fat, L, disk, T, d); }
  }

  lemma SubdirFacts(g: Geo, fat: seq<u16>, L: Layout, disk: seq<Sector>, T: Tree, d: nat)
    requires LayoutOk(g, fat, L) && TreeOk(g, L, disk, T) && d in T.parent
    ensures Depth(T, T.parent[d]) < Depth(T, d)
    ensures var v := View(g, L, disk, d);
            && Find(v, DOT, 0) == 0 && FirstOf(Slot(v, 0)) == d
            && Find(v, DOTDOT, 0) == 1 && FirstOf(Slot(v, 1)) == T.parent[d]
  {
    assert LinkedIn(g, L, disk, T, d);
    hide Slot, View, Find, TreeOk, LayoutOk;
    DotsFound(g, fat, L, disk, T, d);
  }

  /** The layout and the tree of a volume that holds nothing. */
  ghost function NoChains(): Layout { Layout(map[], map[]) }
  ghost function RootOnly(): Tree { Tree(map[], map[], map[0 := 0], map[], map[]) }

  /** A freshly formatted volume, whose root directory is all zeros, is a valid tree. */
  lemma FormattedIsValid(g: Geo, disk: seq<Sector>, fat: seq<u16>)
    requires DiskOk(g, disk) && |fat| == 256 * g.fatSectors
    requires forall a :: g.rootStart <= a < g.dataStart ==> SectorAt(disk, a) == Zeros(512)
    ensures LayoutOk(g, fat, NoChains()) && TreeOk(g, NoChains(), disk, RootOnly())
  {
    var L, T := NoChains(), RootOnly();
    var v := View(g, L, disk, 0);
    SectorCountBound(g);
    forall k: nat | k < 16 * |v|
      ensures EntryOk(g, L, T, 0, k, Slot(v, k))
    {
      SlotInSector(v, k / 16, k % 16);
      assert v[k / 16] == SectorAt(disk, g.rootStart + k / 16) == Zeros(512);
      assert Slot(v, k)[0] == 0;
    }
    assert forall d :: IsDirectory(T, d) ==> d == 0;
  }

  /** Mounting a freshly formatted volume gives a driver all of this applies to. */
  method MountFormatted(g: Geo, disk: array<Sector>, ghost fat: seq<u16>) returns (dr: Driver)
    requires Synced(g, disk[..], fat) && forall a :: g.rootStart <= a < g.dataStart ==>
             SectorAt(disk[..], a) == Zeros(512)
    ensures dr.Valid() && dr.disk == disk && dr.g == g && dr.fat[..] == fat && dr.L == NoChains() && dr.T == RootOnly()
    ensures fresh(dr) && fresh(dr.fat) && fresh(dr.dirBuf) && fresh(dr.sectorBuf) && dr.dirBuf != dr.sectorBuf
  {
    hide TreeOk, LayoutOk;
    SyncedDiskFat(g, disk[..], fat);
    FormattedIsValid(g, disk[..], fat);
    dr := new Driver(g, disk, NoChains(), RootOnly());
  }

  // ---- names that read back ------------------------------------------------------------------------

  /** Directory d has a plain name. */
  ghost predicate OwnPlain(g: Geo, L: Layout, disk: seq<Sector>, T: Tree, d: nat) {
    d in T.parent && d in T.home && Plain(OwnName(g, L, disk, T, d))
  }

  ghost predicate AllPlain(g: Geo, L: Layout, disk: seq<Sector>, T: Tree) {
    forall d :: d in T.parent ==> OwnPlain(g, L, disk, T, d)
  }

  lemma {:induction false} AllPlainUp(g: Geo, L: Layout, disk: seq<Sector>, T: Tree, d: nat, n: nat)
    requires AllPlain(g, L, disk, T)
    ensures PlainUp(g, L, disk, T, d, n)
    decreases n
  {
    hide Plain, OwnName;
    if n > 0 && d in T.parent && d in T.home {
      assert OwnPlain(g, L, disk, T, d);
      AllPlainUp(g, L, disk, T, T.parent[d], n - 1);
    }
  }

  /** Where all names are plain, the path of every directory resolves to it, from anywhere. */
  lemma EveryPathResolves(g: Geo, L: Layout, disk: seq<Sector>, T: Tree, cwd: nat, d: nat)
    requires TreeOk(g, L, disk, T) && AllPlain(g, L, disk, T) && IsDirectory(T, d)
    ensures ResolveDir(g, L, disk, cwd, PathText(g, L, disk, T, d)) == Dir(d)
  {
    hide TreeOk, AllPlain, PlainUp, ResolveDir, PathText;
    AllPlainUp(g, L, disk, T, d, Depth(T, d));
    PathRoundTrip(g, L, disk, T, cwd, d);
  }

  /** Where a directory's own entry is. */
  lemma OwnPlace(g: Geo, L: Layout, disk: seq<Sector>, T: Tree, d: nat)
    requires TreeOk(g, L, disk, T) && d in T.parent
    ensures d in T.home && T.home[d].0 == T.parent[d] && IsDirectory(T, T.parent[d])
    ensures T.home[d].1 < 16 * |View(g, L, disk, T.parent[d])|
    ensures var x := Slot(View(g, L, disk, T.parent[d]), T.home[d].1); IsLive(x) && IsDir(x)
  {
    assert LinkedIn(g, L, disk, T, d);
  }

  /** d's own entry stands where it stood. */
  ghost predicate SameOwn(g: Geo, L: Layout, disk: seq<Sector>, T: Tree, L': Layout, disk': seq<Sector>, T': Tree,
      d: nat) {
    && d in T.parent && d in T.home && d in T'.home && d in T'.parent && T'.parent[d] == T.parent[d] &&
       T'.home[d] == T.home[d]
    && Slot(View(g, L', disk', T.parent[d]), T.home[d].1) == Slot(View(g, L, disk, T.parent[d]), T.home[d].1)
  }

  lemma PlainKept(g: Geo, L: Layout, disk: seq<Sector>, T: Tree, L': Layout, disk': seq<Sector>, T': Tree)
    requires AllPlain(g, L, disk, T)
    requires forall d :: d in T'.parent ==> SameOwn(g, L, disk, T, L', disk', T', d) || OwnPlain(g, L', disk', T', d)
    ensures AllPlain(g, L', disk', T')
  {
    hide View, Slot, Plain;
    forall d | d in T'.parent
      ensures OwnPlain(g, L', disk', T', d)
    {
      assert d in T.parent ==> OwnPlain(g, L, disk, T, d);
    }
  }

  /** A write or a replacement of a file touches no directory's own entry. */
  lemma FilePlain(J: Job, t: nat, L: Layout, disk: seq<Sector>, T': Tree)
    requires JobTree(J) && AllPlain(J.g, J.L, J.disk, J.T) && (T' == J.T || (t !in J.T.parent && T' == HomeAt(J, t)))
    requires forall d, k :: OtherSlot(J, d, k) ==> Slot(View(J.g, L, disk, d), k) == Slot(View(J.g, J.L, J.disk, d), k)
    ensures AllPlain(J.g, L, disk, T')
  {
    forall d | d in T'.parent
      ensures SameOwn(J.g, J.L, J.disk, J.T, L, disk, T', d)
    {
      FileOwn(J, t, L, disk, T', d);
    }
    hide AllPlain, SameOwn, JobTree;
    PlainKept(J.g, J.L, J.disk, J.T, L, disk, T');
  }

  lemma FileOwn(J: Job, t: nat, L: Layout, disk: seq<Sector>, T': Tree, d: nat)
    requires JobTree(J) && (T' == J.T || (t !in J.T.parent && T' == HomeAt(J, t))) && d in T'.parent
    requires forall d, k :: OtherSlot(J, d, k) ==> Slot(View(J.g, L, disk, d), k) == Slot(View(J.g, J.L, J.disk, d), k)
    ensures SameOwn(J.g, J.L, J.disk, J.T, L, disk, T', d)
  {
    hide TreeOk, LayoutOk, View, Slot;
    OwnPlace(J.g, J.L, J.disk, J.T, d);
    assert OtherSlot(J, T'.parent[d], T'.home[d].1);
  }

  lemma WrittenPlain(J: Job, t: nat, fat: seq<u16>, L: Layout, disk: seq<Sector>, w: nat)
    requires JobOk(J) && AllPlain(J.g, J.L, J.disk, J.T) && Written(J, t, fat, L, disk, w)
    ensures AllPlain(J.g, L, disk, HomeAt(J, t))
  {
    hide JobTree, TreeOk, LayoutOk, Synced, View, Slot, AllPlain, OtherSlot, Content, FreeSet;
    TargetNotDir(J, t, L);
    FilePlain(J, t, L, disk, HomeAt(J, t));
  }

  lemma ReplacedPlain(J: Job, t: nat, fat: seq<u16>, L: Layout, disk: seq<Sector>)
    requires JobTree(J) && AllPlain(J.g, J.L, J.disk, J.T) && Replaced(J, t, fat, L, disk)
    ensures AllPlain(J.g, L, disk, TreeWith(J, t))
  {
    hide JobTree, LayoutOk, Synced, View, Slot, AllPlain, OtherSlot, Content, FreeSet, Clusters, Kept;
    if J.data != [] { HomeIsNoDir(J, t, L, disk); }
    hide TreeOk;
    FilePlain(J, t, L, disk, TreeWith(J, t));
  }

  /** The slot of a file is no directory's own. */
  lemma HomeIsNoDir(J: Job, t: nat, L: Layout, disk: seq<Sector>)
    requires TreeOk(J.g, L, disk, HomeAt(J, t)) && t < 0x1_0000
    requires JobTree(J) && (exists n: u32 :: Slot(View(J.g, L, disk, J.d), J.k) == Resized(J.Entry0(), t, n))
    ensures t !in J.T.parent
  {
    hide JobTree, View, Slot;
    JobIsFile(J);
    assert t in J.T.parent ==> LinkedIn(J.g, L, disk, HomeAt(J, t), t);
  }

  lemma JobIsFile(J: Job)
    requires JobTree(J)
    ensures !IsDir(J.Entry0())
  {
  }

  /** An entry put into a free slot touches no directory's own entry. */
  lemma PutInOwn(I: Insertion, T': Tree, d: nat)
    requires PutIn(I) && d in I.T.parent
    requires d in T'.parent && T'.parent[d] == I.T.parent[d] &&
             (d in I.T.home ==> d in T'.home && T'.home[d] == I.T.home[d])
    ensures SameOwn(I.g, I.L, I.disk, I.T, I.L', I.disk', T', d)
  {
    hide TreeOk, View, Slot, FreeSlot, LinkedIn;
    OwnPlace(I.g, I.L, I.disk, I.T, d);
    var p := I.T.parent[d];
    if p != 0 && p != I.d { DirHasChain(I, p); }
  }

  lemma DirHasChain(I: Insertion, p: nat)
    requires PutIn(I) && p in I.T.parent
    ensures p in I.L.chains
  {
    hide View, Slot;
    assert LinkedIn(I.g, I.L, I.disk, I.T, p);
  }

  lemma EntryPlain(I: Insertion)
    requires PutIn(I) && AllPlain(I.g, I.L, I.disk, I.T) && I.d in I.T.used
    ensures AllPlain(I.g, I.L', I.disk', AddEntry(I.T, I.d, I.k, I.e))
  {
    hide PutIn, SameOwn, AllPlain;
    var T' := AddEntry(I.T, I.d, I.k, I.e);
    forall d | d in T'.parent
      ensures SameOwn(I.g, I.L, I.disk, I.T, I.L', I.disk', T', d)
    {
      PutInOwn(I, T', d);
    }
    PlainKept(I.g, I.L, I.disk, I.T, I.L', I.disk', T');
  }

  lemma DirPlain(I: Insertion, c: nat)
    requires PutIn(I) && AllPlain(I.g, I.L, I.disk, I.T) && I.d in I.T.used && Plain(NameOf(I.e)) && c !in I.T.parent
    requires c !in I.L.chains
    ensures AllPlain(I.g, I.L', I.disk', AddDir(I.T, I.d, I.k, NameOf(I.e), c))
  {
    hide PutIn, SameOwn, AllPlain, Plain, OwnPlain;
    var T' := AddDir(I.T, I.d, I.k, NameOf(I.e), c);
    forall d | d in T'.parent
      ensures SameOwn(I.g, I.L, I.disk, I.T, I.L', I.disk', T', d) || OwnPlain(I.g, I.L', I.disk', T', d)
    {
      if d == c { NewOwn(I, T', c); } else { PutInOwn(I, T', d); }
    }
    PlainKept(I.g, I.L, I.disk, I.T, I.L', I.disk', T');
  }

  lemma NewOwn(I: Insertion, T': Tree, c: nat)
    requires PutIn(I) && c in T'.parent && T'.parent[c] == I.d && c in T'.home && T'.home[c] == (I.d, I.k) &&
             Plain(NameOf(I.e))
    ensures OwnPlain(I.g, I.L', I.disk', T', c)
  {
    hide TreeOk, View, Slot, FreeSlot, Plain;
  }

  /** Directories get space-free names. */
  predicate PlainOp(op: Op) { op.MakeDir? ==> SPACE !in LastComp(SkipSlashes(op.path)) }

  // ---- runs ---------------------------------------------------------------------------------------------

  lemma {:induction false} LastNoSlash(p: seq<byte>)
    requires p == [] || p[0] != SLASH
    ensures SLASH !in LastComp(p) && (p != [] ==> LastComp(p) != [])
    decreases |p|
  {
    if p != [] { FirstCompOf(p); }
    if p != [] && RestPath(p) != [] { LastNoSlash(RestPath(p)); }
  }

  /** The name of a directory made for a space-free component is plain. */
  lemma MadeNameIsPlain(g: Geo, fat: seq<u16>, L: Layout, disk: seq<Sector>, T: Tree, cwd: nat, path: seq<byte>)
    requires LayoutOk(g, fat, L) && TreeOk(g, L, disk, T) && IsDirectory(T, cwd) && 0 !in path &&
             SPACE !in LastComp(SkipSlashes(path))
    requires var p := Resolve(g, L, disk, cwd, path); p.Place? && !RootDot(p) &&
                                                      Find(View(g, L, disk, p.dir), p.name, 0) == -1
    ensures var p := Resolve(g, L, disk, cwd, path); |p.name| == 11 && EncodedName(p.name) &&
                                                     (p.name[0] != DELETED ==> Plain(p.name))
  {
    hide LayoutOk, TreeOk, View, Find, Plain, Name83;
    var p, c := Resolve(g, L, disk, cwd, path), LastComp(SkipSlashes(path));
    PlaceName(g, L, disk, cwd, path);
    ResolveStays(g, L, disk, T, cwd, path);
    NotFoundIsGood(g, fat, L, disk, T, p.dir, p.name);
    PathHasName(g, L, disk, cwd, path);
    LastNoSlash(SkipSlashes(path));
    SkipInside(path);
    LastInside(SkipSlashes(path));
    if p.name[0] != DELETED {
      ComponentIsGood(c);
      ComponentIsPlain(c);
    }
  }

  lemma PathHasName(g: Geo, L: Layout, disk: seq<Sector>, cwd: nat, path: seq<byte>)
    ensures Resolve(g, L, disk, cwd, path).Place? ==> SkipSlashes(path) != []
  {
  }

  lemma {:induction false} LastInside(p: seq<byte>)
    ensures forall c :: c in LastComp(p) ==> c in p
    decreases |p|
  {
    if p == [] || RestPath(p) == [] {
      assert FirstComp(p) <= p;
    } else {
      LastInside(RestPath(p));
      RestInside(p);
    }
  }

  /** One call, done: it does what the call is for; the volume is valid afterwards exactly unless the call
      breaks it, and then it is ruined; and directories with space-free names keep all names plain. */
  ghost predicate CallDone(V: Volume, op: Op, V': Volume, valid: bool) {
    && Does(V, op, V') && (valid <==> !Breaks(V, op)) && (valid <==> IsValid(V')) && (!valid ==> Ruined(V'))
    && (valid && PlainOp(op) && AllPlain(V.g, V.L, V.disk, V.T) ==> AllPlain(V'.g, V'.L, V'.disk, V'.T))
  }

  predicate IsDots(c: seq<byte>) { c == [PERIOD] || c == [PERIOD, PERIOD] }

  /** A dot component that resolves in the root is a dot in the root, and is never there already. */
  lemma RootDotIs(g: Geo, fat: seq<u16>, L: Layout, disk: seq<Sector>, T: Tree, cwd: nat, path: seq<byte>)
    requires LayoutOk(g, fat, L) && TreeOk(g, L, disk, T) && IsDirectory(T, cwd) && 0 !in path
    ensures var p := Resolve(g, L, disk, cwd, path);
            && (p.Place? ==> IsDirectory(T, p.dir) && |p.name| == 11 && EncodedName(p.name))
            && (RootDot(p) <==> p.Place? && p.dir == 0 && IsDots(LastComp(SkipSlashes(path))))
            && (RootDot(p) ==> Find(View(g, L, disk, 0), p.name, 0) == -1)
  {
    hide LayoutOk, TreeOk, View, Find, Name83, Resolve;
    var p := Resolve(g, L, disk, cwd, path);
    PlaceName(g, L, disk, cwd, path);
    ResolveStays(g, L, disk, T, cwd, path);
    NeverRootDot(g, L, disk, cwd, path);
    DotNames();
    if RootDot(p) { NoDotInRoot(g, L, disk, T, p.name); }
  }

  lemma FoundIsNamed(v: seq<Sector>, name: seq<byte>, k: nat)
    requires |name| == 11 && Find(v, name, 0) == k
    ensures k < 16 * |v| && IsLive(Slot(v, k)) && NameOf(Slot(v, k)) == name && Slot(v, k)[0] == name[0]
  {
    hide Slot;
  }

  lemma NoDotInRoot(g: Geo, L: Layout, disk: seq<Sector>, T: Tree, name: seq<byte>)
    requires TreeOk(g, L, disk, T) && (name == DOT || name == DOTDOT)
    ensures Find(View(g, L, disk, 0), name, 0) == -1
  {
    hide TreeOk, View, Slot;
    var v := View(g, L, disk, 0);
    var k := Find(v, name, 0);
    if k >= 0 {
      FoundIsNamed(v, name, k);
      NoTreeWithDot(g, L, disk, k);
      assert false;
    }
  }

  lemma MakingDot(g: Geo, L: Layout, disk: seq<Sector>, fat: seq<u16>, p: Place, asDir: bool)
    requires RootDot(p) && Find(View(g, L, disk, 0), p.name, 0) == -1
    ensures Making(g, L, disk, fat, p, asDir) != Exists
  {
  }

  lemma ChainOfDir(g: Geo, L: Layout, disk: seq<Sector>, T: Tree, d: nat)
    requires TreeOk(g, L, disk, T) && IsDirectory(T, d)
    ensures d == 0 || d in L.chains
  {
    if d != 0 { assert LinkedIn(g, L, disk, T, d); }
  }

  lemma CreatedPlain(g: Geo, fat: seq<u16>, L: Layout, T: Tree, disk: seq<Sector>, d: nat, k: nat, name: seq<byte>,
      L': Layout, disk': seq<Sector>)
    requires LayoutOk(g, fat, L) && TreeOk(g, L, disk, T) && IsDirectory(T, d) && |name| == 11 && EncodedName(name)
    requires InsertedInto(g, L, disk, L', disk', d, k, MakeEntry(name, ATTR_ARCHIVE, 0, 0)) && AllPlain(g, L, disk, T)
    ensures d in T.used && AllPlain(g, L', disk', AddEntry(T, d, k, MakeEntry(name, ATTR_ARCHIVE, 0, 0)))
  {
    hide TreeOk, LayoutOk, View, Slot, AllPlain, InsertedInto, MakeEntry, PutIn, AddEntry;
    var e := MakeEntry(name, ATTR_ARCHIVE, 0, 0);
    NewEntryIsLive(name, ATTR_ARCHIVE, 0);
    ChainOfDir(g, L, disk, T, d);
    UsedDir(g, L, disk, T, d);
    FileInsertion(g, fat, L, T, disk, d, k, e, L', disk');
    EntryPlain(Insertion(g, L, T, disk, d, k, e, L', disk'));
  }

  method DoCreate(dr: Driver, cwd: nat, path: seq<byte>) returns (valid: bool)
    requires dr.Valid() && IsDirectory(dr.T, cwd) && 0 !in path
    modifies dr, dr.disk, dr.fat, dr.dirBuf
    ensures dr.Shaped() && CallDone(old(Of(dr, cwd)), MakeFile(path), Of(dr, cwd), valid)
  {
    hide TreeOk, LayoutOk, Synced, Resolve, View, Slot, Find, AllPlain, Making, RootDot, InsertedInto, MakeEntry,
      NoTree, FreeSet, Grown, InsertCuts;
    ghost var V := Of(dr, cwd);
    ghost var p, made := PlaceOf(V, path), MakingAt(V, path, false);
    RootDotIs(V.g, V.fat, V.L, V.disk, V.T, cwd, path);
    if RootDot(p) { MakingDot(V.g, V.L, V.disk, V.fat, p, false); }
    var r, parent, k, at := Create(dr, cwd, path);
    ghost var V' := Of(dr, cwd);
    if made == Added {
      assert FileMade(V, path, V');
      if RootDot(p) {
        NoTreeIsInvalid(V');
      } else if AllPlain(V.g, V.L, V.disk, V.T) {
        CreatedPlain(V.g, V.fat, V.L, V.T, V.disk, p.dir, k, p.name, dr.L, dr.disk[..]);
      }
    }
    valid := !(r == 0 && parent == 0 && IsDots(LastComp(SkipSlashes(path))));
  }

  lemma NoTreeIsInvalid(V: Volume)
    requires Ruined(V)
    ensures !IsValid(V)
  {
    hide TreeOk, LayoutOk, Synced;
  }

  lemma MadePlain(I: Insertion, c: nat)
    requires PutIn(I) && AllPlain(I.g, I.L, I.disk, I.T) && I.d in I.T.used && c !in I.L.chains &&
             (IsLive(I.e) ==> Plain(NameOf(I.e)))
    ensures AllPlain(I.g, I.L', I.disk', MadeDir(I.T, I.d, I.k, I.e, c))
  {
    hide AllPlain, Plain, AddDir, AddEntry;
    if IsLive(I.e) {
      if c in I.T.parent { DirHasChain(I, c); }
      hide PutIn;
      DirPlain(I, c);
    } else {
      hide PutIn;
      EntryPlain(I);
    }
  }

  lemma AddedIsNew(g: Geo, L: Layout, disk: seq<Sector>, fat: seq<u16>, p: Place, asDir: bool)
    requires Making(g, L, disk, fat, p, asDir) == Added
    ensures p.Place? && Find(View(g, L, disk, p.dir), p.name, 0) == -1
  {
  }

  method DoMkdir(dr: Driver, cwd: nat, path: seq<byte>) returns (valid: bool)
    requires dr.Valid() && IsDirectory(dr.T, cwd) && 0 !in path
    modifies dr, dr.disk, dr.fat, dr.dirBuf
    ensures dr.Shaped() && CallDone(old(Of(dr, cwd)), MakeDir(path), Of(dr, cwd), valid)
  {
    hide TreeOk, LayoutOk, Synced, Resolve, View, Slot, Find, AllPlain, Making, RootDot, MakeEntry, PutIn, JustDots,
      MadeDir, Plain, NoTree, FreeSet, Grown, MadeCuts, QuietTrail;
    ghost var V := Of(dr, cwd);
    ghost var p, made := PlaceOf(V, path), MakingAt(V, path, true);
    RootDotIs(V.g, V.fat, V.L, V.disk, V.T, cwd, path);
    if RootDot(p) { MakingDot(V.g, V.L, V.disk, V.fat, p, true); }
    var there, parent, name := ResolvePath(dr, cwd, path);
    var r, k, c, at := Mkdir(dr, cwd, path);
    ghost var V' := Of(dr, cwd);
    if made == Added {
      assert DirPut(V, p, V', k, c);
      if RootDot(p) {
        NoTreeIsInvalid(V');
      } else {
        MkdirPlain(V, path, V', k, c);
      }
    } else {
      SamePlain(V.g, V.L, V.disk, V.T, V'.disk);
    }
    valid := !(r == 0 && parent == 0 && there && IsDots(LastComp(SkipSlashes(path))));
  }

  lemma MkdirPlain(V: Volume, path: seq<byte>, V': Volume, k: nat, c: nat)
    requires IsValid(V) && 0 !in path && MakingAt(V, path, true) == Added && !RootDot(PlaceOf(V, path))
    requires var p := PlaceOf(V, path); p.Place? && |p.name| == 11 && p.dir in V.T.used && DirPut(V, p, V', k, c)
    ensures IsDirectory(V'.T, V.cwd)
    ensures PlainOp(MakeDir(path)) && AllPlain(V.g, V.L, V.disk, V.T) ==> AllPlain(V.g, V'.L, V'.disk, V'.T)
  {
    hide TreeOk, LayoutOk, Synced, Resolve, View, Slot, Find, AllPlain, Making, RootDot, MakeEntry, PutIn, JustDots,
      MadeDir, Plain, FreeSet, Grown;
    var p := PlaceOf(V, path);
    AddedIsNew(V.g, V.L, V.disk, V.fat, p, true);
    var e := MakeEntry(p.name, ATTR_DIRECTORY, c, 0);
    PlaceName(V.g, V.L, V.disk, V.cwd, path);
    NewEntryIsLive(p.name, ATTR_DIRECTORY, c);
    MadeKeeps(V.T, p.dir, k, e, c);
    if PlainOp(MakeDir(path)) && AllPlain(V.g, V.L, V.disk, V.T) {
      MadeNameIsPlain(V.g, V.fat, V.L, V.disk, V.T, V.cwd, path);
      MadePlain(Insertion(V.g, V.L, V.T, V.disk, p.dir, k, e, V'.L, V'.disk), c);
    }
  }

  lemma MadeKeeps(T: Tree, d: nat, k: nat, e: Entry, c: nat)
    requires d in T.used
    ensures forall o :: IsDirectory(T, o) ==> IsDirectory(MadeDir(T, d, k, e, c), o)
  {
  }

  lemma SamePlain(g: Geo, L: Layout, disk: seq<Sector>, T: Tree, disk': seq<Sector>)
    requires forall o :: View(g, L, disk', o) == View(g, L, disk, o)
    ensures AllPlain(g, L, disk, T) ==> AllPlain(g, L, disk', T)
  {
    hide View, Slot, Plain;
    if AllPlain(g, L, disk, T) {
      forall d | d in T.parent
        ensures OwnPlain(g, L, disk', T, d)
      {
        assert OwnPlain(g, L, disk, T, d);
      }
    }
  }

  method DoStore(dr: Driver, cwd: nat, path: seq<byte>, pos: nat, data: seq<byte>)
    requires dr.Valid() && IsDirectory(dr.T, cwd) && 0 !in path
    modifies dr, dr.disk, dr.fat, dr.dirBuf, dr.sectorBuf
    ensures dr.Shaped() && CallDone(old(Of(dr, cwd)), Store(path, pos, data), Of(dr, cwd), true)
  {
    hide TreeOk, LayoutOk, Synced, Resolve, View, Slot, Find, AllPlain, Written, MayWrite, FileJob, Driver.Safely, Room;
    ghost var V := Of(dr, cwd);
    var ok, parent, last := ResolvePath(dr, cwd, path);
    if !ok { return; }
    var name := LastComp(SkipSlashes(path));
    ghost var J := dr.JobFor(parent, name, pos, data);
    if dr.CanWrite(parent, name, pos, |data|) { JobFacts(dr, parent, name, pos, data); }
    var r, first, size := dr.WriteAt(parent, name, pos, data);
    if r > 0 {
      assert StoredAt(V, path, pos, data, Of(dr, cwd));
      if AllPlain(J.g, J.L, J.disk, J.T) { WrittenPlain(J, first, dr.fat[..], dr.L, dr.disk[..], r); }
    }
  }

  lemma JobFacts(dr: Driver, d: nat, name: seq<byte>, pos: nat, data: seq<byte>)
    requires dr.Valid() && IsDirectory(dr.T, d) && dr.CanWrite(d, name, pos, |data|)
    ensures var J := dr.JobFor(d, name, pos, data);
            && JobOk(J) && J.g == dr.g && J.L == dr.L && J.T == dr.T && J.disk == dr.disk[..] && J.fat == dr.fat[..]
            && J.data == data
  {
    hide TreeOk, LayoutOk, Synced, View, Slot, Find, JobTree;
    dr.JobIsOk(d, name, pos, data);
  }

  method DoReplace(dr: Driver, cwd: nat, path: seq<byte>, data: seq<byte>) returns (valid: bool)
    requires dr.Valid() && IsDirectory(dr.T, cwd) && 0 !in path && |data| < 0x1_0000_0000
    modifies dr, dr.disk, dr.fat, dr.dirBuf, dr.sectorBuf
    ensures dr.Shaped() && CallDone(old(Of(dr, cwd)), Replace(path, data), Of(dr, cwd), valid)
  {
    hide TreeOk, LayoutOk, Synced, Resolve, View, Slot, Find, AllPlain, Replaced, Abandoned, MayWrite, FileJob,
      Clusters, FreeSet, Rebuilt, ReplaceCuts, QuietTrail, Without;
    ghost var V := Of(dr, cwd);
    var there, parent, last := ResolvePath(dr, cwd, path);
    if !there { return true; }
    var name := LastComp(SkipSlashes(path));
    ghost var J := dr.JobFor(parent, name, 0, data);
    ghost var can := dr.CanWrite(parent, name, 0, |data|);
    if can { JobFacts(dr, parent, name, 0, data); }
    var r, t, at := WriteFile(dr, parent, name, data);
    ghost var V' := Of(dr, cwd);
    valid := Synced(dr.g, dr.disk[..], dr.fat[..]);
    if can {
      assert J == JobAt(V, path, 0, data) && WritableAt(V, path, 0, |data|);
      assert TooBig(J) <==> r == -1;
      assert ReplacesBy(J, V', t);
      if r == 0 {
        if AllPlain(J.g, J.L, J.disk, J.T) { ReplacedPlain(J, t, dr.fat[..], dr.L, dr.disk[..]); }
      } else {
        if !valid { NoTreeIsInvalid(V'); }
        AbandonedPlain(J, t, dr.fat[..], dr.L, dr.disk[..]);
      }
    }
  }

  lemma AbandonedPlain(J: Job, t: nat, fat: seq<u16>, L: Layout, disk: seq<Sector>)
    requires JobTree(J) && Abandoned(J, t, fat, L, disk)
    ensures AllPlain(J.g, J.L, J.disk, J.T) ==> AllPlain(J.g, L, disk, J.T)
  {
    JobFile(J);
    hide View, Slot, Synced, FreeSet, TookAll, InOrder, LayoutOk;
    if AllPlain(J.g, J.L, J.disk, J.T) {
      forall d | d in J.T.parent
        ensures OwnPlain(J.g, L, disk, J.T, d)
      {
        assert OwnPlain(J.g, J.L, J.disk, J.T, d);
        assert LinkedIn(J.g, J.L, J.disk, J.T, d);
        assert J.T.parent[d] != 0 ==> LinkedIn(J.g, J.L, J.disk, J.T, J.T.parent[d]);
      }
    }
  }

  method DoChange(dr: Driver, cwd: nat, path: seq<byte>) returns (cwd': nat)
    requires dr.Valid() && IsDirectory(dr.T, cwd) && 0 !in path
    modifies dr.dirBuf
    ensures dr.Shaped() && CallDone(old(Of(dr, cwd)), ChangeDir(path), Of(dr, cwd'), true)
  {
    hide TreeOk, LayoutOk, Synced, ResolveDir, AllPlain;
    var r := ResolveDirectory(dr, cwd, path);
    cwd' := if r.Dir? then r.cluster else cwd;
  }

  /** One call, from the current directory. */
  method Do(dr: Driver, cwd: nat, op: Op) returns (valid: bool, cwd': nat)
    requires dr.Valid() && IsDirectory(dr.T, cwd) && CallOk(op)
    modifies dr, dr.disk, dr.fat, dr.dirBuf, dr.sectorBuf
    ensures dr.Shaped() && CallDone(old(Of(dr, cwd)), op, Of(dr, cwd'), valid)
  {
    hide CallDone, TreeOk, LayoutOk, Synced;
    cwd', valid := cwd, true;
    match op
    case MakeFile(path) =>
      valid := DoCreate(dr, cwd, path);
    case MakeDir(path) =>
      valid := DoMkdir(dr, cwd, path);
    case Store(path, pos, data) =>
      DoStore(dr, cwd, path, pos, data);
    case Replace(path, data) =>
      valid := DoReplace(dr, cwd, path, data);
    case ChangeDir(path) =>
      cwd' := DoChange(dr, cwd, path);
  }

  /** A run of calls up to and including the first that breaks the volume: n is how many do not. Every state up to
      there is valid; the call behind it, if there is one, leaves a ruined volume. As long as directories get
      space-free names, all their names stay plain. */
  ghost predicate RunsTo(trace: seq<Volume>, ops: seq<Op>, n: nat) {
    && n <= |ops| && |trace| == (if n < |ops| then n + 2 else n + 1) && IsRun(trace, ops[..|trace| - 1])
    && (forall i :: 0 <= i <= n ==> IsValid(trace[i]))
    && (forall i :: 0 <= i < n ==> !Breaks(trace[i], ops[i]))
    && (n < |ops| ==> Breaks(trace[n], ops[n]) && Ruined(trace[n + 1]))
    && ((forall i :: 0 <= i < |ops| ==> PlainOp(ops[i])) && PlainVolume(trace[0]) ==>
          forall i :: 0 <= i <= n ==> PlainVolume(trace[i]))
  }

  ghost predicate PlainVolume(V: Volume) { AllPlain(V.g, V.L, V.disk, V.T) }

  /** The same, before the n-th call. */
  ghost predicate RunsSoFar(trace: seq<Volume>, ops: seq<Op>, n: nat) {
    && n <= |ops| && |trace| == n + 1 && IsRun(trace, ops[..n])
    && (forall i :: 0 <= i <= n ==> IsValid(trace[i]))
    && (forall i :: 0 <= i < n ==> !Breaks(trace[i], ops[i]))
    && ((forall i :: 0 <= i < |ops| ==> PlainOp(ops[i])) && PlainVolume(trace[0]) ==>
          forall i :: 0 <= i <= n ==> PlainVolume(trace[i]))
  }

  lemma RunExtends(trace: seq<Volume>, ops: seq<Op>, n: nat, V: Volume, valid: bool)
    requires RunsSoFar(trace, ops, n) && n < |ops| && CallDone(trace[n], ops[n], V, valid)
    ensures if valid then RunsSoFar(trace + [V], ops, n + 1) else RunsTo(trace + [V], ops, n)
  {
    hide Does, IsValid, Breaks, Ruined, AllPlain, PlainOp;
    var t := trace + [V];
    forall i | 0 <= i < n + 1
      ensures Does(t[i], ops[i], t[i + 1])
    {
      if i < n { assert ops[..n][i] == ops[i] && Does(trace[i], ops[..n][i], trace[i + 1]); }
    }
  }

  lemma RuinedDriver(dr: Driver, cwd: nat)
    requires Ruined(Of(dr, cwd))
    ensures !dr.Valid()
  {
    hide TreeOk, LayoutOk, Synced;
  }

  lemma RunStarts(V: Volume, ops: seq<Op>)
    requires IsValid(V)
    ensures RunsSoFar([V], ops, 0)
  {
    hide IsValid, AllPlain;
  }

  method Run(dr: Driver, cwd0: nat, ops: seq<Op>) returns (n: nat, cwd: nat, ghost trace: seq<Volume>)
    requires dr.Valid() && IsDirectory(dr.T, cwd0) && forall i :: 0 <= i < |ops| ==> CallOk(ops[i])
    modifies dr, dr.disk, dr.fat, dr.dirBuf, dr.sectorBuf
    ensures RunsTo(trace, ops, n) && trace[0] == old(Of(dr, cwd0)) && trace[|trace| - 1] == Of(dr, cwd)
    ensures dr.Shaped() && (dr.Valid() <==> n == |ops|)
  {
    hide TreeOk, LayoutOk, Synced, AllPlain, Breaks, Does, Ruined, RunsTo, RunsSoFar;
    cwd, n, trace := cwd0, 0, [Of(dr, cwd0)];
    RunStarts(trace[0], ops);
    while n < |ops|
      invariant n <= |ops| && dr.Valid() && IsDirectory(dr.T, cwd) && RunsSoFar(trace, ops, n) && |trace| == n + 1
      invariant trace[0] == old(Of(dr, cwd0)) && trace[n] == Of(dr, cwd)
    {
      var valid;
      ghost var before := trace;
      valid, cwd := Do(dr, cwd, ops[n]);
      RunExtends(before, ops, n, Of(dr, cwd), valid);
      trace := trace + [Of(dr, cwd)];
      if !valid { RuinedDriver(dr, cwd); return; }
      n := n + 1;
    }
    RunDone(trace, ops);
  }

  lemma RunDone(trace: seq<Volume>, ops: seq<Op>)
    requires RunsSoFar(trace, ops, |ops|)
    ensures RunsTo(trace, ops, |ops|)
  {
  }

  /** Calls without a dot at the end of a path to make and without a replacement never stop a run. */
  lemma RunsOn(trace: seq<Volume>, ops: seq<Op>, n: nat)
    requires RunsTo(trace, ops, n) && forall i :: 0 <= i < |ops| ==> CallOk(ops[i]) && NeverBreaks(ops[i])
    ensures n == |ops|
  {
    hide Does, IsValid, NeverBreaks, Breaks;
    if n < |ops| {
      DoesNotBreak(trace[n], ops[n]);
      assert false;
    }
  }

  lemma DoesNotBreak(V: Volume, op: Op)
    requires CallOk(op) && NeverBreaks(op)
    ensures !Breaks(V, op)
  {
    hide Resolve, Making, RootDot;
    NeverRootDot(V.g, V.L, V.disk, V.cwd, op.path);
  }

  /** The path reported for any directory of the volume leads back to it, from wherever it is followed. */
  ghost predicate PathsResolve(V: Volume) {
    forall d, from: nat :: IsDirectory(V.T, d) ==>
      ResolveDir(V.g, V.L, V.disk, from, PathText(V.g, V.L, V.disk, V.T, d)) == Dir(d)
  }

  /** From a formatted volume on, as long as directories get space-free names, paths resolve in every state of the run
      up to the first call that breaks the volume. */
  method RunFormatted(g: Geo, disk: array<Sector>, ghost fat: seq<u16>, ops: seq<Op>)
    returns (dr: Driver, n: nat, cwd: nat, ghost trace: seq<Volume>)
    requires Synced(g, disk[..], fat)
    requires forall a :: g.rootStart <= a < g.dataStart ==> SectorAt(disk[..], a) == Zeros(512)
    requires forall i :: 0 <= i < |ops| ==> CallOk(ops[i]) && PlainOp(ops[i])
    modifies disk
    ensures RunsTo(trace, ops, n) && trace[0] == Volume(g, NoChains(), RootOnly(), old(disk[..]), fat, 0)
    ensures trace[|trace| - 1] == Of(dr, cwd) && (dr.Valid() <==> n == |ops|)
    ensures forall i :: 0 <= i <= n ==> PathsResolve(trace[i])
  {
    hide TreeOk, LayoutOk, Synced, Does, Breaks, Ruined, PathsResolve;
    dr := MountFormatted(g, disk, fat);
    assert AllPlain(dr.g, dr.L, dr.disk[..], dr.T);
    hide AllPlain, PlainOp;
    n, cwd, trace := Run(dr, 0, ops);
    forall i | 0 <= i <= n
      ensures PathsResolve(trace[i])
    {
      assert IsValid(trace[i]) && PlainVolume(trace[i]);
      AllResolve(trace[i]);
    }
  }

  lemma AllResolve(V: Volume)
    requires IsValid(V) && PlainVolume(V)
    ensures PathsResolve(V)
  {
    hide TreeOk, LayoutOk, Synced, AllPlain, ResolveDir, PathText;
    forall d, from: nat | IsDirectory(V.T, d)
      ensures ResolveDir(V.g, V.L, V.disk, from, PathText(V.g, V.L, V.disk, V.T, d)) == Dir(d)
    {
      EveryPathResolves(V.g, V.L, V.disk, V.T, from, d);
    }
  }
}
