/** fat16_create and fat16_mkdir. */
module Fat16Create {
  import opened Bytes
  import opened Fat16Layout
  import opened Fat16Image
  import opened Fat16Dir
  import opened Fat16Name
  import opened Fat16Driver
  import opened Fat16Insert
  import opened Fat16Path
  import opened Fat16DirOps
  import opened Fat16Cuts
  import opened Fat16Free

  datatype Outcome = Refused | Exists | Added

  /** What making name in directory d comes to: an entry of the same kind is left alone, one of the
      other kind refuses, and otherwise it takes a slot (or a cluster for a full subdirectory) and, for
      a directory, a cluster of its own. */
  ghost function Making(g: Geo, L: Layout, disk: seq<Sector>, fat: seq<u16>, p: Place, asDir: bool): Outcome {
    match p
    case Nowhere => Refused
    case Place(d, name) =>
      var v := View(g, L, disk, d);
      var k := Find(v, name, 0);
      if k >= 0 then (if IsDir(Slot(v, k)) == asDir then Exists else Refused)
      else
        var free := |FreeSet(g, fat)| - if asDir then 1 else 0;
        if free >= 0 && (FreeSlot(v, 0) >= 0 || (d != 0 && free > 0)) then Added else Refused
  }

  /** In a valid tree: an entry of that name decides by its kind; without one, something is added exactly when the
      clusters needed are free, which are one for a directory itself, and one more when no slot of d is. */
  lemma MakingMeans(g: Geo, L: Layout, disk: seq<Sector>, T: Tree, fat: seq<u16>, d: nat, name: seq<byte>, asDir: bool)
    requires TreeOk(g, L, disk, T) && IsDirectory(T, d)
    ensures var v, made := View(g, L, disk, d), Making(g, L, disk, fat, Place(d, name), asDir);
            && (made == Exists <==> exists k: nat :: HasEntry(g, L, disk, d, name, k) && IsDir(Slot(v, k)) == asDir)
            && (made == Added <==>
                  && (forall k: nat :: !HasEntry(g, L, disk, d, name, k))
                  && var slot := exists k: nat :: k < 16 * |v| && (Slot(v, k)[0] == 0 || Slot(v, k)[0] == 0xE5);
                     var need := (if asDir then 1 else 0) + if slot then 0 else 1;
                     need <= |FreeSet(g, fat)| && (slot || d != 0))
  {
    hide TreeOk, View, Slot, Find, FreeSlot, FreeSet, HasEntry, IsDir;
    EntryIsFound(g, L, disk, T, d, name);
    SlotIsFree(View(g, L, disk, d));
  }

  lemma EntryIsFound(g: Geo, L: Layout, disk: seq<Sector>, T: Tree, d: nat, name: seq<byte>)
    requires TreeOk(g, L, disk, T) && IsDirectory(T, d)
    ensures var k := Find(View(g, L, disk, d), name, 0);
            && (k >= 0 ==> HasEntry(g, L, disk, d, name, k))
            && forall k': nat :: HasEntry(g, L, disk, d, name, k') ==> k == k'
  {
    var v := View(g, L, disk, d);
    assert DirOk(g, L, T, d, v);
    hide TreeOk, DirOk, View, Slot, Find;
    forall k': nat | HasEntry(g, L, disk, d, name, k')
      ensures Find(v, name, 0) == k'
    {
      FindIndexed(g, L, T, d, v, name, 0, k');
    }
  }

  lemma SlotIsFree(v: seq<Sector>)
    ensures FreeSlot(v, 0) >= 0 <==> exists k: nat :: k < 16 * |v| && (Slot(v, k)[0] == 0 || Slot(v, k)[0] == 0xE5)
  {
    hide Slot, FreeSlot;
    var f := FreeSlot(v, 0);
    if f >= 0 { assert Slot(v, f)[0] == 0 || Slot(v, f)[0] == 0xE5; }
  }

  /** A name that starts neither with the deleted mark nor, like "." and "..", with a period. */
  predicate GoodName(n: seq<byte>)
    requires |n| == 11
  {
    n[0] != 0 && n[0] != DELETED && n[0] != PERIOD
  }

  /** What to_8_3 makes of a component of a C string: a leading period only for "." and "..". */
  predicate EncodedName(n: seq<byte>)
    requires |n| == 11
  {
    n[0] != 0 && (n[0] == PERIOD ==> n == DOT || n == DOTDOT)
  }

  /** The places in the root whose names, in a subdirectory, are those of the dot entries. */
  ghost predicate RootDot(p: Place) { p.Place? && p.dir == 0 && (p.name == DOT || p.name == DOTDOT) }

  /** Exactly the components other than "." and ".." that do not start with byte 0xE5 make a good name. */
  lemma ComponentIsGood(c: seq<byte>)
    requires c != [] && 0 !in c
    ensures EncodedName(Name83(c))
    ensures GoodName(Name83(c)) <==> c != [PERIOD] && c != [PERIOD, PERIOD] && c[0] != DELETED
  {
    var b := Take(Before(c, PERIOD), 8);
    DotNames();
    if c != [PERIOD] && c != [PERIOD, PERIOD] {
      if c[0] != PERIOD {
        assert b != [] && b[0] == c[0];
        assert Pad(UpperAll(b), 8)[0] == Upper(c[0]);
      } else {
        assert b == [];
        assert Pad(UpperAll(b), 8)[0] == SPACE;
      }
    }
  }

  /** The name a path resolves to is the encoding of its last component. */
  lemma PlaceName(g: Geo, L: Layout, disk: seq<Sector>, cwd: nat, path: seq<byte>)
    requires 0 !in path
    ensures var p := Resolve(g, L, disk, cwd, path);
            p.Place? ==> |p.name| == 11 && EncodedName(p.name) && p.name == Name83(LastComp(SkipSlashes(path)))
  {
    var p := SkipSlashes(path);
    if p != [] {
      SkipInside(path);
      WalkName(g, L, disk, if path[0] == SLASH then 0 else cwd, p);
      hide Name83, EncodedName, GoodName, Walk;
      ComponentIsGood(LastComp(p));
    }
  }

  lemma {:induction false} FindReaches(v: seq<Sector>, name: seq<byte>, i: nat, k: nat)
    requires i <= k < 16 * |v|
    requires forall j: nat :: i <= j < k ==> !IsEmpty(Slot(v, j)) && !(IsLive(Slot(v, j)) && NameOf(Slot(v, j)) == name)
    ensures Find(v, name, i) == Find(v, name, k)
    decreases k - i
  {
    hide Slot;
    if i < k { FindReaches(v, name, i + 1, k); }
  }

  lemma {:induction false} FindPassed(v: seq<Sector>, name: seq<byte>, i: nat, j: nat)
    requires Find(v, name, i) == -1 && i <= j < 16 * |v| && forall x: nat :: i <= x < j ==> !IsEmpty(Slot(v, x))
    ensures !(IsLive(Slot(v, j)) && NameOf(Slot(v, j)) == name)
    decreases j - i
  {
    hide Slot;
    if i < j { FindPassed(v, name, i + 1, j); }
  }

  /** After an entry was made for a name that was not there, lookup finds that entry exactly when the name does
      not start with the deleted mark. */
  lemma MadeIsFound(v: seq<Sector>, v': seq<Sector>, k: nat, name: seq<byte>, attr: byte, first: u16)
    requires |name| == 11 && name[0] != 0 && (attr == ATTR_ARCHIVE || attr == ATTR_DIRECTORY)
    requires Inserted(v, v', k, MakeEntry(name, attr, first, 0)) && Find(v, name, 0) == -1
    ensures Find(v', name, 0) == k <==> name[0] != DELETED
  {
    hide Slot, FreeSlot, Find;
    var e := MakeEntry(name, attr, first, 0);
    assert NameOf(e)[0] == name[0];
    if name[0] != DELETED {
      forall j: nat | j < k
        ensures !IsEmpty(Slot(v', j)) && !(IsLive(Slot(v', j)) && NameOf(Slot(v', j)) == name)
      {
        FindPassed(v, name, 0, j);
      }
      FindReaches(v', name, 0, k);
      SlotInSector(v', k / 16, k % 16);
      FindStep(v', name, k / 16, k % 16);
    }
  }

  /** Nothing is a tree of this disk, whatever its chains are taken to be. */
  ghost predicate NoTree(g: Geo, disk: seq<Sector>) {
    forall L: Layout, T: Tree :: !TreeOk(g, L, disk, T)
  }

  /** A root directory with a live entry whose name starts with a period is the root of no tree. */
  lemma NoTreeWithDot(g: Geo, L: Layout, disk: seq<Sector>, k: nat)
    requires k < 16 * |View(g, L, disk, 0)|
    requires var e := Slot(View(g, L, disk, 0), k); IsLive(e) && e[0] == PERIOD
    ensures NoTree(g, disk)
  {
    forall L': Layout, T: Tree
      ensures !TreeOk(g, L', disk, T)
    {
      assert View(g, L', disk, 0) == View(g, L, disk, 0);
      assert TreeOk(g, L', disk, T) ==> EntryOk(g, L', T, 0, k, Slot(View(g, L', disk, 0), k));
    }
  }

  /** "." and ".." are always found in a subdirectory, so what is not found has a good name, starts with the
      deleted mark or is a dot in the root. */
  lemma NotFoundIsGood(g: Geo, fat: seq<u16>, L: Layout, disk: seq<Sector>, T: Tree, d: nat, name: seq<byte>)
    requires LayoutOk(g, fat, L) && TreeOk(g, L, disk, T) && IsDirectory(T, d) && |name| == 11 && EncodedName(name)
    requires Find(View(g, L, disk, d), name, 0) == -1
    ensures GoodName(name) || name[0] == DELETED || RootDot(Place(d, name))
  {
    hide Slot, View, Find, TreeOk, LayoutOk;
    if d != 0 { DotsFound(g, fat, L, disk, T, d); }
  }

  /** In the root "." is not found, so making "/." adds an entry called "." there. */
  lemma RootDotIsAdded(g: Geo, fat: seq<u16>, L: Layout, disk: seq<Sector>, T: Tree, cwd: nat)
    requires LayoutOk(g, fat, L) && TreeOk(g, L, disk, T) && FreeSlot(View(g, L, disk, 0), 0) >= 0
    ensures var p := Resolve(g, L, disk, cwd, [SLASH, PERIOD]);
            p == Place(0, DOT) && Making(g, L, disk, fat, p, false) == Added && RootDot(p)
  {
    var v, path := View(g, L, disk, 0), [SLASH, PERIOD];
    assert path[1..] == [PERIOD] && SkipSlashes(path) == [PERIOD];
    LastIsAll([PERIOD]);
    var k := Find(v, DOT, 0);
    assert DirOk(g, L, T, 0, v);
    assert k >= 0 ==> EntryOk(g, L, T, 0, k, Slot(v, k));
    DotNames();
  }

  lemma LastIsAll(c: seq<byte>)
    requires c == [PERIOD]
    ensures FirstComp(c) == c && RestPath(c) == []
  {
    assert IndexOf(c, SLASH) == 1;
  }

  lemma NewEntryIsLive(name: seq<byte>, attr: byte, first: u16)
    requires |name| == 11 && name[0] != 0 && (attr == ATTR_ARCHIVE || attr == ATTR_DIRECTORY)
    ensures var e := MakeEntry(name, attr, first, 0);
            && !IsEmpty(e) && (IsLive(e) <==> name[0] != DELETED) && e[0] == name[0]
            && NameOf(e) == name && FirstOf(e) == first && SizeOf(e) == 0 && IsDir(e) == (attr == ATTR_DIRECTORY)
  {
    var e := MakeEntry(name, attr, first, 0);
    assert NameOf(e)[0] == name[0];
  }

  lemma FreeCount(g: Geo, fat: seq<u16>)
    ensures |FreeSet(g, fat)| > 0 <==> FreeSet(g, fat) != {}
  {
  }

  /** A freshly made file: what dir_insert did is an insertion into the old tree. */
  lemma FileInsertion(g: Geo, fat: seq<u16>, L: Layout, T: Tree, disk: seq<Sector>, d: nat, k: nat, e: Entry,
      L': Layout, disk': seq<Sector>)
    requires LayoutOk(g, fat, L) && TreeOk(g, L, disk, T) && IsDirectory(T, d) &&
             InsertedInto(g, L, disk, L', disk', d, k, e)
    requires (d == 0 || d in L.chains) && !IsEmpty(e)
    ensures PutIn(Insertion(g, L, T, disk, d, k, e, L', disk'))
    ensures (IsLive(e) ==> e[0] != PERIOD && Find(View(g, L, disk, d), NameOf(e), 0) == -1) ==>
            InsertionOk(Insertion(g, L, T, disk, d, k, e, L', disk'))
  {
    hide TreeOk, Inserted, View, Find, Slot;
  }

  /** The lookup both calls start with. */
  method LookAt(dr: Driver, cwd: nat, path: seq<byte>) returns (ok: bool, parent: nat, name: seq<byte>, found: bool,
      isDir: bool)
    requires dr.Valid() && IsDirectory(dr.T, cwd)
    modifies dr.dirBuf
    ensures Resolve(dr.g, dr.L, dr.disk[..], cwd, path) == if ok then Place(parent, name) else Nowhere
    ensures ok ==> IsDirectory(dr.T, parent) && |name| == 11 && (parent == 0 || parent in dr.L.chains)
    ensures ok ==>
              var v := View(dr.g, dr.L, dr.disk[..], parent);
              var k := Find(v, name, 0);
              found == (k >= 0) && (!found ==> k == -1) && (found ==> isDir == IsDir(Slot(v, k)))
    ensures dr.disk[..] == old(dr.disk[..]) && dr.fat[..] == old(dr.fat[..])
  {
    hide Resolve, TreeOk, LayoutOk, Synced, View, Find, Slot;
    found, isDir := false, false;
    ok, parent, name := ResolvePath(dr, cwd, path);
    if !ok { return; }
    dr.DirHasChain(parent);
    var e, lba, index;
    ghost var k;
    found, e, lba, index, k := dr.DirLookup(parent, name);
    isDir := found && IsDir(e);
  }

  /** fat16_create: makes an empty file, unless one is there already. The volume stays a tree exactly unless the
      entry made is a dot in the root. */
  method Create(dr: Driver, cwd: nat, path: seq<byte>) returns (r: int, parent: nat, ghost k: nat, ghost at: nat)
    requires dr.Valid() && IsDirectory(dr.T, cwd) && 0 !in path
    modifies dr.disk, dr.fat, dr.dirBuf, dr
    ensures dr.Mounted()
    ensures var p := Resolve(dr.g, old(dr.L), old(dr.disk[..]), cwd, path);
            var made := Making(dr.g, old(dr.L), old(dr.disk[..]), old(dr.fat[..]), p, false);
            && r == (if made == Refused then -1 else 0)
            && (r == 0 ==> p.Place? && parent == p.dir)
            && (made != Added ==> dr.disk[..] == old(dr.disk[..]) && dr.fat[..] == old(dr.fat[..]) &&
                                  dr.L == old(dr.L) && dr.T == old(dr.T) && dr.trail == old(dr.trail))
            && (made != Added || !RootDot(p) ==> dr.Valid())
            && (made == Added ==>
                  && p.Place? && |p.name| == 11 && p.dir in old(dr.T.used)
                  && InsertedInto(dr.g, old(dr.L), old(dr.disk[..]), dr.L, dr.disk[..], p.dir, k,
                     MakeEntry(p.name, ATTR_ARCHIVE, 0, 0))
                  && |FreeSet(dr.g, dr.fat[..])| + Grown(View(dr.g, old(dr.L), old(dr.disk[..]), p.dir)) ==
                     |FreeSet(dr.g, old(dr.fat[..]))|
                  && InsertCuts(dr.g, old(dr.fat[..]), old(dr.L), old(dr.disk[..]), old(dr.trail), dr.fat[..], dr.L,
                       dr.disk[..], dr.trail, p.dir, at)
                  && (RootDot(p) ==> NoTree(dr.g, dr.disk[..]))
                  && (!RootDot(p) ==> dr.T == AddEntry(old(dr.T), p.dir, k, MakeEntry(p.name, ATTR_ARCHIVE, 0, 0))))
  {
    hide Resolve, TreeOk, LayoutOk, Synced, View, Find, Slot, InsertedInto, FreeSlot, FreeSet, InsertionOk, PutIn,
      MakeEntry, InsertCuts, Grown;
    ghost var disk0, fat0, L0, T0 := dr.disk[..], dr.fat[..], dr.L, dr.T;
    k, at := 0, 0;
    PlaceName(dr.g, L0, disk0, cwd, path);
    var ok, name, found, isDir;
    ok, parent, name, found, isDir := LookAt(dr, cwd, path);
    if !ok { return -1, parent, k, at; }
    if found { return if isDir then -1 else 0, parent, k, at; }
    NotFoundIsGood(dr.g, fat0, L0, disk0, T0, parent, name);
    FreeCount(dr.g, fat0);
    var e := MakeEntry(name, ATTR_ARCHIVE, 0, 0);
    NewEntryIsLive(name, ATTR_ARCHIVE, 0);
    ok, k, at := DirInsert(dr, parent, e);
    if !ok { return -1, parent, k, at; }
    FileInsertion(dr.g, fat0, L0, T0, disk0, parent, k, e, dr.L, dr.disk[..]);
    UsedDir(dr.g, L0, disk0, T0, parent);
    if RootDot(Place(parent, name)) {
      DotPutIn(Insertion(dr.g, L0, T0, disk0, parent, k, e, dr.L, dr.disk[..]));
    } else {
      FileInserted(Insertion(dr.g, L0, T0, disk0, parent, k, e, dr.L, dr.disk[..]));
      dr.T := AddEntry(T0, parent, k, e);
    }
    r := 0;
  }

  lemma UsedDir(g: Geo, L: Layout, disk: seq<Sector>, T: Tree, d: nat)
    requires TreeOk(g, L, disk, T) && IsDirectory(T, d)
    ensures d in T.used
  {
  }

  lemma DotPutIn(I: Insertion)
    requires PutIn(I) && I.d == 0 && IsLive(I.e) && I.e[0] == PERIOD
    ensures NoTree(I.g, I.disk')
  {
    hide TreeOk, View, Slot;
    NoTreeWithDot(I.g, I.L', I.disk', I.k);
  }

  // ---- fat16_mkdir ------------------------------------------------------------------------------------

  /** Work inside a free cluster leaves every object and the FAT on disk alone. */
  lemma FreeClusterWritten(g: Geo, fat: seq<u16>, L: Layout, disk: seq<Sector>, disk': seq<Sector>, c: nat)
    requires LayoutOk(g, fat, L) && Synced(g, disk, fat) && Unowned(L, c) && 2 <= c < g.clusters &&
             SameOutside(g, c, disk, disk')
    ensures Synced(g, disk', fat)
    ensures forall o :: View(g, L, disk', o) == View(g, L, disk, o)
  {
    forall o
      ensures View(g, L, disk', o) == View(g, L, disk, o)
    {
      hide View, LayoutOk, Unowned, SameOutside;
      ViewsOutside(g, fat, L, disk, disk', c, o);
    }
    ClusterLbaBound(g, c, 0);
    hide View, LayoutOk, Unowned, ClusterLba, FatLba, FatSector;
    forall f, s | 0 <= f < g.numFats && 0 <= s < g.fatSectors
      ensures SectorAt(disk', FatLba(g, f, s)) == FatSector(fat, s)
    {
      FatLbaBound(g, disk, f, s);
      assert SectorAt(disk, FatLba(g, f, s)) == FatSector(fat, s);
    }
  }

  /** The new directory's cluster: a chain of its own that holds "." and "..". */
  lemma NewCluster(g: Geo, fat: seq<u16>, L: Layout, disk: seq<Sector>, disk': seq<Sector>, c: nat, p: nat, s: Sector)
    requires LayoutOk(g, fat, L) && DiskOk(g, disk) && c < |fat| && fat[c] == 0 && 2 <= c < g.clusters &&
             SameOutside(g, c, disk, disk')
    requires p < 0x1_0000 && s == SetSlot(SetSlot(Zeros(512), 0, MakeEntry(DOT, ATTR_DIRECTORY, c, 0)), 1,
             MakeEntry(DOTDOT, ATTR_DIRECTORY, p, 0))
    requires ZeroTail(ClusterSectors(g, disk', c), s)
    ensures LayoutOk(g, fat[c := END], Start(L, c)) && c !in L.chains
    ensures JustDots(View(g, Start(L, c), disk', c), c, p)
    ensures forall o :: o != c ==> View(g, Start(L, c), disk', o) == View(g, L, disk, o)
  {
    FreeIsUnowned(g, fat, L, c);
    StartOk(g, fat, L, c);
    hide View, LayoutOk, Unowned, ClusterSectors, SameOutside, SetSlot, MakeEntry, Slot, ZeroTail;
    StartedView(g, L, disk', c);
    StartViews(g, L, disk', c);
    TwoEntries(ClusterSectors(g, disk', c), MakeEntry(DOT, ATTR_DIRECTORY, c, 0),
      MakeEntry(DOTDOT, ATTR_DIRECTORY, p, 0));
    forall o | o != c
      ensures View(g, Start(L, c), disk', o) == View(g, L, disk, o)
    {
      ViewsOutside(g, fat, L, disk, disk', c, o);
    }
  }

  /** Making the cluster and inserting its entry is an insertion of a directory into the old tree. */
  lemma DirInsertion(g: Geo, fat: seq<u16>, L: Layout, T: Tree, disk: seq<Sector>, disk1: seq<Sector>, d: nat, c: nat,
      k: nat, e: Entry, L': Layout, disk': seq<Sector>)
    requires LayoutOk(g, fat, L) && TreeOk(g, L, disk, T) && IsDirectory(T, d) && (d == 0 || d in L.chains)
    requires c != 0 && c !in L.chains && (forall o :: o != c ==> View(g, Start(L, c), disk1, o) == View(g, L, disk, o))
    requires JustDots(View(g, Start(L, c), disk1, c), c, d)
    requires InsertedInto(g, Start(L, c), disk1, L', disk', d, k, e)
    requires !IsEmpty(e) && IsDir(e) && FirstOf(e) == c && Find(View(g, L, disk, d), NameOf(e), 0) == -1
    ensures var I := Insertion(g, L, T, disk, d, k, e, L', disk');
            && PutIn(I) && c in L'.chains && JustDots(View(g, L', disk', c), c, d)
            && ((IsLive(e) ==> e[0] != PERIOD) ==> InsertionOk(I)) && (IsLive(e) && e[0] != PERIOD ==> NewDir(I, c))
  {
    hide TreeOk, Inserted, View, Find, Slot, JustDots;
  }

  /** Giving a cluster that was just taken back restores the FAT. */
  lemma TakenAndFreed(g: Geo, fat: seq<u16>, L: Layout, c: nat)
    requires c < |fat| && fat[c] == 0
    ensures c in Start(L, c).chains && Freed(fat[c := END], Start(L, c).chains[c]) == fat
  {
  }

  lemma MakingDir(g: Geo, L: Layout, disk: seq<Sector>, fat: seq<u16>, d: nat, name: seq<byte>, c: nat)
    requires Find(View(g, L, disk, d), name, 0) == -1 && 2 <= c < g.clusters && c < |fat| && fat[c] == 0
    ensures Making(g, L, disk, fat, Place(d, name), true) ==
              if FreeSlot(View(g, L, disk, d), 0) >= 0 ||
                (d != 0 && FreeSet(g, fat[c := END]) != {}) then Added else Refused
  {
    hide View, Find, FreeSlot, FreeSet;
    FreeSetTaken(g, fat, c, END);
    FreeCount(g, fat[c := END]);
  }

  lemma FoundIsNotAdded(g: Geo, L: Layout, disk: seq<Sector>, fat: seq<u16>, p: Place)
    requires p.Place? ==> Find(View(g, L, disk, p.dir), p.name, 0) >= 0
    ensures Making(g, L, disk, fat, p, true) == if p.Place? &&
            IsDir(Slot(View(g, L, disk, p.dir), Find(View(g, L, disk, p.dir), p.name, 0))) then Exists else Refused
  {
    hide View, Find, Slot;
  }

  lemma NoneFree(g: Geo, L: Layout, disk: seq<Sector>, fat: seq<u16>, d: nat, name: seq<byte>)
    requires Find(View(g, L, disk, d), name, 0) == -1 && FreeSet(g, fat) == {}
    ensures Making(g, L, disk, fat, Place(d, name), true) == Refused
  {
    hide View, Find;
  }

  /** The tree after a directory was made in cluster c with entry e: a directory more, or only a slot less. */
  ghost function MadeDir(T: Tree, d: nat, k: nat, e: Entry, c: nat): Tree
    requires d in T.used
  {
    if IsLive(e) then AddDir(T, d, k, NameOf(e), c) else AddEntry(T, d, k, e)
  }

  /** What is left to say when the entry is in place: the tree it makes, or that there is none. */
  lemma DirMade(I: Insertion, c: nat)
    requires PutIn(I) && !IsEmpty(I.e) && (IsLive(I.e) && I.e[0] == PERIOD ==> I.d == 0)
    requires (IsLive(I.e) ==> I.e[0] != PERIOD) ==> InsertionOk(I)
    requires IsLive(I.e) && I.e[0] != PERIOD ==> NewDir(I, c)
    ensures I.d in I.T.used
    ensures (IsLive(I.e) ==> I.e[0] != PERIOD) ==> TreeOk(I.g, I.L', I.disk', MadeDir(I.T, I.d, I.k, I.e, c))
    ensures IsLive(I.e) && I.e[0] == PERIOD ==> NoTree(I.g, I.disk')
  {
    hide TreeOk, InsertionOk, NewDir, View, Slot;
    PutInUsed(I);
    if !IsLive(I.e) {
      FileInserted(I);
    } else if I.e[0] != PERIOD {
      DirInserted(I, c);
    } else {
      DotPutIn(I);
    }
  }

  lemma PutInUsed(I: Insertion)
    requires PutIn(I)
    ensures I.d in I.T.used
  {
    hide View, Slot;
    UsedDir(I.g, I.L, I.disk, I.T, I.d);
  }

  /** The entry for a directory whose cluster c has been prepared; on failure c is given back. */
  method AddDirectory(dr: Driver, parent: nat, name: seq<byte>, c: nat, ghost fat0: seq<u16>,
      ghost disk0: seq<Sector>, ghost L0: Layout)
    returns (ok: bool, ghost k: nat, ghost at: nat)
    requires dr.Shaped() && |name| == 11 && EncodedName(name) && (parent == 0 || parent in L0.chains)
    requires LayoutOk(dr.g, fat0, L0) && TreeOk(dr.g, L0, disk0, dr.T) && IsDirectory(dr.T, parent)
    requires 2 <= c < dr.g.clusters && c < |fat0| && fat0[c] == 0 && c !in L0.chains && parent != c
    requires dr.L == Start(L0, c) && dr.fat[..] == fat0[c := END] && LayoutOk(dr.g, dr.fat[..], dr.L)
    requires JustDots(View(dr.g, dr.L, dr.disk[..], c), c, parent)
    requires forall o :: o != c ==> View(dr.g, dr.L, dr.disk[..], o) == View(dr.g, L0, disk0, o)
    requires Find(View(dr.g, L0, disk0, parent), name, 0) == -1
    modifies dr.disk, dr.fat, dr.dirBuf, dr
    ensures ok <==> FreeSlot(View(dr.g, L0, disk0, parent), 0) >= 0 ||
                    (parent != 0 && FreeSet(dr.g, fat0[c := END]) != {})
    ensures !ok ==> dr.fat[..] == fat0 && dr.L == L0 && dr.T == old(dr.T) && dr.disk[..] == old(dr.disk[..])
    ensures ok ==> dr.Mounted() && dr.T == old(dr.T)
    ensures ok ==> InsertedInto(dr.g, Start(L0, c), old(dr.disk[..]), dr.L, dr.disk[..], parent, k,
                   MakeEntry(name, ATTR_DIRECTORY, c, 0))
    ensures ok ==> |FreeSet(dr.g, dr.fat[..])| + 1 + Grown(View(dr.g, L0, disk0, parent)) == |FreeSet(dr.g, fat0)|
    ensures !ok ==> dr.trail == old(dr.trail)
    ensures ok ==> DirCuts(dr.g, fat0[c := END], Start(L0, c), old(dr.disk[..]), old(dr.trail), dr.fat[..], dr.L,
                     dr.disk[..], dr.trail, parent, at)
  {
    hide TreeOk, LayoutOk, Synced, View, Find, Slot, InsertedInto, FreeSlot, FreeSet, InsertionOk, MakeEntry, Start,
      JustDots, Flushing, NewDir, InsertCuts, FlushCut, DirCuts;
    var e := MakeEntry(name, ATTR_DIRECTORY, c, 0);
    NewEntryIsLive(name, ATTR_DIRECTORY, c);
    ghost var L1, disk1 := dr.L, dr.disk[..];
    StartKeeps(L0, c);
    FreeSetTaken(dr.g, fat0, c, END);
    ok, k, at := DirInsert(dr, parent, e);
    if !ok {
      TakenAndFreed(dr.g, fat0, L0, c);
      FreeChain(dr, c);
      dr.L := L0;
      return;
    }
    ghost var disk2, trail2 := dr.disk[..], dr.trail;
    dr.FlushFat();
    InsertedAbove(dr.g, dr.fat[..], L1, disk1, dr.L, disk2, dr.disk[..], parent, k, e);
    FlushedThen(dr.g, fat0[c := END], L1, disk1, old(dr.trail), dr.fat[..], dr.L, disk2, trail2, dr.disk[..], dr.trail,
      parent, at);
  }

  ghost predicate HasGrown(fat1: seq<u16>, L1: Layout, fat: seq<u16>, L: Layout, d: nat) {
    exists last: nat, c: nat :: GrewBy(fat1, L1, fat, L, d, last, c)
  }

  /** The images of an insertion and the flush of the FAT behind it. */
  ghost predicate DirCuts(g: Geo, fat1: seq<u16>, L1: Layout, disk1: seq<Sector>, trail1: seq<seq<Sector>>,
      fat: seq<u16>, L: Layout, disk: seq<Sector>, trail: seq<seq<Sector>>, d: nat, at: nat)
  {
    && |trail1| <= |trail| && trail[..|trail1|] == trail1 && Cuts(g, L1, disk1, trail, |trail1|, at, fat, disk)
    && at + g.fatSectors < |trail|
    && if Grown(View(g, L1, disk1, d)) == 0 then fat == fat1 && L == L1
       else Quiet(g, L1, disk1, trail[at]) && HasGrown(fat1, L1, fat, L, d)
  }

  lemma FlushedThen(g: Geo, fat1: seq<u16>, L1: Layout, disk1: seq<Sector>, trail1: seq<seq<Sector>>, fat: seq<u16>,
      L: Layout, disk2: seq<Sector>, trail2: seq<seq<Sector>>, disk: seq<Sector>, trail: seq<seq<Sector>>, d: nat,
      at: nat)
    requires InsertCuts(g, fat1, L1, disk1, trail1, fat, L, disk2, trail2, d, at)
    requires |trail| >= |trail2| + g.fatSectors && trail[..|trail2|] == trail2 && SameAbove(g, disk2, disk)
    requires forall i :: |trail2| <= i < |trail| ==> FlushCut(g, disk2, fat, trail[i], i + 1 - |trail2|)
    ensures DirCuts(g, fat1, L1, disk1, trail1, fat, L, disk, trail, d, at)
  {
    hide View, FlushCut, Quiet, GrewBy, Synced, Grown;
    assert trail[at] == trail2[at];
    forall i | at <= i < |trail|
      ensures FlushCut(g, trail[at], fat, trail[i], i - at)
    {
      if i < |trail2| {
        assert trail[i] == trail2[i];
      } else if Grown(View(g, L1, disk1, d)) != 0 {
        CutAgain(g, trail[at], disk2, fat, trail[i], i + 1 - |trail2|, i - at);
      }
    }
    assert forall i :: |trail1| <= i < at ==> trail[i] == trail2[i];
    assert trail[..|trail1|] == trail2[..|trail1|];
  }

  /** Flushing a FAT that is on disk already changes nothing. */
  lemma CutAgain(g: Geo, base: seq<Sector>, disk: seq<Sector>, fat: seq<u16>, img: seq<Sector>, n: nat, m: nat)
    requires Synced(g, disk, fat) && SameAbove(g, base, disk) && FlushCut(g, disk, fat, img, n) && m >= g.fatSectors
    ensures FlushCut(g, base, fat, img, m)
  {
    hide FatSector, SectorAt, FatLba;
    forall s: nat | s < g.fatSectors
      ensures FatCopy(g, img, s) == FatSector(fat, s)
    {
      FatLbaFirst(g, s);
      assert SectorAt(disk, FatLba(g, 0, s)) == FatSector(fat, s);
      assert FatCopy(g, img, s) == if s < n then FatSector(fat, s) else FatCopy(g, disk, s);
    }
  }

  /** The images of a made directory: inside the free cluster c, then those of the insertion. */
  lemma MkdirCuts(g: Geo, fat0: seq<u16>, L0: Layout, disk0: seq<Sector>, trail0: seq<seq<Sector>>, c: nat,
      disk1: seq<Sector>, trail1: seq<seq<Sector>>, fat: seq<u16>, L: Layout, disk: seq<Sector>,
      trail: seq<seq<Sector>>, d: nat, at: nat)
    requires LayoutOk(g, fat0, L0) && DiskOk(g, disk0) && Unowned(L0, c) && 2 <= c < g.clusters && d != c
    requires c < |fat0| && fat0[c] == 0
    requires Within(g, c, disk0, trail0, trail1) && SameOutside(g, c, disk0, disk1) && c !in L0.chains
    requires DirCuts(g, fat0[c := END], Start(L0, c), disk1, trail1, fat, L, disk, trail, d, at)
    ensures MadeCuts(g, fat0, L0, disk0, trail0, c, fat, L, disk, trail, d, at)
  {
    hide LayoutOk, View, Unowned, SameOutside, FlushCut, Quiet, GrewBy, Grown;
    WithinIsQuiet(g, fat0, L0, disk0, disk1, c);
    forall i | |trail0| <= i < at
      ensures Quiet(g, L0, disk0, trail[i])
    {
      if i < |trail1| {
        assert trail[i] == trail1[i];
        WithinIsQuiet(g, fat0, L0, disk0, trail1[i], c);
      } else {
        QuietBefore(g, L0, c, disk0, disk1, trail[i]);
      }
    }
    FatsBefore(g, L0, disk0, disk1, trail[at]);
    SameParent(g, L0, c, disk0, disk1, d);
    if Grown(View(g, L0, disk0, d)) != 0 { QuietBefore(g, L0, c, disk0, disk1, trail[at]); }
    assert trail[..|trail0|] == trail1[..|trail0|];
  }

  lemma SameParent(g: Geo, L0: Layout, c: nat, disk0: seq<Sector>, disk1: seq<Sector>, d: nat)
    requires Quiet(g, L0, disk0, disk1) && c !in L0.chains && c != 0 && d != c
    ensures View(g, Start(L0, c), disk1, d) == View(g, L0, disk0, d)
  {
    hide View;
    StartViews(g, L0, disk1, c);
  }

  lemma FatsBefore(g: Geo, L0: Layout, disk0: seq<Sector>, disk1: seq<Sector>, img: seq<Sector>)
    requires Quiet(g, L0, disk0, disk1) && SameFats(g, disk1, img)
    ensures SameFats(g, disk0, img)
  {
    hide View;
  }

  lemma QuietBefore(g: Geo, L0: Layout, c: nat, disk0: seq<Sector>, disk1: seq<Sector>, img: seq<Sector>)
    requires Quiet(g, L0, disk0, disk1) && Quiet(g, Start(L0, c), disk1, img) && c !in L0.chains && c != 0
    ensures Quiet(g, L0, disk0, img)
  {
    forall o
      ensures View(g, L0, img, o) == View(g, L0, disk0, o)
    {
      if o == c {
        assert View(g, L0, img, c) == [] == View(g, L0, disk0, c);
      } else {
        hide View;
        StartViews(g, L0, img, c);
        StartViews(g, L0, disk1, c);
        assert View(g, Start(L0, c), img, o) == View(g, Start(L0, c), disk1, o);
      }
    }
    hide View;
  }

  ghost predicate MadeCuts(g: Geo, fat0: seq<u16>, L0: Layout, disk0: seq<Sector>, trail0: seq<seq<Sector>>, c: nat,
      fat: seq<u16>, L: Layout, disk: seq<Sector>, trail: seq<seq<Sector>>, d: nat, at: nat)
  {
    && |trail0| <= |trail| && trail[..|trail0|] == trail0 && Cuts(g, L0, disk0, trail, |trail0|, at, fat, disk)
    && at + g.fatSectors < |trail| && c < |fat0| && fat0[c] == 0 && c !in L0.chains && 2 <= c < g.clusters && d != c
    && if Grown(View(g, L0, disk0, d)) == 0 then fat == fat0[c := END] && L == Start(L0, c)
       else Quiet(g, L0, disk0, trail[at]) && HasGrown(fat0[c := END], Start(L0, c), fat, L, d)
  }

  lemma StartKeeps(L: Layout, c: nat)
    ensures forall o :: o in L.chains || o == c <==> o in Start(L, c).chains
  {
  }

  /** fat16_mkdir: makes a directory holding "." and "..", unless one is there already. A failed call
      gives the cluster it took back. The volume stays a tree exactly unless the entry made is a dot in
      the root. */
  method Mkdir(dr: Driver, cwd: nat, path: seq<byte>) returns (r: int, ghost k: nat, ghost c: nat, ghost at: nat)
    requires dr.Valid() && IsDirectory(dr.T, cwd) && 0 !in path
    modifies dr.disk, dr.fat, dr.dirBuf, dr
    ensures dr.Mounted()
    ensures var p := Resolve(dr.g, old(dr.L), old(dr.disk[..]), cwd, path);
            var made := Making(dr.g, old(dr.L), old(dr.disk[..]), old(dr.fat[..]), p, true);
            && r == (if made == Refused then -1 else 0)
            && (made != Added ==>
                  && dr.fat[..] == old(dr.fat[..]) && dr.L == old(dr.L) && dr.T == old(dr.T)
                  && QuietTrail(dr.g, old(dr.L), old(dr.disk[..]), old(dr.trail), dr.trail)
                  && forall o :: View(dr.g, dr.L, dr.disk[..], o) == View(dr.g, old(dr.L), old(dr.disk[..]), o))
            && (made != Added || !RootDot(p) ==> dr.Valid())
            && (made == Added ==>
                  && p.Place? && |p.name| == 11 && p.dir in old(dr.T.used) && c < 0x1_0000
                  && var e := MakeEntry(p.name, ATTR_DIRECTORY, c, 0);
                  var I := Insertion(dr.g, old(dr.L), old(dr.T), old(dr.disk[..]), p.dir, k, e, dr.L, dr.disk[..]);
                  && |FreeSet(dr.g, dr.fat[..])| + 1 + Grown(View(dr.g, old(dr.L), old(dr.disk[..]), p.dir)) ==
                     |FreeSet(dr.g, old(dr.fat[..]))|
                  && PutIn(I) && c !in old(dr.L.chains) && c in dr.L.chains &&
                     JustDots(View(dr.g, dr.L, dr.disk[..], c), c, p.dir)
                  && MadeCuts(dr.g, old(dr.fat[..]), old(dr.L), old(dr.disk[..]), old(dr.trail), c, dr.fat[..], dr.L,
                       dr.disk[..], dr.trail, p.dir, at)
                  && (RootDot(p) ==> NoTree(dr.g, dr.disk[..]))
                  && (!RootDot(p) ==> dr.T == MadeDir(old(dr.T), p.dir, k, e, c)))
  {
    hide Resolve, TreeOk, LayoutOk, Synced, View, Find, Slot, InsertedInto, FreeSlot, FreeSet, InsertionOk, PutIn,
      MakeEntry, Making, MadeDir, RootDot, Start, JustDots, NewDir, SameOutside, ZeroTail, ClusterSectors, SetSlot,
      Unowned, Grown, MadeCuts, DirCuts, QuietTrail, Within, IsDirectory, NoTree, GoodName, EncodedName;
    ghost var g, disk0, fat0, L0, T0 := dr.g, dr.disk[..], dr.fat[..], dr.L, dr.T;
    k, c, at := 0, 0, 0;
    QuietNothing(g, L0, disk0, dr.trail);
    PlaceName(g, L0, disk0, cwd, path);
    var ok, parent, name, found, isDir := LookAt(dr, cwd, path);
    if !ok || found {
      FoundIsNotAdded(g, L0, disk0, fat0, Resolve(g, L0, disk0, cwd, path));
      return if ok && isDir then 0 else -1, k, c, at;
    }
    NotFoundIsGood(g, fat0, L0, disk0, T0, parent, name);
    var cluster := dr.AllocCluster();
    if cluster == 0 {
      NoneFree(g, L0, disk0, fat0, parent, name);
      return -1, k, c, at;
    }
    c := cluster;
    MakingDir(g, L0, disk0, fat0, parent, name, c);
    FreeIsUnowned(g, fat0, L0, c);
    ParentIsShort(g, fat0, L0, parent);
    ghost var s := InitCluster(dr, cluster, MakeEntry(DOT, ATTR_DIRECTORY, cluster, 0), true,
      MakeEntry(DOTDOT, ATTR_DIRECTORY, parent, 0));
    ghost var disk1, trail1 := dr.disk[..], dr.trail;
    NewCluster(g, fat0, L0, disk0, disk1, c, parent, s);
    FreeClusterWritten(g, fat0, L0, disk0, disk1, c);
    dr.L := Start(dr.L, c);
    ok, k, at := AddDirectory(dr, parent, name, cluster, fat0, disk0, L0);
    if !ok {
      TreeSame(g, L0, T0, disk0, disk1);
      QuietMore(g, fat0, L0, disk0, old(dr.trail), disk0, old(dr.trail), c, trail1);
      return -1, k, c, at;
    }
    MkdirDone(g, fat0, L0, T0, disk0, disk1, parent, name, c, k, dr.L, dr.disk[..]);
    MkdirCuts(g, fat0, L0, disk0, old(dr.trail), c, disk1, trail1, dr.fat[..], dr.L, dr.disk[..], dr.trail, parent, at);
    if !RootDot(Place(parent, name)) { dr.T := MadeDir(T0, parent, k, MakeEntry(name, ATTR_DIRECTORY, c, 0), c); }
    r := 0;
  }

  /** The tree of the volume with the new directory, or that there is none. */
  lemma MkdirDone(g: Geo, fat0: seq<u16>, L0: Layout, T0: Tree, disk0: seq<Sector>, disk1: seq<Sector>, d: nat,
      name: seq<byte>, c: u16, k: nat, L: Layout, disk: seq<Sector>)
    requires LayoutOk(g, fat0, L0) && TreeOk(g, L0, disk0, T0) && IsDirectory(T0, d) && (d == 0 || d in L0.chains)
    requires |name| == 11 && EncodedName(name) && Find(View(g, L0, disk0, d), name, 0) == -1
    requires GoodName(name) || name[0] == DELETED || RootDot(Place(d, name))
    requires c != 0 && c !in L0.chains &&
             (forall o :: o != c ==> View(g, Start(L0, c), disk1, o) == View(g, L0, disk0, o))
    requires JustDots(View(g, Start(L0, c), disk1, c), c, d)
    requires InsertedInto(g, Start(L0, c), disk1, L, disk, d, k, MakeEntry(name, ATTR_DIRECTORY, c, 0))
    ensures var e := MakeEntry(name, ATTR_DIRECTORY, c, 0);
            && PutIn(Insertion(g, L0, T0, disk0, d, k, e, L, disk)) && c in L.chains
            && JustDots(View(g, L, disk, c), c, d) && d in T0.used
            && (RootDot(Place(d, name)) ==> NoTree(g, disk))
            && (!RootDot(Place(d, name)) ==> TreeOk(g, L, disk, MadeDir(T0, d, k, e, c)))
  {
    hide TreeOk, LayoutOk, View, Find, Slot, InsertedInto, InsertionOk, PutIn, NewDir, JustDots, MadeDir, Start;
    var e := MakeEntry(name, ATTR_DIRECTORY, c, 0);
    NewEntryIsLive(name, ATTR_DIRECTORY, c);
    DirInsertion(g, fat0, L0, T0, disk0, disk1, d, c, k, e, L, disk);
    DotOrNot(d, name, e);
    DirMade(Insertion(g, L0, T0, disk0, d, k, e, L, disk), c);
  }

  lemma DotOrNot(d: nat, name: seq<byte>, e: Entry)
    requires |name| == 11 && EncodedName(name) && e[0] == name[0] &&
             (GoodName(name) || name[0] == DELETED || RootDot(Place(d, name)))
    requires IsLive(e) <==> name[0] != DELETED
    ensures RootDot(Place(d, name)) <==> IsLive(e) && e[0] == PERIOD
    ensures IsLive(e) && e[0] == PERIOD ==> d == 0
  {
  }

  lemma ParentIsShort(g: Geo, fat: seq<u16>, L: Layout, d: nat)
    requires LayoutOk(g, fat, L) && (d == 0 || d in L.chains)
    ensures d < 0x1_0000
  {
    if d != 0 { assert LinkOk(g, fat, L, d, 0); }
  }
}
