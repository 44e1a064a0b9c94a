/** A volume that fills up: a whole-file replacement that does not fit, step by step. */
module Fat16Full {
  import opened Bytes
  import opened Fat16Layout
  import opened Fat16Image
  import opened Fat16Dir
  import opened Fat16Name
  import opened Fat16Write
  import opened Fat16Driver
  import opened Fat16Path
  import opened Fat16Insert
  import opened Fat16DirOps
  import opened Fat16Create
  import opened Fat16Replace
  import opened Fat16Runs

  /** One FAT sector, one root sector and two clusters of one sector, 2 and 3. */
  const SMALL: Geo := Geometry(1, 1, 1, 1, 2, 1, 3, 4)
  const NAME: seq<byte> := [0x41]

  ghost function NoLinks(): seq<u16> { seq(256, _ => 0) }

  lemma BlankVolume(disk: seq<Sector>)
    requires disk == seq(5, _ => Zeros(512))
    ensures Synced(SMALL, disk, NoLinks()) && forall a :: 2 <= a < 3 ==> SectorAt(disk, a) == Zeros(512)
  {
    assert FatSector(NoLinks(), 0) == Zeros(512);
  }

  lemma BothFree()
    ensures FreeSet(SMALL, NoLinks()) == {2, 3} && |FreeSet(SMALL, NoLinks())| == 2
  {
    assert FreeSet(SMALL, NoLinks()) == {2, 3};
  }

  lemma BlankRoot(disk: seq<Sector>)
    requires disk == seq(5, _ => Zeros(512))
    ensures var v := View(SMALL, NoChains(), disk, 0);
            IsEmpty(Slot(v, 0)) && (forall name :: Find(v, name, 0) == -1) && FreeSlot(v, 0) == 0
  {
    var v := View(SMALL, NoChains(), disk, 0);
    SlotInSector(v, 0, 0);
    assert v[0] == Zeros(512);
    assert Slot(v, 0)[0] == 0;
  }

  lemma NamePlace(L: Layout, disk: seq<Sector>)
    ensures |Name83(NAME)| == 11 && Name83(NAME)[0] == 0x41
    ensures Resolve(SMALL, L, disk, 0, [SLASH] + NAME) == Place(0, Name83(NAME))
  {
    var path := [SLASH] + NAME;
    assert path[1..] == NAME;
    assert SkipSlashes(path) == NAME;
    assert FirstComp(NAME) == NAME && RestPath(NAME) == [];
  }

  /** The root holds one plain file, called A, of n bytes. */
  ghost predicate HoldsA(dr: Driver, n: nat)
    reads dr, dr.disk, dr.fat
    requires dr.Shaped()
  {
    && dr.g == SMALL
    && var v := View(dr.g, dr.L, dr.disk[..], 0);
    Find(v, Name83(NAME), 0) == 0 && !IsDir(Slot(v, 0)) && SizeOf(Slot(v, 0)) == n
  }

  lemma AddingWorks(disk: seq<Sector>)
    requires disk == seq(5, _ => Zeros(512))
    ensures Making(SMALL, NoChains(), disk, NoLinks(), Place(0, Name83(NAME)), false) == Added
  {
    hide View, Slot, Find, FreeSlot, FreeSet;
    BlankRoot(disk);
    BothFree();
  }

  lemma AddedIsA(disk: seq<Sector>, L': Layout, disk': seq<Sector>, k: nat)
    requires disk == seq(5, _ => Zeros(512))
    requires InsertedInto(SMALL, NoChains(), disk, L', disk', 0, k, MakeEntry(Name83(NAME), ATTR_ARCHIVE, 0, 0))
    ensures k == 0 && Find(View(SMALL, L', disk', 0), Name83(NAME), 0) == 0
    ensures Slot(View(SMALL, L', disk', 0), 0) == MakeEntry(Name83(NAME), ATTR_ARCHIVE, 0, 0)
    ensures forall o :: o !in L'.chains
  {
    hide View, Slot, Find, FreeSlot, MakeEntry, Name83;
    BlankRoot(disk);
    NamePlace(L', disk');
    MadeIsFound(View(SMALL, NoChains(), disk, 0), View(SMALL, L', disk', 0), k, Name83(NAME), ATTR_ARCHIVE, 0);
  }

  /** A blank volume, mounted, with the empty file A. */
  method NewVolume() returns (dr: Driver)
    ensures dr.Valid() && dr.disk.Length == 5 && HoldsA(dr, 0) && |FreeSet(dr.g, dr.fat[..])| == 2
    ensures fresh(dr) && fresh(dr.disk) && fresh(dr.fat) && fresh(dr.dirBuf) && fresh(dr.sectorBuf)
  {
    hide TreeOk, LayoutOk, Synced, View, Slot, Find, Resolve, Making, InsertedInto, FreeSet, MakeEntry, Name83;
    var disk := new Sector[5](_ => Zeros(512));
    ghost var disk0 := disk[..];
    assert disk0 == seq(5, _ => Zeros(512));
    BlankVolume(disk0);
    dr := MountFormatted(SMALL, disk, NoLinks());
    NamePlace(dr.L, disk0);
    AddingWorks(disk0);
    BothFree();
    BlankRoot(disk0);
    var r, parent, k, at := Create(dr, 0, [SLASH] + NAME);
    AddedIsA(disk0, dr.L, dr.disk[..], k);
  }

  lemma JobAt(dr: Driver, n: nat, data: seq<byte>)
    requires dr.Valid() && HoldsA(dr, n) && |data| < 0x1_0000_0000
    ensures dr.CanWrite(0, NAME, 0, |data|)
    ensures var J := dr.JobFor(0, NAME, 0, data);
            && JobOk(J) && J.Dir() == View(SMALL, dr.L, dr.disk[..], 0) && J.g == SMALL && J.d == 0 && J.k == 0 &&
               J.fat == dr.fat[..] && J.data == data
            && J.Size() == n && |J.Chain()| == Clusters(SMALL, n) && IsLive(J.Entry0()) &&
               NameOf(J.Entry0()) == Name83(NAME) && !IsDir(J.Entry0())
  {
    hide TreeOk, LayoutOk, Synced, View, Slot, Find, Name83;
    JobFacts(dr, 0, NAME, 0, data);
    JobFile(dr.JobFor(0, NAME, 0, data));
  }

  ghost function Filled(b: byte, n: nat): seq<byte> { seq(n, _ => b) }

  /** A chain of both clusters that holds one byte over and over: so do the sectors. */
  lemma BothHold(L: Layout, disk: seq<Sector>, t: nat, b: byte)
    requires t != 0 && t in L.chains && L.chains[t] == [2, 3] && Flat(View(SMALL, L, disk, t)) == Filled(b, 1024)
    ensures SectorAt(disk, 3) == SectorAt(disk, 4) == Filled(b, 512)
  {
    TwoSectors(L, disk, t);
    hide View, Flat, SectorAt;
    FlatTwo(SectorAt(disk, 3), SectorAt(disk, 4), b);
  }

  lemma TwoSectors(L: Layout, disk: seq<Sector>, t: nat)
    requires t != 0 && t in L.chains && L.chains[t] == [2, 3]
    ensures View(SMALL, L, disk, t) == [SectorAt(disk, 3), SectorAt(disk, 4)]
  {
    var v := View(SMALL, L, disk, t);
    assert |v| == 2 && v[0] == SectorAt(disk, 3) && v[1] == SectorAt(disk, 4);
    hide View, SectorAt;
  }

  lemma FlatTwo(x: Sector, y: Sector, b: byte)
    requires Flat([x, y]) == Filled(b, 1024)
    ensures x == Filled(b, 512) && y == Filled(b, 512)
  {
    forall i | 0 <= i < 512
      ensures x[i] == b && y[i] == b
    {
      assert Flat([x, y])[i] == x[i] && Flat([x, y])[512 + i] == y[i];
    }
  }

  lemma TookBoth(J: Job, t: nat, fat: seq<u16>, L: Layout, disk: seq<Sector>)
    requires JobTree(J) && J.g == SMALL && Abandoned(J, t, fat, L, disk) && |J.Chain()| == 1 &&
             |FreeSet(J.g, J.fat)| == 1
    ensures t != 0 && t in L.chains && L.chains[t] == [2, 3] && TookAll(J, t, L, disk)
  {
    hide JobTree, View, FreeSet, Synced, LayoutOk, InOrder, Flat;
    OnlyTwo(fat, L, t);
  }

  lemma OnlyTwo(fat: seq<u16>, L: Layout, t: nat)
    requires LayoutOk(SMALL, fat, L) && t in L.chains && |L.chains[t]| == 2 && Ascending(L.chains[t])
    ensures t != 0 && L.chains[t] == [2, 3]
  {
    assert LinkOk(SMALL, fat, L, t, 0) && LinkOk(SMALL, fat, L, t, 1);
  }

  /** Seen from the image alone, a file of one cluster is what that cluster holds. */
  lemma ReadsAs(J: Job, disk: seq<Sector>, b: byte)
    requires JobTree(J) && J.g == SMALL && J.Size() == 512 && |disk| == |J.disk|
    requires SectorAt(disk, 3) == SectorAt(disk, 4) == Filled(b, 512)
    ensures |disk| >= 2 && ReadDisk(SMALL, disk, J.First(), 512) == Filled(b, 512)
  {
    JobFile(J);
    var first := J.First();
    assert LinkOk(J.g, J.fat, J.L, first, 0);
    hide LayoutOk, TreeOk, Flat;
    ReadDiskIsContent(SMALL, J.fat, J.L, disk, first, 512);
    var v := View(SMALL, J.L, disk, first);
    assert v == [Filled(b, 512)];
    FlatOne(Filled(b, 512));
  }

  lemma FlatOne(s: Sector)
    ensures Flat([s]) == s
  {
  }

  lemma StillA(J: Job, t: nat, fat: seq<u16>, L: Layout, disk: seq<Sector>)
    requires Replaced(J, t, fat, L, disk) && J.g == SMALL && J.d == 0 && J.k == 0 && |View(SMALL, L, disk, 0)| > 0
    requires IsLive(J.Entry0()) && NameOf(J.Entry0()) == Name83(NAME) && !IsDir(J.Entry0())
    ensures var v := View(SMALL, L, disk, 0);
            Find(v, Name83(NAME), 0) == 0 && !IsDir(Slot(v, 0)) && SizeOf(Slot(v, 0)) == |J.data|
    ensures Clusters(SMALL, |J.data|) + |FreeSet(SMALL, fat)| == |J.Chain()| + |FreeSet(SMALL, J.fat)|
  {
    hide View, Slot, Name83, Resized, TreeOk, LayoutOk, Synced;
    var e := Slot(View(SMALL, L, disk, 0), 0);
    assert NameOf(e)[0] == e[0] && NameOf(J.Entry0())[0] == J.Entry0()[0];
  }

  lemma NotSynced(J: Job, t: nat, fat: seq<u16>, L: Layout, disk: seq<Sector>)
    requires JobOk(J) && J.g == SMALL && Abandoned(J, t, fat, L, disk) && |FreeSet(J.g, J.fat)| == 1
    ensures !Synced(SMALL, disk, fat) && FreeSet(SMALL, fat) == {} && |disk| >= 2
    ensures |FreeSet(SMALL, DiskFat(SMALL, disk))| == 1
  {
    hide FreeSet, JobTree, TookAll, InOrder;
    SyncedIsSame(J.g, J.disk, J.fat, disk, J.fat);
    SyncedDiskFat(J.g, disk, J.fat);
    FreeCount(J.g, J.fat);
  }

  lemma LostData(J: Job, t: nat, fat: seq<u16>, L: Layout, disk: seq<Sector>)
    requires JobOk(J) && J.g == SMALL && J.d == 0 && J.Size() == 512 && J.data == Filled(2, 1025)
    requires Abandoned(J, t, fat, L, disk) && |FreeSet(J.g, J.fat)| == 1
    ensures |disk| >= 2 && View(SMALL, L, disk, 0) == J.Dir() && ReadDisk(SMALL, disk, J.First(), 512) == Filled(2, 512)
  {
    hide LayoutOk, TreeOk, Synced, View, Flat, FreeSet, Slot, ReadDisk;
    JobFile(J);
    TookBoth(J, t, fat, L, disk);
    assert |Flat(View(SMALL, L, disk, t))| == 1024 by { Length1024(L, disk, t); }
    assert Filled(2, 1025)[..1024] == Filled(2, 1024);
    BothHold(L, disk, t, 2);
    ReadsAs(J, disk, 2);
  }

  lemma Length1024(L: Layout, disk: seq<Sector>, t: nat)
    requires t != 0 && t in L.chains && L.chains[t] == [2, 3]
    ensures |Flat(View(SMALL, L, disk, t))| == 1024
  {
  }

  /** A file of 512 bytes on a volume with one more free cluster is replaced by 1025 bytes. The call fails. The
      entry still says 512 bytes, but they are bytes of the data that did not fit; and the cached FAT, in which
      nothing is free any more, is not the one on disk, in which the other cluster is. */
  method Overfull() returns (dr: Driver, first: int, second: int)
    ensures first == 0 && second == -1 && dr.Shaped() && dr.disk.Length == 5
    ensures HoldsA(dr, 512) && !Synced(dr.g, dr.disk[..], dr.fat[..])
    ensures FreeSet(dr.g, dr.fat[..]) == {} && |FreeSet(dr.g, DiskFat(dr.g, dr.disk[..]))| == 1
    ensures ReadDisk(dr.g, dr.disk[..], FirstOf(Slot(View(dr.g, dr.L, dr.disk[..], 0), 0)), 512) == Filled(2, 512)
  {
    hide TreeOk, LayoutOk, Synced, View, Slot, Find, FreeSet, Name83, ReadDisk, DiskFat, Abandoned, Replaced,
      Driver.CanWrite, Driver.JobFor;
    ghost var t, at;
    dr := NewVolume();
    var small, big := seq(512, _ => 1), seq(1025, _ => 2);
    ghost var J := dr.JobFor(0, NAME, 0, small);
    JobAt(dr, 0, small);
    first, t, at := WriteFile(dr, 0, NAME, small);
    StillA(J, t, dr.fat[..], dr.L, dr.disk[..]);
    J := dr.JobFor(0, NAME, 0, big);
    JobAt(dr, 512, big);
    second, t, at := WriteFile(dr, 0, NAME, big);
    NotSynced(J, t, dr.fat[..], dr.L, dr.disk[..]);
    LostData(J, t, dr.fat[..], dr.L, dr.disk[..]);
  }
}
