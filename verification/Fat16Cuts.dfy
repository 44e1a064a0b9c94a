/** Power cuts during operations that write directory entries before the FAT: which volume an image of the disk
    shows when only the first sectors of the FAT have been written. */
module Fat16Cuts {
  import opened Bytes
  import opened Fat16Layout
  import opened Fat16Image
  import opened Fat16Write
  import opened Fat16Driver

  /** img differs from disk only where no object of L is, and not in the FAT. */
  ghost predicate Quiet(g: Geo, L: Layout, disk: seq<Sector>, img: seq<Sector>) {
    && SameFats(g, disk, img)
    && forall o :: View(g, L, img, o) == View(g, L, disk, o)
  }

  /** All images added to the trail are quiet. */
  ghost predicate QuietTrail(g: Geo, L: Layout, disk: seq<Sector>, trail0: seq<seq<Sector>>, trail: seq<seq<Sector>>) {
    && |trail0| <= |trail| && trail[..|trail0|] == trail0
    && forall i :: |trail0| <= i < |trail| ==> Quiet(g, L, disk, trail[i])
  }

  lemma QuietNothing(g: Geo, L: Layout, disk: seq<Sector>, trail: seq<seq<Sector>>)
    ensures QuietTrail(g, L, disk, trail, trail) && Quiet(g, L, disk, disk)
  {
  }

  lemma QuietAgain(g: Geo, L: Layout, disk0: seq<Sector>, disk: seq<Sector>, img: seq<Sector>)
    requires Quiet(g, L, disk0, disk) && Quiet(g, L, disk, img)
    ensures Quiet(g, L, disk0, img)
  {
    hide View;
  }

  /** The sectors before the root directory, which hold the FAT copies, are the same. */
  ghost predicate SameFats(g: Geo, disk: seq<Sector>, img: seq<Sector>) {
    |img| == |disk| && forall a :: 0 <= a < g.rootStart ==> SectorAt(img, a) == SectorAt(disk, a)
  }

  /** img shows the volume that L lays out on disk: every chain is in its FAT and every object reads the same. */
  ghost predicate Shown(g: Geo, L: Layout, disk: seq<Sector>, img: seq<Sector>) {
    && |img| == |disk| && |img| >= g.fatStart + g.fatSectors
    && (forall o :: o in L.chains ==> ChainThere(g, img, L.chains[o]))
    && forall o :: View(g, L, img, o) == View(g, L, disk, o)
  }

  /** fat has the link behind the i-th cluster of a chain. */
  ghost predicate HasLink(fat: seq<u16>, chain: seq<nat>, i: nat)
    requires i < |chain|
  {
    chain[i] < |fat| && if i + 1 < |chain| then fat[chain[i]] == chain[i + 1] else fat[chain[i]] >= END_MIN
  }

  lemma LayoutLinks(g: Geo, fat: seq<u16>, L: Layout, o: nat, i: nat)
    requires LayoutOk(g, fat, L) && o in L.chains && i < |L.chains[o]|
    ensures HasLink(fat, L.chains[o], i) && L.chains[o][i] < 256 * g.fatSectors
  {
    assert LinkOk(g, fat, L, o, i);
  }

  /** The FAT of an image in the middle of a flush. */
  lemma CutFat(g: Geo, base: seq<Sector>, fat: seq<u16>, img: seq<Sector>, n: nat, c: nat)
    requires FlushCut(g, base, fat, img, n) && |base| >= g.fatStart + g.fatSectors && c < 256 * g.fatSectors
    ensures DiskFat(g, img)[c] == if c / 256 < n then fat[c] else DiskFat(g, base)[c]
  {
    hide FatSector, U16, DiskFat;
    DiskFatAt(g, img, c);
    DiskFatAt(g, base, c);
    FatSectorEntry(fat, c);
    assert FatCopy(g, img, c / 256) == if c / 256 < n then FatSector(fat, c / 256) else FatCopy(g, base, c / 256);
  }

  /** A chain of the new FAT is in such an image exactly when each link of it is written or was there before. */
  lemma CutNewChain(g: Geo, base: seq<Sector>, fat: seq<u16>, img: seq<Sector>, n: nat, chain: seq<nat>)
    requires FlushCut(g, base, fat, img, n) && |base| >= g.fatStart + g.fatSectors
    requires forall i: nat :: i < |chain| ==> HasLink(fat, chain, i)
    ensures ChainThere(g, img, chain) <==>
            forall i: nat :: i < |chain| ==> chain[i] / 256 < n || HasLink(DiskFat(g, base), chain, i)
  {
    hide DiskFat;
    forall i: nat | i < |chain|
      ensures LinkThere(g, img, chain, i) <==> chain[i] / 256 < n || HasLink(DiskFat(g, base), chain, i)
    {
      assert HasLink(fat, chain, i);
      CutFat(g, base, fat, img, n, chain[i]);
    }
  }

  /** A chain of the old FAT is in it exactly when no link of it is written over by another. */
  lemma CutOldChain(g: Geo, base: seq<Sector>, fat: seq<u16>, img: seq<Sector>, n: nat, chain: seq<nat>)
    requires FlushCut(g, base, fat, img, n) && |base| >= g.fatStart + g.fatSectors
    requires forall i: nat :: i < |chain| ==> HasLink(DiskFat(g, base), chain, i)
    ensures ChainThere(g, img, chain) <==>
            forall i: nat :: i < |chain| ==> n <= chain[i] / 256 || HasLink(fat, chain, i)
  {
    hide DiskFat;
    forall i: nat | i < |chain|
      ensures LinkThere(g, img, chain, i) <==> n <= chain[i] / 256 || HasLink(fat, chain, i)
    {
      assert HasLink(DiskFat(g, base), chain, i);
      CutFat(g, base, fat, img, n, chain[i]);
    }
  }

  /** The images of an operation that puts everything but the FAT in place and then flushes it: before image at
      nothing of L0 is touched; from there on image by image one more sector of the FAT is written. */
  ghost predicate Cuts(g: Geo, L0: Layout, disk0: seq<Sector>, trail: seq<seq<Sector>>, n0: nat, at: nat, fat: seq<u16>,
      disk: seq<Sector>)
  {
    && n0 <= at < |trail| && (forall i :: n0 <= i < at ==> Quiet(g, L0, disk0, trail[i]))
    && SameFats(g, disk0, trail[at]) && SameAbove(g, trail[at], disk)
    && forall i :: at <= i < |trail| ==> FlushCut(g, trail[at], fat, trail[i], i - at)
  }

  ghost predicate SameAbove(g: Geo, disk: seq<Sector>, img: seq<Sector>) {
    |img| == |disk| && forall a :: g.rootStart <= a < |img| ==> img[a] == disk[a]
  }

  lemma SameFatsFat(g: Geo, disk: seq<Sector>, fat: seq<u16>, img: seq<Sector>)
    requires Synced(g, disk, fat) && SameFats(g, disk, img)
    ensures |img| >= g.fatStart + g.fatSectors && DiskFat(g, img) == fat
  {
    SyncedDiskFat(g, disk, fat);
    forall c | 0 <= c < |fat|
      ensures DiskFat(g, img)[c] == DiskFat(g, disk)[c]
    {
      hide U16, DiskFat;
      DiskFatAt(g, img, c);
      DiskFatAt(g, disk, c);
      assert g.fatStart + c / 256 < g.rootStart;
    }
  }

  /** An image in which nothing is touched shows the old volume. */
  lemma QuietShown(g: Geo, fat: seq<u16>, L: Layout, disk: seq<Sector>, img: seq<Sector>)
    requires LayoutOk(g, fat, L) && Synced(g, disk, fat) && Quiet(g, L, disk, img)
    ensures Shown(g, L, disk, img)
  {
    hide LayoutOk, Synced, View, DiskFat;
    SameFatsFat(g, disk, fat, img);
    forall o, i: nat | o in L.chains && i < |L.chains[o]|
      ensures LinkThere(g, img, L.chains[o], i)
    {
      LayoutLinks(g, fat, L, o, i);
    }
  }

  /** When an image shows the new volume: every link is written, or is an old one. */
  lemma ShowsNew(g: Geo, fat0: seq<u16>, L0: Layout, disk0: seq<Sector>, fat: seq<u16>, L: Layout, disk: seq<Sector>,
      trail: seq<seq<Sector>>, n0: nat, at: nat, i: nat)
    requires Synced(g, disk0, fat0) && LayoutOk(g, fat, L) && Cuts(g, L0, disk0, trail, n0, at, fat, disk)
    requires at <= i < |trail|
    ensures Shown(g, L, disk, trail[i]) <==>
            forall o, j: nat :: o in L.chains && j < |L.chains[o]| ==>
              L.chains[o][j] / 256 < i - at || HasLink(fat0, L.chains[o], j)
  {
    hide LayoutOk, Synced, View, DiskFat, FlushCut, ChainThere, HasLink;
    var base, img := trail[at], trail[i];
    SameFatsFat(g, disk0, fat0, base);
    CutSize(g, base, fat, img, i - at);
    SameAboveViews(g, fat, L, disk, img);
    forall o | o in L.chains
      ensures ChainThere(g, img, L.chains[o]) <==>
              forall j: nat :: j < |L.chains[o]| ==> L.chains[o][j] / 256 < i - at || HasLink(fat0, L.chains[o], j)
    {
      forall j: nat | j < |L.chains[o]|
        ensures HasLink(fat, L.chains[o], j)
      {
        LayoutLinks(g, fat, L, o, j);
      }
      CutNewChain(g, base, fat, img, i - at, L.chains[o]);
    }
  }

  lemma CutSize(g: Geo, base: seq<Sector>, fat: seq<u16>, img: seq<Sector>, n: nat)
    requires FlushCut(g, base, fat, img, n)
    ensures SameAbove(g, base, img)
  {
  }

  lemma SameAboveViews(g: Geo, fat: seq<u16>, L: Layout, disk: seq<Sector>, img: seq<Sector>)
    requires LayoutOk(g, fat, L) && SameAbove(g, disk, img)
    ensures forall o :: View(g, L, img, o) == View(g, L, disk, o)
  {
    ViewsAbove(g, fat, L, disk, img);
  }

  /** When it still shows the old one: what was put in place is not part of it, and no link is written over. */
  lemma ShowsOld(g: Geo, fat0: seq<u16>, L0: Layout, disk0: seq<Sector>, fat: seq<u16>, disk: seq<Sector>,
      trail: seq<seq<Sector>>, n0: nat, at: nat, i: nat)
    requires Synced(g, disk0, fat0) && LayoutOk(g, fat0, L0) && Cuts(g, L0, disk0, trail, n0, at, fat, disk)
    requires at <= i < |trail|
    ensures Shown(g, L0, disk0, trail[i]) <==>
            && (forall o :: View(g, L0, disk, o) == View(g, L0, disk0, o))
            && forall o, j: nat :: o in L0.chains && j < |L0.chains[o]| ==>
                 i - at <= L0.chains[o][j] / 256 || HasLink(fat, L0.chains[o], j)
  {
    hide LayoutOk, Synced, View, DiskFat, FlushCut, ChainThere, HasLink;
    var base, img := trail[at], trail[i];
    SameFatsFat(g, disk0, fat0, base);
    CutSize(g, base, fat, img, i - at);
    SameAboveViews(g, fat0, L0, disk, img);
    forall o | o in L0.chains
      ensures ChainThere(g, img, L0.chains[o]) <==>
              forall j: nat :: j < |L0.chains[o]| ==> i - at <= L0.chains[o][j] / 256 || HasLink(fat, L0.chains[o], j)
    {
      forall j: nat | j < |L0.chains[o]|
        ensures HasLink(fat0, L0.chains[o], j)
      {
        LayoutLinks(g, fat0, L0, o, j);
      }
      CutOldChain(g, base, fat, img, i - at, L0.chains[o]);
    }
  }
}
