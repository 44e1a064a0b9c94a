/** Inserting directory entries (dir_insert): finding a free slot, growing a full subdirectory, storing the entry. */
module Fat16DirOps {
  import opened Bytes
  import opened Fat16Layout
  import opened Fat16Image
  import opened Fat16Dir
  import opened Fat16Write
  import opened Fat16Driver
  import opened Fat16Cuts
  import opened Fat16Insert

  // ---- sectors of one cluster ---------------------------------------------------------------------

  ghost predicate InCluster(g: Geo, c: nat, a: nat)
    requires 2 <= c
  {
    ClusterLba(g, c) <= a < ClusterLba(g, c) + g.spc
  }

  function ClusterSector(g: Geo, disk: seq<Sector>, c: nat, s: nat): Sector
    requires 2 <= c
  {
    SectorAt(disk, ClusterLba(g, c) + s)
  }

  function ClusterSectors(g: Geo, disk: seq<Sector>, c: nat): (w: seq<Sector>)
    requires 2 <= c
    ensures |w| == g.spc
  {
    seq(g.spc, s requires 0 <= s => ClusterSector(g, disk, c, s))
  }

  /** disk' differs from disk at most inside cluster c. */
  ghost predicate SameOutside(g: Geo, c: nat, disk: seq<Sector>, disk': seq<Sector>)
    requires 2 <= c
  {
    |disk'| == |disk| && forall a :: 0 <= a < |disk| && !InCluster(g, c, a) ==> disk'[a] == disk[a]
  }

  lemma LbaOutside(g: Geo, fat: seq<u16>, L: Layout, o: nat, j: nat, c: nat)
    requires LayoutOk(g, fat, L) && Unowned(L, c) && 2 <= c < g.clusters && j < Span(g, L, o)
    ensures Lba(g, L, o, j) < SectorCount(g) && !InCluster(g, c, Lba(g, L, o, j))
  {
    hide At, ClusterLba, Lba, ClusterAt, Locate;
    LbaLocate(g, fat, L, o, j);
    var a := Lba(g, L, o, j);
    if InCluster(g, c, a) {
      ClusterLbaBound(g, c, a - ClusterLba(g, c));
    }
  }

  /** What happens inside a cluster of no chain touches no object. */
  lemma ViewsOutside(g: Geo, fat: seq<u16>, L: Layout, disk: seq<Sector>, disk': seq<Sector>, c: nat, o: nat)
    requires LayoutOk(g, fat, L) && Unowned(L, c) && 2 <= c < g.clusters && SameOutside(g, c, disk, disk') &&
             DiskOk(g, disk)
    ensures View(g, L, disk', o) == View(g, L, disk, o)
  {
    hide At, ClusterLba, Lba, ClusterAt, Locate, InCluster, LayoutOk;
    forall j | 0 <= j < Span(g, L, o)
      ensures View(g, L, disk', o)[j] == View(g, L, disk, o)[j]
    {
      LbaOutside(g, fat, L, o, j, c);
    }
  }

  lemma GrownView(g: Geo, L: Layout, disk: seq<Sector>, o: nat, c: nat)
    requires o in L.chains && 0 !in L.chains && 2 <= c
    ensures View(g, Grow(L, o, c), disk, o) == View(g, L, disk, o) + ClusterSectors(g, disk, c)
  {
    GrowViews(g, L, disk, o, c);
    var n, L' := |L.chains[o]|, Grow(L, o, c);
    hide At, ClusterLba;
    var v, w := View(g, L', disk, o), ClusterSectors(g, disk, c);
    forall s | 0 <= s < g.spc
      ensures v[Span(g, L, o) + s] == w[s]
    {
      GrownSector(g, L, o, c, s);
    }
  }

  lemma GrownSector(g: Geo, L: Layout, o: nat, c: nat, s: nat)
    requires o in L.chains && 0 !in L.chains && 2 <= c && s < g.spc
    ensures Lba(g, Grow(L, o, c), o, Span(g, L, o) + s) == ClusterLba(g, c) + s
  {
    AtIndex(g, |L.chains[o]|, s);
  }

  lemma StartedView(g: Geo, L: Layout, disk: seq<Sector>, c: nat)
    requires 2 <= c
    ensures View(g, Start(L, c), disk, c) == ClusterSectors(g, disk, c)
  {
    forall s | 0 <= s < g.spc
      ensures Lba(g, Start(L, c), c, s) == ClusterLba(g, c) + s
    {
      AtIndex(g, 0, s);
    }
  }

  /** The tree is a matter of the objects' sectors only. */
  lemma TreeSame(g: Geo, L: Layout, T: Tree, disk: seq<Sector>, disk': seq<Sector>)
    requires TreeOk(g, L, disk, T) && (forall o :: View(g, L, disk', o) == View(g, L, disk, o))
    ensures TreeOk(g, L, disk', T)
  {
    hide View, DirOk, Slot;
    forall d | d in T.parent
      ensures LinkedIn(g, L, disk', T, d)
    {
      assert LinkedIn(g, L, disk, T, d);
    }
  }

  // ---- slots of joined and zeroed sectors -----------------------------------------------------------

  lemma SlotLeft(v: seq<Sector>, w: seq<Sector>, k: nat)
    requires k < 16 * |v|
    ensures Slot(v + w, k) == Slot(v, k)
  {
    SlotInSector(v + w, k / 16, k % 16);
    SlotInSector(v, k / 16, k % 16);
  }

  lemma SlotRight(v: seq<Sector>, w: seq<Sector>, k: nat)
    requires k < 16 * |w|
    ensures Slot(v + w, 16 * |v| + k) == Slot(w, k)
  {
    hide Slot;
    var j, i := k / 16, k % 16;
    SlotInSector(v + w, |v| + j, i);
    SlotInSector(w, j, i);
    assert (v + w)[|v| + j] == w[j];
  }

  lemma ZeroSlot(w: seq<Sector>, k: nat)
    requires k < 16 * |w| && w[k / 16] == Zeros(512)
    ensures IsEmpty(Slot(w, k))
  {
    SlotInSector(w, k / 16, k % 16);
  }

  /** A cluster of zeros but for the entries in its first sector. */
  ghost predicate ZeroTail(w: seq<Sector>, s: Sector) {
    |w| > 0 && w[0] == s && forall j :: 1 <= j < |w| ==> w[j] == Zeros(512)
  }

  lemma OneEntry(w: seq<Sector>, e: Entry)
    requires ZeroTail(w, SetSlot(Zeros(512), 0, e))
    ensures Slot(w, 0) == e
    ensures forall k: nat :: 1 <= k < 16 * |w| ==> IsEmpty(Slot(w, k))
  {
    SlotInSector(w, 0, 0);
    forall k: nat | 1 <= k < 16 * |w|
      ensures IsEmpty(Slot(w, k))
    {
      if k < 16 {
        SlotInSector(w, 0, k);
        SetSlotOther(Zeros(512), 0, e, k);
      } else {
        ZeroSlot(w, k);
      }
    }
  }

  lemma TwoEntries(w: seq<Sector>, e0: Entry, e1: Entry)
    requires ZeroTail(w, SetSlot(SetSlot(Zeros(512), 0, e0), 1, e1))
    ensures Slot(w, 0) == e0 && Slot(w, 1) == e1
    ensures forall k: nat :: 2 <= k < 16 * |w| ==> IsEmpty(Slot(w, k))
  {
    hide Slot, SetSlot;
    var s := SetSlot(Zeros(512), 0, e0);
    SlotInSector(w, 0, 0);
    SlotInSector(w, 0, 1);
    SetSlotOther(s, 1, e1, 0);
    OwnSlot(Zeros(512), 0, e0);
    OwnSlot(s, 1, e1);
    forall k: nat | 2 <= k < 16 * |w|
      ensures IsEmpty(Slot(w, k))
    {
      if k < 16 {
        SlotInSector(w, 0, k);
        SetSlotOther(Zeros(512), 0, e0, k);
        SetSlotOther(s, 1, e1, k);
        assert Slot(w, k) == Slot(w, 16 * 0 + k) == Zeros(512)[32 * k..32 * k + 32];
      } else {
        ZeroSlot(w, k);
      }
    }
  }

  lemma OwnSlot(s: Sector, i: nat, e: Entry)
    requires i < 16
    ensures SetSlot(s, i, e)[32 * i..32 * i + 32] == e
  {
  }

  // ---- dir_insert -------------------------------------------------------------------------------------

  lemma FreeStep(v: seq<Sector>, j: nat, i: nat)
    requires j < |v| && i < 16
    ensures Slot(v, 16 * j + i) == v[j][32 * i..32 * i + 32]
    ensures FreeSlot(v, 16 * j + i) ==
              if IsEmpty(Slot(v, 16 * j + i)) ||
                IsDeleted(Slot(v, 16 * j + i)) then 16 * j + i else FreeSlot(v, 16 * j + i + 1)
  {
    SlotInSector(v, j, i);
  }

  lemma FreeEnd(v: seq<Sector>, k: nat)
    requires 16 * |v| <= k
    ensures FreeSlot(v, k) == -1
  {
  }

  /** Looks for a free slot among the sixteen in dirBuf, which holds sector j of the directory v. */
  method ScanFree(dr: Driver, ghost v: seq<Sector>, ghost j: nat) returns (hit: bool, i: nat)
    requires dr.dirBuf.Length == 512 && j < |v| && v[j] == dr.dirBuf[..]
    ensures hit ==> i < 16 && FreeSlot(v, 16 * j) == 16 * j + i
    ensures !hit ==> FreeSlot(v, 16 * j) == FreeSlot(v, 16 * (j + 1))
  {
    hide FreeSlot, Slot;
    i := 0;
    while i < 16
      invariant 0 <= i <= 16
      invariant FreeSlot(v, 16 * j) == FreeSlot(v, 16 * j + i)
    {
      var e := dr.dirBuf[32 * i..32 * i + 32];
      FreeStep(v, j, i);
      if IsEmpty(e) || IsDeleted(e) { return true, i; }
      i := i + 1;
    }
    hit := false;
  }

  /** Copies e over slot i of dirBuf. */
  method StoreEntry(buf: array<byte>, i: nat, e: Entry)
    requires buf.Length == 512 && i < 16
    modifies buf
    ensures buf[..] == SetSlot(old(buf[..]), i, e)
  {
    ghost var s := buf[..];
    var b := 0;
    while b < 32
      invariant 0 <= b <= 32
      invariant buf[..] == Patch(s, 32 * i, e[..b])
    {
      assert e[0..b] == e[..b] && e[0..b + 1] == e[..b + 1];
      PatchNext(s, 32 * i, e, 0, b);
      buf[32 * i + b] := e[b];
      b := b + 1;
    }
    assert e[..32] == e;
  }

  /** Finds the first free slot of directory d; with none, last is the directory's last cluster. */
  method FindFree(dr: Driver, d: nat) returns (found: bool, lba: nat, i: nat, last: nat, ghost k: nat)
    requires dr.Shaped() && LayoutOk(dr.g, dr.fat[..], dr.L) && (d == 0 || d in dr.L.chains)
    modifies dr.dirBuf
    ensures FreeSlot(View(dr.g, dr.L, dr.disk[..], d), 0) == if found then k else -1
    ensures found ==> i == k % 16 && k / 16 < Span(dr.g, dr.L, d) && lba == Lba(dr.g, dr.L, d, k / 16) < dr.disk.Length
    ensures found ==> dr.dirBuf[..] == dr.disk[lba]
    ensures !found && d != 0 ==> last == dr.L.chains[d][|dr.L.chains[d]| - 1]
    ensures dr.disk[..] == old(dr.disk[..]) && dr.fat[..] == old(dr.fat[..])
  {
    hide FreeSlot, Slot, LayoutOk, View, Lba, Span;
    ghost var v := View(dr.g, dr.L, dr.disk[..], d);
    var it := dr.StartIter(d);
    ghost var j := 0;
    lba, i, last, k := 0, 0, 0, 0;
    while true
      invariant dr.IterAt(it, j) && it.dir == d && j <= |v|
      invariant dr.disk[..] == old(dr.disk[..]) && dr.fat[..] == old(dr.fat[..])
      invariant FreeSlot(v, 0) == FreeSlot(v, 16 * j)
      decreases |v| - j
    {
      var more, hit;
      more, it, lba := dr.NextSector(it, j);
      if !more {
        FreeEnd(v, 16 * j);
        return false, lba, i, it.cluster, k;
      }
      ViewAt(dr.g, dr.L, dr.disk[..], d, j);
      hit, i := ScanFree(dr, v, j);
      if hit {
        k := 16 * j + i;
        SlotIndex(j, i);
        return true, lba, i, last, k;
      }
      j := j + 1;
    }
  }

  /** disk is disk0 with n sectors from lba on zeroed. */
  ghost predicate Zeroed(disk0: seq<Sector>, disk: seq<Sector>, lba: nat, n: nat) {
    && |disk| == |disk0| && lba + n <= |disk|
    && forall a :: 0 <= a < |disk| ==> disk[a] == if lba <= a < lba + n then Zeros(512) else disk0[a]
  }

  lemma ZeroedCluster(g: Geo, c: nat, disk0: seq<Sector>, disk: seq<Sector>)
    requires 2 <= c && Zeroed(disk0, disk, ClusterLba(g, c), g.spc)
    ensures SameOutside(g, c, disk0, disk)
    ensures ZeroTail(ClusterSectors(g, disk, c), Zeros(512))
  {
    hide ClusterLba;
  }

  /** The images added to the trail differ from disk0 inside cluster c only. */
  ghost predicate Within(g: Geo, c: nat, disk0: seq<Sector>, trail0: seq<seq<Sector>>, trail: seq<seq<Sector>>)
    requires 2 <= c
  {
    && |trail0| <= |trail| && trail[..|trail0|] == trail0
    && forall i :: |trail0| <= i < |trail| ==> SameOutside(g, c, disk0, trail[i])
  }

  lemma ZeroedOutside(g: Geo, c: nat, disk0: seq<Sector>, disk: seq<Sector>, s: nat)
    requires 2 <= c && s <= g.spc && Zeroed(disk0, disk, ClusterLba(g, c), s)
    ensures SameOutside(g, c, disk0, disk)
  {
  }

  /** Such images are quiet for a layout that does not use c. */
  lemma WithinIsQuiet(g: Geo, fat: seq<u16>, L: Layout, disk: seq<Sector>, img: seq<Sector>, c: nat)
    requires LayoutOk(g, fat, L) && DiskOk(g, disk) && Unowned(L, c) && 2 <= c < g.clusters &&
             SameOutside(g, c, disk, img)
    ensures Quiet(g, L, disk, img)
  {
    forall o
      ensures View(g, L, img, o) == View(g, L, disk, o)
    {
      hide View, LayoutOk, Unowned, SameOutside;
      ViewsOutside(g, fat, L, disk, img, c, o);
    }
    ClusterLbaBound(g, c, 0);
    hide View, LayoutOk, Unowned, ClusterLba;
  }

  lemma QuietMore(g: Geo, fat: seq<u16>, L: Layout, disk0: seq<Sector>, trail0: seq<seq<Sector>>, disk: seq<Sector>,
      trail1: seq<seq<Sector>>, c: nat, trail: seq<seq<Sector>>)
    requires QuietTrail(g, L, disk0, trail0, trail1) && Quiet(g, L, disk0, disk) && LayoutOk(g, fat, L) &&
             DiskOk(g, disk)
    requires Unowned(L, c) && 2 <= c < g.clusters && Within(g, c, disk, trail1, trail)
    ensures QuietTrail(g, L, disk0, trail0, trail)
  {
    hide LayoutOk, Unowned, Quiet, SameOutside, DiskOk;
    forall i | |trail0| <= i < |trail|
      ensures Quiet(g, L, disk0, trail[i])
    {
      if i < |trail1| {
        assert trail[i] == trail1[i];
      } else {
        WithinIsQuiet(g, fat, L, disk, trail[i], c);
        QuietAgain(g, L, disk0, disk, trail[i]);
      }
    }
    assert trail[..|trail0|] == trail1[..|trail0|];
  }

  /** Zeroes a cluster, sector by sector. */
  method ZeroCluster(dr: Driver, c: nat)
    requires dr.Shaped() && 2 <= c < dr.g.clusters
    modifies dr.disk, dr.dirBuf, dr`trail
    ensures dr.dirBuf[..] == Zeros(512)
    ensures SameOutside(dr.g, c, old(dr.disk[..]), dr.disk[..])
    ensures ZeroTail(ClusterSectors(dr.g, dr.disk[..], c), Zeros(512))
    ensures Within(dr.g, c, old(dr.disk[..]), old(dr.trail), dr.trail)
  {
    forall i | 0 <= i < 512 { dr.dirBuf[i] := 0; }
    assert dr.dirBuf[..] == Zeros(512);
    var lba := ClusterLba(dr.g, c);
    ClusterLbaBound(dr.g, c, dr.g.spc - 1);
    hide ClusterLba, ClusterSectors, SameOutside, ZeroTail, Zeros;
    ghost var disk0 := dr.disk[..];
    var s := 0;
    while s < dr.g.spc
      invariant 0 <= s <= dr.g.spc
      invariant dr.dirBuf[..] == Zeros(512)
      invariant Zeroed(disk0, dr.disk[..], lba, s)
      invariant Within(dr.g, c, disk0, old(dr.trail), dr.trail)
    {
      dr.BlockWrite(lba + s, dr.dirBuf[..]);
      s := s + 1;
      ZeroedOutside(dr.g, c, disk0, dr.disk[..], s);
    }
    ZeroedCluster(dr.g, c, disk0, dr.disk[..]);
  }

  /** Writing the first sector of a zeroed cluster. */
  lemma FirstSectorWritten(g: Geo, c: nat, disk0: seq<Sector>, disk: seq<Sector>, s: Sector)
    requires 2 <= c < g.clusters && DiskOk(g, disk) && SameOutside(g, c, disk0, disk)
    requires ZeroTail(ClusterSectors(g, disk, c), Zeros(512))
    ensures ClusterLba(g, c) < |disk|
    ensures SameOutside(g, c, disk0, disk[ClusterLba(g, c) := s])
    ensures ZeroTail(ClusterSectors(g, disk[ClusterLba(g, c) := s], c), s)
  {
    ClusterLbaBound(g, c, 0);
    hide ClusterLba;
    var w, w' := ClusterSectors(g, disk, c), ClusterSectors(g, disk[ClusterLba(g, c) := s], c);
    assert forall j :: 1 <= j < g.spc ==> w'[j] == w[j];
  }

  /** Writes c as a cluster that holds s and then zeros. */
  method InitCluster(dr: Driver, c: nat, e0: Entry, second: bool, e1: Entry) returns (ghost s: Sector)
    requires dr.Shaped() && 2 <= c < dr.g.clusters
    modifies dr.disk, dr.dirBuf, dr`trail
    ensures s == (if second then SetSlot(SetSlot(Zeros(512), 0, e0), 1, e1) else SetSlot(Zeros(512), 0, e0))
    ensures SameOutside(dr.g, c, old(dr.disk[..]), dr.disk[..])
    ensures ZeroTail(ClusterSectors(dr.g, dr.disk[..], c), s)
    ensures Within(dr.g, c, old(dr.disk[..]), old(dr.trail), dr.trail)
    ensures |dr.trail| > |old(dr.trail)| && dr.trail[|dr.trail| - 1] == dr.disk[..]
  {
    hide ClusterLba, ClusterSectors, SameOutside, ZeroTail, Zeros, SetSlot;
    ghost var disk0 := dr.disk[..];
    ZeroCluster(dr, c);
    ghost var disk1 := dr.disk[..];
    StoreEntry(dr.dirBuf, 0, e0);
    if second { StoreEntry(dr.dirBuf, 1, e1); }
    s := dr.dirBuf[..];
    FirstSectorWritten(dr.g, c, disk0, disk1, s);
    dr.BlockWrite(ClusterLba(dr.g, c), dr.dirBuf[..]);
  }

  /** Entry e went into slot k of directory d; no other object changed. */
  ghost predicate InsertedInto(g: Geo, L: Layout, disk: seq<Sector>, L': Layout, disk': seq<Sector>, d: nat, k: nat,
      e: Entry) {
    && Inserted(View(g, L, disk, d), View(g, L', disk', d), k, e)
    && (forall o :: o != d ==> View(g, L', disk', o) == View(g, L, disk, o))
    && (forall o :: o in L.chains <==> o in L'.chains)
    && (forall o :: o != d && o in L.chains ==> L'.chains[o] == L.chains[o])
  }

  lemma InsertedHere(g: Geo, fat: seq<u16>, L: Layout, disk: seq<Sector>, d: nat, k: nat, e: Entry)
    requires LayoutOk(g, fat, L) && DiskOk(g, disk) && FreeSlot(View(g, L, disk, d), 0) == k
    ensures k / 16 < Span(g, L, d) && g.rootStart <= Lba(g, L, d, k / 16) < |disk|
    ensures var a := Lba(g, L, d, k / 16); InsertedInto(g, L, disk, L, disk[a := SetSlot(disk[a], k % 16, e)], d, k, e)
  {
    hide Slot, SetSlot, FreeSlot, Lba, LayoutOk, Span;
    var v := View(g, L, disk, d);
    var a := Lba(g, L, d, k / 16);
    ViewWrite(g, fat, L, disk, d, k / 16, Zeros(512));
    ViewAt(g, L, disk, d, k / 16);
    ViewWrite(g, fat, L, disk, d, k / 16, SetSlot(disk[a], k % 16, e));
    SlotPut(v, k, e);
    hide View;
    assert View(g, L, disk[a := SetSlot(disk[a], k % 16, e)], d) == PutSlot(v, k, e);
  }

  lemma AppendedSlots(v: seq<Sector>, w: seq<Sector>, vw: seq<Sector>, e: Entry)
    requires FreeSlot(v, 0) == -1 && ZeroTail(w, SetSlot(Zeros(512), 0, e)) && vw == v + w
    ensures Inserted(v, vw, 16 * |v|, e)
  {
    hide Slot, FreeSlot, ZeroTail, SetSlot, IsEmpty;
    OneEntry(w, e);
    WNotEmpty(w, SetSlot(Zeros(512), 0, e));
    SlotRight(v, w, 0);
    assert |vw| == |v| + |w|;
    forall i: nat | i < 16 * |v|
      ensures Slot(vw, i) == Slot(v, i)
    {
      SlotLeft(v, w, i);
    }
    forall i: nat | 16 * |v| < i < 16 * |vw|
      ensures IsEmpty(Slot(vw, i))
    {
      SlotRight(v, w, i - 16 * |v|);
    }
  }

  lemma WNotEmpty(w: seq<Sector>, s: Sector)
    requires ZeroTail(w, s)
    ensures |w| > 0
  {
  }

  lemma InsertedGrown(g: Geo, fat: seq<u16>, L: Layout, disk: seq<Sector>, disk': seq<Sector>, d: nat, c: nat, e: Entry)
    requires LayoutOk(g, fat, L) && DiskOk(g, disk) && d != 0 && d in L.chains && FreeSlot(View(g, L, disk, d), 0) == -1
    requires Unowned(L, c) && 2 <= c < g.clusters && SameOutside(g, c, disk, disk')
    requires ZeroTail(ClusterSectors(g, disk', c), SetSlot(Zeros(512), 0, e))
    ensures InsertedInto(g, L, disk, Grow(L, d, c), disk', d, 16 * |View(g, L, disk, d)|, e)
  {
    assert 0 !in L.chains;
    hide LayoutOk, Slot, SetSlot, FreeSlot, ZeroTail, View, ClusterSectors, SameOutside, Unowned;
    ViewsOutside(g, fat, L, disk, disk', c, d);
    GrownView(g, L, disk', d, c);
    AppendedSlots(View(g, L, disk, d), ClusterSectors(g, disk', c), View(g, Grow(L, d, c), disk', d), e);
    forall o | o != d
      ensures View(g, Grow(L, d, c), disk', o) == View(g, L, disk, o)
    {
      ViewsOutside(g, fat, L, disk, disk', c, o);
      GrowViews(g, L, disk', d, c);
    }
  }

  lemma InsertedAbove(g: Geo, fat: seq<u16>, L: Layout, disk: seq<Sector>, L': Layout, disk': seq<Sector>,
      disk'': seq<Sector>, d: nat, k: nat, e: Entry)
    requires InsertedInto(g, L, disk, L', disk', d, k, e) && LayoutOk(g, fat, L')
    requires |disk''| == |disk'| && (forall a :: g.rootStart <= a < |disk'| ==> disk''[a] == disk'[a])
    ensures InsertedInto(g, L, disk, L', disk'', d, k, e)
  {
    hide LayoutOk, View, Inserted;
    ViewsAbove(g, fat, L', disk', disk'');
  }

  /** The last part of dir_insert: a full subdirectory grows by a zeroed cluster that starts with e. */
  method GrowDirectory(dr: Driver, d: nat, last: nat, e: Entry) returns (ok: bool, ghost k: nat, ghost at: nat,
      ghost c: nat)
    requires dr.Shaped() && LayoutOk(dr.g, dr.fat[..], dr.L) && d != 0 && d in dr.L.chains
    requires last == dr.L.chains[d][|dr.L.chains[d]| - 1] && FreeSlot(View(dr.g, dr.L, dr.disk[..], d), 0) == -1
    modifies dr.disk, dr.fat, dr.dirBuf, dr`L, dr`trail
    ensures ok <==> FreeSet(dr.g, old(dr.fat[..])) != {}
    ensures !ok ==> dr.disk[..] == old(dr.disk[..]) && dr.fat[..] == old(dr.fat[..]) && dr.L == old(dr.L)
    ensures ok ==> LayoutOk(dr.g, dr.fat[..], dr.L) && Synced(dr.g, dr.disk[..], dr.fat[..])
    ensures ok ==> InsertedInto(dr.g, old(dr.L), old(dr.disk[..]), dr.L, dr.disk[..], d, k, e)
    ensures ok ==> |FreeSet(dr.g, dr.fat[..])| + 1 == |FreeSet(dr.g, old(dr.fat[..]))|
    ensures |old(dr.trail)| <= |dr.trail| && dr.trail[..|old(dr.trail)|] == old(dr.trail) &&
            (!ok ==> dr.trail == old(dr.trail))
    ensures ok ==>
              && Cuts(dr.g, old(dr.L), old(dr.disk[..]), dr.trail, |old(dr.trail)|, at, dr.fat[..], dr.disk[..])
              && |dr.trail| >= at + 1 + dr.g.fatSectors && Quiet(dr.g, old(dr.L), old(dr.disk[..]), dr.trail[at])
              && GrewBy(old(dr.fat[..]), old(dr.L), dr.fat[..], dr.L, d, last, c)
  {
    hide LayoutOk, Slot, SetSlot, FreeSlot, ZeroTail, View, ClusterSectors, SameOutside, Unowned, Synced,
      InsertedInto, Flushing, ClusterLba, FreeSet, FlushCut, Quiet;
    ghost var fat0: seq<u16>, disk0, L0 := dr.fat[..], dr.disk[..], dr.L;
    k, at, c := 16 * |View(dr.g, dr.L, disk0, d)|, 0, 0;
    var cluster := dr.AllocCluster();
    if cluster == 0 { return false, k, at, c; }
    c := cluster;
    HasFree(dr.g, fat0, c);
    FreeIsUnowned(dr.g, fat0, L0, c);
    ghost var s := InitCluster(dr, cluster, e, false, e);
    ghost var disk1, trail1 := dr.disk[..], dr.trail;
    at := |trail1| - 1;
    GrowOk(dr.g, fat0, L0, d, c);
    GrownFree(dr.g, fat0, L0, d, c);
    dr.fat[last] := cluster;
    dr.fat[cluster] := END;
    dr.L := Grow(dr.L, d, c);
    assert dr.fat[..] == fat0[last := c][c := END];
    InsertedGrown(dr.g, fat0, L0, disk0, disk1, d, c, e);
    dr.FlushFat();
    InsertedAbove(dr.g, dr.fat[..], L0, disk0, dr.L, disk1, dr.disk[..], d, k, e);
    assert GrewBy(fat0, L0, dr.fat[..], dr.L, d, last, c);
    GrowCuts(dr.g, fat0, L0, disk0, c, old(dr.trail), trail1, dr.trail, dr.fat[..], disk1, dr.disk[..]);
    ok := true;
  }

  /** Directory d got cluster c behind its last one. */
  ghost predicate GrewBy(fat0: seq<u16>, L0: Layout, fat: seq<u16>, L: Layout, d: nat, last: nat, c: nat) {
    && d in L0.chains && L0.chains[d] != [] && last == L0.chains[d][|L0.chains[d]| - 1] && L == Grow(L0, d, c)
    && last < |fat0| && c < |fat0| && last != c && c < END_MIN && fat0[c] == 0 && fat == fat0[last := c][c := END]
  }

  lemma GrowCuts(g: Geo, fat0: seq<u16>, L0: Layout, disk0: seq<Sector>, c: nat, trail0: seq<seq<Sector>>,
      trail1: seq<seq<Sector>>, trail: seq<seq<Sector>>, fat: seq<u16>, disk1: seq<Sector>, disk: seq<Sector>)
    requires LayoutOk(g, fat0, L0) && DiskOk(g, disk0) && Unowned(L0, c) && 2 <= c < g.clusters
    requires Within(g, c, disk0, trail0, trail1) && |trail1| > |trail0| && trail1[|trail1| - 1] == disk1
    requires |trail1| <= |trail| && trail[..|trail1|] == trail1 && SameAbove(g, disk1, disk) &&
             |fat| == 256 * g.fatSectors
    requires forall i :: |trail1| <= i < |trail| ==> FlushCut(g, disk1, fat, trail[i], i + 1 - |trail1|)
    ensures Cuts(g, L0, disk0, trail, |trail0|, |trail1| - 1, fat, disk)
    ensures Quiet(g, L0, disk0, trail[|trail1| - 1])
  {
    hide LayoutOk, View, Unowned, SameOutside, FlushCut;
    var at := |trail1| - 1;
    forall i | |trail0| <= i <= at
      ensures Quiet(g, L0, disk0, trail[i])
    {
      assert trail[i] == trail1[i];
      WithinIsQuiet(g, fat0, L0, disk0, trail1[i], c);
    }
    assert trail[at] == disk1;
    CutNothing(g, disk1, fat);
  }

  /** A single write above the FAT copies. */
  lemma OneCut(g: Geo, L0: Layout, disk0: seq<Sector>, trail0: seq<seq<Sector>>, lba: nat, disk: seq<Sector>,
      fat: seq<u16>)
    requires |disk| == |disk0| && g.rootStart <= lba < |disk0| && disk == disk0[lba := disk[lba]] &&
             |fat| == 256 * g.fatSectors
    ensures Cuts(g, L0, disk0, trail0 + [disk], |trail0|, |trail0|, fat, disk)
  {
    hide View;
    CutNothing(g, disk, fat);
  }

  lemma CutNothing(g: Geo, base: seq<Sector>, fat: seq<u16>)
    requires |fat| == 256 * g.fatSectors
    ensures FlushCut(g, base, fat, base, 0)
  {
  }

  lemma GrownFree(g: Geo, fat: seq<u16>, L: Layout, d: nat, c: nat)
    requires LayoutOk(g, fat, L) && d in L.chains && 2 <= c < g.clusters && c < |fat| && fat[c] == 0
    ensures L.chains[d] != []
    ensures var last := L.chains[d][|L.chains[d]| - 1];
            last < |fat| && last != c && |FreeSet(g, fat[last := c][c := END])| + 1 == |FreeSet(g, fat)|
  {
    var last := L.chains[d][|L.chains[d]| - 1];
    assert LinkOk(g, fat, L, d, |L.chains[d]| - 1);
    hide LayoutOk, FreeSet;
    FreeSetRelinked(g, fat, last, c);
    FreeSetTaken(g, fat[last := c], c, END);
  }

  /** Clusters an insertion into a directory takes. */
  ghost function Grown(v: seq<Sector>): nat { if FreeSlot(v, 0) >= 0 then 0 else 1 }

  lemma HasFree(g: Geo, fat: seq<u16>, c: nat)
    requires 2 <= c < g.clusters && c < |fat| && fat[c] == 0
    ensures FreeSet(g, fat) != {}
  {
    assert c in FreeSet(g, fat);
  }

  /** The images of an insertion: a single one, or those of a directory that grows. */
  ghost predicate InsertCuts(g: Geo, fat0: seq<u16>, L0: Layout, disk0: seq<Sector>, trail0: seq<seq<Sector>>,
      fat: seq<u16>, L: Layout, disk: seq<Sector>, trail: seq<seq<Sector>>, d: nat, at: nat)
  {
    && |trail0| <= |trail| && trail[..|trail0|] == trail0 && Cuts(g, L0, disk0, trail, |trail0|, at, fat, disk)
    && if Grown(View(g, L0, disk0, d)) == 0 then
         |trail| == |trail0| + 1 && at == |trail0| && trail[at] == disk && fat == fat0 && L == L0
       else GrownCuts(g, fat0, L0, disk0, fat, L, disk, trail, d, at)
  }

  ghost predicate GrownCuts(g: Geo, fat0: seq<u16>, L0: Layout, disk0: seq<Sector>, fat: seq<u16>, L: Layout,
      disk: seq<Sector>, trail: seq<seq<Sector>>, d: nat, at: nat)
  {
    && at + g.fatSectors < |trail| && Quiet(g, L0, disk0, trail[at])
    && Synced(g, disk, fat) && exists last: nat, c: nat :: GrewBy(fat0, L0, fat, L, d, last, c)
  }

  /** dir_insert: the first free slot, or a new cluster for a full subdirectory; fails, changing
      nothing, when there is neither. No other cluster is taken. */
  method DirInsert(dr: Driver, d: nat, e: Entry) returns (ok: bool, ghost k: nat, ghost at: nat)
    requires dr.Shaped() && LayoutOk(dr.g, dr.fat[..], dr.L) && (d == 0 || d in dr.L.chains)
    modifies dr.disk, dr.fat, dr.dirBuf, dr`L, dr`trail
    ensures ok <==> FreeSlot(View(dr.g, old(dr.L), old(dr.disk[..]), d), 0) >= 0 ||
                    (d != 0 && FreeSet(dr.g, old(dr.fat[..])) != {})
    ensures !ok ==> dr.disk[..] == old(dr.disk[..]) && dr.fat[..] == old(dr.fat[..]) && dr.L == old(dr.L)
    ensures ok ==> LayoutOk(dr.g, dr.fat[..], dr.L)
    ensures ok ==> InsertedInto(dr.g, old(dr.L), old(dr.disk[..]), dr.L, dr.disk[..], d, k, e)
    ensures ok ==> |FreeSet(dr.g, dr.fat[..])| + Grown(View(dr.g, old(dr.L), old(dr.disk[..]), d)) == |FreeSet(dr.g,
                   old(dr.fat[..]))|
    ensures Synced(dr.g, old(dr.disk[..]), old(dr.fat[..])) ==> Synced(dr.g, dr.disk[..], dr.fat[..])
    ensures !ok ==> dr.trail == old(dr.trail)
    ensures ok ==> InsertCuts(dr.g, old(dr.fat[..]), old(dr.L), old(dr.disk[..]), old(dr.trail), dr.fat[..], dr.L,
                     dr.disk[..], dr.trail, d, at)
  {
    hide LayoutOk, Slot, SetSlot, FreeSlot, View, Synced, InsertedInto, Lba, Span, FreeSet, Cuts, GrewBy, Quiet;
    at := 0;
    ghost var fat0, disk0 := dr.fat[..], dr.disk[..];
    var found, lba, i, last;
    found, lba, i, last, k := FindFree(dr, d);
    if found {
      InsertedHere(dr.g, fat0, dr.L, disk0, d, k, e);
      StoreEntry(dr.dirBuf, i, e);
      if Synced(dr.g, disk0, fat0) { SyncedAbove(dr.g, disk0, fat0, lba, dr.dirBuf[..]); }
      at := |dr.trail|;
      ghost var trail0 := dr.trail;
      dr.BlockWrite(lba, dr.dirBuf[..]);
      OneCut(dr.g, dr.L, disk0, trail0, lba, dr.disk[..], fat0);
      return true, k, at;
    }
    if d == 0 { return false, k, at; }
    ghost var c;
    ok, k, at, c := GrowDirectory(dr, d, last, e);
  }
}
