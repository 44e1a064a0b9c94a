/** Whole-file replace (fat16_write_file): the old chain is given back, a new one is built cluster by
    cluster and the entry is pointed at it. */
module Fat16Replace {
  import opened Bytes
  import opened Fat16Layout
  import opened Fat16Image
  import opened Fat16Dir
  import opened Fat16Name
  import opened Fat16Write
  import opened Fat16Driver
  import opened Fat16Cuts
  import opened Fat16DirOps
  import opened Fat16Free

  // ---- buf, cut into zero-padded sectors ---------------------------------------------------------------

  /** Bytes p .. p + 511 of buf, zeros behind its end. */
  function PaddedSector(buf: seq<byte>, p: nat): (r: Sector) {
    seq(512, b requires 0 <= b < 512 => if p + b < |buf| then buf[p + b] else 0)
  }

  /** The first n sectors of buf, zeros behind its end. */
  function PaddedSectors(buf: seq<byte>, n: nat): (v: seq<Sector>)
    ensures |v| == n
  {
    seq(n, j requires 0 <= j => PaddedSector(buf, 512 * j))
  }

  lemma PaddedFlat(buf: seq<byte>, n: nat)
    requires |buf| <= 512 * n
    ensures Flat(PaddedSectors(buf, n))[..|buf|] == buf
  {
    var b := Flat(PaddedSectors(buf, n));
    forall p | 0 <= p < |buf|
      ensures b[p] == buf[p]
    {
      assert b[p] == PaddedSector(buf, 512 * (p / 512))[p % 512];
      assert 512 * (p / 512) + p % 512 == p;
    }
  }

  // ---- while the new chain is being built -----------------------------------------------------------------

  /** On the volume (L1, disk1, fat1) that has lost the file's old chain, n clusters of the new chain
      exist, starting at t, and hold the first sectors of buf. */
  ghost predicate Building(g: Geo, L1: Layout, disk1: seq<Sector>, fat1: seq<u16>, buf: seq<byte>, t: nat, n: nat,
      L: Layout, disk: seq<Sector>, fat: seq<u16>)
  {
    && LayoutOk(g, fat, L) && |fat| == 256 * g.fatSectors && |disk| == |disk1| && 0 !in L1.chains
    && (if n == 0 then L == L1 && fat == fat1
        else && t !in L1.chains && t in L.chains && |L.chains[t]| == n
             && View(g, L, disk, t) == PaddedSectors(buf, At(g, n, 0)))
    && (forall o :: n == 0 || o != t ==> (o in L.chains <==> o in L1.chains))
    && (forall o :: o in L1.chains ==> o in L.chains && L.chains[o] == L1.chains[o])
    && (forall o :: n == 0 || o != t ==> View(g, L, disk, o) == View(g, L1, disk1, o))
    && |FreeSet(g, fat)| + n == |FreeSet(g, fat1)|
    && (forall a :: 0 <= a < g.rootStart ==> SectorAt(disk, a) == SectorAt(disk1, a))
  }

  lemma BuildingStart(g: Geo, L1: Layout, disk1: seq<Sector>, fat1: seq<u16>, buf: seq<byte>)
    requires LayoutOk(g, fat1, L1)
    ensures Building(g, L1, disk1, fat1, buf, 0, 0, L1, disk1, fat1)
  {
    hide View, FreeSet, SectorAt;
  }

  /** Below the data area nothing changes when a cluster is filled. */
  lemma LowSectors(g: Geo, c: nat, disk: seq<Sector>, disk': seq<Sector>)
    requires 2 <= c < g.clusters && SameOutside(g, c, disk, disk')
    ensures |disk'| == |disk|
    ensures forall a :: 0 <= a < g.rootStart ==> SectorAt(disk', a) == SectorAt(disk, a)
  {
    ClusterLbaBound(g, c, 0);
    hide ClusterLba;
  }

  lemma PaddedMore(g: Geo, buf: seq<byte>, n: nat, w: seq<Sector>)
    requires |w| == g.spc && forall s :: 0 <= s < g.spc ==> w[s] == PaddedSector(buf, 512 * At(g, n, s))
    ensures PaddedSectors(buf, At(g, n, 0)) + w == PaddedSectors(buf, At(g, n + 1, 0))
  {
    AtNext(g, n);
    var m := At(g, n, 0);
    assert forall s: nat :: At(g, n, s) == m + s;
    hide At, PaddedSector;
    var x, y := PaddedSectors(buf, m) + w, PaddedSectors(buf, At(g, n + 1, 0));
    forall j | 0 <= j < |x|
      ensures x[j] == y[j]
    {
      if j >= m { assert x[j] == w[j - m]; }
    }
  }

  /** The first cluster of the new chain. */
  lemma BuildingFirst(g: Geo, L1: Layout, disk1: seq<Sector>, fat1: seq<u16>, buf: seq<byte>, t: nat, L: Layout,
      disk: seq<Sector>, fat: seq<u16>, c: nat, disk': seq<Sector>)
    requires Building(g, L1, disk1, fat1, buf, t, 0, L, disk, fat) && DiskOk(g, disk)
    requires 2 <= c < g.clusters && fat[c] == 0 && SameOutside(g, c, disk, disk')
    requires forall s :: 0 <= s < g.spc ==> ClusterSectors(g, disk', c)[s] == PaddedSector(buf, 512 * At(g, 0, s))
    ensures Building(g, L1, disk1, fat1, buf, c, 1, Start(L, c), disk', fat[c := END])
  {
    hide LayoutOk, View, FreeSet, SectorAt, ClusterSectors, SameOutside, PaddedSectors, PaddedSector, Unowned, At;
    FreeIsUnowned(g, fat, L, c);
    StartOk(g, fat, L, c);
    StartedView(g, L, disk', c);
    StartViews(g, L, disk', c);
    FreeSetTaken(g, fat, c, END);
    LowSectors(g, c, disk, disk');
    PaddedMore(g, buf, 0, ClusterSectors(g, disk', c));
    NoSectors(g, buf);
    forall o | o != c
      ensures View(g, Start(L, c), disk', o) == View(g, L1, disk1, o)
    {
      ViewsOutside(g, fat, L, disk, disk', c, o);
    }
  }

  lemma NoSectors(g: Geo, buf: seq<byte>)
    ensures PaddedSectors(buf, At(g, 0, 0)) == []
  {
  }

  lemma GrownLayout(g: Geo, fat: seq<u16>, L: Layout, t: nat, c: nat)
    requires LayoutOk(g, fat, L) && t in L.chains && 2 <= c < g.clusters && fat[c] == 0
    ensures Unowned(L, c) && |L.chains[t]| > 0
    ensures var last := L.chains[t][|L.chains[t]| - 1];
            last < |fat| && last != c && LayoutOk(g, fat[c := END][last := c], Grow(L, t, c)) &&
              |FreeSet(g, fat[c := END][last := c])| == |FreeSet(g, fat)| - 1
  {
    FreeIsUnowned(g, fat, L, c);
    hide LayoutOk, FreeSet;
    GrownFat(g, fat, L, t, c);
    LastInside(g, fat, L, t);
  }

  lemma LastInside(g: Geo, fat: seq<u16>, L: Layout, t: nat)
    requires LayoutOk(g, fat, L) && t in L.chains
    ensures |L.chains[t]| > 0 && 2 <= L.chains[t][|L.chains[t]| - 1] < |fat|
  {
    assert LinkOk(g, fat, L, t, |L.chains[t]| - 1);
  }

  /** One more cluster at the end of it. */
  lemma BuildingMore(g: Geo, L1: Layout, disk1: seq<Sector>, fat1: seq<u16>, buf: seq<byte>, t: nat, n: nat,
      L: Layout, disk: seq<Sector>, fat: seq<u16>, c: nat, disk': seq<Sector>)
    requires Building(g, L1, disk1, fat1, buf, t, n, L, disk, fat) && DiskOk(g, disk) && n > 0
    requires 2 <= c < g.clusters && fat[c] == 0 && SameOutside(g, c, disk, disk')
    requires forall s :: 0 <= s < g.spc ==> ClusterSectors(g, disk', c)[s] == PaddedSector(buf, 512 * At(g, n, s))
    ensures L.chains[t][n - 1] < |fat|
    ensures Building(g, L1, disk1, fat1, buf, t, n + 1, Grow(L, t, c), disk', fat[c := END][L.chains[t][n - 1] := c])
  {
    hide LayoutOk, View, FreeSet, SectorAt, ClusterSectors, SameOutside, PaddedSectors, PaddedSector, Unowned, At;
    GrownLayout(g, fat, L, t, c);
    NoZero(g, fat, L);
    GrownView(g, L, disk', t, c);
    GrowViews(g, L, disk', t, c);
    LowSectors(g, c, disk, disk');
    ViewsOutside(g, fat, L, disk, disk', c, t);
    PaddedMore(g, buf, n, ClusterSectors(g, disk', c));
    forall o | o != t
      ensures View(g, Grow(L, t, c), disk', o) == View(g, L1, disk1, o)
    {
      ViewsOutside(g, fat, L, disk, disk', c, o);
    }
  }

  lemma NoZero(g: Geo, fat: seq<u16>, L: Layout)
    requires LayoutOk(g, fat, L)
    ensures 0 !in L.chains
  {
  }

  // ---- the clusters, as the driver fills them ----------------------------------------------------------------

  /** Copies 512 bytes of buf from pos on to sectorBuf, zeros behind the end of buf. */
  method PadSector(dr: Driver, buf: seq<byte>, pos: nat)
    requires dr.sectorBuf.Length == 512
    modifies dr.sectorBuf
    ensures dr.sectorBuf[..] == PaddedSector(buf, pos)
  {
    var b := 0;
    while b < 512
      invariant 0 <= b <= 512
      invariant dr.sectorBuf[..b] == PaddedSector(buf, pos)[..b]
    {
      dr.sectorBuf[b] := if pos + b < |buf| then buf[pos + b] else 0;
      b := b + 1;
    }
  }

  /** disk is disk0 with s sectors from lba on taken from buf. */
  ghost predicate Filled(disk0: seq<Sector>, disk: seq<Sector>, lba: nat, buf: seq<byte>, pos: nat, n: nat) {
    && |disk| == |disk0| && lba + n <= |disk|
    && forall a :: 0 <= a < |disk| ==>
       disk[a] == if lba <= a < lba + n then PaddedSector(buf, pos + 512 * (a - lba)) else disk0[a]
  }

  lemma FilledCluster(g: Geo, c: nat, disk0: seq<Sector>, disk: seq<Sector>, buf: seq<byte>, n: nat)
    requires 2 <= c && Filled(disk0, disk, ClusterLba(g, c), buf, 512 * At(g, n, 0), g.spc)
    ensures SameOutside(g, c, disk0, disk)
    ensures forall s :: 0 <= s < g.spc ==> ClusterSectors(g, disk, c)[s] == PaddedSector(buf, 512 * At(g, n, s))
  {
    var m := At(g, n, 0);
    assert forall s: nat :: At(g, n, s) == m + s;
    hide ClusterLba, PaddedSector, At;
  }

  lemma FilledOutside(g: Geo, c: nat, disk0: seq<Sector>, disk: seq<Sector>, buf: seq<byte>, pos: nat, n: nat)
    requires 2 <= c && n <= g.spc && Filled(disk0, disk, ClusterLba(g, c), buf, pos, n)
    ensures SameOutside(g, c, disk0, disk)
  {
    hide ClusterLba, PaddedSector;
  }

  /** Fills cluster c with the n-th cluster's worth of buf. */
  method FillCluster(dr: Driver, c: nat, buf: seq<byte>, written: nat, ghost n: nat)
    requires dr.Shaped() && 2 <= c < dr.g.clusters && written == 512 * At(dr.g, n, 0)
    modifies dr.disk, dr.sectorBuf, dr`trail
    ensures SameOutside(dr.g, c, old(dr.disk[..]), dr.disk[..])
    ensures forall s :: 0 <= s < dr.g.spc ==>
            ClusterSectors(dr.g, dr.disk[..], c)[s] == PaddedSector(buf, 512 * At(dr.g, n, s))
    ensures Within(dr.g, c, old(dr.disk[..]), old(dr.trail), dr.trail)
  {
    var clba := ClusterLba(dr.g, c);
    ClusterLbaBound(dr.g, c, dr.g.spc - 1);
    hide ClusterLba, ClusterSectors, SameOutside, PaddedSector, At;
    ghost var disk0 := dr.disk[..];
    var sec := 0;
    while sec < dr.g.spc
      invariant 0 <= sec <= dr.g.spc
      invariant Filled(disk0, dr.disk[..], clba, buf, written, sec)
      invariant Within(dr.g, c, disk0, old(dr.trail), dr.trail)
    {
      PadSector(dr, buf, written + 512 * sec);
      dr.BlockWrite(clba + sec, dr.sectorBuf[..]);
      sec := sec + 1;
      FilledOutside(dr.g, c, disk0, dr.disk[..], buf, written, sec);
    }
    FilledCluster(dr.g, c, disk0, dr.disk[..], buf, n);
  }

  // ---- the volume without the old chain --------------------------------------------------------------------

  ghost function Without(L: Layout, f: nat): Layout { if f == 0 then L else Drop(L, f) }

  ghost function FatWithout(J: Job): seq<u16> { if J.First() == 0 then J.fat else Freed(J.fat, J.Chain()) }

  /** The job's volume as if its file had been emptied: the chain given back and the entry cleared. */
  ghost function Emptied(J: Job): Job
    requires J.k / 16 < |J.Dir()| && Lba(J.g, J.L, J.d, J.k / 16) < |J.disk|
  {
    var a := Lba(J.g, J.L, J.d, J.k / 16);
    J.(L := Without(J.L, J.First()), fat := FatWithout(J),
       disk := J.disk[a := SetSlot(J.disk[a], J.k % 16, Resized(J.Entry0(), 0, 0))])
  }

  lemma WithoutOk(J: Job)
    requires JobTree(J)
    ensures LayoutOk(J.g, FatWithout(J), Without(J.L, J.First()))
    ensures |FreeSet(J.g, FatWithout(J))| == |FreeSet(J.g, J.fat)| + |J.Chain()|
    ensures forall o :: o != J.First() || o == 0 ==>
            View(J.g, Without(J.L, J.First()), J.disk, o) == View(J.g, J.L, J.disk, o)
    ensures J.First() !in Without(J.L, J.First()).chains
  {
    hide JobTree, LayoutOk, View, Slot, FreeSet, Freed;
    JobFile(J);
    JobLayout(J);
    if J.First() != 0 {
      DropOk(J.g, J.fat, J.L, J.First());
      FreedCount(J.g, J.fat, J.L, J.First());
      DropViews(J.g, J.L, J.disk, J.First());
    }
  }

  lemma EntrySector(J: Job)
    requires JobTree(J)
    ensures J.k / 16 < |J.Dir()| == Span(J.g, J.L, J.d) && J.g.rootStart <= Lba(J.g, J.L, J.d, J.k / 16) < |J.disk|
    ensures J.Dir()[J.k / 16] == J.disk[Lba(J.g, J.L, J.d, J.k / 16)]
    ensures Lba(J.g, Without(J.L, J.First()), J.d, J.k / 16) == Lba(J.g, J.L, J.d, J.k / 16)
    ensures J.d != J.First() || J.d == 0
  {
    hide JobTree, LayoutOk, View, Slot, Lba;
    JobFile(J);
    JobLayout(J);
    EntryInDir(J);
    LbaLocate(J.g, J.fat, J.L, J.d, J.k / 16);
    ViewAt(J.g, J.L, J.disk, J.d, J.k / 16);
    LbaKept(J);
  }

  lemma EntryInDir(J: Job)
    requires JobTree(J)
    ensures J.k / 16 < |J.Dir()| == Span(J.g, J.L, J.d) && |J.disk| >= SectorCount(J.g)
  {
  }

  lemma LbaKept(J: Job)
    requires J.d != J.First() || J.d == 0
    ensures Lba(J.g, Without(J.L, J.First()), J.d, J.k / 16) == Lba(J.g, J.L, J.d, J.k / 16)
  {
  }

  /** What the emptied volume shows. */
  lemma EmptiedViews(J: Job)
    requires JobTree(J)
    ensures J.k / 16 < |J.Dir()| && Lba(J.g, J.L, J.d, J.k / 16) < |J.disk|
    ensures var K := Emptied(J);
            && View(J.g, K.L, K.disk, J.d) == PutSlot(J.Dir(), J.k, Resized(J.Entry0(), 0, 0))
            && forall o :: o != J.d ==> View(J.g, K.L, K.disk, o) == View(J.g, K.L, J.disk, o)
  {
    hide JobTree, LayoutOk, View, Slot, FreeSet, Freed, Lba, SetSlot, Span;
    JobLayout(J);
    EntrySector(J);
    WithoutOk(J);
    SpanKept(J);
    ViewWrite(J.g, FatWithout(J), Without(J.L, J.First()), J.disk, J.d, J.k / 16,
      SetSlot(J.Dir()[J.k / 16], J.k % 16, Resized(J.Entry0(), 0, 0)));
  }

  lemma SpanKept(J: Job)
    requires J.d != J.First() || J.d == 0
    ensures Span(J.g, Without(J.L, J.First()), J.d) == Span(J.g, J.L, J.d)
  {
  }

  lemma EntryEmptied(g: Geo, L: Layout, L': Layout, T: Tree, d: nat, k: nat, x: Entry)
    requires EntryOk(g, L, T, d, k, x) && IsLive(x) && !IsDir(x) && (d == 0 || 2 <= k)
    ensures EntryOk(g, L', T, d, k, Resized(x, 0, 0))
  {
    var e := Resized(x, 0, 0);
    assert e[0] == e[..11][0] == x[..11][0] == x[0];
  }

  /** Every other entry of the tree stays good without the file's chain. */
  lemma OtherEntryEmptied(J: Job, d: nat, k: nat)
    requires JobTree(J) && OtherSlot(J, d, k)
    ensures EntryOk(J.g, Without(J.L, J.First()), J.T, d, k, Slot(View(J.g, J.L, J.disk, d), k))
  {
    hide JobTree, View, Slot, EntryOk;
    var x, f := Slot(View(J.g, J.L, J.disk, d), k), J.First();
    JobFile(J);
    OtherEntryOk(J, d, k);
    if f != 0 {
      if IsLive(x) && (d == 0 || 2 <= k) { TargetIsAlone(J, f, J.L, d, k); }
      EntryKept(J.g, J.L, Drop(J.L, f), J.T, d, k, x, f, (J.d, J.k));
      assert J.T.home[f := (J.d, J.k)] == J.T.home;
    }
  }

  /** The views of a directory before and after, slot by slot. */
  lemma EmptiedSlots(J: Job, d: nat)
    requires JobTree(J) && IsDirectory(J.T, d)
    ensures J.k / 16 < |J.Dir()| && Lba(J.g, J.L, J.d, J.k / 16) < |J.disk|
    ensures var K := Emptied(J);
            && |View(J.g, K.L, K.disk, d)| == |View(J.g, J.L, J.disk, d)| == Span(J.g, J.L, d)
            && (forall k: nat :: (d, k) != (J.d, J.k) ==>
               Slot(View(J.g, K.L, K.disk, d), k) == Slot(View(J.g, J.L, J.disk, d), k))
            && Slot(View(J.g, K.L, K.disk, J.d), J.k) == Resized(J.Entry0(), 0, 0)
    ensures d != J.First() || d == 0
  {
    hide JobTree, LayoutOk, View, Slot, Freed, Lba, SetSlot, PutSlot;
    EmptiedViews(J);
    WithoutOk(J);
    JobFile(J);
    SlotPut(J.Dir(), J.k, Resized(J.Entry0(), 0, 0));
  }

  lemma EmptiedDir(J: Job, d: nat)
    requires JobTree(J) && IsDirectory(J.T, d)
    ensures J.k / 16 < |J.Dir()| && Lba(J.g, J.L, J.d, J.k / 16) < |J.disk|
    ensures DirOk(J.g, Emptied(J).L, J.T, d, View(J.g, Emptied(J).L, Emptied(J).disk, d))
  {
    hide JobTree, View, Slot, EntryOk, Lba, SetSlot, Freed;
    EmptiedSlots(J, d);
    UsedBound(J, d);
    var K := Emptied(J);
    var v := View(J.g, K.L, K.disk, d);
    forall k: nat | k < 16 * |v|
      ensures EntryOk(J.g, K.L, J.T, d, k, Slot(v, k))
    {
      if (d, k) == (J.d, J.k) {
        EntryEmptied(J.g, J.L, K.L, J.T, d, k, J.Entry0());
      } else {
        OtherEntryEmptied(J, d, k);
      }
    }
  }

  lemma UsedBound(J: Job, d: nat)
    requires JobTree(J) && IsDirectory(J.T, d)
    ensures d in J.T.used && J.T.used[d] <= 16 * |View(J.g, J.L, J.disk, d)|
    ensures EntryOk(J.g, J.L, J.T, J.d, J.k, J.Entry0()) && IsLive(J.Entry0()) && !IsDir(J.Entry0()) &&
            (J.d == 0 || 2 <= J.k)
  {
    assert DirOk(J.g, J.L, J.T, d, View(J.g, J.L, J.disk, d));
    assert DirOk(J.g, J.L, J.T, J.d, J.Dir());
  }

  lemma EmptiedLink(J: Job, d: nat)
    requires JobTree(J) && d in J.T.parent
    ensures J.k / 16 < |J.Dir()| && Lba(J.g, J.L, J.d, J.k / 16) < |J.disk|
    ensures LinkedIn(J.g, Emptied(J).L, Emptied(J).disk, J.T, d)
  {
    hide View, Slot, Lba, SetSlot, Freed, DirOk;
    assert LinkedIn(J.g, J.L, J.disk, J.T, d);
    var p := J.T.parent[d];
    EmptiedSlots(J, p);
    EmptiedSlots(J, d);
    assert (p, J.T.home[d].1) != (J.d, J.k);
  }

  /** Emptying the file leaves a valid tree. */
  lemma EmptiedOk(J: Job)
    requires JobTree(J) && J.pos == 0
    ensures J.k / 16 < |J.Dir()| && Lba(J.g, J.L, J.d, J.k / 16) < |J.disk|
    ensures JobTree(Emptied(J)) && Emptied(J).First() == 0 && Emptied(J).Size() == 0 && Emptied(J).Old() == []
    ensures NameOf(Emptied(J).Entry0()) == NameOf(J.Entry0()) && Emptied(J).Entry0() == Resized(J.Entry0(), 0, 0)
    ensures |Emptied(J).Dir()| == |J.Dir()|
  {
    EmptiedTree(J);
    EmptiedJob(J);
  }

  lemma EmptiedTree(J: Job)
    requires JobTree(J)
    ensures J.k / 16 < |J.Dir()| && Lba(J.g, J.L, J.d, J.k / 16) < |J.disk|
    ensures TreeOk(J.g, Emptied(J).L, Emptied(J).disk, J.T)
  {
    hide JobTree, View, Slot, DirOk, LinkedIn, Lba, SetSlot, Freed;
    EntrySector(J);
    TreeBasics(J);
    var K := Emptied(J);
    forall d | IsDirectory(J.T, d)
      ensures DirOk(J.g, K.L, J.T, d, View(J.g, K.L, K.disk, d))
    {
      EmptiedDir(J, d);
    }
    forall d | d in J.T.parent
      ensures LinkedIn(J.g, K.L, K.disk, J.T, d)
    {
      EmptiedLink(J, d);
    }
  }

  lemma TreeBasics(J: Job)
    requires JobTree(J)
    ensures 0 !in J.T.parent && 0 !in J.T.depth && 0 in J.T.used && IsDirectory(J.T, J.d) && (J.d == 0 || 2 <= J.k)
    ensures J.k < 16 * |J.Dir()| && |J.data| < 0x1_0000_0000 && DiskOk(J.g, J.disk)
  {
  }

  lemma EmptiedJob(J: Job)
    requires JobTree(J) && J.pos == 0 && J.k / 16 < |J.Dir()| && Lba(J.g, J.L, J.d, J.k / 16) < |J.disk|
    requires TreeOk(J.g, Emptied(J).L, Emptied(J).disk, J.T)
    ensures JobTree(Emptied(J)) && Emptied(J).First() == 0 && Emptied(J).Size() == 0 && Emptied(J).Old() == []
    ensures NameOf(Emptied(J).Entry0()) == NameOf(J.Entry0()) && Emptied(J).Entry0() == Resized(J.Entry0(), 0, 0)
    ensures |Emptied(J).Dir()| == |J.Dir()|
  {
    EmptiedParts(J);
    hide View, Slot, TreeOk, Lba, SetSlot, Freed, LayoutOk;
  }

  lemma EmptiedParts(J: Job)
    requires JobTree(J) && J.k / 16 < |J.Dir()| && Lba(J.g, J.L, J.d, J.k / 16) < |J.disk|
    ensures var K := Emptied(J);
            && DiskOk(K.g, K.disk) && LayoutOk(K.g, K.fat, K.L) && IsDirectory(K.T, K.d) && K.k < 16 * |K.Dir()| &&
               (K.d == 0 || 2 <= K.k)
            && K.Entry0() == Resized(J.Entry0(), 0, 0) && IsLive(K.Entry0()) && !IsDir(K.Entry0()) &&
               |J.data| < 0x1_0000_0000
            && |K.Dir()| == |J.Dir()|
  {
    hide JobTree, View, Slot, TreeOk, Lba, SetSlot, Freed, LayoutOk;
    var K := Emptied(J);
    TreeBasics(J);
    EmptiedSlots(J, J.d);
    WithoutOk(J);
    UsedBound(J, J.d);
    assert NameOf(K.Entry0())[0] == NameOf(J.Entry0())[0];
  }

  // ---- the replaced file --------------------------------------------------------------------------------------

  ghost function TreeWith(J: Job, t: nat): Tree { if J.data == [] then J.T else HomeAt(J, t) }

  ghost predicate Kept(J: Job, L: Layout, disk: seq<Sector>, o: nat)
    requires o in J.L.chains
  {
    o in L.chains && L.chains[o] == J.L.chains[o] && (o != J.d ==> View(J.g, L, disk, o) == View(J.g, J.L, J.disk, o))
  }

  /** The job's file now holds exactly the job's data, in a chain from t on (none when it is empty);
      every other entry and object is as before and no cluster got lost. */
  ghost predicate Replaced(J: Job, t: nat, fat: seq<u16>, L: Layout, disk: seq<Sector>) {
    && LayoutOk(J.g, fat, L) && Synced(J.g, disk, fat) && TreeOk(J.g, L, disk, TreeWith(J, t))
    && t < 0x1_0000 && |J.data| < 0x1_0000_0000 && (t == 0 <==> J.data == [])
    && Slot(View(J.g, L, disk, J.d), J.k) == Resized(J.Entry0(), t, |J.data|)
    && Content(J.g, L, disk, t, |J.data|) == J.data
    && (forall d, k :: OtherSlot(J, d, k) ==> Slot(View(J.g, L, disk, d), k) == Slot(View(J.g, J.L, J.disk, d), k))
    && (forall o :: o in J.L.chains && o != J.First() ==> Kept(J, L, disk, o))
    && (forall o :: o in L.chains && o != t ==> o in J.L.chains && o != J.First())
    && Clusters(J.g, |J.data|) + |FreeSet(J.g, fat)| == |J.Chain()| + |FreeSet(J.g, J.fat)|
  }

  lemma PutTwice(v: seq<Sector>, k: nat, e: Entry, e': Entry)
    requires k / 16 < |v|
    ensures PutSlot(PutSlot(v, k, e), k, e') == PutSlot(v, k, e')
  {
    assert SetSlot(SetSlot(v[k / 16], k % 16, e), k % 16, e') == SetSlot(v[k / 16], k % 16, e');
  }

  /** The dirent write and the flush after the new chain is complete. */
  ghost predicate Committed(J: Job, L: Layout, data: seq<Sector>, disk: seq<Sector>, e: Entry) {
    && |disk| == |data|
    && J.k / 16 < |J.Dir()|
    && View(J.g, L, disk, J.d) == PutSlot(J.Dir(), J.k, e)
    && forall o :: o != J.d ==> View(J.g, L, disk, o) == View(J.g, L, data, o)
  }

  /** Seen from the emptied volume, the new entry is the commit of a write to an empty file. */
  lemma ReplaceReslots(J: Job, t: nat, n: nat, fat: seq<u16>, L: Layout, data: seq<Sector>, disk: seq<Sector>)
    requires JobTree(J) && J.pos == 0 && n > 0 && t < 0x1_0000 && |J.data| < 0x1_0000_0000
    requires Building(J.g, Without(J.L, J.First()), J.disk, FatWithout(J), J.data, t, n, L, data, fat)
    requires Committed(J, L, data, disk, Resized(J.Entry0(), t, |J.data|))
    ensures J.k / 16 < |J.Dir()| && Lba(J.g, J.L, J.d, J.k / 16) < |J.disk| && t != J.d && t != 0
    ensures Reslotted(Emptied(J), t, L, Resized(J.Entry0(), t, |J.data|), disk)
  {
    hide JobTree, LayoutOk, View, Slot, Lba, SetSlot, Freed, PutSlot, FreeSet, PaddedSectors, SectorAt;
    EmptiedOk(J);
    EmptiedViews(J);
    NewIsFree(J, t, n, fat, L, data);
    PutTwice(J.Dir(), J.k, Resized(J.Entry0(), 0, 0), Resized(J.Entry0(), t, |J.data|));
  }

  lemma NewIsFree(J: Job, t: nat, n: nat, fat: seq<u16>, L: Layout, data: seq<Sector>)
    requires JobTree(J) && n > 0
    requires Building(J.g, Without(J.L, J.First()), J.disk, FatWithout(J), J.data, t, n, L, data, fat)
    ensures t != J.d && t != 0
  {
    hide JobTree, View, Slot, Freed, PaddedSectors, FreeSet, SectorAt, LinkOk;
    JobFile(J);
    DirHasChain(J);
  }

  lemma ReplacedTree(J: Job, t: nat, n: nat, fat: seq<u16>, L: Layout, data: seq<Sector>, disk: seq<Sector>)
    requires JobTree(J) && J.pos == 0 && n > 0 && t < 0x1_0000 && 0 < |J.data| < 0x1_0000_0000 &&
             n == Clusters(J.g, |J.data|)
    requires Building(J.g, Without(J.L, J.First()), J.disk, FatWithout(J), J.data, t, n, L, data, fat)
    requires Committed(J, L, data, disk, Resized(J.Entry0(), t, |J.data|))
    ensures TreeOk(J.g, L, disk, HomeAt(J, t)) && t != J.d && t != 0
  {
    hide JobTree, LayoutOk, View, Slot, Lba, SetSlot, Freed, PutSlot, FreeSet, PaddedSectors, SectorAt, Clusters,
      TreeOk, Reslotted;
    ReplaceReslots(J, t, n, fat, L, data, disk);
    EmptiedOk(J);
    CommitTree(Emptied(J), t, L, Resized(J.Entry0(), t, |J.data|), disk);
  }

  lemma EmptyTree(J: Job, fat: seq<u16>, L: Layout, data: seq<Sector>, disk: seq<Sector>)
    requires JobTree(J) && J.pos == 0
    requires Building(J.g, Without(J.L, J.First()), J.disk, FatWithout(J), J.data, 0, 0, L, data, fat)
    requires Committed(J, L, data, disk, Resized(J.Entry0(), 0, 0))
    ensures TreeOk(J.g, L, disk, J.T)
  {
    hide JobTree, LayoutOk, View, Slot, Lba, SetSlot, Freed, PutSlot, FreeSet, PaddedSectors, SectorAt, TreeOk;
    EmptiedOk(J);
    EmptiedTree(J);
    EmptiedViews(J);
    TreeSame(J.g, L, J.T, Emptied(J).disk, disk);
  }

  /** Slots and objects other than the file's, in the final volume. */
  lemma ReplacedOthers(J: Job, t: nat, n: nat, fat: seq<u16>, L: Layout, data: seq<Sector>, disk: seq<Sector>, e: Entry)
    requires JobTree(J) && (n > 0 ==> t != J.d && t != 0)
    requires Building(J.g, Without(J.L, J.First()), J.disk, FatWithout(J), J.data, t, n, L, data, fat)
    requires Committed(J, L, data, disk, e)
    ensures Slot(View(J.g, L, disk, J.d), J.k) == e
    ensures forall d, k :: OtherSlot(J, d, k) ==> Slot(View(J.g, L, disk, d), k) == Slot(View(J.g, J.L, J.disk, d), k)
    ensures forall o :: o in J.L.chains && o != J.First() ==> Kept(J, L, disk, o)
  {
    hide JobTree, LayoutOk, View, Slot, Freed, PutSlot, FreeSet, PaddedSectors, SectorAt;
    WithoutOk(J);
    JobFile(J);
    SlotPut(J.Dir(), J.k, e);
    forall d, k | OtherSlot(J, d, k)
      ensures Slot(View(J.g, L, disk, d), k) == Slot(View(J.g, J.L, J.disk, d), k)
    {
      DirIsKept(J, d);
    }
  }

  lemma DirIsKept(J: Job, d: nat)
    requires JobTree(J) && IsDirectory(J.T, d)
    ensures (d != J.First() || d == 0) && (d == 0 || d in J.L.chains)
  {
    hide View, Slot;
    JobFile(J);
    if d != 0 { assert LinkedIn(J.g, J.L, J.disk, J.T, d); }
  }

  lemma ReplacedBytes(J: Job, t: nat, n: nat, fat: seq<u16>, L: Layout, data: seq<Sector>, disk: seq<Sector>, e: Entry)
    requires JobTree(J) && n > 0 && t != J.d && t != 0 && n == Clusters(J.g, |J.data|)
    requires Building(J.g, Without(J.L, J.First()), J.disk, FatWithout(J), J.data, t, n, L, data, fat)
    requires Committed(J, L, data, disk, e)
    ensures Content(J.g, L, disk, t, |J.data|) == J.data
  {
    hide JobTree, LayoutOk, View, Slot, Freed, PutSlot, FreeSet, PaddedSectors, SectorAt, Clusters, Flat, At;
    ClustersBound(J.g, |J.data|, n);
    PaddedFlat(J.data, At(J.g, n, 0));
    FlatLength(PaddedSectors(J.data, At(J.g, n, 0)));
  }

  lemma FlatLength(v: seq<Sector>)
    ensures |Flat(v)| == 512 * |v|
  {
  }

  lemma NoClusters(g: Geo, L: Layout, disk: seq<Sector>)
    ensures Clusters(g, 0) == 0 && Content(g, L, disk, 0, 0) == []
  {
    ClustersBound(g, 0, 0);
  }

  /** Everything together. */
  lemma ReplaceDone(J: Job, t: nat, n: nat, fat: seq<u16>, L: Layout, data: seq<Sector>, disk: seq<Sector>)
    requires JobTree(J) && J.pos == 0 && t < 0x1_0000 && |J.data| < 0x1_0000_0000 && n == Clusters(J.g, |J.data|)
    requires (n == 0 <==> J.data == []) && (n == 0 ==> t == 0)
    requires Building(J.g, Without(J.L, J.First()), J.disk, FatWithout(J), J.data, t, n, L, data, fat)
    requires Committed(J, L, data, disk, Resized(J.Entry0(), t, |J.data|)) && Synced(J.g, disk, fat)
    ensures Replaced(J, t, fat, L, disk)
  {
    hide JobTree, Committed, View, Slot, FreeSet, PaddedSectors, SectorAt, Clusters, TreeOk, Freed, Synced, LayoutOk,
      Kept, OtherSlot, Content;
    WithoutOk(J);
    if n > 0 {
      ReplacedTree(J, t, n, fat, L, data, disk);
      ReplacedBytes(J, t, n, fat, L, data, disk, Resized(J.Entry0(), t, |J.data|));
    } else {
      EmptyTree(J, fat, L, data, disk);
      NoClusters(J.g, L, disk);
    }
    ReplacedOthers(J, t, n, fat, L, data, disk, Resized(J.Entry0(), t, |J.data|));
  }

  // ---- which clusters the new chain takes -----------------------------------------------------------------------

  ghost predicate Ascending(chain: seq<nat>) { forall i, j :: 0 <= i < j < |chain| ==> chain[i] < chain[j] }

  /** What the FAT says of the i-th cluster of a chain that the driver has linked. */
  ghost function LinkOf(chain: seq<nat>, i: nat): nat { if i + 1 < |chain| then chain[i + 1] else END }

  /** fat is fat1 with a chain linked up in it that takes the lowest free clusters in order. */
  ghost predicate TakenInOrder(g: Geo, fat1: seq<u16>, chain: seq<nat>, fat: seq<u16>) {
    && |fat| == |fat1| && Ascending(chain)
    && (forall i :: 0 <= i < |chain| ==> 2 <= chain[i] < g.clusters && chain[i] < |fat1| && fat1[chain[i]] == 0)
    && (forall c :: 2 <= c < g.clusters && c < |fat1| && fat1[c] == 0 && c !in chain ==> Behind(chain, c))
    && (forall c :: 0 <= c < |fat| && c !in chain ==> fat[c] == fat1[c])
    && (forall i: nat :: i < |chain| ==> fat[chain[i]] == LinkOf(chain, i))
  }

  ghost predicate Behind(chain: seq<nat>, c: nat) { chain == [] || chain[|chain| - 1] < c }

  lemma TakenNext(g: Geo, fat1: seq<u16>, chain: seq<nat>, fat: seq<u16>, c: nat, fat': seq<u16>)
    requires TakenInOrder(g, fat1, chain, fat) && |fat| == 256 * g.fatSectors
    requires 2 <= c < g.clusters && fat[c] == 0 && forall c' :: 2 <= c' < c ==> fat[c'] != 0
    requires fat' == if chain == [] then fat[c := END] else fat[c := END][chain[|chain| - 1] := c]
    ensures TakenInOrder(g, fat1, chain + [c], fat')
  {
    hide Ascending, LinkOf;
    NotTakenYet(g, fat1, chain, fat, c);
    assert fat1[c] == 0 && Behind(chain, c);
    var chain' := chain + [c];
    AscendingMore(chain, c);
    forall i: nat | i < |chain'|
      ensures fat'[chain'[i]] == LinkOf(chain', i)
    {
      LinkMore(chain, c, fat, fat', i);
    }
    forall x | 0 <= x < |fat'| && x !in chain'
      ensures fat'[x] == fat1[x]
    {
      assert x !in chain && x != c;
      assert chain != [] ==> chain[|chain| - 1] in chain;
    }
  }

  lemma NotTakenYet(g: Geo, fat1: seq<u16>, chain: seq<nat>, fat: seq<u16>, c: nat)
    requires TakenInOrder(g, fat1, chain, fat) && c < |fat| && fat[c] == 0
    ensures c !in chain
  {
    forall i: nat | i < |chain|
      ensures chain[i] != c
    {
      assert fat[chain[i]] == LinkOf(chain, i);
    }
  }

  lemma AscendingMore(chain: seq<nat>, c: nat)
    requires Ascending(chain) && Behind(chain, c)
    ensures Ascending(chain + [c])
  {
  }

  lemma LinkMore(chain: seq<nat>, c: nat, fat: seq<u16>, fat': seq<u16>, i: nat)
    requires Ascending(chain) && Behind(chain, c) && c < |fat| && c !in chain && i <= |chain|
    requires forall j: nat :: j < |chain| ==> chain[j] < |fat| && fat[chain[j]] == LinkOf(chain, j)
    requires fat' == if chain == [] then fat[c := END] else fat[c := END][chain[|chain| - 1] := c]
    ensures (chain + [c])[i] < |fat'| && fat'[(chain + [c])[i]] == LinkOf(chain + [c], i)
  {
    if i + 1 < |chain| {
      assert chain[i] < chain[|chain| - 1] && chain[i] != c;
      assert fat[chain[i]] == LinkOf(chain, i);
    }
  }

  lemma TakenAll(g: Geo, fat1: seq<u16>, chain: seq<nat>, fat: seq<u16>)
    requires TakenInOrder(g, fat1, chain, fat) && FreeSet(g, fat) == {}
    ensures forall c :: 2 <= c < g.clusters && c < |fat1| && fat1[c] == 0 ==> c in chain
  {
    forall c | 2 <= c < g.clusters && c < |fat1| && fat1[c] == 0
      ensures c in chain
    {
      assert c !in FreeSet(g, fat);
    }
  }

  /** Two ascending sequences of the same numbers are one. */
  lemma {:induction false} AscendingIsOne(a: seq<nat>, b: seq<nat>)
    requires Ascending(a) && Ascending(b) && forall c :: c in a <==> c in b
    ensures a == b
    decreases |a|
  {
    HasMember(b);
    if a != [] {
      assert a[0] in b && |b| > 0 && b[0] in a;
      assert a[0] == b[0];
      var a', b' := a[1..], b[1..];
      forall c
        ensures c in a' <==> c in b'
      {
        assert c in a' <==> c in a && c != a[0] by { TailMember(a, c); }
        assert c in b' <==> c in b && c != b[0] by { TailMember(b, c); }
      }
      AscendingIsOne(a', b');
      assert a == [a[0]] + a' && b == [b[0]] + b';
    }
  }

  lemma HasMember(b: seq<nat>)
    ensures b != [] ==> exists c :: c in b
  {
    if b != [] { assert b[0] in b; }
  }

  lemma TailMember(a: seq<nat>, c: nat)
    requires a != [] && Ascending(a)
    ensures c in a[1..] <==> c in a && c != a[0]
  {
    if c in a[1..] {
      var i :| 0 <= i < |a[1..]| && a[1..][i] == c;
      assert a[i + 1] == c;
    }
    if c in a && c != a[0] {
      var i :| 0 <= i < |a| && a[i] == c;
      assert a[1..][i - 1] == c;
    }
  }

  // ---- a full disk ----------------------------------------------------------------------------------------------

  /** fat1 is fat0 with the chain gone given back, whose links are those of a chain. */
  ghost predicate GivenBack(g: Geo, fat0: seq<u16>, gone: seq<nat>, fat1: seq<u16>) {
    && |fat1| == |fat0|
    && (forall i: nat :: i < |gone| ==> 2 <= gone[i] < g.clusters && gone[i] < |fat0| && OldLink(fat0, gone, i))
    && forall c :: 0 <= c < |fat0| ==> fat1[c] == if c in gone then 0 else fat0[c]
  }

  ghost predicate OldLink(fat: seq<u16>, chain: seq<nat>, i: nat)
    requires i < |chain| && chain[i] < |fat|
  {
    if i + 1 < |chain| then fat[chain[i]] == chain[i + 1] else fat[chain[i]] >= END_MIN
  }

  /** A chain whose clusters are in ascending order under the end mark the driver writes. */
  ghost predicate InOrder(fat: seq<u16>, chain: seq<nat>) {
    Ascending(chain) && (chain != [] ==> chain[|chain| - 1] < |fat| && fat[chain[|chain| - 1]] == END)
  }

  /** Taking every cluster there is, in order, gives the FAT there was exactly when none was free and the chain
      given back was in order. */
  lemma RebuiltExactly(g: Geo, fat0: seq<u16>, gone: seq<nat>, fat1: seq<u16>, chain: seq<nat>, fat: seq<u16>)
    requires g.clusters <= |fat0| && GivenBack(g, fat0, gone, fat1) && TakenInOrder(g, fat1, chain, fat) &&
             FreeSet(g, fat) == {}
    ensures fat == fat0 <==> FreeSet(g, fat0) == {} && InOrder(fat0, gone)
  {
    hide GivenBack, TakenInOrder, FreeSet, InOrder;
    if fat == fat0 {
      OnlyItself(g, fat0, gone, fat1, chain);
    } else if FreeSet(g, fat0) == {} && InOrder(fat0, gone) {
      SameAgain(g, fat0, gone, fat1, chain, fat);
    }
  }

  lemma SameMembers(g: Geo, fat0: seq<u16>, gone: seq<nat>, fat1: seq<u16>, chain: seq<nat>, fat: seq<u16>, c: nat)
    requires g.clusters <= |fat0| && GivenBack(g, fat0, gone, fat1) && TakenInOrder(g, fat1, chain, fat)
    requires FreeSet(g, fat) == {} && FreeSet(g, fat0) == {}
    ensures c in chain <==> c in gone
  {
    hide Ascending, LinkOf, OldLink;
    TakenAll(g, fat1, chain, fat);
    assert c in chain && c !in gone ==> c in FreeSet(g, fat0);
  }

  lemma SameAgain(g: Geo, fat0: seq<u16>, gone: seq<nat>, fat1: seq<u16>, chain: seq<nat>, fat: seq<u16>)
    requires g.clusters <= |fat0| && GivenBack(g, fat0, gone, fat1) && TakenInOrder(g, fat1, chain, fat)
    requires FreeSet(g, fat) == {} && FreeSet(g, fat0) == {} && InOrder(fat0, gone)
    ensures fat == fat0
  {
    forall c
      ensures c in chain <==> c in gone
    {
      SameMembers(g, fat0, gone, fat1, chain, fat, c);
    }
    AscendingIsOne(chain, gone);
    hide Ascending, FreeSet;
    forall c | 0 <= c < |fat0|
      ensures fat[c] == fat0[c]
    {
      if c in chain {
        var i: nat :| i < |chain| && chain[i] == c;
        assert OldLink(fat0, gone, i);
        assert fat[chain[i]] == LinkOf(chain, i);
      }
    }
  }

  /** If nothing changed, no cluster was free and the chain given back is the one that was built. */
  lemma OnlyItself(g: Geo, fat0: seq<u16>, gone: seq<nat>, fat1: seq<u16>, chain: seq<nat>)
    requires g.clusters <= |fat0| && GivenBack(g, fat0, gone, fat1) && TakenInOrder(g, fat1, chain, fat0) &&
             FreeSet(g, fat0) == {}
    ensures InOrder(fat0, gone)
  {
    hide GivenBack, TakenInOrder, FreeSet;
    forall i: nat | i < |gone|
      ensures gone[i] < |fat0| && if i + 1 < |gone| then gone[i] < gone[i + 1] else fat0[gone[i]] == END
    {
      StepsUp(g, fat0, gone, fat1, chain, i);
    }
    AscendingSteps(gone);
    if gone != [] { StepsUp(g, fat0, gone, fat1, chain, |gone| - 1); }
    hide Ascending;
  }

  lemma StepsUp(g: Geo, fat0: seq<u16>, gone: seq<nat>, fat1: seq<u16>, chain: seq<nat>, i: nat)
    requires g.clusters <= |fat0| && GivenBack(g, fat0, gone, fat1) && TakenInOrder(g, fat1, chain, fat0) &&
             FreeSet(g, fat0) == {}
    requires i < |gone|
    ensures gone[i] < |fat0| && if i + 1 < |gone| then gone[i] < gone[i + 1] else fat0[gone[i]] == END
  {
    SameMembers(g, fat0, gone, fat1, chain, fat0, gone[i]);
    var k: nat :| k < |chain| && chain[k] == gone[i];
    assert OldLink(fat0, gone, i);
    assert fat0[chain[k]] == LinkOf(chain, k);
    assert i + 1 < |gone| ==> 2 <= gone[i + 1] < g.clusters;
    hide FreeSet, GivenBack;
  }

  lemma {:induction false} AscendingSteps(chain: seq<nat>)
    requires forall i: nat :: i + 1 < |chain| ==> chain[i] < chain[i + 1]
    ensures Ascending(chain)
  {
    if |chain| > 1 {
      var front := chain[..|chain| - 1];
      AscendingSteps(front);
      forall i, j | 0 <= i < j < |chain|
        ensures chain[i] < chain[j]
      {
        assert chain[|chain| - 2] < chain[|chain| - 1];
        assert chain[i] == front[i] && (j < |front| ==> chain[j] == front[j]) &&
          chain[|chain| - 2] == front[|front| - 1];
      }
    }
  }

  // ---- fat16_write_file -----------------------------------------------------------------------------------------

  /** Bytes written after n clusters, when that is not yet everything. */
  ghost predicate CutAt(g: Geo, len: nat, written: nat, n: nat) {
    && written <= len
    && if written < len then written == 512 * At(g, n, 0) && n < Clusters(g, len) else n == Clusters(g, len)
  }

  lemma CutStart(g: Geo, len: nat)
    ensures CutAt(g, len, 0, 0)
  {
    FirstByte(g);
    hide At, Clusters;
    ClustersBound(g, len, 0);
  }

  lemma CutNext(g: Geo, len: nat, written: nat, n: nat)
    requires CutAt(g, len, written, n) && written < len
    ensures CutAt(g, len, written + if 512 * g.spc < len - written then 512 * g.spc else len - written, n + 1)
  {
    AtNext(g, n);
    hide At, Clusters;
    ClustersBound(g, len, n + 1);
    ClustersBound(g, len, n);
  }

  /** One cluster of the allocation loop, after c was allocated: linked and filled. */
  method AddCluster(dr: Driver, c: nat, prev: nat, buf: seq<byte>, written: nat, ghost t: nat, ghost n: nat,
      ghost fat0: seq<u16>, ghost L1: Layout, ghost disk1: seq<Sector>, ghost fat1: seq<u16>)
    requires dr.Shaped() && 2 <= c < dr.g.clusters && written == 512 * At(dr.g, n, 0)
    requires Building(dr.g, L1, disk1, fat1, buf, t, n, dr.L, dr.disk[..], fat0)
    requires |fat0| == dr.fat.Length && fat0[c] == 0 && dr.fat[..] == fat0[c := END]
    requires n == 0 <==> prev == 0
    requires n > 0 ==> t in dr.L.chains && |dr.L.chains[t]| == n && prev == dr.L.chains[t][n - 1] < dr.fat.Length
    modifies dr.disk, dr.fat, dr.sectorBuf, dr`L, dr`trail
    ensures Building(dr.g, L1, disk1, fat1, buf, if n == 0 then c else t, n + 1, dr.L, dr.disk[..], dr.fat[..])
    ensures (if n == 0 then c else t) in dr.L.chains &&
            dr.L.chains[if n == 0 then c else t] == (if n == 0 then [] else old(dr.L.chains[t])) + [c]
    ensures |dr.fat[..]| == |fat0| && dr.fat[..] == if n == 0 then fat0[c := END] else fat0[c := END][prev := c]
    ensures Within(dr.g, c, old(dr.disk[..]), old(dr.trail), dr.trail)
  {
    hide Within, Building, LayoutOk, View, FreeSet, ClusterSectors, SameOutside, PaddedSector, At, ClusterLba;
    ghost var disk0, L0 := dr.disk[..], dr.L;
    if prev != 0 { dr.fat[prev] := c; }
    dr.fat[c] := END;
    FillCluster(dr, c, buf, written, n);
    if prev == 0 {
      BuildingFirst(dr.g, L1, disk1, fat1, buf, t, L0, disk0, fat0, c, dr.disk[..]);
      dr.L := Start(L0, c);
      assert dr.fat[..] == fat0[c := END];
    } else {
      BuildingMore(dr.g, L1, disk1, fat1, buf, t, n, L0, disk0, fat0, c, dr.disk[..]);
      LinkedNotFree(dr.g, L1, disk1, fat1, buf, t, n, L0, disk0, fat0, c);
      dr.L := Grow(L0, t, c);
      ghost var fat2: seq<u16> := fat0[c := END];
      assert dr.fat[..] == fat2[prev := c];
    }
  }

  lemma LinkedNotFree(g: Geo, L1: Layout, disk1: seq<Sector>, fat1: seq<u16>, buf: seq<byte>, t: nat, n: nat,
      L: Layout, disk: seq<Sector>, fat: seq<u16>, c: nat)
    requires Building(g, L1, disk1, fat1, buf, t, n, L, disk, fat) && n > 0 && 2 <= c < g.clusters && fat[c] == 0
    ensures L.chains[t][n - 1] != c
  {
    hide View, LayoutOk, FreeSet, PaddedSectors, SectorAt;
    GrownLayout(g, fat, L, t, c);
  }

  lemma BuildingLast(g: Geo, L1: Layout, disk1: seq<Sector>, fat1: seq<u16>, buf: seq<byte>, t: nat, n: nat,
      L: Layout, disk: seq<Sector>, fat: seq<u16>)
    requires Building(g, L1, disk1, fat1, buf, t, n, L, disk, fat)
    ensures |fat| == 256 * g.fatSectors && |FreeSet(g, fat)| + n == |FreeSet(g, fat1)|
    ensures n > 0 ==> t in L.chains && |L.chains[t]| == n && 2 <= L.chains[t][n - 1] < |fat| &&
                      t == L.chains[t][0] < 0x1_0000
  {
    hide View, PaddedSectors, SectorAt, FreeSet;
    if n > 0 { assert LinkOk(g, fat, L, t, n - 1) && LinkOk(g, fat, L, t, 0); }
  }

  /** Filling a free cluster touches nothing that is left. */
  lemma BuildingQuiet(g: Geo, L1: Layout, disk1: seq<Sector>, fat1: seq<u16>, buf: seq<byte>, t: nat, n: nat, L: Layout,
      disk: seq<Sector>, fat: seq<u16>, c: nat, trail0: seq<seq<Sector>>, trail1: seq<seq<Sector>>,
      trail: seq<seq<Sector>>)
    requires Building(g, L1, disk1, fat1, buf, t, n, L, disk, fat) && LayoutOk(g, fat1, L1) && DiskOk(g, disk)
    requires 2 <= c < g.clusters && c < |fat| && fat[c] == 0
    requires QuietTrail(g, L1, disk1, trail0, trail1) && Within(g, c, disk, trail1, trail)
    ensures QuietTrail(g, L1, disk1, trail0, trail)
  {
    hide LayoutOk, FreeSet, PaddedSectors, QuietTrail, Within, SectorAt, View;
    FreeIsUnowned(g, fat, L, c);
    forall o
      ensures View(g, L1, disk, o) == View(g, L1, disk1, o)
    {
      BuildingView(g, L1, disk1, fat1, buf, t, n, L, disk, fat, o);
    }
    QuietMore(g, fat1, L1, disk1, trail0, disk, trail1, c, trail);
  }

  lemma BuildingView(g: Geo, L1: Layout, disk1: seq<Sector>, fat1: seq<u16>, buf: seq<byte>, t: nat, n: nat, L: Layout,
      disk: seq<Sector>, fat: seq<u16>, o: nat)
    requires Building(g, L1, disk1, fat1, buf, t, n, L, disk, fat)
    ensures View(g, L1, disk, o) == View(g, L1, disk1, o)
  {
    hide FreeSet, PaddedSectors, SectorAt;
    if o == 0 || o in L1.chains {
      assert n > 0 ==> t != 0;
      SameLayout(g, L1, L, disk, o);
    } else {
      assert View(g, L1, disk, o) == [] == View(g, L1, disk1, o);
    }
  }

  lemma SameLayout(g: Geo, L: Layout, L': Layout, disk: seq<Sector>, o: nat)
    requires o == 0 || (o in L.chains && o in L'.chains && L'.chains[o] == L.chains[o])
    ensures View(g, L', disk, o) == View(g, L, disk, o)
  {
  }

  /** The allocation loop: a chain that holds buf, or as much of one as there were free clusters. */
  method BuildChain(dr: Driver, buf: seq<byte>, ghost L1: Layout, ghost disk1: seq<Sector>, ghost fat1: seq<u16>)
    returns (ok: bool, first: nat, ghost n: nat)
    requires dr.Shaped() && Building(dr.g, L1, disk1, fat1, buf, 0, 0, dr.L, dr.disk[..], dr.fat[..])
    modifies dr.disk, dr.fat, dr.sectorBuf, dr`L, dr`trail
    ensures Building(dr.g, L1, disk1, fat1, buf, first, n, dr.L, dr.disk[..], dr.fat[..])
    ensures n == 0 <==> first == 0
    ensures TakenInOrder(dr.g, fat1, NewChain(dr.L, first, n), dr.fat[..])
    ensures if ok then n == Clusters(dr.g, |buf|) else n < Clusters(dr.g, |buf|) && FreeSet(dr.g, dr.fat[..]) == {}
    ensures QuietTrail(dr.g, L1, disk1, old(dr.trail), dr.trail)
  {
    hide Within, QuietTrail, Building, FreeSet, CutAt, TakenInOrder, Clusters, At, FatsOk, SectorCount;
    TakenNone(dr.g, L1, disk1, fat1, buf, dr.L, dr.disk[..], dr.fat[..]);
    var prev, written := 0, 0;
    first, n := 0, 0;
    CutStart(dr.g, |buf|);
    QuietNothing(dr.g, L1, disk1, dr.trail);
    while written < |buf|
      invariant Building(dr.g, L1, disk1, fat1, buf, first, n, dr.L, dr.disk[..], dr.fat[..])
      invariant CutAt(dr.g, |buf|, written, n)
      invariant n == 0 <==> first == 0
      invariant n == 0 <==> prev == 0
      invariant n > 0 ==> first in dr.L.chains && |dr.L.chains[first]| == n && prev == dr.L.chains[first][n - 1]
      invariant TakenInOrder(dr.g, fat1, NewChain(dr.L, first, n), dr.fat[..])
      invariant QuietTrail(dr.g, L1, disk1, old(dr.trail), dr.trail)
      decreases |buf| - written
    {
      BuildingLast(dr.g, L1, disk1, fat1, buf, first, n, dr.L, dr.disk[..], dr.fat[..]);
      CutIs(dr.g, |buf|, written, n);
      CutNext(dr.g, |buf|, written, n);
      ghost var fat0 := dr.fat[..];
      var c := dr.AllocCluster();
      if c == 0 { return false, first, n; }
      ghost var chain, disk0, trail0 := NewChain(dr.L, first, n), dr.disk[..], dr.trail;
      ghost var L0 := dr.L;
      AddCluster(dr, c, prev, buf, written, first, n, fat0, L1, disk1, fat1);
      TakenNext(dr.g, fat1, chain, fat0, c, dr.fat[..]);
      BuildingQuiet(dr.g, L1, disk1, fat1, buf, first, n, L0, disk0, fat0, c, old(dr.trail), trail0, dr.trail);
      if prev == 0 { first := c; }
      prev, n := c, n + 1;
      written := written + if 512 * dr.g.spc < |buf| - written then 512 * dr.g.spc else |buf| - written;
    }
    CutDone(dr.g, |buf|, written, n);
    ok := true;
  }

  lemma TakenNone(g: Geo, L1: Layout, disk1: seq<Sector>, fat1: seq<u16>, buf: seq<byte>, L: Layout,
      disk: seq<Sector>, fat: seq<u16>)
    requires Building(g, L1, disk1, fat1, buf, 0, 0, L, disk, fat)
    ensures TakenInOrder(g, fat1, [], fat) && LayoutOk(g, fat1, L1)
  {
    hide View, LayoutOk, FreeSet, SectorAt;
  }

  lemma CutIs(g: Geo, len: nat, written: nat, n: nat)
    requires CutAt(g, len, written, n) && written < len
    ensures written == 512 * At(g, n, 0) && n < Clusters(g, len)
  {
  }

  lemma CutDone(g: Geo, len: nat, written: nat, n: nat)
    requires CutAt(g, len, written, n) && written >= len
    ensures written == len && n == Clusters(g, len)
  {
  }

  /** The sector of the file's entry is where it was and as it was. */
  lemma EntrySectorKept(J: Job, t: nat, n: nat, fat: seq<u16>, L: Layout, data: seq<Sector>)
    requires JobTree(J)
    requires Building(J.g, Without(J.L, J.First()), J.disk, FatWithout(J), J.data, t, n, L, data, fat)
    ensures var a := Lba(J.g, J.L, J.d, J.k / 16);
            && J.g.rootStart <= a < |data| && Lba(J.g, L, J.d, J.k / 16) == a && data[a] == J.disk[a]
            && J.k / 16 < Span(J.g, L, J.d) == |J.Dir()| && data[a] == J.Dir()[J.k / 16] &&
               View(J.g, L, data, J.d) == J.Dir()
  {
    hide JobTree, LayoutOk, View, Slot, Freed, FreeSet, PaddedSectors, SectorAt, Lba, Span;
    EntrySector(J);
    WithoutOk(J);
    if n > 0 { NewIsFree(J, t, n, fat, L, data); }
    DirHasChain(J);
    SameLba(J.g, J.L, L, J.d, J.k / 16);
    ViewAt(J.g, L, data, J.d, J.k / 16);
  }

  lemma SameLba(g: Geo, L: Layout, L': Layout, o: nat, j: nat)
    requires o == 0 || (o in L.chains && o in L'.chains && L'.chains[o] == L.chains[o])
    ensures Lba(g, L', o, j) == Lba(g, L, o, j) && Span(g, L', o) == Span(g, L, o)
  {
  }

  lemma CommitDone(J: Job, t: nat, n: nat, fat: seq<u16>, L: Layout, data: seq<Sector>, e: Entry, disk: seq<Sector>)
    requires JobTree(J)
    requires Building(J.g, Without(J.L, J.First()), J.disk, FatWithout(J), J.data, t, n, L, data, fat)
    requires var a := Lba(J.g, J.L, J.d, J.k / 16);
             a < |data| && |disk| == |data| &&
             var data' := data[a := SetSlot(data[a], J.k % 16, e)];
             forall b :: J.g.rootStart <= b < |disk| ==> disk[b] == data'[b]
    ensures Committed(J, L, data, disk, e)
  {
    hide JobTree, LayoutOk, View, Slot, Freed, FreeSet, PaddedSectors, SectorAt, Lba, Span, SetSlot;
    JobLayout(J);
    EntrySectorKept(J, t, n, fat, L, data);
    var a := Lba(J.g, J.L, J.d, J.k / 16);
    ViewWrite(J.g, fat, L, data, J.d, J.k / 16, SetSlot(data[a], J.k % 16, e));
    ViewsAbove(J.g, fat, L, data[a := SetSlot(data[a], J.k % 16, e)], disk);
  }

  /** What is left of the volume when the disk filled up: the FAT on disk, every directory and every other file
      are as before. In the cached FAT the old chain and all free clusters are one chain from t on, in ascending
      order, which holds as much of the data as it can. That FAT is still the one on disk exactly when no cluster
      was free and the old chain was in order already. */
  ghost predicate Abandoned(J: Job, t: nat, fat: seq<u16>, L: Layout, disk: seq<Sector>) {
    && LayoutOk(J.g, fat, L) && |disk| == |J.disk|
    && (forall a :: 0 <= a < J.g.rootStart ==> SectorAt(disk, a) == SectorAt(J.disk, a))
    && (forall o :: o in J.L.chains && o != J.First() ==> o in L.chains && L.chains[o] == J.L.chains[o])
    && (forall o :: (o in J.L.chains && o != J.First()) || o == 0 ==>
       View(J.g, L, disk, o) == View(J.g, J.L, J.disk, o))
    && FreeSet(J.g, fat) == {}
    && (if J.Chain() == [] && FreeSet(J.g, J.fat) == {} then t == 0 else TookAll(J, t, L, disk))
    && (Synced(J.g, disk, fat) <==> FreeSet(J.g, J.fat) == {} && InOrder(J.fat, J.Chain()))
  }

  /** The chain from t on has every cluster that was free or the file's, in order, and holds the start of the data. */
  ghost predicate TookAll(J: Job, t: nat, L: Layout, disk: seq<Sector>) {
    && t in L.chains && Ascending(L.chains[t])
    && (forall c :: c in L.chains[t] <==> c in J.Chain() || c in FreeSet(J.g, J.fat))
    && |L.chains[t]| == |J.Chain()| + |FreeSet(J.g, J.fat)|
    && |Flat(View(J.g, L, disk, t))| <= |J.data| &&
       Flat(View(J.g, L, disk, t)) == J.data[..|Flat(View(J.g, L, disk, t))|]
  }

  lemma OldChainGiven(J: Job)
    requires JobTree(J)
    ensures |J.fat| == 256 * J.g.fatSectors && GivenBack(J.g, J.fat, J.Chain(), FatWithout(J))
  {
    hide JobTree, View, Slot;
    JobFile(J);
    JobLayout(J);
    forall i: nat | i < |J.Chain()|
      ensures 2 <= J.Chain()[i] < J.g.clusters && J.Chain()[i] < |J.fat| && OldLink(J.fat, J.Chain(), i)
    {
      assert LinkOk(J.g, J.fat, J.L, J.First(), i);
    }
    hide LayoutOk;
  }

  /** The FAT copies are the old ones, so the cached FAT is on disk exactly when it is the old one. */
  lemma SyncedIsSame(g: Geo, disk0: seq<Sector>, fat0: seq<u16>, disk: seq<Sector>, fat: seq<u16>)
    requires Synced(g, disk0, fat0) && |disk| == |disk0| && forall a :: 0 <= a < g.rootStart ==>
             SectorAt(disk, a) == SectorAt(disk0, a)
    ensures Synced(g, disk, fat) <==> fat == fat0
  {
    forall f, s | 0 <= f < g.numFats && 0 <= s < g.fatSectors
      ensures SectorAt(disk, FatLba(g, f, s)) == FatSector(fat0, s)
    {
      FatLbaBound(g, disk, f, s);
    }
    assert Synced(g, disk, fat0);
    hide FatSector, SectorAt, FatLba, DiskFat;
    SyncedDiskFat(g, disk, fat0);
    if Synced(g, disk, fat) { SyncedDiskFat(g, disk, fat); }
  }

  lemma FullPrefix(g: Geo, buf: seq<byte>, n: nat)
    requires n < Clusters(g, |buf|)
    ensures 512 * At(g, n, 0) <= |buf| && Flat(PaddedSectors(buf, At(g, n, 0))) == buf[..512 * At(g, n, 0)]
  {
    hide At, Clusters;
    ClustersBound(g, |buf|, n);
    var m := At(g, n, 0);
    var x, y := Flat(PaddedSectors(buf, m)), buf[..512 * m];
    forall p | 0 <= p < 512 * m
      ensures x[p] == y[p]
    {
      assert x[p] == PaddedSector(buf, 512 * (p / 512))[p % 512];
      assert 512 * (p / 512) + p % 512 == p;
    }
  }

  ghost function NewChain(L: Layout, t: nat, n: nat): seq<nat> { if n > 0 && t in L.chains then L.chains[t] else [] }

  lemma TookEverything(J: Job, t: nat, n: nat, fat: seq<u16>, L: Layout, data: seq<Sector>)
    requires JobTree(J) && 0 < n < Clusters(J.g, |J.data|) && n == |FreeSet(J.g, J.fat)| + |J.Chain()|
    requires Building(J.g, Without(J.L, J.First()), J.disk, FatWithout(J), J.data, t, n, L, data, fat)
    requires TakenInOrder(J.g, FatWithout(J), NewChain(L, t, n), fat) && FreeSet(J.g, fat) == {}
    ensures TookAll(J, t, L, data)
  {
    hide JobTree, LayoutOk, View, Slot, Freed, SectorAt, Clusters, PaddedSectors, Flat, At, FreeSet, FatWithout,
      TakenInOrder, GivenBack;
    OldChainGiven(J);
    FullPrefix(J.g, J.data, n);
    forall c
      ensures c in L.chains[t] <==> c in J.Chain() || c in FreeSet(J.g, J.fat)
    {
      TookMembers(J.g, J.fat, J.Chain(), FatWithout(J), NewChain(L, t, n), fat, c);
    }
    TookAscending(J.g, FatWithout(J), NewChain(L, t, n), fat);
  }

  lemma TookMembers(g: Geo, fat0: seq<u16>, gone: seq<nat>, fat1: seq<u16>, chain: seq<nat>, fat: seq<u16>, c: nat)
    requires GivenBack(g, fat0, gone, fat1) && TakenInOrder(g, fat1, chain, fat) && FreeSet(g, fat) == {}
    ensures c in chain <==> c in gone || c in FreeSet(g, fat0)
  {
    hide Ascending, LinkOf, OldLink;
    TakenAll(g, fat1, chain, fat);
  }

  lemma TookAscending(g: Geo, fat1: seq<u16>, chain: seq<nat>, fat: seq<u16>)
    requires TakenInOrder(g, fat1, chain, fat)
    ensures Ascending(chain)
  {
  }

  lemma GaveUp(J: Job, t: nat, n: nat, fat: seq<u16>, L: Layout, data: seq<Sector>)
    requires JobOk(J) && (n > 0 <==> t != 0) && n < Clusters(J.g, |J.data|) && n == |FreeSet(J.g, J.fat)| + |J.Chain()|
    requires Building(J.g, Without(J.L, J.First()), J.disk, FatWithout(J), J.data, t, n, L, data, fat)
    requires TakenInOrder(J.g, FatWithout(J), NewChain(L, t, n), fat) && FreeSet(J.g, fat) == {}
    ensures Abandoned(J, t, fat, L, data)
  {
    hide JobTree, LayoutOk, View, Slot, Freed, SectorAt, Clusters, PaddedSectors, Synced, TakenInOrder, TookAll,
      InOrder;
    WithoutOk(J);
    JobFile(J);
    OldChainGiven(J);
    SyncedIsSame(J.g, J.disk, J.fat, data, fat);
    RebuiltExactly(J.g, J.fat, J.Chain(), FatWithout(J), NewChain(L, t, n), fat);
    if n > 0 { TookEverything(J, t, n, fat, L, data); }
  }

  lemma BuildingRoom(J: Job, t: nat, n: nat, fat: seq<u16>, L: Layout, data: seq<Sector>)
    requires JobTree(J)
    requires Building(J.g, Without(J.L, J.First()), J.disk, FatWithout(J), J.data, t, n, L, data, fat)
    ensures n <= |FreeSet(J.g, J.fat)| + |J.Chain()|
    ensures FreeSet(J.g, fat) == {} ==> n == |FreeSet(J.g, J.fat)| + |J.Chain()|
    ensures n > 0 ==> t < 0x1_0000
  {
    hide JobTree, LayoutOk, View, Slot, Freed, FreeSet, PaddedSectors, SectorAt;
    WithoutOk(J);
    BuildingLast(J.g, Without(J.L, J.First()), J.disk, FatWithout(J), J.data, t, n, L, data, fat);
  }

  lemma SomeClusters(g: Geo, len: nat)
    ensures Clusters(g, len) == 0 <==> len == 0
  {
    FirstByte(g);
    hide At, Clusters;
    ClustersBound(g, len, 0);
  }

  /** The images of a replacement: none touches anything else of the volume; after the entry is written the FAT is. */
  ghost predicate ReplaceCuts(J: Job, trail0: seq<seq<Sector>>, fat: seq<u16>, disk: seq<Sector>,
      trail: seq<seq<Sector>>, at: nat)
  {
    && |trail0| <= |trail| && trail[..|trail0|] == trail0 && at + J.g.fatSectors < |trail|
    && Cuts(J.g, Without(J.L, J.First()), J.disk, trail, |trail0|, at, fat, disk)
  }

  lemma ReplaceTrail(J: Job, t: nat, n: nat, fat: seq<u16>, L: Layout, data: seq<Sector>, trail0: seq<seq<Sector>>,
      trail1: seq<seq<Sector>>, lba: nat, disk2: seq<Sector>, disk: seq<Sector>, trail: seq<seq<Sector>>)
    requires Building(J.g, Without(J.L, J.First()), J.disk, FatWithout(J), J.data, t, n, L, data, fat)
    requires QuietTrail(J.g, Without(J.L, J.First()), J.disk, trail0, trail1) && SameAbove(J.g, disk2, disk)
    requires J.g.rootStart <= lba < |data| && |disk2| == |data| && disk2 == data[lba := disk2[lba]]
    requires |trail| > |trail1| + J.g.fatSectors && trail[..|trail1| + 1] == trail1 + [disk2]
    requires forall i :: |trail1| < i < |trail| ==> FlushCut(J.g, disk2, fat, trail[i], i - |trail1|)
    ensures ReplaceCuts(J, trail0, fat, disk, trail, |trail1|)
  {
    hide View, FreeSet, PaddedSectors, LayoutOk, Without, FatWithout, Quiet;
    var at := |trail1|;
    assert trail[at] == trail[..at + 1][at] == disk2;
    forall i | |trail0| <= i < at
      ensures trail[i] == trail1[i]
    {
      assert trail[i] == trail[..at + 1][i];
    }
    assert trail[..|trail0|] == trail[..at + 1][..|trail0|] == trail1[..|trail0|];
    forall i | at <= i < |trail|
      ensures FlushCut(J.g, disk2, fat, trail[i], i - at)
    {
    }
  }

  /** The body of fat16_write_file once the entry is found. */
  method ReplaceChain(dr: Driver, ghost J: Job, first: nat, lba: nat, index: nat, buf: seq<byte>)
    returns (r: int, t: nat, ghost at: nat)
    requires dr.Shaped() && JobOk(J) && J.g == dr.g && J.L == dr.L && J.fat == dr.fat[..] && J.disk == dr.disk[..]
    requires J.pos == 0 && buf == J.data && first == J.First() && |buf| < 0x1_0000_0000
    requires lba == Lba(J.g, J.L, J.d, J.k / 16) && index == J.k % 16 && lba < dr.disk.Length &&
             dr.dirBuf[..] == dr.disk[lba]
    requires dr.dirBuf[32 * index..32 * index + 32] == J.Entry0()
    modifies dr.disk, dr.fat, dr.dirBuf, dr.sectorBuf, dr`L, dr`trail
    ensures r == if Clusters(J.g, |buf|) <= |FreeSet(J.g, J.fat)| + |J.Chain()| then 0 else -1
    ensures r == 0 ==> Replaced(J, t, dr.fat[..], dr.L, dr.disk[..])
    ensures r == -1 ==> Abandoned(J, t, dr.fat[..], dr.L, dr.disk[..])
    ensures r == -1 ==> QuietTrail(J.g, Without(J.L, J.First()), J.disk, old(dr.trail), dr.trail)
    ensures r == 0 ==> ReplaceCuts(J, old(dr.trail), dr.fat[..], dr.disk[..], dr.trail, at)
  {
    hide JobTree, LayoutOk, Building, View, Slot, Freed, FreeSet, Clusters, Lba, Replaced, Abandoned, Committed,
      Synced, Flushing, SetSlot, Resized, TakenInOrder, QuietTrail, ReplaceCuts, FlushCut;
    at := 0;
    JobFile(J);
    JobLayout(J);
    ghost var L1, fat1, disk1 := Without(J.L, J.First()), FatWithout(J), J.disk;
    FreeChain(dr, first);
    dr.L := L1;
    WithoutOk(J);
    BuildingStart(dr.g, L1, disk1, fat1, buf);
    var ok;
    ghost var n;
    ok, t, n := BuildChain(dr, buf, L1, disk1, fat1);
    ghost var data, fat2 := dr.disk[..], dr.fat[..];
    BuildingRoom(J, t, n, fat2, dr.L, data);
    if !ok {
      GaveUp(J, t, n, fat2, dr.L, data);
      return -1, t, at;
    }
    SomeClusters(dr.g, |buf|);
    EntrySectorKept(J, t, n, fat2, dr.L, data);
    at := |dr.trail|;
    ghost var trail1 := dr.trail;
    dr.UpdateEntry(lba, index, if |buf| == 0 then 0 else t, |buf|);
    ghost var disk2 := dr.disk[..];
    dr.FlushFat();
    ReplaceTrail(J, t, n, fat2, dr.L, data, old(dr.trail), trail1, lba, disk2, dr.disk[..], dr.trail);
    assert dr.fat[..] == fat2;
    CommitDone(J, t, n, fat2, dr.L, data, Resized(J.Entry0(), t, |buf|), dr.disk[..]);
    ReplaceDone(J, t, n, fat2, dr.L, data, dr.disk[..]);
    r := 0;
  }

  /** fat16_write_file: succeeds exactly when the new contents fit the free clusters and the file's own;
      then the file reads back as buf, everything else is as before and no cluster is lost. When they
      do not fit, the call fails after giving the old chain up. */
  method WriteFile(dr: Driver, parent: nat, name: seq<byte>, buf: seq<byte>) returns (r: int, ghost t: nat,
      ghost at: nat)
    requires dr.Valid() && IsDirectory(dr.T, parent) && |buf| < 0x1_0000_0000
    modifies dr.disk, dr.fat, dr.dirBuf, dr.sectorBuf, dr
    ensures !old(dr.CanWrite(parent, name, 0, |buf|)) ==>
              r == -1 && dr.Valid() && dr.disk[..] == old(dr.disk[..]) && dr.fat[..] == old(dr.fat[..]) &&
                dr.L == old(dr.L) && dr.T == old(dr.T) && dr.trail == old(dr.trail)
    ensures old(dr.CanWrite(parent, name, 0, |buf|)) ==>
              var J := old(dr.JobFor(parent, name, 0, buf));
              && r == (if Clusters(J.g, |buf|) <= |FreeSet(J.g, J.fat)| + |J.Chain()| then 0 else -1)
              && (r == 0 ==>
                    && dr.Valid() && Replaced(J, t, dr.fat[..], dr.L, dr.disk[..]) && dr.T == TreeWith(J, t)
                    && ReplaceCuts(J, old(dr.trail), dr.fat[..], dr.disk[..], dr.trail, at))
              && (r == -1 ==>
                    && Abandoned(J, t, dr.fat[..], dr.L, dr.disk[..]) && dr.T == J.T
                    && QuietTrail(dr.g, Without(J.L, J.First()), J.disk, old(dr.trail), dr.trail)
                    && (dr.Valid() <==> Rebuilt(J)) && (!Rebuilt(J) ==> !Synced(dr.g, dr.disk[..], dr.fat[..])))
  {
    hide LayoutOk, Synced, TreeOk, JobTree, Replaced, Find, View, Slot, Clusters, FreeSet, Abandoned, ReplaceCuts,
      QuietTrail, Without;
    t, at := 0, 0;
    var name83 := To83(name);
    dr.DirHasChain(parent);
    var found, e, lba, index, k := dr.DirLookup(parent, name83);
    if !found || IsDir(e) { return -1, t, at; }
    ghost var J := dr.JobFor(parent, name, 0, buf);
    dr.JobIsOk(parent, name, 0, buf);
    r, t, at := ReplaceChain(dr, J, FirstOf(e), lba, index, buf);
    if r == 0 {
      dr.T := TreeWith(J, t);
      ReplacedIsValid(J, t, dr.fat[..], dr.L, dr.disk[..]);
    } else {
      AbandonedExactly(J, t, dr.fat[..], dr.L, dr.disk[..]);
    }
  }

  /** No cluster is free and the file's chain is the one the driver would build of its clusters again. */
  ghost predicate Rebuilt(J: Job) { FreeSet(J.g, J.fat) == {} && InOrder(J.fat, J.Chain()) }

  /** A replacement that was given up has left a valid volume exactly when the driver built the old chain again. */
  lemma AbandonedExactly(J: Job, t: nat, fat: seq<u16>, L: Layout, disk: seq<Sector>)
    requires JobOk(J) && Abandoned(J, t, fat, L, disk)
    ensures Synced(J.g, disk, fat) <==> Rebuilt(J)
    ensures LayoutOk(J.g, fat, L) && (Rebuilt(J) ==> TreeOk(J.g, L, disk, J.T))
  {
    hide JobTree, LayoutOk, View, FreeSet, InOrder, Synced, TookAll, TreeOk;
    if Rebuilt(J) {
      JobFile(J);
      JobLayout(J);
      StartsItself(J.g, J.fat, J.L);
      StartsItself(J.g, fat, L);
      if J.Chain() != [] { SameChainBuilt(J, t, L, disk); }
      SameTree(J, L, disk);
    }
  }

  lemma StartsItself(g: Geo, fat: seq<u16>, L: Layout)
    requires LayoutOk(g, fat, L)
    ensures forall o :: o in L.chains ==> |L.chains[o]| > 0 && L.chains[o][0] == o
  {
  }

  lemma SameChainBuilt(J: Job, t: nat, L: Layout, disk: seq<Sector>)
    requires Rebuilt(J) && TookAll(J, t, L, disk) && J.First() in J.L.chains
    requires J.Chain() != [] && J.Chain()[0] == J.First()
    requires forall o :: o in L.chains ==> |L.chains[o]| > 0 && L.chains[o][0] == o
    ensures J.First() in L.chains && L.chains[J.First()] == J.Chain()
  {
    hide View, Flat;
    assert forall c :: c in L.chains[t] <==> c in J.Chain();
    AscendingIsOne(L.chains[t], J.Chain());
  }

  /** The tree sees nothing of a file but where its chain starts and how long it is. */
  lemma SameTree(J: Job, L: Layout, disk: seq<Sector>)
    requires JobTree(J)
    requires forall o :: o in J.L.chains ==> o in L.chains && L.chains[o] == J.L.chains[o]
    requires forall o :: (o in J.L.chains && o != J.First()) || o == 0 ==>
               View(J.g, L, disk, o) == View(J.g, J.L, J.disk, o)
    ensures TreeOk(J.g, L, disk, J.T)
  {
    forall d | IsDirectory(J.T, d)
      ensures DirOk(J.g, L, J.T, d, View(J.g, L, disk, d)) && (d in J.T.parent ==> LinkedIn(J.g, L, disk, J.T, d))
    {
      SameDirectory(J, L, disk, d);
    }
    hide DirOk, LinkedIn, View, LayoutOk;
  }

  lemma SameDirectory(J: Job, L: Layout, disk: seq<Sector>, d: nat)
    requires JobTree(J) && IsDirectory(J.T, d)
    requires forall o :: o in J.L.chains ==> o in L.chains && L.chains[o] == J.L.chains[o]
    requires forall o :: (o in J.L.chains && o != J.First()) || o == 0 ==>
               View(J.g, L, disk, o) == View(J.g, J.L, J.disk, o)
    ensures DirOk(J.g, L, J.T, d, View(J.g, L, disk, d)) && (d in J.T.parent ==> LinkedIn(J.g, L, disk, J.T, d))
  {
    hide View, Slot, Content, LayoutOk;
    JobFile(J);
    assert d != 0 ==> LinkedIn(J.g, J.L, J.disk, J.T, d);
    assert d != 0 && J.T.parent[d] != 0 ==> LinkedIn(J.g, J.L, J.disk, J.T, J.T.parent[d]);
    var v := View(J.g, J.L, J.disk, d);
    assert DirOk(J.g, J.L, J.T, d, v);
    forall k: nat | k < 16 * |v|
      ensures EntryOk(J.g, L, J.T, d, k, Slot(v, k))
    {
      assert EntryOk(J.g, J.L, J.T, d, k, Slot(v, k));
    }
  }

  lemma ReplacedIsValid(J: Job, t: nat, fat: seq<u16>, L: Layout, disk: seq<Sector>)
    requires Replaced(J, t, fat, L, disk)
    ensures LayoutOk(J.g, fat, L) && Synced(J.g, disk, fat) && TreeOk(J.g, L, disk, TreeWith(J, t))
  {
  }
}
