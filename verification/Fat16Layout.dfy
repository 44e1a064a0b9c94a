/** Where things are on a FAT16 volume: cluster chains, the sectors of an object (a file, a
    subdirectory or the root directory) and the bytes an object holds. Object 0 is the fixed root
    directory region; every other object is named by the first cluster of its chain. */
module Fat16Layout {
  import opened Bytes

  datatype Geometry = Geometry(
    spc: nat,          // sectors per cluster
    fatStart: nat, fatSectors: nat, numFats: nat,
    rootStart: nat, rootSectors: nat,
    dataStart: nat,
    clusters: nat)     // clusters 2 .. clusters-1 exist

  type Geo = g: Geometry |
    && g.spc > 0 && g.fatSectors > 0 && g.numFats > 0
    && 0 < g.fatStart && g.fatStart + g.fatSectors <= g.rootStart
    && g.dataStart == g.rootStart + g.rootSectors
    && 2 <= g.clusters <= 256 * g.fatSectors && g.clusters <= 0xFFF0
    witness Geometry(1, 1, 1, 1, 2, 0, 2, 2)

  const END: u16 := 0xFFFF
  const END_MIN: u16 := 0xFFF8

  /** chains: each object's clusters, in order. owner: for every cluster of a chain, the object it
      belongs to and its index there, which is what makes chains disjoint and free of cycles. */
  datatype Layout = Layout(chains: map<nat, seq<nat>>, owner: map<nat, (nat, nat)>)

  function ClusterLba(g: Geo, c: nat): nat
    requires 2 <= c
  {
    MulNonneg(c - 2, g.spc);
    g.dataStart + (c - 2) * g.spc
  }

  function SectorCount(g: Geo): nat { ClusterLba(g, g.clusters) }

  predicate DiskOk(g: Geo, disk: seq<Sector>) {
    |disk| >= SectorCount(g)
  }

  ghost predicate LinkOk(g: Geo, fat: seq<u16>, L: Layout, o: nat, i: nat)
    requires |fat| == 256 * g.fatSectors
    requires o in L.chains && i < |L.chains[o]|
  {
    var c := L.chains[o][i];
    && 2 <= c < g.clusters
    && c in L.owner && L.owner[c] == (o, i)
    && if i + 1 < |L.chains[o]| then fat[c] == L.chains[o][i + 1] else END_MIN <= fat[c]
  }

  ghost predicate LayoutOk(g: Geo, fat: seq<u16>, L: Layout) {
    && |fat| == 256 * g.fatSectors
    && (forall o :: o in L.chains ==> 2 <= o && |L.chains[o]| > 0 && L.chains[o][0] == o)
    && (forall o, i :: o in L.chains && 0 <= i < |L.chains[o]| ==> LinkOk(g, fat, L, o, i))
  }

  /** No chain uses cluster c. */
  ghost predicate Unowned(L: Layout, c: nat) {
    forall o, i :: o in L.chains && 0 <= i < |L.chains[o]| ==> L.chains[o][i] != c
  }

  lemma FreeIsUnowned(g: Geo, fat: seq<u16>, L: Layout, c: nat)
    requires LayoutOk(g, fat, L) && c < |fat| && fat[c] == 0
    ensures Unowned(L, c)
  {
    forall o, i | o in L.chains && 0 <= i < |L.chains[o]|
      ensures L.chains[o][i] != c
    {
      assert LinkOk(g, fat, L, o, i);
      if i + 1 < |L.chains[o]| { assert LinkOk(g, fat, L, o, i + 1); }
    }
  }

  // ---- sectors of an object ------------------------------------------------------------------

  /** Index, within an object, of sector s of its i-th cluster. */
  function At(g: Geo, i: nat, s: nat): nat {
    MulNonneg(i, g.spc);
    i * g.spc + s
  }

  lemma AtSplit(g: Geo, j: nat)
    ensures At(g, j / g.spc, j % g.spc) == j
  {
  }

  lemma AtNext(g: Geo, i: nat)
    ensures At(g, i + 1, 0) == At(g, i, g.spc) == At(g, i, 0) + g.spc
  {
  }

  lemma AtIndex(g: Geo, i: nat, s: nat)
    requires s < g.spc
    ensures At(g, i, s) / g.spc == i && At(g, i, s) % g.spc == s
  {
    DivMod(i, s, g.spc);
  }

  lemma AtBound(g: Geo, j: nat, n: nat)
    ensures j < At(g, n, 0) <==> j / g.spc < n
  {
    DivBound(j, n, g.spc);
  }

  /** The sector that holds byte q, when q is byte off of the i-th cluster. */
  lemma ByteSector(g: Geo, q: nat, i: nat, off: nat)
    requires q == 512 * At(g, i, 0) + off && off < 512 * g.spc
    ensures q / 512 == At(g, i, off / 512) && q % 512 == off % 512 && off / 512 < g.spc
    ensures (q / 512) / g.spc == i && (q / 512) % g.spc == off / 512
  {
    assert At(g, i, off / 512) == At(g, i, 0) + off / 512;
    AtIndex(g, i, off / 512);
  }

  lemma ChunkFits(g: Geo, off: nat, left: nat, n: nat)
    requires off < 512 * g.spc && 0 < left && n == if 512 - off % 512 < left then 512 - off % 512 else left
    ensures 0 < n && off % 512 + n <= 512 && off + n <= 512 * g.spc && (n < left ==> (off + n) % 512 == 0)
  {
    assert off == 512 * (off / 512) + off % 512;
    assert off / 512 < g.spc;
  }

  /** The cluster, by index, and the offset in it of byte q of an object. */
  function ClusterOf(g: Geo, q: nat): (i: nat)
    ensures q == 512 * At(g, i, 0) + OffsetIn(g, q)
  {
    DivModBack(q, 512 * g.spc);
    MulThrough(q / (512 * g.spc), g.spc);
    q / (512 * g.spc)
  }

  function OffsetIn(g: Geo, q: nat): (off: nat)
    ensures off < 512 * g.spc
  {
    q % (512 * g.spc)
  }

  lemma FirstByte(g: Geo)
    ensures At(g, 0, 0) == 0 && OffsetIn(g, 0) == 0
  {
  }

  lemma AtMono(g: Geo, i: nat, j: nat)
    ensures i < j ==> At(g, i, 0) + g.spc <= At(g, j, 0)
    ensures i <= j <==> At(g, i, 0) <= At(g, j, 0)
  {
    if i < j { MulStep(i, j, g.spc); } else if j < i { MulStep(j, i, g.spc); }
  }

  lemma TargetInChain(g: Geo, q: nat, n: nat)
    ensures ClusterOf(g, q) < n <==> q < 512 * At(g, n, 0)
  {
    AtMono(g, n, ClusterOf(g, q));
    AtMono(g, ClusterOf(g, q), n);
  }

  lemma EndOfChain(g: Geo, L: Layout, o: nat, i: nat)
    requires o in L.chains && o != 0 && i < |L.chains[o]|
    ensures At(g, i + 1, 0) == At(g, i, 0) + g.spc
    ensures i + 1 == |L.chains[o]| ==> At(g, i + 1, 0) == Span(g, L, o)
  {
    AtNext(g, i);
  }

  /** Byte q of object o, off bytes into its i-th cluster, by disk address. */
  lemma ObjectByte(g: Geo, fat: seq<u16>, L: Layout, disk: seq<Sector>, o: nat, i: nat, q: nat, off: nat, n: nat)
    requires LayoutOk(g, fat, L) && DiskOk(g, disk) && o != 0 && o in L.chains && i < |L.chains[o]|
    requires q == 512 * At(g, i, 0) + off && off < 512 * g.spc && off % 512 + n <= 512
    ensures 2 <= L.chains[o][i] && ClusterLba(g, L.chains[o][i]) + off / 512 < |disk|
    ensures q + n <= |Flat(View(g, L, disk, o))|
    ensures disk[ClusterLba(g, L.chains[o][i]) + off / 512][off % 512..off % 512 + n] ==
            Flat(View(g, L, disk, o))[q..q + n]
  {
    ByteSector(g, q, i, off);
    AtBound(g, q / 512, |L.chains[o]|);
    assert LinkOk(g, fat, L, o, i);
    LbaLocate(g, fat, L, o, q / 512);
    ViewAt(g, L, disk, o, q / 512);
    FlatSlice(View(g, L, disk, o), q, n);
  }

  function Span(g: Geo, L: Layout, o: nat): (n: nat) {
    if o == 0 then g.rootSectors
    else if o in L.chains then At(g, |L.chains[o]|, 0)
    else 0
  }

  /** The disk address of sector j of object o. */
  function Lba(g: Geo, L: Layout, o: nat, j: nat): nat {
    if o == 0 then g.rootStart + j
    else if o in L.chains && j / g.spc < |L.chains[o]| && 2 <= L.chains[o][j / g.spc] then
      ClusterLba(g, L.chains[o][j / g.spc]) + j % g.spc
    else 0
  }

  function SectorAt(disk: seq<Sector>, a: nat): Sector {
    if a < |disk| then disk[a] else Zeros(512)
  }

  /** The sectors of object o, in order. */
  function View(g: Geo, L: Layout, disk: seq<Sector>, o: nat): (v: seq<Sector>)
    ensures |v| == Span(g, L, o)
  {
    seq(Span(g, L, o), j requires 0 <= j => SectorAt(disk, Lba(g, L, o, j)))
  }

  lemma SectorCountBound(g: Geo)
    ensures g.dataStart <= SectorCount(g)
  {
    MulNonneg(g.clusters - 2, g.spc);
  }

  lemma ViewAt(g: Geo, L: Layout, disk: seq<Sector>, o: nat, j: nat)
    requires j < Span(g, L, o) && Lba(g, L, o, j) < |disk|
    ensures View(g, L, disk, o)[j] == disk[Lba(g, L, o, j)]
  {
  }

  /** The cluster that disk address a is in. */
  ghost function ClusterAt(g: Geo, a: nat): int {
    2 + (a - g.dataStart) / g.spc
  }

  lemma ClusterLbaBound(g: Geo, c: nat, s: nat)
    requires 2 <= c < g.clusters && s < g.spc
    ensures g.dataStart <= ClusterLba(g, c) + s < SectorCount(g)
    ensures ClusterAt(g, ClusterLba(g, c) + s) == c
    ensures (ClusterLba(g, c) + s - g.dataStart) % g.spc == s
  {
    MulStep(c - 2, g.clusters - 2, g.spc);
    DivMod(c - 2, s, g.spc);
  }

  /** The object and sector index that live at disk address a. */
  ghost function Locate(g: Geo, L: Layout, a: nat): (nat, int) {
    if a < g.dataStart then (0, a - g.rootStart)
    else
      var c := ClusterAt(g, a);
      if c in L.owner then (L.owner[c].0, At(g, L.owner[c].1, (a - g.dataStart) % g.spc)) else (1, 0)
  }

  lemma LbaLocate(g: Geo, fat: seq<u16>, L: Layout, o: nat, j: nat)
    requires LayoutOk(g, fat, L) && j < Span(g, L, o)
    ensures g.rootStart <= Lba(g, L, o, j) < SectorCount(g)
    ensures Locate(g, L, Lba(g, L, o, j)) == (o, j)
    ensures o == 0 ==> Lba(g, L, o, j) < g.dataStart
    ensures o != 0 ==> o in L.chains && j / g.spc < |L.chains[o]|
    ensures o != 0 ==> g.dataStart <= Lba(g, L, o, j) &&
                       ClusterAt(g, Lba(g, L, o, j)) == L.chains[o][j / g.spc]
  {
    hide At, ClusterLba, ClusterAt;
    if o == 0 {
      SectorCountBound(g);
    } else {
      AtBound(g, j, |L.chains[o]|);
      AtSplit(g, j);
      assert LinkOk(g, fat, L, o, j / g.spc);
      ClusterLbaBound(g, L.chains[o][j / g.spc], j % g.spc);
    }
  }

  lemma ViewWrite(g: Geo, fat: seq<u16>, L: Layout, disk: seq<Sector>, o: nat, j: nat, s: Sector)
    requires LayoutOk(g, fat, L) && DiskOk(g, disk) && j < Span(g, L, o)
    ensures g.rootStart <= Lba(g, L, o, j) < |disk|
    ensures View(g, L, disk[Lba(g, L, o, j) := s], o) == View(g, L, disk, o)[j := s]
    ensures forall o' :: o' != o ==> View(g, L, disk[Lba(g, L, o, j) := s], o') == View(g, L, disk, o')
  {
    hide At, ClusterLba, Lba, ClusterAt, Locate;
    LbaLocate(g, fat, L, o, j);
    var disk' := disk[Lba(g, L, o, j) := s];
    forall o', j' | 0 <= j' < Span(g, L, o')
      ensures SectorAt(disk', Lba(g, L, o', j')) ==
              if o' == o && j' == j then s else SectorAt(disk, Lba(g, L, o', j'))
    {
      LbaLocate(g, fat, L, o', j');
    }
    assert View(g, L, disk', o) == View(g, L, disk, o)[j := s];
    forall o' | o' != o
      ensures View(g, L, disk', o') == View(g, L, disk, o')
    {
      assert forall j' :: 0 <= j' < Span(g, L, o') ==> View(g, L, disk', o')[j'] == View(g, L, disk, o')[j'];
    }
  }

  // ---- growing and starting a chain ----------------------------------------------------------

  function Grow(L: Layout, o: nat, c: nat): Layout
    requires o in L.chains
  {
    Layout(L.chains[o := L.chains[o] + [c]], L.owner[c := (o, |L.chains[o]|)])
  }

  function Start(L: Layout, c: nat): Layout {
    Layout(L.chains[c := [c]], L.owner[c := (c, 0)])
  }

  lemma GrowOk(g: Geo, fat: seq<u16>, L: Layout, o: nat, c: nat)
    requires LayoutOk(g, fat, L) && o in L.chains
    requires 2 <= c < g.clusters && Unowned(L, c)
    ensures 2 <= L.chains[o][|L.chains[o]| - 1] < g.clusters
    ensures LayoutOk(g, fat[L.chains[o][|L.chains[o]| - 1] := c][c := END], Grow(L, o, c))
  {
    var n := |L.chains[o]| - 1;
    var last := L.chains[o][n];
    assert LinkOk(g, fat, L, o, n);
    var fat', L' := fat[last := c][c := END], Grow(L, o, c);
    forall o', i | o' in L'.chains && 0 <= i < |L'.chains[o']|
      ensures LinkOk(g, fat', L', o', i)
    {
      if o' == o && i == n + 1 {
      } else {
        assert LinkOk(g, fat, L, o', i);
      }
    }
  }

  lemma GrowViews(g: Geo, L: Layout, disk: seq<Sector>, o: nat, c: nat)
    requires o in L.chains && 0 !in L.chains
    ensures Span(g, Grow(L, o, c), o) == Span(g, L, o) + g.spc
    ensures View(g, Grow(L, o, c), disk, o)[..Span(g, L, o)] == View(g, L, disk, o)
    ensures forall j :: 0 <= j < Span(g, L, o) ==> Lba(g, Grow(L, o, c), o, j) == Lba(g, L, o, j)
    ensures forall o' :: o' != o ==> View(g, Grow(L, o, c), disk, o') == View(g, L, disk, o')
  {
    var n := |L.chains[o]|;
    var L' := Grow(L, o, c);
    AtNext(g, n);
    hide At, ClusterLba;
    forall j | 0 <= j < Span(g, L, o)
      ensures Lba(g, L', o, j) == Lba(g, L, o, j)
    {
      AtBound(g, j, n);
    }
  }

  lemma StartOk(g: Geo, fat: seq<u16>, L: Layout, c: nat)
    requires LayoutOk(g, fat, L) && 2 <= c < g.clusters && Unowned(L, c)
    ensures c !in L.chains
    ensures LayoutOk(g, fat[c := END], Start(L, c))
  {
    var fat', L' := fat[c := END], Start(L, c);
    assert forall o :: o in L.chains ==> L.chains[o][0] != c;
    forall o, i | o in L'.chains && 0 <= i < |L'.chains[o]|
      ensures LinkOk(g, fat', L', o, i)
    {
      if o != c { assert LinkOk(g, fat, L, o, i); }
    }
  }

  lemma StartViews(g: Geo, L: Layout, disk: seq<Sector>, c: nat)
    requires c !in L.chains && c != 0
    ensures Span(g, Start(L, c), c) == g.spc
    ensures forall o :: o != c ==> View(g, Start(L, c), disk, o) == View(g, L, disk, o)
  {
  }

  // ---- free clusters --------------------------------------------------------------------------

  ghost function FreeSet(g: Geo, fat: seq<u16>): set<nat> {
    set c: nat | 2 <= c < g.clusters && c < |fat| && fat[c] == 0
  }

  lemma FreeSetTaken(g: Geo, fat: seq<u16>, c: nat, x: u16)
    requires 2 <= c < g.clusters && c < |fat| && fat[c] == 0 && x != 0
    ensures FreeSet(g, fat[c := x]) == FreeSet(g, fat) - {c}
    ensures |FreeSet(g, fat[c := x])| == |FreeSet(g, fat)| - 1
  {
  }

  lemma FreeSetRelinked(g: Geo, fat: seq<u16>, c: nat, x: u16)
    requires c < |fat| && fat[c] != 0 && x != 0
    ensures FreeSet(g, fat[c := x]) == FreeSet(g, fat)
  {
  }

  // ---- bytes of an object --------------------------------------------------------------------

  function Flat(v: seq<Sector>): (b: seq<byte>)
    ensures |b| == 512 * |v|
  {
    seq(512 * |v|, p requires 0 <= p < 512 * |v| => v[p / 512][p % 512])
  }

  lemma FlatPrefix(v: seq<Sector>, n: nat)
    requires n <= |v|
    ensures Flat(v)[..512 * n] == Flat(v[..n])
  {
  }

  lemma FlatSlice(v: seq<Sector>, q: nat, n: nat)
    requires q / 512 < |v| && q % 512 + n <= 512
    ensures q + n <= 512 * |v| && Flat(v)[q..q + n] == v[q / 512][q % 512..q % 512 + n]
  {
    var x, y := Flat(v)[q..q + n], v[q / 512][q % 512..q % 512 + n];
    forall i | 0 <= i < n
      ensures x[i] == y[i]
    {
      assert (q + i) / 512 == q / 512;
    }
  }

  /** d stored into b from index at on, extending b if it reaches past its end. */
  function Splice(b: seq<byte>, at: nat, d: seq<byte>): (r: seq<byte>)
    requires at <= |b|
  {
    b[..at] + d + if at + |d| < |b| then b[at + |d|..] else []
  }

  lemma SpliceTwice(b: seq<byte>, at: nat, d1: seq<byte>, d2: seq<byte>)
    requires at <= |b|
    ensures at + |d1| <= |Splice(b, at, d1)|
    ensures Splice(Splice(b, at, d1), at + |d1|, d2) == Splice(b, at, d1 + d2)
  {
  }

  /** Patching one sector of v splices its bytes, when base keeps the bytes around the patch. */
  lemma FlatPatch(v: seq<Sector>, b: seq<byte>, q: nat, d: seq<byte>, base: Sector)
    requires q <= |b| <= 512 * |v| && Flat(v)[..|b|] == b
    requires q / 512 < |v| && q % 512 + |d| <= 512
    requires forall i :: 0 <= i < 512 && !(q % 512 <= i < q % 512 + |d|) && 512 * (q / 512) + i < |b|
               ==> base[i] == v[q / 512][i]
    ensures |Splice(b, q, d)| <= 512 * |v|
    ensures Flat(v[q / 512 := Patch(base, q % 512, d)])[..|Splice(b, q, d)|] == Splice(b, q, d)
  {
    var j, o := q / 512, q % 512;
    var v', r := v[j := Patch(base, o, d)], Splice(b, q, d);
    forall p | 0 <= p < |r|
      ensures Flat(v')[p] == r[p]
    {
      FlatPatchAt(v, b, q, d, base, p);
    }
  }

  lemma FlatPatchAt(v: seq<Sector>, b: seq<byte>, q: nat, d: seq<byte>, base: Sector, p: nat)
    requires q <= |b| <= 512 * |v| && Flat(v)[..|b|] == b
    requires q / 512 < |v| && q % 512 + |d| <= 512
    requires forall i :: 0 <= i < 512 && !(q % 512 <= i < q % 512 + |d|) && 512 * (q / 512) + i < |b|
               ==> base[i] == v[q / 512][i]
    requires p < |Splice(b, q, d)|
    ensures p < 512 * |v| && Flat(v[q / 512 := Patch(base, q % 512, d)])[p] == Splice(b, q, d)[p]
  {
    var j, o := q / 512, q % 512;
    var s := Patch(base, o, d);
    if q <= p < q + |d| {
      assert p / 512 == j && p % 512 == o + (p - q);
      assert s[o..o + |d|][p - q] == d[p - q];
    } else {
      assert p < |b| && Splice(b, q, d)[p] == b[p];
      assert Flat(v)[p] == Flat(v)[..|b|][p];
      if p / 512 == j {
        assert s[p % 512] == base[p % 512];
      }
    }
  }
}
