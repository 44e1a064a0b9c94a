/** What a disk image says on its own, without the driver's cached FAT: the FAT copies, the chain a
    directory entry leads to and the bytes of the file it describes. This is what a mount after a
    power cut would see. */
module Fat16Image {
  import opened Bytes
  import opened Fat16Layout

  /** Sector s of a FAT copy holding fat: 256 little-endian entries. */
  function FatSector(fat: seq<u16>, s: nat): (r: Sector)
    requires 256 * s + 256 <= |fat|
  {
    seq(512, b requires 0 <= b < 512 => Le16(fat[256 * s + b / 2])[b % 2])
  }

  /** The FAT a mount caches: copy 0, entry by entry. */
  function DiskFat(g: Geo, disk: seq<Sector>): (fat: seq<u16>)
    requires |disk| >= g.fatStart + g.fatSectors
    ensures |fat| == 256 * g.fatSectors
  {
    seq(256 * g.fatSectors, c requires 0 <= c < 256 * g.fatSectors =>
      U16(disk[g.fatStart + c / 256][2 * (c % 256)..2 * (c % 256) + 2]))
  }

  lemma DiskFatAt(g: Geo, disk: seq<Sector>, c: nat)
    requires |disk| >= g.fatStart + g.fatSectors && c < 256 * g.fatSectors
    ensures DiskFat(g, disk)[c] == U16(SectorAt(disk, g.fatStart + c / 256)[2 * (c % 256)..2 * (c % 256) + 2])
  {
  }

  lemma FatSectorEntry(fat: seq<u16>, c: nat)
    requires c < |fat| && |fat| % 256 == 0
    ensures U16(FatSector(fat, c / 256)[2 * (c % 256)..2 * (c % 256) + 2]) == fat[c]
  {
    var s, i := c / 256, c % 256;
    var b := FatSector(fat, s)[2 * i..2 * i + 2];
    assert b[0] == Le16(fat[256 * s + (2 * i) / 2])[(2 * i) % 2];
    assert b[1] == Le16(fat[256 * s + (2 * i + 1) / 2])[(2 * i + 1) % 2];
    assert b == Le16(fat[c]);
  }

  /** The FAT copies fill the space between the reserved sectors and the root directory. */
  predicate FatsOk(g: Geo) {
    g.fatStart + g.numFats * g.fatSectors == g.rootStart
  }

  /** Address of sector s of FAT copy f. */
  function FatLba(g: Geo, f: nat, s: nat): nat {
    MulNonneg(f, g.fatSectors);
    g.fatStart + f * g.fatSectors + s
  }

  lemma FatLbaBound(g: Geo, disk: seq<Sector>, f: nat, s: nat)
    requires DiskOk(g, disk) && FatsOk(g) && f < g.numFats && s < g.fatSectors
    ensures FatLba(g, f, s) < g.rootStart <= g.dataStart <= |disk|
    ensures f > 0 ==> FatLba(g, f, s) >= g.fatStart + g.fatSectors
  {
    MulStep(f, g.numFats, g.fatSectors);
    if f > 0 { MulStep(0, f, g.fatSectors); }
    SectorCountBound(g);
  }

  /** Every FAT copy on disk holds exactly the cached FAT. */
  predicate Synced(g: Geo, disk: seq<Sector>, fat: seq<u16>) {
    && DiskOk(g, disk) && FatsOk(g) && |fat| == 256 * g.fatSectors
    && forall f, s :: 0 <= f < g.numFats && 0 <= s < g.fatSectors ==>
         SectorAt(disk, FatLba(g, f, s)) == FatSector(fat, s)
  }

  lemma SyncedDiskFat(g: Geo, disk: seq<Sector>, fat: seq<u16>)
    requires Synced(g, disk, fat)
    ensures |disk| >= g.fatStart + g.fatSectors
    ensures DiskFat(g, disk) == fat
  {
    FatLbaBound(g, disk, 0, 0);
    forall c | 0 <= c < |fat|
      ensures DiskFat(g, disk)[c] == fat[c]
    {
      assert SectorAt(disk, FatLba(g, 0, c / 256)) == FatSector(fat, c / 256);
      FatSectorEntry(fat, c);
    }
  }

  /** The chain that starts at c, as far as it is one: up to n clusters, and none from an end mark or a bad link on. */
  function Follow(fat: seq<u16>, c: nat, n: nat): (cs: seq<nat>)
    ensures |cs| <= n
    decreases n
  {
    if n == 0 || c < 2 || c >= END_MIN || c >= |fat| then [] else [c] + Follow(fat, fat[c], n - 1)
  }

  lemma {:induction false} FollowChain(fat: seq<u16>, chain: seq<nat>, n: nat)
    requires n <= |chain| && forall i :: 0 <= i < n ==> 2 <= chain[i] < END_MIN && chain[i] < |fat|
    requires forall i :: 0 <= i < n - 1 ==> fat[chain[i]] == chain[i + 1]
    ensures n > 0 ==> Follow(fat, chain[0], n) == chain[..n]
  {
    if n > 1 {
      FollowChain(fat, chain[1..], n - 1);
      assert chain[..n] == [chain[0]] + chain[1..][..n - 1];
    }
  }

  /** Clusters needed for size bytes. */
  function Clusters(g: Geo, size: nat): (n: nat) {
    (size + 512 * g.spc - 1) / (512 * g.spc)
  }

  /** The bytes of the file an entry (first cluster, size) describes, read from the image alone. */
  function ReadDisk(g: Geo, disk: seq<Sector>, first: nat, size: nat): (b: seq<byte>)
    requires |disk| >= g.fatStart + g.fatSectors
  {
    var chain := Follow(DiskFat(g, disk), first, Clusters(g, size));
    var bytes := Flat(View(g, Layout(map[first := chain], map[]), disk, first));
    if size <= |bytes| then bytes[..size] else bytes
  }

  /** The FAT on disk holds a chain from first on that covers size bytes: distinct clusters, and enough of them. */
  ghost predicate Covers(g: Geo, disk: seq<Sector>, first: nat, size: nat)
    requires |disk| >= g.fatStart + g.fatSectors
  {
    var cs := Follow(DiskFat(g, disk), first, Clusters(g, size));
    && |cs| == Clusters(g, size) && (forall i :: 0 <= i < |cs| ==> 2 <= cs[i] < g.clusters)
    && forall i, j :: 0 <= i < j < |cs| ==> cs[i] != cs[j]
  }

  /** Every link and the end mark of a chain are in the FAT on disk. */
  ghost predicate ChainThere(g: Geo, disk: seq<Sector>, chain: seq<nat>)
    requires |disk| >= g.fatStart + g.fatSectors
  {
    forall i :: 0 <= i < |chain| ==> LinkThere(g, disk, chain, i)
  }

  ghost predicate LinkThere(g: Geo, disk: seq<Sector>, chain: seq<nat>, i: nat)
    requires |disk| >= g.fatStart + g.fatSectors && i < |chain|
  {
    chain[i] < 256 * g.fatSectors &&
    if i + 1 < |chain| then DiskFat(g, disk)[chain[i]] == chain[i + 1] else DiskFat(g, disk)[chain[i]] >= END_MIN
  }

  lemma ChainDistinct(g: Geo, fat: seq<u16>, L: Layout, o: nat, i: nat, j: nat)
    requires LayoutOk(g, fat, L) && o in L.chains && i < |L.chains[o]| && j < |L.chains[o]| && i != j
    ensures L.chains[o][i] != L.chains[o][j]
  {
    assert LinkOk(g, fat, L, o, i) && LinkOk(g, fat, L, o, j);
  }

  /** The bytes of a file laid out by L. */
  function Content(g: Geo, L: Layout, disk: seq<Sector>, first: nat, size: nat): (b: seq<byte>) {
    var bytes := Flat(View(g, L, disk, first));
    if first == 0 then [] else if size <= |bytes| then bytes[..size] else bytes
  }

  lemma ClustersBound(g: Geo, size: nat, n: nat)
    ensures Clusters(g, size) <= n <==> size <= 512 * At(g, n, 0)
  {
    var b := 512 * g.spc;
    var q, r := (size + b - 1) / b, (size + b - 1) % b;
    assert size + b - 1 == q * b + r;
    assert 512 * At(g, n, 0) == n * b;
    if q <= n { if q < n { MulStep(q, n, b); } } else { MulStep(n, q, b); }
  }

  /** The sectors of a prefix of a chain are a prefix of the object's sectors. */
  lemma ViewPrefix(g: Geo, L: Layout, disk: seq<Sector>, o: nat, n: nat)
    requires o != 0 && o in L.chains && n <= |L.chains[o]|
    ensures View(g, Layout(map[o := L.chains[o][..n]], map[]), disk, o) <= View(g, L, disk, o)
  {
    hide At, ClusterLba;
    var L' := Layout(map[o := L.chains[o][..n]], map[]);
    AtMono(g, n, |L.chains[o]|);
    assert Span(g, L', o) <= Span(g, L, o);
    forall j | 0 <= j < Span(g, L', o)
      ensures Lba(g, L', o, j) == Lba(g, L, o, j)
    {
      AtBound(g, j, n);
    }
  }

  /** A chain of the layout whose links are on disk is what following them finds. */
  lemma FollowIs(g: Geo, fat: seq<u16>, L: Layout, disk: seq<Sector>, first: nat, n: nat)
    requires |disk| >= g.fatStart + g.fatSectors && LayoutOk(g, fat, L) && first in L.chains &&
             0 < n <= |L.chains[first]|
    requires forall i :: 0 <= i < n - 1 ==>
               L.chains[first][i] < 256 * g.fatSectors && DiskFat(g, disk)[L.chains[first][i]] == L.chains[first][i + 1]
    ensures Follow(DiskFat(g, disk), first, n) == L.chains[first][..n]
    ensures forall i :: 0 <= i < n ==> 2 <= L.chains[first][i] < g.clusters
  {
    hide DiskFat;
    forall i | 0 <= i < n
      ensures 2 <= L.chains[first][i] < g.clusters
    {
      assert LinkOk(g, fat, L, first, i);
    }
    FollowChain(DiskFat(g, disk), L.chains[first], n);
  }

  /** An entry whose chain is on disk and long enough reads as the laid-out file. */
  lemma ReadDiskIsContent(g: Geo, fat: seq<u16>, L: Layout, disk: seq<Sector>, first: nat, size: nat)
    requires |disk| >= g.fatStart + g.fatSectors && LayoutOk(g, fat, L) && first in L.chains
    requires 0 < Clusters(g, size) <= |L.chains[first]|
    requires forall i :: 0 <= i < Clusters(g, size) - 1 ==>
               L.chains[first][i] < 256 * g.fatSectors
               && DiskFat(g, disk)[L.chains[first][i]] == L.chains[first][i + 1]
    ensures ReadDisk(g, disk, first, size) == Content(g, L, disk, first, size) && Covers(g, disk, first, size)
  {
    hide LayoutOk, At, Clusters, Lba, DiskFat;
    var n := Clusters(g, size);
    var L' := Layout(map[first := L.chains[first][..n]], map[]);
    ClustersBound(g, size, n);
    FollowIs(g, fat, L, disk, first, n);
    FirstIsCluster(g, fat, L, first);
    forall i, j | 0 <= i < j < n
      ensures L.chains[first][i] != L.chains[first][j]
    {
      ChainDistinct(g, fat, L, first, i, j);
    }
    ViewPrefix(g, L, disk, first, n);
    var v, v' := View(g, L, disk, first), View(g, L', disk, first);
    FlatPrefix(v, |v'|);
    assert v[..|v'|] == v';
  }

  lemma FirstIsCluster(g: Geo, fat: seq<u16>, L: Layout, first: nat)
    requires LayoutOk(g, fat, L) && first in L.chains
    ensures 2 <= first && |L.chains[first]| > 0 && L.chains[first][0] == first
  {
  }
}
