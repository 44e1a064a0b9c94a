/** A positional write (fat16_write_at) as a job on a valid volume: what holds while data goes to
    disk, how the volume looks when it is committed, and what every disk image in between decodes
    to. */
module Fat16Write {
  import opened Bytes
  import opened Fat16Layout
  import opened Fat16Image
  import opened Fat16Dir

  /** Store data at byte pos of the file in slot k of directory d, on the volume (L, T, disk, fat). */
  datatype Job = Job(g: Geo, L: Layout, T: Tree, disk: seq<Sector>, fat: seq<u16>,
                     d: nat, k: nat, pos: nat, data: seq<byte>)
  {
    ghost function Dir(): seq<Sector> { View(g, L, disk, d) }
    ghost function Entry0(): Entry { Slot(Dir(), k) }
    ghost function First(): nat { FirstOf(Entry0()) }
    ghost function Size(): nat { SizeOf(Entry0()) }
    ghost function Old(): seq<byte> { Content(g, L, disk, First(), Size()) }
    ghost function Chain(): seq<nat> { if First() in L.chains then L.chains[First()] else [] }

    /** The file after the first w bytes of data are stored. */
    ghost function After(w: nat): seq<byte>
      requires pos <= |Old()| && w <= |data|
    {
      Splice(Old(), pos, data[..w])
    }
  }

  /** The job is about a plain file of a valid tree, and the FAT on disk is the cached one. */
  ghost predicate JobOk(J: Job) {
    JobTree(J) && Synced(J.g, J.disk, J.fat)
  }

  ghost predicate JobTree(J: Job) {
    && DiskOk(J.g, J.disk) && LayoutOk(J.g, J.fat, J.L) && TreeOk(J.g, J.L, J.disk, J.T)
    && IsDirectory(J.T, J.d) && J.k < 16 * |J.Dir()| && (J.d == 0 || 2 <= J.k)
    && IsLive(J.Entry0()) && !IsDir(J.Entry0())
    && J.pos <= J.Size() && J.pos + |J.data| < 0x1_0000_0000
  }

  lemma JobFile(J: Job)
    requires JobTree(J)
    ensures J.First() == 0 ==> J.Size() == 0
    ensures J.First() != 0 ==> J.First() in J.L.chains && |J.L.chains[J.First()]| == Clusters(J.g, J.Size())
                               && J.First() !in J.T.parent && J.First() != J.d && J.Size() > 0
                               && J.First() in J.T.home && J.T.home[J.First()] == (J.d, J.k)
    ensures J.pos <= |J.Old()| == J.Size() && 0 !in J.L.chains
    ensures |J.Chain()| == Clusters(J.g, J.Size())
  {
    hide At, Clusters, Lba;
    assert EntryOk(J.g, J.L, J.T, J.d, J.k, J.Entry0());
    ClustersBound(J.g, J.Size(), Clusters(J.g, J.Size()));
    ClustersBound(J.g, J.Size(), 0);
  }

  // ---- while the data is being written ---------------------------------------------------------

  /** Chains other than t's are as before, and t's extends the file's old chain. */
  ghost predicate SameChains(J: Job, t: nat, L: Layout) {
    && t in L.chains
    && (forall o :: o != t ==> (o in L.chains <==> o in J.L.chains))
    && (forall o :: o != t && o in J.L.chains ==> L.chains[o] == J.L.chains[o])
    && (if J.First() != 0 then t == J.First() && J.Chain() <= L.chains[t] else t !in J.L.chains && t != J.d && t != 0)
  }

  /** The cached FAT differs from the FAT on disk only in clusters that were free and in the end
      mark of the file's old chain. */
  ghost predicate FatGrown(J: Job, t: nat, L: Layout, fat: seq<u16>) {
    && |fat| == |J.fat| && t in L.chains
    && (forall i :: |J.Chain()| <= i < |L.chains[t]| ==> L.chains[t][i] < |fat| && J.fat[L.chains[t][i]] == 0)
    && forall c :: 0 <= c < |fat| && fat[c] != J.fat[c] ==>
         J.fat[c] == 0 || (J.Chain() != [] && c == J.Chain()[|J.Chain()| - 1])
  }

  /** w bytes of the job are on disk, in the chain of object t. */
  ghost predicate Writing(J: Job, t: nat, fat: seq<u16>, L: Layout, disk: seq<Sector>, w: nat) {
    && LayoutOk(J.g, fat, L) && SameChains(J, t, L) && FatGrown(J, t, L, fat)
    && |disk| == |J.disk| && (forall a :: 0 <= a < J.g.rootStart ==> SectorAt(disk, a) == SectorAt(J.disk, a))
    && (forall o :: o != t ==> View(J.g, L, disk, o) == View(J.g, J.L, J.disk, o))
    && |L.chains[t]| + |FreeSet(J.g, fat)| == |J.Chain()| + |FreeSet(J.g, J.fat)|
    && w <= |J.data| && J.pos <= |J.Old()|
    && |J.After(w)| <= 512 * Span(J.g, L, t)
    && Flat(View(J.g, L, disk, t))[..|J.After(w)|] == J.After(w)
  }

  /** cluster is the ci-th of object t, whose chain is no longer than the old chain and ci need. */
  ghost predicate Standing(J: Job, t: nat, L: Layout, cluster: nat, ci: nat) {
    && t in L.chains && ci < |L.chains[t]| && L.chains[t][ci] == cluster
    && |L.chains[t]| == if |J.Chain()| < ci + 1 then ci + 1 else |J.Chain()|
  }

  /** Byte pos is in the old chain, or right behind its last cluster. */
  lemma SeekBound(J: Job)
    requires JobOk(J) && J.First() != 0
    ensures ClusterOf(J.g, J.pos) <= |J.Chain()|
    ensures ClusterOf(J.g, J.pos) == |J.Chain()| ==>
              J.pos == J.Size() == 512 * At(J.g, |J.Chain()|, 0) && OffsetIn(J.g, J.pos) == 0
  {
    JobFile(J);
    ClustersBound(J.g, J.Size(), |J.Chain()|);
    var target := ClusterOf(J.g, J.pos);
    AtMono(J.g, target, |J.Chain()|);
    AtMono(J.g, |J.Chain()|, target);
  }

  lemma WritingExisting(J: Job)
    requires JobOk(J) && J.First() != 0
    ensures Writing(J, J.First(), J.fat, J.L, J.disk, 0)
  {
    hide At, Clusters, Lba, Slot;
    JobFile(J);
    assert J.data[..0] == [];
    assert J.After(0) == J.Old();
    ClustersBound(J.g, J.Size(), Clusters(J.g, J.Size()));
  }

  /** The links at and after the ci-th cluster of t. */
  lemma WritingLinks(J: Job, t: nat, fat: seq<u16>, L: Layout, disk: seq<Sector>, w: nat, ci: nat)
    requires Writing(J, t, fat, L, disk, w) && ci < |L.chains[t]|
    ensures LinkOk(J.g, fat, L, t, ci)
    ensures ci + 1 < |L.chains[t]| ==> LinkOk(J.g, fat, L, t, ci + 1)
  {
  }

  /** A file with clusters starts at the first of them. */
  lemma JobStart(J: Job)
    requires JobTree(J)
    ensures J.First() == 0 || (2 <= J.First() && Standing(J, J.First(), J.L, J.First(), 0))
    ensures J.First() == 0 ==> J.Chain() == [] && J.pos == 0 == J.Size()
  {
    hide TreeOk, View, Slot, LinkOk;
    JobFile(J);
  }

  lemma DirHasChain(J: Job)
    requires JobTree(J)
    ensures J.d == 0 || J.d in J.L.chains
  {
    if J.d != 0 { assert LinkedIn(J.g, J.L, J.disk, J.T, J.d); }
  }

  lemma JobLayout(J: Job)
    requires JobTree(J)
    ensures LayoutOk(J.g, J.fat, J.L) && DiskOk(J.g, J.disk) && |J.fat| == 256 * J.g.fatSectors &&
            |J.disk| >= J.g.dataStart
  {
    SectorCountBound(J.g);
  }

  lemma WritingStarted(J: Job, c: nat)
    requires JobOk(J) && J.First() == 0
    requires 2 <= c < J.g.clusters && J.fat[c] == 0
    ensures Writing(J, c, J.fat[c := END], Start(J.L, c), J.disk, 0)
  {
    hide JobTree, Synced, LayoutOk, View, Slot, At, FreeSet;
    JobFile(J);
    JobLayout(J);
    DirHasChain(J);
    FreeIsUnowned(J.g, J.fat, J.L, c);
    StartOk(J.g, J.fat, J.L, c);
    StartViews(J.g, J.L, J.disk, c);
    FreeSetTaken(J.g, J.fat, c, END);
    assert J.data[..0] == [];
    assert J.After(0) == [];
    assert J.Chain() == [];
  }

  /** A longer chain of t holds the same bytes. */
  lemma GrownBytes(g: Geo, L: Layout, disk: seq<Sector>, t: nat, c: nat, b: seq<byte>)
    requires t in L.chains && 0 !in L.chains && |b| <= 512 * Span(g, L, t) && Flat(View(g, L, disk, t))[..|b|] == b
    ensures |b| <= 512 * Span(g, Grow(L, t, c), t) && Flat(View(g, Grow(L, t, c), disk, t))[..|b|] == b
  {
    hide View, Flat, Span;
    GrowViews(g, L, disk, t, c);
    var v, v' := View(g, L, disk, t), View(g, Grow(L, t, c), disk, t);
    assert v'[..|v|] == v;
    FlatPrefix(v', |v|);
    assert Flat(v')[..|b|] == Flat(v')[..512 * |v|][..|b|];
  }

  /** The FAT after c is taken and linked behind the last cluster of t. */
  lemma GrownFat(g: Geo, fat: seq<u16>, L: Layout, t: nat, c: nat)
    requires LayoutOk(g, fat, L) && t in L.chains && 2 <= c < g.clusters && fat[c] == 0
    ensures var last := L.chains[t][|L.chains[t]| - 1];
            && 2 <= last < g.clusters && c != last
            && LayoutOk(g, fat[c := END][last := c], Grow(L, t, c))
            && |FreeSet(g, fat[c := END][last := c])| == |FreeSet(g, fat)| - 1
  {
    FreeIsUnowned(g, fat, L, c);
    GrowOk(g, fat, L, t, c);
    var n := |L.chains[t]|;
    var last := L.chains[t][n - 1];
    assert LinkOk(g, fat, L, t, n - 1);
    var fat1 := fat[c := END];
    FreeSetTaken(g, fat, c, END);
    FreeSetRelinked(g, fat1, last, c);
    assert fat1[last := c] == fat[last := c][c := END];
  }

  lemma WritingGrow(J: Job, t: nat, fat: seq<u16>, L: Layout, disk: seq<Sector>, w: nat, c: nat)
    requires JobOk(J) && Writing(J, t, fat, L, disk, w)
    requires 2 <= c < J.g.clusters && fat[c] == 0
    ensures 2 <= L.chains[t][|L.chains[t]| - 1] < J.g.clusters && c != L.chains[t][|L.chains[t]| - 1]
    ensures Writing(J, t, fat[c := END][L.chains[t][|L.chains[t]| - 1] := c], Grow(L, t, c), disk, w)
  {
    hide JobTree, Synced, LayoutOk, View, Slot, At, FreeSet, Flat, SameChains, FatGrown, Content, SectorAt, Splice;
    JobFile(J);
    JobLayout(J);
    ChainNotEmpty(J, t, fat, L);
    GrownFat(J.g, fat, L, t, c);
    GrowFat(J, t, fat, L, c);
    GrowSame(J, t, L, c);
    GrowViews(J.g, L, disk, t, c);
    GrownBytes(J.g, L, disk, t, c, J.After(w));
  }

  lemma ChainNotEmpty(J: Job, t: nat, fat: seq<u16>, L: Layout)
    requires LayoutOk(J.g, fat, L) && SameChains(J, t, L)
    ensures t in L.chains && |L.chains[t]| > 0 && 0 !in L.chains && |fat| == 256 * J.g.fatSectors && L.chains[t][0] == t
  {
  }

  lemma GrowSame(J: Job, t: nat, L: Layout, c: nat)
    requires SameChains(J, t, L)
    ensures SameChains(J, t, Grow(L, t, c))
  {
  }

  lemma GrowFat(J: Job, t: nat, fat: seq<u16>, L: Layout, c: nat)
    requires LayoutOk(J.g, J.fat, J.L) && LayoutOk(J.g, fat, L) && SameChains(J, t, L) && FatGrown(J, t, L, fat)
    requires 2 <= c < J.g.clusters && fat[c] == 0
    requires L.chains[t][|L.chains[t]| - 1] < |fat|
    ensures FatGrown(J, t, Grow(L, t, c), fat[c := END][L.chains[t][|L.chains[t]| - 1] := c])
  {
    hide View;
    var n, m := |L.chains[t]|, |J.Chain()|;
    var last := L.chains[t][n - 1];
    assert LinkOk(J.g, fat, L, t, n - 1);
    if m > 0 {
      assert LinkOk(J.g, fat, L, t, m - 1);
      assert J.Chain()[m - 1] == L.chains[t][m - 1];
      if m < n { assert LinkOk(J.g, fat, L, t, m); }
    }
    assert J.fat[c] == 0;
    assert n > m ==> J.fat[last] == 0;
  }

  lemma AfterAt(J: Job, w: nat)
    requires J.pos <= |J.Old()| && w <= |J.data|
    ensures |J.After(w)| == if J.pos + w < |J.Old()| then |J.Old()| else J.pos + w
    ensures forall p :: 0 <= p < |J.After(w)| ==>
              J.After(w)[p] == if J.pos <= p < J.pos + w then J.data[p - J.pos] else J.Old()[p]
  {
    hide View, Slot, Content, Flat;
  }

  /** The sector that receives bytes [w, w + n) of the job, patched into base. */
  function Stored(J: Job, w: nat, n: nat, base: Sector): Sector
    requires (J.pos + w) % 512 + n <= 512 && w + n <= |J.data|
  {
    Patch(base, (J.pos + w) % 512, J.data[w..w + n])
  }

  /** base keeps the file's bytes around the ones being stored. */
  ghost predicate BaseOk(J: Job, v: seq<Sector>, w: nat, n: nat, base: Sector) {
    && J.pos <= |J.Old()| && w <= |J.data| && (J.pos + w) / 512 < |v|
    && forall b :: 0 <= b < 512 && !((J.pos + w) % 512 <= b < (J.pos + w) % 512 + n)
                   && 512 * ((J.pos + w) / 512) + b < |J.After(w)|
         ==> base[b] == v[(J.pos + w) / 512][b]
  }

  lemma StoredBytes(J: Job, v: seq<Sector>, w: nat, n: nat, base: Sector)
    requires BaseOk(J, v, w, n, base) && (J.pos + w) % 512 + n <= 512 && w + n <= |J.data|
    requires |J.After(w)| <= 512 * |v| && Flat(v)[..|J.After(w)|] == J.After(w)
    ensures |J.After(w + n)| <= 512 * |v|
    ensures Flat(v[(J.pos + w) / 512 := Stored(J, w, n, base)])[..|J.After(w + n)|] == J.After(w + n)
  {
    hide View, Slot, Content, Flat, Splice, Patch;
    SpliceTwice(J.Old(), J.pos, J.data[..w], J.data[w..w + n]);
    assert J.data[..w] + J.data[w..w + n] == J.data[..w + n];
    FlatPatch(v, J.After(w), J.pos + w, J.data[w..w + n], base);
  }

  lemma WritingStore(J: Job, t: nat, fat: seq<u16>, L: Layout, disk: seq<Sector>, w: nat, n: nat, base: Sector)
    requires JobOk(J) && Writing(J, t, fat, L, disk, w)
    requires (J.pos + w) % 512 + n <= 512 && w + n <= |J.data| && (J.pos + w) / 512 < Span(J.g, L, t)
    requires BaseOk(J, View(J.g, L, disk, t), w, n, base)
    ensures J.g.rootStart <= Lba(J.g, L, t, (J.pos + w) / 512) < |disk|
    ensures Writing(J, t, fat, L, disk[Lba(J.g, L, t, (J.pos + w) / 512) := Stored(J, w, n, base)], w + n)
  {
    ViewWrite(J.g, fat, L, disk, t, (J.pos + w) / 512, Stored(J, w, n, base));
    StoredBytes(J, View(J.g, L, disk, t), w, n, base);
  }

  // ---- what an image decodes to -----------------------------------------------------------------

  ghost predicate OtherSlot(J: Job, d: nat, k: nat) {
    IsDirectory(J.T, d) && k < 16 * Span(J.g, J.L, d) && (d, k) != (J.d, J.k)
  }

  /** A power cut that leaves img, with entry e in the job's slot and the first w bytes of its data
      stored: every other object keeps its whole chain, every other entry stands, every other file reads
      as before, and the file has a chain that covers e's size and reads as the old one with those w
      bytes in place, as far as that size reaches. */
  ghost predicate CrashSafe(J: Job, w: nat, e: Entry, img: seq<Sector>) {
    && |img| == |J.disk| && |img| >= J.g.fatStart + J.g.fatSectors
    && (forall o :: o in J.L.chains && o != J.First() ==> ChainThere(J.g, img, J.L.chains[o]))
    && (forall d, k :: OtherSlot(J, d, k) ==>
          Slot(View(J.g, J.L, img, d), k) == Slot(View(J.g, J.L, J.disk, d), k))
    && (forall d, k :: OtherSlot(J, d, k) && OtherFile(J, d, k) ==>
          var x := Slot(View(J.g, J.L, J.disk, d), k);
          ReadDisk(J.g, img, FirstOf(x), SizeOf(x)) == ReadDisk(J.g, J.disk, FirstOf(x), SizeOf(x)))
    && Slot(View(J.g, J.L, img, J.d), J.k) == e
    && J.pos <= |J.Old()| && w <= |J.data| && SizeOf(e) <= |J.After(w)|
    && Covers(J.g, img, FirstOf(e), SizeOf(e))
    && ReadDisk(J.g, img, FirstOf(e), SizeOf(e)) == J.After(w)[..SizeOf(e)]
  }

  ghost predicate OtherFile(J: Job, d: nat, k: nat) {
    var x := Slot(View(J.g, J.L, J.disk, d), k);
    IsLive(x) && !IsDir(x) && (d == 0 || 2 <= k)
  }

  lemma ViewSameChain(g: Geo, L: Layout, L': Layout, disk: seq<Sector>, o: nat)
    requires o in L.chains <==> o in L'.chains
    requires o in L.chains ==> L.chains[o] == L'.chains[o]
    ensures View(g, L, disk, o) == View(g, L', disk, o)
  {
  }

  // ---- every image of the job is safe ------------------------------------------------------------

  /** img shows the volume of the job with entry e in its slot and a FAT in between the old one and
      fat; nothing is said about object t. */
  ghost predicate Partway(J: Job, t: nat, L: Layout, fat: seq<u16>, e: Entry, img: seq<Sector>) {
    && |img| == |J.disk| && |img| >= J.g.fatStart + J.g.fatSectors
    && |fat| == 256 * J.g.fatSectors && SameChains(J, t, L) && FatGrown(J, t, L, fat)
    && (forall o :: o != t && o != J.d ==> View(J.g, J.L, img, o) == View(J.g, J.L, J.disk, o))
    && J.k / 16 < |J.Dir()| && View(J.g, J.L, img, J.d) == PutSlot(J.Dir(), J.k, e)
    && (forall c :: 0 <= c < |fat| ==> DiskFat(J.g, img)[c] == J.fat[c] || DiskFat(J.g, img)[c] == fat[c])
  }

  /** No other entry leads to object t. */
  lemma TargetIsAlone(J: Job, t: nat, L: Layout, d: nat, k: nat)
    requires JobTree(J) && SameChains(J, t, L) && OtherSlot(J, d, k)
    requires IsLive(Slot(View(J.g, J.L, J.disk, d), k)) && (d == 0 || 2 <= k)
    ensures FirstOf(Slot(View(J.g, J.L, J.disk, d), k)) != t
  {
    JobFile(J);
    var v := View(J.g, J.L, J.disk, d);
    assert DirOk(J.g, J.L, J.T, d, v);
    assert EntryOk(J.g, J.L, J.T, d, k, Slot(v, k));
    var f := FirstOf(Slot(v, k));
    if f in J.T.parent { assert LinkedIn(J.g, J.L, J.disk, J.T, f); }
  }

  lemma FatKept(J: Job, t: nat, L: Layout, fat: seq<u16>, o: nat, i: nat)
    requires LayoutOk(J.g, J.fat, J.L) && SameChains(J, t, L) && FatGrown(J, t, L, fat)
    requires o in J.L.chains && i < |J.L.chains[o]| && (o != t || i + 1 < |J.L.chains[o]|)
    ensures J.L.chains[o][i] < |fat| && fat[J.L.chains[o][i]] == J.fat[J.L.chains[o][i]]
  {
    hide View, Slot;
    var c := J.L.chains[o][i];
    assert LinkOk(J.g, J.fat, J.L, o, i);
    if i + 1 < |J.L.chains[o]| { assert LinkOk(J.g, J.fat, J.L, o, i + 1); }
    var m := |J.Chain()|;
    if m > 0 { assert LinkOk(J.g, J.fat, J.L, J.First(), m - 1); }
  }

  lemma LinksOnDisk(J: Job, t: nat, L: Layout, fat: seq<u16>, e: Entry, img: seq<Sector>, o: nat)
    requires JobOk(J) && Partway(J, t, L, fat, e, img) && o in J.L.chains
    ensures forall i :: 0 <= i < |J.L.chains[o]| - 1 ==>
              J.L.chains[o][i] < |fat| && DiskFat(J.g, img)[J.L.chains[o][i]] == J.L.chains[o][i + 1]
    ensures o != t ==> ChainThere(J.g, img, J.L.chains[o])
  {
    hide JobTree, Synced, Partway, LayoutOk, SameChains, FatGrown, DiskFat;
    forall i | 0 <= i < |J.L.chains[o]| && (o != t || i + 1 < |J.L.chains[o]|)
      ensures J.L.chains[o][i] < |fat| == 256 * J.g.fatSectors && |img| >= J.g.fatStart + J.g.fatSectors &&
              LinkThere(J.g, img, J.L.chains[o], i)
    {
      LinkOnDisk(J, t, L, fat, e, img, o, i);
    }
  }

  lemma LinkOnDisk(J: Job, t: nat, L: Layout, fat: seq<u16>, e: Entry, img: seq<Sector>, o: nat, i: nat)
    requires JobOk(J) && Partway(J, t, L, fat, e, img) && o in J.L.chains && i < |J.L.chains[o]|
    requires o != t || i + 1 < |J.L.chains[o]|
    ensures J.L.chains[o][i] < |fat| == 256 * J.g.fatSectors
    ensures |img| >= J.g.fatStart + J.g.fatSectors && LinkThere(J.g, img, J.L.chains[o], i)
  {
    hide View, Slot, DiskFat, JobTree, SameChains, FatGrown;
    JobLayout(J);
    assert LinkOk(J.g, J.fat, J.L, o, i);
    hide LayoutOk;
    FatKept(J, t, L, fat, o, i);
  }

  /** What the entry of another plain file says about its chain. */
  lemma OtherFileChain(J: Job, t: nat, L: Layout, d: nat, k: nat)
    requires JobTree(J) && SameChains(J, t, L) && OtherSlot(J, d, k) && OtherFile(J, d, k)
    ensures var x := Slot(View(J.g, J.L, J.disk, d), k);
            var f := FirstOf(x);
            && f != t && (f != 0 ==> f != J.d)
            && if f == 0 then SizeOf(x) == 0
               else f in J.L.chains && |J.L.chains[f]| == Clusters(J.g, SizeOf(x)) && |J.L.chains[f]| > 0 &&
                    J.L.chains[f][0] == f
  {
    hide JobTree, View, Slot, LinkOk, Clusters, SameChains;
    TargetIsAlone(J, t, L, d, k);
    OtherEntryOk(J, d, k);
    JobLayout(J);
  }

  lemma OtherEntryOk(J: Job, d: nat, k: nat)
    requires JobTree(J) && OtherSlot(J, d, k)
    ensures EntryOk(J.g, J.L, J.T, d, k, Slot(View(J.g, J.L, J.disk, d), k)) && IsDirectory(J.T, J.d)
  {
  }

  /** A chain whose links are those of the synced FAT is on the old disk. */
  lemma OldChainOnDisk(J: Job, f: nat)
    requires JobOk(J) && f in J.L.chains
    ensures |J.disk| >= J.g.fatStart + J.g.fatSectors
    ensures forall i :: 0 <= i < |J.L.chains[f]| - 1 ==>
              J.L.chains[f][i] < 256 * J.g.fatSectors && DiskFat(J.g, J.disk)[J.L.chains[f][i]] == J.L.chains[f][i + 1]
  {
    hide JobTree, Synced, LayoutOk, DiskFat;
    JobLayout(J);
    SyncedDiskFat(J.g, J.disk, J.fat);
    forall i | 0 <= i < |J.L.chains[f]| - 1
      ensures J.L.chains[f][i] < 256 * J.g.fatSectors && DiskFat(J.g, J.disk)[J.L.chains[f][i]] == J.L.chains[f][i + 1]
    {
      ChainLink(J.g, J.fat, J.L, f, i);
    }
  }

  lemma OtherFileKept(J: Job, t: nat, L: Layout, fat: seq<u16>, e: Entry, img: seq<Sector>, d: nat, k: nat)
    requires JobOk(J) && Partway(J, t, L, fat, e, img) && OtherSlot(J, d, k) && OtherFile(J, d, k)
    ensures var x := Slot(View(J.g, J.L, J.disk, d), k);
            ReadDisk(J.g, img, FirstOf(x), SizeOf(x)) == ReadDisk(J.g, J.disk, FirstOf(x), SizeOf(x))
  {
    hide JobTree, Synced, LayoutOk, Slot, View, DiskFat, ReadDisk, Covers, Clusters, SameChains, FatGrown, OtherSlot,
      OtherFile, PutSlot;
    var x := Slot(View(J.g, J.L, J.disk, d), k);
    var f := FirstOf(x);
    OtherFileChain(J, t, L, d, k);
    JobLayout(J);
    if f == 0 {
      ReadNothing(J.g, img);
      ReadNothing(J.g, J.disk);
    } else {
      LinksOnDisk(J, t, L, fat, e, img, f);
      OldChainOnDisk(J, f);
      ReadDiskIsContent(J.g, J.fat, J.L, img, f, SizeOf(x));
      ReadDiskIsContent(J.g, J.fat, J.L, J.disk, f, SizeOf(x));
    }
  }

  lemma ReadNothing(g: Geo, img: seq<Sector>)
    requires |img| >= g.fatStart + g.fatSectors
    ensures ReadDisk(g, img, 0, 0) == [] && Covers(g, img, 0, 0)
  {
    hide Clusters, At, DiskFat, View;
    FirstByte(g);
    ClustersBound(g, 0, 0);
  }

  /** Whatever a partway image shows of the job's own file, it is safe for everything else. */
  lemma PartwayIsSafe(J: Job, t: nat, L: Layout, fat: seq<u16>, w: nat, e: Entry, img: seq<Sector>)
    requires JobOk(J) && Partway(J, t, L, fat, e, img)
    requires w <= |J.data| && J.pos <= |J.Old()| && SizeOf(e) <= |J.After(w)|
    requires Covers(J.g, img, FirstOf(e), SizeOf(e))
    requires ReadDisk(J.g, img, FirstOf(e), SizeOf(e)) == J.After(w)[..SizeOf(e)]
    ensures CrashSafe(J, w, e, img)
  {
    hide Covers, ReadDisk;
    forall o | o in J.L.chains && o != J.First()
      ensures ChainThere(J.g, img, J.L.chains[o])
    {
      LinksOnDisk(J, t, L, fat, e, img, o);
    }
    forall d, k | OtherSlot(J, d, k)
      ensures Slot(View(J.g, J.L, img, d), k) == Slot(View(J.g, J.L, J.disk, d), k)
      ensures OtherFile(J, d, k) ==>
                var x := Slot(View(J.g, J.L, J.disk, d), k);
                ReadDisk(J.g, img, FirstOf(x), SizeOf(x)) == ReadDisk(J.g, J.disk, FirstOf(x), SizeOf(x))
    {
      if OtherFile(J, d, k) { OtherFileKept(J, t, L, fat, e, img, d, k); }
      OtherSlotKept(J, t, L, fat, e, img, d, k);
    }
    SlotPut(J.Dir(), J.k, e);
  }

  lemma OtherSlotKept(J: Job, t: nat, L: Layout, fat: seq<u16>, e: Entry, img: seq<Sector>, d: nat, k: nat)
    requires JobOk(J) && Partway(J, t, L, fat, e, img) && OtherSlot(J, d, k)
    ensures Slot(View(J.g, J.L, img, d), k) == Slot(View(J.g, J.L, J.disk, d), k)
  {
    if d == J.d {
      SlotPut(J.Dir(), J.k, e);
    } else {
      JobFile(J);
      if d != 0 { assert LinkedIn(J.g, J.L, J.disk, J.T, d); }
    }
  }

  /** Old sectors of the file keep their place when its chain grows. */
  lemma OldViewKept(J: Job, t: nat, L: Layout, img: seq<Sector>)
    requires JobOk(J) && SameChains(J, t, L) && J.First() != 0
    ensures View(J.g, J.L, img, t) <= View(J.g, L, img, t)
  {
    var m := |J.Chain()|;
    assert L.chains[t][..m] == J.Chain();
    ViewPrefix(J.g, L, img, t, m);
    ViewSameChain(J.g, Layout(map[t := L.chains[t][..m]], map[]), J.L, img, t);
  }

  /** While the entry still is the old one, the image reads as the old file with the stored bytes. */
  lemma OldEntryReads(J: Job, t: nat, fat: seq<u16>, L: Layout, disk: seq<Sector>, w: nat, img: seq<Sector>)
    requires JobOk(J) && Writing(J, t, fat, L, disk, w)
    requires Partway(J, t, L, fat, J.Entry0(), img) && View(J.g, L, img, t) == View(J.g, L, disk, t)
    ensures J.Size() <= |J.After(w)|
    ensures ReadDisk(J.g, img, J.First(), J.Size()) == J.After(w)[..J.Size()] && Covers(J.g, img, J.First(), J.Size())
  {
    hide Covers, ReadDisk;
    JobFile(J);
    AfterAt(J, w);
    if J.First() == 0 {
      ReadNothing(J.g, img);
    } else {
      LinksOnDisk(J, t, L, fat, J.Entry0(), img, t);
      ReadDiskIsContent(J.g, J.fat, J.L, img, t, J.Size());
      OldViewKept(J, t, L, img);
      ClustersBound(J.g, J.Size(), |J.Chain()|);
      PrefixReads(View(J.g, J.L, img, t), View(J.g, L, disk, t), J.After(w), J.Size());
    }
  }

  lemma PrefixReads(v: seq<Sector>, v': seq<Sector>, b: seq<byte>, n: nat)
    requires v <= v' && n <= 512 * |v| && n <= |b| <= 512 * |v'| && Flat(v')[..|b|] == b
    ensures Flat(v)[..n] == b[..n]
  {
    FlatPrefix(v', |v|);
    assert v'[..|v|] == v;
    assert Flat(v)[..n] == Flat(v')[..512 * |v|][..n] == Flat(v')[..n] == Flat(v')[..|b|][..n];
  }

  /** Any image that shows the data state disk, a FAT between the old and the new one and the old
      entry is safe. Data writes and FAT flushes produce only such images. */
  lemma DataImageIsSafe(J: Job, t: nat, fat: seq<u16>, L: Layout, disk: seq<Sector>, w: nat, img: seq<Sector>)
    requires JobOk(J) && Writing(J, t, fat, L, disk, w)
    requires |img| == |disk| && (forall a :: J.g.rootStart <= a < |img| ==> img[a] == disk[a])
    requires |img| >= J.g.fatStart + J.g.fatSectors
    requires forall c :: 0 <= c < |fat| ==> DiskFat(J.g, img)[c] == J.fat[c] || DiskFat(J.g, img)[c] == fat[c]
    ensures CrashSafe(J, w, J.Entry0(), img)
  {
    ViewsAbove(J.g, fat, L, disk, img);
    DataImagePartway(J, t, fat, L, disk, w, img);
    OldEntryReads(J, t, fat, L, disk, w, img);
    JobFile(J);
    PartwayIsSafe(J, t, L, fat, w, J.Entry0(), img);
  }

  lemma DataImagePartway(J: Job, t: nat, fat: seq<u16>, L: Layout, disk: seq<Sector>, w: nat, img: seq<Sector>)
    requires JobOk(J) && Writing(J, t, fat, L, disk, w)
    requires |img| == |disk| && |img| >= J.g.fatStart + J.g.fatSectors
    requires forall o :: View(J.g, L, img, o) == View(J.g, L, disk, o)
    requires forall c :: 0 <= c < |fat| ==> DiskFat(J.g, img)[c] == J.fat[c] || DiskFat(J.g, img)[c] == fat[c]
    ensures Partway(J, t, L, fat, J.Entry0(), img)
  {
    JobFile(J);
    forall o | o != t
      ensures View(J.g, J.L, img, o) == View(J.g, J.L, J.disk, o)
    {
      ViewSameChain(J.g, J.L, L, img, o);
    }
    PutSame(J.Dir(), J.k);
  }

  lemma PutSame(v: seq<Sector>, k: nat)
    requires k / 16 < |v|
    ensures PutSlot(v, k, Slot(v, k)) == v
  {
    var s := v[k / 16];
    SlotInSector(v, k / 16, k % 16);
    assert SetSlot(s, k % 16, Slot(v, k)) == s;
  }

  /** Two disks that agree from the root directory up show the same objects. */
  lemma ViewsAbove(g: Geo, fat: seq<u16>, L: Layout, disk: seq<Sector>, img: seq<Sector>)
    requires LayoutOk(g, fat, L)
    requires |img| == |disk| && (forall a :: g.rootStart <= a < |img| ==> img[a] == disk[a])
    ensures forall o :: View(g, L, img, o) == View(g, L, disk, o)
  {
    forall o
      ensures View(g, L, img, o) == View(g, L, disk, o)
    {
      forall j | 0 <= j < Span(g, L, o)
        ensures View(g, L, img, o)[j] == View(g, L, disk, o)[j]
      {
        LbaLocate(g, fat, L, o, j);
      }
    }
  }

  // ---- committing the entry ---------------------------------------------------------------------

  ghost function HomeAt(J: Job, t: nat): Tree { J.T.(home := J.T.home[t := (J.d, J.k)]) }

  /** disk shows the job's volume with chains L and entry e in its slot; nothing is said about the
      bytes of object t. */
  ghost predicate Reslotted(J: Job, t: nat, L: Layout, e: Entry, disk: seq<Sector>) {
    && SameChains(J, t, L) && J.k / 16 < |J.Dir()|
    && (forall o :: o != t && o != J.d ==> View(J.g, L, disk, o) == View(J.g, J.L, J.disk, o))
    && View(J.g, L, disk, J.d) == PutSlot(J.Dir(), J.k, e)
  }

  /** An entry that does not lead to t stays good when t's chain and home change. */
  lemma EntryKept(g: Geo, L: Layout, L': Layout, T: Tree, d: nat, k: nat, x: Entry, t: nat, h: (nat, nat))
    requires EntryOk(g, L, T, d, k, x)
    requires forall o :: o != t && o in L.chains ==> o in L'.chains && L'.chains[o] == L.chains[o]
    requires IsLive(x) && (d == 0 || 2 <= k) ==> FirstOf(x) != t
    ensures EntryOk(g, L', T.(home := T.home[t := h]), d, k, x)
  {
  }

  lemma EntryReplaced(g: Geo, L: Layout, L': Layout, T: Tree, d: nat, k: nat, x: Entry, e: Entry)
    requires EntryOk(g, L, T, d, k, x) && IsLive(x) && !IsDir(x) && (d == 0 || 2 <= k)
    requires NameOf(e) == NameOf(x) && e[11] == x[11]
    requires FirstOf(e) != 0 && FirstOf(e) in L'.chains && FirstOf(e) !in T.parent
    requires SizeOf(e) > 0 && |L'.chains[FirstOf(e)]| == Clusters(g, SizeOf(e))
    ensures EntryOk(g, L', T.(home := T.home[FirstOf(e) := (d, k)]), d, k, e)
  {
    assert e[0] == e[..11][0] == x[..11][0] == x[0];
  }

  lemma CommitEntry(J: Job, t: nat, L: Layout, e: Entry, disk: seq<Sector>, d: nat, k: nat)
    requires JobTree(J) && Reslotted(J, t, L, e, disk)
    requires NameOf(e) == NameOf(J.Entry0()) && e[11] == J.Entry0()[11]
    requires FirstOf(e) == t && SizeOf(e) > 0 && |L.chains[t]| == Clusters(J.g, SizeOf(e))
    requires IsDirectory(J.T, d) && k < 16 * |View(J.g, L, disk, d)|
    ensures EntryOk(J.g, L, HomeAt(J, t), d, k, Slot(View(J.g, L, disk, d), k))
  {
    hide EntryOk;
    SlotPut(J.Dir(), J.k, e);
    CommitView(J, t, L, e, disk, d);
    var x := Slot(View(J.g, J.L, J.disk, d), k);
    assert DirOk(J.g, J.L, J.T, d, View(J.g, J.L, J.disk, d));
    if (d, k) == (J.d, J.k) {
      TargetNotDir(J, t, L);
      EntryReplaced(J.g, J.L, L, J.T, d, k, x, e);
    } else {
      if IsLive(x) && (d == 0 || 2 <= k) { TargetIsAlone(J, t, L, d, k); }
      EntryKept(J.g, J.L, L, J.T, d, k, x, t, (J.d, J.k));
    }
  }

  lemma TargetNotDir(J: Job, t: nat, L: Layout)
    requires JobTree(J) && SameChains(J, t, L)
    ensures t !in J.T.parent && t != J.d && t != 0
  {
    JobFile(J);
    forall d | d in J.T.parent
      ensures d in J.L.chains
    {
      assert LinkedIn(J.g, J.L, J.disk, J.T, d);
    }
  }

  lemma CommitView(J: Job, t: nat, L: Layout, e: Entry, disk: seq<Sector>, d: nat)
    requires JobTree(J) && Reslotted(J, t, L, e, disk) && IsDirectory(J.T, d)
    ensures d != t && |View(J.g, L, disk, d)| == |View(J.g, J.L, J.disk, d)| == Span(J.g, J.L, d)
    ensures d != J.d ==> View(J.g, L, disk, d) == View(J.g, J.L, J.disk, d)
  {
    TargetNotDir(J, t, L);
    SlotPut(J.Dir(), J.k, e);
  }

  lemma CommitTree(J: Job, t: nat, L: Layout, e: Entry, disk: seq<Sector>)
    requires JobTree(J) && Reslotted(J, t, L, e, disk)
    requires NameOf(e) == NameOf(J.Entry0()) && e[11] == J.Entry0()[11]
    requires FirstOf(e) == t && SizeOf(e) > 0 && |L.chains[t]| == Clusters(J.g, SizeOf(e))
    ensures TreeOk(J.g, L, disk, HomeAt(J, t))
  {
    var T := HomeAt(J, t);
    forall d | IsDirectory(T, d)
      ensures DirOk(J.g, L, T, d, View(J.g, L, disk, d))
    {
      assert IsDirectory(J.T, d);
      CommitView(J, t, L, e, disk, d);
      forall k: nat | k < 16 * |View(J.g, L, disk, d)|
        ensures EntryOk(J.g, L, T, d, k, Slot(View(J.g, L, disk, d), k))
      {
        CommitEntry(J, t, L, e, disk, d, k);
      }
    }
    forall d | d in T.parent
      ensures LinkedIn(J.g, L, disk, T, d)
    {
      CommitLink(J, t, L, e, disk, d);
    }
  }

  lemma LinkKept(g: Geo, L: Layout, L': Layout, disk: seq<Sector>, disk': seq<Sector>, T: Tree, d: nat, t: nat,
      h: (nat, nat))
    requires d in T.parent && LinkedIn(g, L, disk, T, d) && d != t && d in L'.chains
    requires |View(g, L, disk, T.parent[d])| <= |View(g, L', disk', T.parent[d])|
    requires Slot(View(g, L', disk', T.parent[d]), T.home[d].1) == Slot(View(g, L, disk, T.parent[d]), T.home[d].1)
    ensures LinkedIn(g, L', disk', T.(home := T.home[t := h]), d)
  {
  }

  lemma CommitLink(J: Job, t: nat, L: Layout, e: Entry, disk: seq<Sector>, d: nat)
    requires JobTree(J) && Reslotted(J, t, L, e, disk) && d in J.T.parent
    ensures LinkedIn(J.g, L, disk, HomeAt(J, t), d)
  {
    assert LinkedIn(J.g, J.L, J.disk, J.T, d);
    var p := J.T.parent[d];
    CommitView(J, t, L, e, disk, p);
    TargetNotDir(J, t, L);
    SlotPut(J.Dir(), J.k, e);
    assert (p, J.T.home[d].1) != (J.d, J.k);
    LinkKept(J.g, J.L, L, J.disk, disk, J.T, d, t, (J.d, J.k));
  }

  // ---- the volume after the write ------------------------------------------------------------------

  ghost function NewEntry(J: Job, t: nat, w: nat): Entry
    requires t < 0x1_0000 && J.pos <= |J.Old()| && w <= |J.data| && |J.After(w)| < 0x1_0000_0000
  {
    Resized(J.Entry0(), t, |J.After(w)|)
  }

  /** The write is complete: the volume is valid, the job's entry describes a file that reads as the
      old one with w bytes stored, and every other entry and file is as before. */
  ghost predicate Written(J: Job, t: nat, fat: seq<u16>, L: Layout, disk: seq<Sector>, w: nat) {
    && DiskOk(J.g, disk) && LayoutOk(J.g, fat, L) && Synced(J.g, disk, fat) && TreeOk(J.g, L, disk, HomeAt(J, t))
    && |disk| == |J.disk| && SameChains(J, t, L) && t < 0x1_0000
    && J.pos <= |J.Old()| && w <= |J.data| && |J.After(w)| < 0x1_0000_0000
    && Slot(View(J.g, L, disk, J.d), J.k) == NewEntry(J, t, w)
    && Content(J.g, L, disk, t, |J.After(w)|) == J.After(w)
    && (forall d, k :: OtherSlot(J, d, k) ==> Slot(View(J.g, L, disk, d), k) == Slot(View(J.g, J.L, J.disk, d), k))
    && (forall o :: o in J.L.chains && o != t && o != J.d ==> View(J.g, L, disk, o) == View(J.g, J.L, J.disk, o))
    && |L.chains[t]| + |FreeSet(J.g, fat)| == |J.Chain()| + |FreeSet(J.g, J.fat)|
  }

  lemma CommitWritten(J: Job, t: nat, fat: seq<u16>, L: Layout, data: seq<Sector>, disk: seq<Sector>, w: nat)
    requires JobOk(J) && Writing(J, t, fat, L, data, w) && w > 0
    requires t < 0x1_0000 && |J.After(w)| < 0x1_0000_0000 && |L.chains[t]| == Clusters(J.g, |J.After(w)|)
    requires |disk| == |data| && Synced(J.g, disk, fat)
    requires View(J.g, L, disk, t) == View(J.g, L, data, t)
    requires Reslotted(J, t, L, NewEntry(J, t, w), disk)
    ensures Written(J, t, fat, L, disk, w)
  {
    var e := NewEntry(J, t, w);
    AfterAt(J, w);
    CommitTree(J, t, L, e, disk);
    SlotPut(J.Dir(), J.k, e);
    TargetNotDir(J, t, L);
    forall d, k | OtherSlot(J, d, k)
      ensures Slot(View(J.g, L, disk, d), k) == Slot(View(J.g, J.L, J.disk, d), k)
    {
      CommitView(J, t, L, e, disk, d);
    }
  }

  lemma ChainLink(g: Geo, fat: seq<u16>, L: Layout, o: nat, i: nat)
    requires LayoutOk(g, fat, L) && o in L.chains && i + 1 < |L.chains[o]|
    ensures L.chains[o][i] < |fat| && fat[L.chains[o][i]] == L.chains[o][i + 1]
  {
    assert LinkOk(g, fat, L, o, i);
  }

  /** Every object but t is as the committed directory shows it, laid out the old way or the new. */
  lemma CommittedPartway(J: Job, t: nat, fat: seq<u16>, L: Layout, e: Entry, disk: seq<Sector>)
    requires JobTree(J) && Reslotted(J, t, L, e, disk) && LayoutOk(J.g, fat, L) && FatGrown(J, t, L, fat) &&
             Synced(J.g, disk, fat)
    requires |disk| == |J.disk|
    ensures |disk| >= J.g.fatStart + J.g.fatSectors && Partway(J, t, L, fat, e, disk) && DiskFat(J.g, disk) == fat
  {
    hide JobTree, LayoutOk, View, Slot, Synced, DiskFat, PutSlot, FatGrown;
    SyncedDiskFat(J.g, disk, fat);
    TargetNotDir(J, t, L);
    forall o | o != t
      ensures View(J.g, J.L, disk, o) == View(J.g, L, disk, o)
    {
      ViewSameChain(J.g, J.L, L, disk, o);
    }
  }

  lemma CommittedReads(J: Job, t: nat, fat: seq<u16>, L: Layout, disk: seq<Sector>, b: seq<byte>)
    requires LayoutOk(J.g, fat, L) && SameChains(J, t, L) && t != 0 && |disk| >= J.g.fatStart + J.g.fatSectors &&
             DiskFat(J.g, disk) == fat
    requires |L.chains[t]| == Clusters(J.g, |b|) && Content(J.g, L, disk, t, |b|) == b
    ensures ReadDisk(J.g, disk, t, |b|) == b && Covers(J.g, disk, t, |b|)
  {
    hide LayoutOk, SameChains, DiskFat, ReadDisk, Content, Clusters, Covers;
    ChainNotEmpty(J, t, fat, L);
    forall i | 0 <= i < |L.chains[t]| - 1
      ensures L.chains[t][i] < |fat| && fat[L.chains[t][i]] == L.chains[t][i + 1]
    {
      ChainLink(J.g, fat, L, t, i);
    }
    ReadDiskIsContent(J.g, fat, L, disk, t, |b|);
  }

  /** The last image, with the new entry and the new FAT on disk, is safe too. */
  lemma FinalImageIsSafe(J: Job, t: nat, fat: seq<u16>, L: Layout, data: seq<Sector>, disk: seq<Sector>, w: nat)
    requires JobOk(J) && Writing(J, t, fat, L, data, w) && w > 0
    requires t < 0x1_0000 && |J.After(w)| < 0x1_0000_0000 && |L.chains[t]| == Clusters(J.g, |J.After(w)|)
    requires |disk| == |data| && Synced(J.g, disk, fat)
    requires View(J.g, L, disk, t) == View(J.g, L, data, t)
    requires Reslotted(J, t, L, NewEntry(J, t, w), disk)
    ensures CrashSafe(J, w, NewEntry(J, t, w), disk)
  {
    hide JobTree, LayoutOk, View, Slot, Synced, CrashSafe, Covers, DiskFat, ReadDisk, Flat, Clusters, FatGrown,
      SameChains, Reslotted, Partway, Splice, FreeSet;
    var e := NewEntry(J, t, w);
    TargetNotDir(J, t, L);
    CommittedPartway(J, t, fat, L, e, disk);
    CommittedReads(J, t, fat, L, disk, J.After(w));
    assert J.After(w)[..SizeOf(e)] == J.After(w);
    PartwayIsSafe(J, t, L, fat, w, e, disk);
  }

  // ---- one step of the data loop ------------------------------------------------------------------

  /** The next byte to store, pos + w, is byte off of the ci-th cluster of t. */
  ghost predicate Cursor(J: Job, t: nat, L: Layout, w: nat, cluster: nat, ci: nat, off: nat) {
    && Standing(J, t, L, cluster, ci)
    && J.pos + w == 512 * At(J.g, ci, 0) + off && off <= 512 * J.g.spc
  }

  lemma SizeFits(J: Job, n: nat)
    requires JobOk(J) && |J.Chain()| <= n
    ensures J.Size() <= 512 * At(J.g, n, 0)
  {
    JobFile(J);
    ClustersBound(J.g, J.Size(), n);
  }

  /** Behind at least one byte of the last cluster it needed, the write has a chain of exactly the
      length its size takes. */
  lemma ChainExact(J: Job, t: nat, L: Layout, w: nat, cluster: nat, ci: nat, off: nat)
    requires JobOk(J) && w <= |J.data| && Cursor(J, t, L, w, cluster, ci, off) && off > 0
    requires J.pos <= |J.Old()|
    ensures |L.chains[t]| == Clusters(J.g, |J.After(w)|)
  {
    hide JobTree, Synced, Clusters, Content, Slot, View, At;
    JobFile(J);
    AfterAt(J, w);
    ExactClusters(J.g, J.Size(), |L.chains[t]|, ci, off, J.pos + w, |J.After(w)|);
  }

  lemma ExactClusters(g: Geo, size: nat, n: nat, ci: nat, off: nat, q: nat, m: nat)
    requires n == if Clusters(g, size) < ci + 1 then ci + 1 else Clusters(g, size)
    requires q == 512 * At(g, ci, 0) + off && 0 < off <= 512 * g.spc
    requires m == if q < size then size else q
    ensures n == Clusters(g, m)
  {
    AtNext(g, ci);
    hide At, Clusters;
    ClustersBound(g, m, n);
    ClustersBound(g, m, n - 1);
    ClustersBound(g, size, n);
    ClustersBound(g, size, n - 1);
    AtMono(g, ci + 1, n);
    AtMono(g, n - 1, ci);
  }

  lemma CursorSector(J: Job, t: nat, fat: seq<u16>, L: Layout, disk: seq<Sector>, w: nat, cluster: nat, ci: nat,
      off: nat)
    requires Writing(J, t, fat, L, disk, w) && Cursor(J, t, L, w, cluster, ci, off) && off < 512 * J.g.spc
    requires DiskOk(J.g, disk) && t != 0
    ensures 2 <= cluster && (J.pos + w) % 512 == off % 512
    ensures (J.pos + w) / 512 < Span(J.g, L, t)
    ensures ClusterLba(J.g, cluster) + off / 512 == Lba(J.g, L, t, (J.pos + w) / 512) < |disk|
    ensures View(J.g, L, disk, t)[(J.pos + w) / 512] == disk[ClusterLba(J.g, cluster) + off / 512]
  {
    hide LayoutOk, View, At, ClusterLba, Lba, Span, Content, Flat, SameChains, FatGrown, FreeSet;
    CursorAt(J.g, fat, L, disk, t, J.pos + w, cluster, ci, off);
  }

  lemma CursorAt(g: Geo, fat: seq<u16>, L: Layout, disk: seq<Sector>, t: nat, q: nat, cluster: nat, ci: nat, off: nat)
    requires LayoutOk(g, fat, L) && DiskOk(g, disk) && t != 0 && t in L.chains && ci < |L.chains[t]|
    requires L.chains[t][ci] == cluster && q == 512 * At(g, ci, 0) + off && off < 512 * g.spc
    ensures 2 <= cluster && q % 512 == off % 512 && q / 512 < Span(g, L, t)
    ensures ClusterLba(g, cluster) + off / 512 == Lba(g, L, t, q / 512) < |disk|
    ensures View(g, L, disk, t)[q / 512] == disk[ClusterLba(g, cluster) + off / 512]
  {
    hide View, At, ClusterLba;
    ByteSector(g, q, ci, off);
    var j := q / 512;
    AtBound(g, j, |L.chains[t]|);
    assert LinkOk(g, fat, L, t, ci);
    hide LayoutOk;
    LbaLocate(g, fat, L, t, j);
    ViewAt(g, L, disk, t, j);
  }

  /** What the sector buffer may hold around the bytes being stored: the sector itself, or zeros in a
      cluster allocated by this write, or anything when the whole sector is overwritten. */
  ghost predicate BufferOk(J: Job, w: nat, n: nat, isNew: bool, was: Sector, base: Sector) {
    && (n < 512 ==> base == if isNew then Zeros(512) else was)
    && (isNew ==> J.Size() <= J.pos + w && (J.pos + w) % 512 == 0)
  }

  lemma WritingTarget(J: Job, t: nat, fat: seq<u16>, L: Layout, disk: seq<Sector>, w: nat)
    requires JobOk(J) && Writing(J, t, fat, L, disk, w)
    ensures t != 0 && t in L.chains && DiskOk(J.g, disk) && w <= |J.data|
    ensures LayoutOk(J.g, fat, L) && SameChains(J, t, L)
  {
    TargetNotDir(J, t, L);
  }

  lemma StoreStep(J: Job, t: nat, fat: seq<u16>, L: Layout, disk: seq<Sector>, w: nat, n: nat, cluster: nat, ci: nat,
      off: nat, isNew: bool, base: Sector)
    requires JobOk(J) && Writing(J, t, fat, L, disk, w) && Cursor(J, t, L, w, cluster, ci, off)
    requires off < 512 * J.g.spc && 0 < n && off % 512 + n <= 512 && w + n <= |J.data|
    requires 2 <= cluster && ClusterLba(J.g, cluster) + off / 512 < |disk|
    requires BufferOk(J, w, n, isNew, disk[ClusterLba(J.g, cluster) + off / 512], base)
    ensures var disk' := disk[ClusterLba(J.g, cluster) + off / 512 := Patch(base, off % 512, J.data[w..w + n])];
            && Writing(J, t, fat, L, disk', w + n)
            && CrashSafe(J, w + n, J.Entry0(), disk')
  {
    hide Writing, JobTree, Synced, CrashSafe;
    JobFile(J);
    WritingTarget(J, t, fat, L, disk, w);
    CursorSector(J, t, fat, L, disk, w, cluster, ci, off);
    StoreBase(J, t, L, disk, w, n, isNew, base);
    WritingStore(J, t, fat, L, disk, w, n, base);
    var disk' := disk[ClusterLba(J.g, cluster) + off / 512 := Patch(base, off % 512, J.data[w..w + n])];
    DataIsSafe(J, t, fat, L, disk', w + n);
  }

  lemma StoreBase(J: Job, t: nat, L: Layout, disk: seq<Sector>, w: nat, n: nat, isNew: bool, base: Sector)
    requires J.pos <= |J.Old()| == J.Size() && w <= |J.data| && (J.pos + w) / 512 < Span(J.g, L, t)
    requires (J.pos + w) % 512 + n <= 512
    requires BufferOk(J, w, n, isNew, View(J.g, L, disk, t)[(J.pos + w) / 512], base)
    ensures BaseOk(J, View(J.g, L, disk, t), w, n, base)
  {
    AfterAt(J, w);
  }

  /** Every state the data loop goes through is a safe image. */
  lemma DataIsSafe(J: Job, t: nat, fat: seq<u16>, L: Layout, disk: seq<Sector>, w: nat)
    requires JobOk(J) && Writing(J, t, fat, L, disk, w)
    ensures CrashSafe(J, w, J.Entry0(), disk)
  {
    FlushIsSafe(J, t, fat, L, disk, w, disk);
  }

  lemma FatMixed(g: Geo, disk: seq<Sector>, fat: seq<u16>, img: seq<Sector>, c: nat)
    requires |img| == |disk| && |disk| >= g.fatStart + g.fatSectors && |fat| == 256 * g.fatSectors && c < |fat|
    requires SectorAt(img, g.fatStart + c / 256) == FatSector(fat, c / 256)
             || SectorAt(img, g.fatStart + c / 256) == SectorAt(disk, g.fatStart + c / 256)
    ensures DiskFat(g, img)[c] == DiskFat(g, disk)[c] || DiskFat(g, img)[c] == fat[c]
  {
    hide FatSector, DiskFat, U16, SectorAt;
    DiskFatAt(g, img, c);
    DiskFatAt(g, disk, c);
    FatSectorEntry(fat, c);
  }

  /** So is every image the FAT flush that follows goes through. */
  lemma FlushIsSafe(J: Job, t: nat, fat: seq<u16>, L: Layout, disk: seq<Sector>, w: nat, img: seq<Sector>)
    requires JobOk(J) && Writing(J, t, fat, L, disk, w)
    requires |img| == |disk| && (forall a :: J.g.rootStart <= a < |img| ==> img[a] == disk[a])
    requires forall s :: 0 <= s < J.g.fatSectors ==>
               SectorAt(img, J.g.fatStart + s) == FatSector(fat, s) ||
                 SectorAt(img, J.g.fatStart + s) == SectorAt(disk, J.g.fatStart + s)
    ensures CrashSafe(J, w, J.Entry0(), img)
  {
    hide JobTree, Synced, Writing, CrashSafe, DiskFat, FatSector, SectorAt, View;
    WritingDisk(J, t, fat, L, disk, w);
    JobLayout(J);
    SyncedDiskFat(J.g, J.disk, J.fat);
    forall c | 0 <= c < |fat|
      ensures DiskFat(J.g, img)[c] == J.fat[c] || DiskFat(J.g, img)[c] == fat[c]
    {
      assert SectorAt(disk, J.g.fatStart + c / 256) == SectorAt(J.disk, J.g.fatStart + c / 256);
      FatMixed(J.g, J.disk, fat, img, c);
    }
    DataImageIsSafe(J, t, fat, L, disk, w, img);
  }

  lemma WritingDisk(J: Job, t: nat, fat: seq<u16>, L: Layout, disk: seq<Sector>, w: nat)
    requires Writing(J, t, fat, L, disk, w)
    ensures |disk| == |J.disk| && |fat| == 256 * J.g.fatSectors
    ensures forall a :: 0 <= a < J.g.rootStart ==> SectorAt(disk, a) == SectorAt(J.disk, a)
  {
  }

  // ---- trails of images -----------------------------------------------------------------------------

  /** A cut at img leaves the old entry and some prefix of at most w of the job's bytes stored. */
  ghost predicate SafeUpTo(J: Job, w: nat, img: seq<Sector>) {
    exists j: nat :: j <= w && CrashSafe(J, j, J.Entry0(), img)
  }

  ghost predicate TrailSafe(J: Job, w: nat, trail: seq<seq<Sector>>, n: nat) {
    forall i :: n <= i < |trail| ==> SafeUpTo(J, w, trail[i])
  }

  lemma TrailStart(J: Job, trail: seq<seq<Sector>>)
    ensures TrailSafe(J, 0, trail, |trail|)
  {
  }

  lemma TrailExtend(J: Job, w: nat, w': nat, trail: seq<seq<Sector>>, n: nat, img: seq<Sector>)
    requires TrailSafe(J, w, trail, n) && w <= w' && CrashSafe(J, w', J.Entry0(), img)
    ensures TrailSafe(J, w', trail + [img], n)
  {
    hide CrashSafe;
    var trail' := trail + [img];
    forall i | n <= i < |trail'|
      ensures SafeUpTo(J, w', trail'[i])
    {
      if i < |trail| {
        assert SafeUpTo(J, w, trail[i]);
        var j: nat :| j <= w && CrashSafe(J, j, J.Entry0(), trail[i]);
        assert CrashSafe(J, j, J.Entry0(), trail'[i]);
      }
    }
  }

  // ---- commit ---------------------------------------------------------------------------------------

  /** Without growth the FAT on disk is still the cached one. */
  lemma SyncedKept(J: Job, t: nat, L: Layout, disk: seq<Sector>, w: nat)
    requires JobOk(J) && Writing(J, t, J.fat, L, disk, w)
    ensures Synced(J.g, disk, J.fat)
  {
    forall f, s | 0 <= f < J.g.numFats && 0 <= s < J.g.fatSectors
      ensures SectorAt(disk, FatLba(J.g, f, s)) == FatSector(J.fat, s)
    {
      FatLbaBound(J.g, J.disk, f, s);
      assert SectorAt(J.disk, FatLba(J.g, f, s)) == FatSector(J.fat, s);
    }
  }

  /** The directory as the commit finds it, after the data and the FAT. */
  lemma DirBeforeCommit(J: Job, t: nat, fat: seq<u16>, L: Layout, data: seq<Sector>, disk: seq<Sector>, w: nat)
    requires JobOk(J) && Writing(J, t, fat, L, data, w)
    requires |disk| == |data| && (forall a :: J.g.rootStart <= a < |disk| ==> disk[a] == data[a])
    ensures View(J.g, L, disk, J.d) == J.Dir() && (J.d == 0 || J.d in L.chains)
    ensures forall o :: View(J.g, L, disk, o) == View(J.g, L, data, o)
  {
    ViewsAbove(J.g, fat, L, data, disk);
    TargetNotDir(J, t, L);
    if J.d != 0 { assert LinkedIn(J.g, J.L, J.disk, J.T, J.d); }
  }

  /** Writing entry e into the job's slot. */
  lemma CommitSlot(J: Job, t: nat, fat: seq<u16>, L: Layout, data: seq<Sector>, disk: seq<Sector>, w: nat, e: Entry)
    requires JobOk(J) && Writing(J, t, fat, L, data, w)
    requires |disk| == |data| && (forall a :: J.g.rootStart <= a < |disk| ==> disk[a] == data[a])
    requires J.k / 16 < |J.Dir()| && Lba(J.g, L, J.d, J.k / 16) < |disk|
    ensures var disk' := disk[Lba(J.g, L, J.d, J.k / 16) := SetSlot(J.Dir()[J.k / 16], J.k % 16, e)];
            Reslotted(J, t, L, e, disk') && View(J.g, L, disk', t) == View(J.g, L, data, t)
  {
    hide JobTree, Synced, LayoutOk, View, Slot, Lba, SetSlot, FatGrown, FreeSet, Flat, Content, SectorAt;
    JobLayout(J);
    WritingDisk(J, t, fat, L, data, w);
    DirBeforeCommit(J, t, fat, L, data, disk, w);
    TargetNotDir(J, t, L);
    ViewWrite(J.g, fat, L, disk, J.d, J.k / 16, SetSlot(J.Dir()[J.k / 16], J.k % 16, e));
  }

  /** When size and first cluster stay, the old entry already is the new one. */
  lemma CommitNothing(J: Job, t: nat, fat: seq<u16>, L: Layout, data: seq<Sector>, disk: seq<Sector>, w: nat)
    requires JobOk(J) && Writing(J, t, fat, L, data, w)
    requires |disk| == |data| && (forall a :: J.g.rootStart <= a < |disk| ==> disk[a] == data[a])
    requires t == J.First() && |J.After(w)| == J.Size()
    ensures NewEntry(J, t, w) == J.Entry0() && Reslotted(J, t, L, J.Entry0(), disk)
    ensures View(J.g, L, disk, t) == View(J.g, L, data, t)
  {
    DirBeforeCommit(J, t, fat, L, data, disk, w);
    TargetNotDir(J, t, L);
    ResizedSame(J.Entry0());
    PutSame(J.Dir(), J.k);
  }

  /** The commit does not touch the FAT copies. */
  lemma SyncedAbove(g: Geo, disk: seq<Sector>, fat: seq<u16>, a: nat, s: Sector)
    requires Synced(g, disk, fat) && g.rootStart <= a < |disk|
    ensures Synced(g, disk[a := s], fat)
  {
    forall f, i | 0 <= f < g.numFats && 0 <= i < g.fatSectors
      ensures SectorAt(disk[a := s], FatLba(g, f, i)) == FatSector(fat, i)
    {
      FatLbaBound(g, disk, f, i);
      assert SectorAt(disk, FatLba(g, f, i)) == FatSector(fat, i);
    }
  }

  // ---- how much fits ---------------------------------------------------------------------------------

  /** Bytes from pos to the end of the last cluster the file could have if it took every free one. */
  ghost function Room(J: Job): int {
    512 * At(J.g, |J.Chain()| + |FreeSet(J.g, J.fat)|, 0) - J.pos
  }

  /** The room is as much as the clusters the file has and the free ones can hold from pos on. */
  lemma RoomIs(J: Job, w: nat)
    ensures w <= Room(J) <==> Clusters(J.g, J.pos + w) <= |J.Chain()| + |FreeSet(J.g, J.fat)|
  {
    hide View, Slot, FreeSet, Clusters, At;
    ClustersBound(J.g, J.pos + w, |J.Chain()| + |FreeSet(J.g, J.fat)|);
  }

  lemma RoomBound(J: Job, t: nat, fat: seq<u16>, L: Layout, disk: seq<Sector>, w: nat)
    requires JobOk(J) && Writing(J, t, fat, L, disk, w)
    ensures w <= Room(J)
    ensures FreeSet(J.g, fat) == {} && J.pos + w == 512 * At(J.g, |L.chains[t]|, 0) ==> w == Room(J)
  {
    hide JobTree, Synced;
    AfterAt(J, w);
    TargetNotDir(J, t, L);
    AtMono(J.g, |L.chains[t]|, |J.Chain()| + |FreeSet(J.g, J.fat)|);
  }

  lemma RoomNonneg(J: Job)
    requires JobOk(J)
    ensures Room(J) >= 0
  {
    hide JobTree, Synced, View, Slot, Content, FreeSet;
    JobFile(J);
    SizeFits(J, |J.Chain()| + |FreeSet(J.g, J.fat)|);
  }

  lemma RoomNone(J: Job)
    requires FreeSet(J.g, J.fat) == {} && J.pos == 512 * At(J.g, |J.Chain()|, 0)
    ensures Room(J) == 0
  {
  }

  lemma TargetIsShort(J: Job, t: nat, fat: seq<u16>, L: Layout, disk: seq<Sector>, w: nat)
    requires JobOk(J) && Writing(J, t, fat, L, disk, w)
    ensures t < 0x1_0000 && |J.After(w)| < 0x1_0000_0000
    ensures |J.After(w)| == if J.pos + w < J.Size() then J.Size() else J.pos + w
  {
    assert LinkOk(J.g, fat, L, t, 0);
    AfterAt(J, w);
    JobFile(J);
  }

  lemma WrittenIsValid(J: Job, t: nat, fat: seq<u16>, L: Layout, disk: seq<Sector>, w: nat)
    requires Written(J, t, fat, L, disk, w)
    ensures LayoutOk(J.g, fat, L) && Synced(J.g, disk, fat) && TreeOk(J.g, L, disk, HomeAt(J, t))
    ensures t < 0x1_0000 && J.pos <= |J.Old()| && w <= |J.data| && |J.After(w)| < 0x1_0000_0000
  {
  }

  /** What a read of the file finds after the write. */
  lemma ReadBack(J: Job, t: nat, fat: seq<u16>, L: Layout, disk: seq<Sector>, w: nat, p: nat, n: nat)
    requires Written(J, t, fat, L, disk, w) && t != 0 && p + n <= |J.After(w)|
    ensures p + n <= |Flat(View(J.g, L, disk, t))|
    ensures Flat(View(J.g, L, disk, t))[p..p + n] == J.After(w)[p..p + n]
  {
    hide TreeOk, LayoutOk, Synced, View, Slot, FreeSet, SameChains, Splice, Flat;
    var b, a := Flat(View(J.g, L, disk, t)), J.After(w);
    assert Content(J.g, L, disk, t, |a|) == a;
    PrefixSlice(b, a, p, n);
  }

  lemma PrefixSlice(b: seq<byte>, a: seq<byte>, p: nat, n: nat)
    requires p + n <= |a| && a == if |a| <= |b| then b[..|a|] else b
    ensures p + n <= |b| && b[p..p + n] == a[p..p + n]
  {
    assert a == b[..|a|];
    assert forall i :: p <= i < p + n ==> a[i] == b[i];
  }
}
