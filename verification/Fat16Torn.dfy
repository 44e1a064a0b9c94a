/** What a power cut leaves of a made file or directory. The entry is on disk before the FAT is, so some images show
    neither the old volume nor the new one; the clusters say exactly which. */
module Fat16Torn {
  import opened Bytes
  import opened Fat16Layout
  import opened Fat16Image
  import opened Fat16Driver
  import opened Fat16Dir
  import opened Fat16Insert
  import opened Fat16Cuts
  import opened Fat16DirOps
  import opened Fat16Create
  import opened Fat16Free
  import opened Fat16Write
  import opened Fat16Replace

  /** fat has the links of L but for those behind the clusters in missing. */
  ghost predicate Lacks(fat: seq<u16>, L: Layout, missing: set<nat>) {
    && (forall o, j: nat :: o in L.chains && j < |L.chains[o]| ==>
          (HasLink(fat, L.chains[o], j) <==> L.chains[o][j] !in missing))
    && forall x :: x in missing ==> !Unowned(L, x)
  }

  /** An image shows the new volume exactly when the sectors of all missing links are written. */
  lemma NewShown(g: Geo, fat0: seq<u16>, L0: Layout, disk0: seq<Sector>, fat: seq<u16>, L: Layout, disk: seq<Sector>,
      trail: seq<seq<Sector>>, n0: nat, at: nat, i: nat, missing: set<nat>)
    requires Synced(g, disk0, fat0) && LayoutOk(g, fat, L) && Cuts(g, L0, disk0, trail, n0, at, fat, disk)
    requires n0 <= i < |trail| && Lacks(fat0, L, missing) && missing != {}
    ensures Shown(g, L, disk, trail[i]) <==> forall x :: x in missing ==> x / 256 < i - at
  {
    hide LayoutOk, Synced, View, FlushCut, HasLink, ChainThere, DiskFat;
    if i < at {
      var x :| x in missing;
      var o, j: nat :| o in L.chains && j < |L.chains[o]| && L.chains[o][j] == x;
      LayoutLinks(g, fat, L, o, j);
      NotYet(g, disk0, fat0, trail[i], L.chains[o], j);
      assert x / 256 >= 0;
    } else {
      ShowsNew(g, fat0, L0, disk0, fat, L, disk, trail, n0, at, i);
      if forall x :: x in missing ==> x / 256 < i - at {
        assert Shown(g, L, disk, trail[i]);
      } else {
        var x :| x in missing && x / 256 >= i - at;
        var o, j: nat :| o in L.chains && j < |L.chains[o]| && L.chains[o][j] == x;
      }
    }
  }

  lemma NotYet(g: Geo, disk0: seq<Sector>, fat0: seq<u16>, img: seq<Sector>, chain: seq<nat>, j: nat)
    requires Synced(g, disk0, fat0) && SameFats(g, disk0, img) && j < |chain| && chain[j] < 256 * g.fatSectors
    requires !HasLink(fat0, chain, j)
    ensures |img| >= g.fatStart + g.fatSectors && !ChainThere(g, img, chain)
  {
    hide Synced, SameFats, DiskFat;
    SameFatsFat(g, disk0, fat0, img);
    assert !LinkThere(g, img, chain, j);
  }

  /** It shows the old volume exactly when none of those that are written over is. */
  lemma OldShown(g: Geo, fat0: seq<u16>, L0: Layout, disk0: seq<Sector>, fat: seq<u16>, disk: seq<Sector>,
      trail: seq<seq<Sector>>, n0: nat, at: nat, i: nat, missing: set<nat>)
    requires Synced(g, disk0, fat0) && LayoutOk(g, fat0, L0) && Cuts(g, L0, disk0, trail, n0, at, fat, disk)
    requires n0 <= i < |trail| && Lacks(fat, L0, missing) && Quiet(g, L0, disk0, trail[at])
    ensures Shown(g, L0, disk0, trail[i]) <==> forall x :: x in missing ==> i - at <= x / 256
  {
    hide LayoutOk, Synced, View, FlushCut, HasLink, ChainThere, DiskFat, SameFats, Shown;
    if i < at {
      QuietShown(g, fat0, L0, disk0, trail[i]);
      assert forall x :: x in missing ==> x / 256 >= 0;
    } else {
      ShowsOld(g, fat0, L0, disk0, fat, disk, trail, n0, at, i);
      SameAboveViews(g, fat0, L0, trail[at], disk);
      if !forall x :: x in missing ==> i - at <= x / 256 {
        var x :| x in missing && x / 256 < i - at;
        var o, j: nat :| o in L0.chains && j < |L0.chains[o]| && L0.chains[o][j] == x;
      }
    }
  }

  /** The last cluster of a chain is in it once, and a free cluster is in none. */
  lemma LastOnce(g: Geo, fat0: seq<u16>, L0: Layout, fat: seq<u16>, L: Layout, d: nat, last: nat, c: nat, o: nat,
      j: nat)
    requires LayoutOk(g, fat0, L0) && GrewBy(fat0, L0, fat, L, d, last, c) && o in L0.chains && j < |L0.chains[o]|
    ensures L0.chains[o][j] != c && (L0.chains[o][j] == last <==> o == d && j == |L0.chains[d]| - 1)
    ensures HasLink(fat0, L0.chains[o], j)
  {
    FreeIsUnowned(g, fat0, L0, c);
    assert LinkOk(g, fat0, L0, o, j) && LinkOk(g, fat0, L0, d, |L0.chains[d]| - 1);
  }

  lemma GrewNew(g: Geo, fat0: seq<u16>, L0: Layout, fat: seq<u16>, L: Layout, d: nat, last: nat, c: nat, o: nat, j: nat)
    requires LayoutOk(g, fat0, L0) && GrewBy(fat0, L0, fat, L, d, last, c) && o in L.chains && j < |L.chains[o]|
    ensures HasLink(fat0, L.chains[o], j) <==> L.chains[o][j] != last && L.chains[o][j] != c
  {
    hide LayoutOk;
    if j < |L0.chains[o]| { LastOnce(g, fat0, L0, fat, L, d, last, c, o, j); }
  }

  lemma GrewOld(g: Geo, fat0: seq<u16>, L0: Layout, fat: seq<u16>, L: Layout, d: nat, last: nat, c: nat, o: nat, j: nat)
    requires LayoutOk(g, fat0, L0) && GrewBy(fat0, L0, fat, L, d, last, c) && o in L0.chains && j < |L0.chains[o]|
    ensures HasLink(fat, L0.chains[o], j) <==> L0.chains[o][j] != last
  {
    hide LayoutOk;
    LastOnce(g, fat0, L0, fat, L, d, last, c, o, j);
  }

  lemma AllLinks(g: Geo, fat: seq<u16>, L: Layout)
    requires LayoutOk(g, fat, L)
    ensures Lacks(fat, L, {})
  {
    hide LayoutOk, HasLink;
    forall o, j: nat | o in L.chains && j < |L.chains[o]|
      ensures HasLink(fat, L.chains[o], j)
    {
      LayoutLinks(g, fat, L, o, j);
    }
  }

  /** The image of an entry put in a free slot is the new volume. */
  lemma AllShown(g: Geo, fat0: seq<u16>, L0: Layout, disk0: seq<Sector>, disk: seq<Sector>, trail: seq<seq<Sector>>,
      n0: nat, at: nat)
    requires LayoutOk(g, fat0, L0) && Synced(g, disk0, fat0) && Cuts(g, L0, disk0, trail, n0, at, fat0, disk)
    ensures Shown(g, L0, disk, trail[at])
  {
    hide LayoutOk, Synced, Shown, HasLink, View;
    AllLinks(g, fat0, L0);
    ShowsNew(g, fat0, L0, disk0, fat0, L0, disk, trail, n0, at, at);
  }

  /** A directory that grew by c: the links of last and c are new, that of last is written over. */
  lemma GrewLinks(g: Geo, fat0: seq<u16>, L0: Layout, fat: seq<u16>, L: Layout, d: nat, last: nat, c: nat)
    requires LayoutOk(g, fat0, L0) && GrewBy(fat0, L0, fat, L, d, last, c)
    ensures Lacks(fat0, L, {last, c}) && Lacks(fat, L0, {last})
  {
    hide LayoutOk, HasLink;
    forall o, j: nat | o in L.chains && j < |L.chains[o]|
      ensures HasLink(fat0, L.chains[o], j) <==> L.chains[o][j] !in {last, c}
    {
      GrewNew(g, fat0, L0, fat, L, d, last, c, o, j);
    }
    forall o, j: nat | o in L0.chains && j < |L0.chains[o]|
      ensures HasLink(fat, L0.chains[o], j) <==> L0.chains[o][j] !in {last}
    {
      GrewOld(g, fat0, L0, fat, L, d, last, c, o, j);
    }
    var n := |L0.chains[d]|;
    assert L.chains[d][n] == c && L.chains[d][n - 1] == last && L0.chains[d][n - 1] == last;
  }

  /** The last cluster of directory d. */
  ghost function LastOf(L: Layout, d: nat): nat
    requires d in L.chains && L.chains[d] != []
  {
    L.chains[d][|L.chains[d]| - 1]
  }

  ghost predicate HasChain(L: Layout, d: nat) { d in L.chains && L.chains[d] != [] }

  /** A power cut while an entry is put into directory d. With a free slot there is one write and one image, the
      new volume. A full directory grows by a cluster: an image shows the old volume until the sector of the FAT
      with the last cluster is written, and the new one from when that of the new cluster is, too. */
  lemma InsertTorn(g: Geo, fat0: seq<u16>, L0: Layout, disk0: seq<Sector>, trail0: seq<seq<Sector>>, fat: seq<u16>,
      L: Layout, disk: seq<Sector>, trail: seq<seq<Sector>>, d: nat, at: nat, i: nat)
    requires LayoutOk(g, fat0, L0) && Synced(g, disk0, fat0) && LayoutOk(g, fat, L) && |trail0| <= i < |trail|
    requires InsertCuts(g, fat0, L0, disk0, trail0, fat, L, disk, trail, d, at)
    ensures Grown(View(g, L0, disk0, d)) == 0 ==> Shown(g, L, disk, trail[i])
    ensures Grown(View(g, L0, disk0, d)) != 0 ==>
              && HasChain(L0, d) && HasChain(L, d)
              && (Shown(g, L0, disk0, trail[i]) <==> i - at <= LastOf(L0, d) / 256)
              && (Shown(g, L, disk, trail[i]) <==> LastOf(L0, d) / 256 < i - at && LastOf(L, d) / 256 < i - at)
  {
    hide LayoutOk, Synced, View, Cuts, Quiet, Shown, Grown, Lacks;
    if Grown(View(g, L0, disk0, d)) == 0 {
      AllShown(g, fat0, L0, disk0, disk, trail, |trail0|, at);
    } else {
      var last: nat, c: nat :| GrewBy(fat0, L0, fat, L, d, last, c);
      GrewLinks(g, fat0, L0, fat, L, d, last, c);
      OldShown(g, fat0, L0, disk0, fat, disk, trail, |trail0|, at, i, {last});
      NewShown(g, fat0, L0, disk0, fat, L, disk, trail, |trail0|, at, i, {last, c});
      assert last in {last} && last in {last, c} && c in {last, c};
    }
  }

  /** No image shows neither volume: exactly when nothing grows, or the new cluster is not in a later sector of
      the FAT. */
  lemma InsertSafe(g: Geo, fat0: seq<u16>, L0: Layout, disk0: seq<Sector>, trail0: seq<seq<Sector>>, fat: seq<u16>,
      L: Layout, disk: seq<Sector>, trail: seq<seq<Sector>>, d: nat, at: nat)
    requires LayoutOk(g, fat0, L0) && Synced(g, disk0, fat0) && LayoutOk(g, fat, L)
    requires InsertCuts(g, fat0, L0, disk0, trail0, fat, L, disk, trail, d, at)
    ensures Grown(View(g, L0, disk0, d)) != 0 ==> HasChain(L0, d) && HasChain(L, d)
    ensures (forall i :: |trail0| <= i < |trail| ==> ShowsOne(g, L0, disk0, L, disk, trail[i])) <==>
            Grown(View(g, L0, disk0, d)) == 0 || LastOf(L, d) / 256 <= LastOf(L0, d) / 256
  {
    hide LayoutOk, Synced, View, Cuts, Quiet, Shown, Grown, Lacks, GrewBy;
    forall i: nat | |trail0| <= i < |trail| {
      InsertTorn(g, fat0, L0, disk0, trail0, fat, L, disk, trail, d, at, i);
    }
    CutsBegin(g, L0, disk0, trail, |trail0|, at, fat, disk);
    if Grown(View(g, L0, disk0, d)) != 0 {
      InsertTorn(g, fat0, L0, disk0, trail0, fat, L, disk, trail, d, at, at);
      LastInFat(g, fat0, L0, d);
      var i := at + LastOf(L0, d) / 256 + 1;
      InsertTorn(g, fat0, L0, disk0, trail0, fat, L, disk, trail, d, at, i);
      assert LastOf(L0, d) / 256 < LastOf(L, d) / 256 ==> !ShowsOne(g, L0, disk0, L, disk, trail[i]);
    }
  }

  ghost predicate ShowsOne(g: Geo, L0: Layout, disk0: seq<Sector>, L: Layout, disk: seq<Sector>, img: seq<Sector>) {
    Shown(g, L0, disk0, img) || Shown(g, L, disk, img)
  }

  lemma CutsBegin(g: Geo, L0: Layout, disk0: seq<Sector>, trail: seq<seq<Sector>>, n0: nat, at: nat, fat: seq<u16>,
      disk: seq<Sector>)
    requires Cuts(g, L0, disk0, trail, n0, at, fat, disk)
    ensures n0 <= at < |trail|
  {
  }

  lemma LastInFat(g: Geo, fat: seq<u16>, L: Layout, d: nat)
    requires LayoutOk(g, fat, L) && HasChain(L, d)
    ensures LastOf(L, d) / 256 < g.fatSectors
  {
    assert LinkOk(g, fat, L, d, |L.chains[d]| - 1);
  }

  /** Before c is taken, fat0 has no link of it. */
  lemma OneMore(g: Geo, fat0: seq<u16>, fat: seq<u16>, L: Layout, c: nat, missing: set<nat>)
    requires LayoutOk(g, fat, L) && c < |fat0| && fat0[c] == 0 && !Unowned(L, c)
    requires Lacks(fat0[c := END], L, missing)
    ensures Lacks(fat0, L, missing + {c})
  {
    hide LayoutOk;
    forall o, j: nat | o in L.chains && j < |L.chains[o]|
      ensures HasLink(fat0, L.chains[o], j) <==> L.chains[o][j] !in missing + {c}
    {
      assert HasLink(fat0[c := END], L.chains[o], j) <==> L.chains[o][j] !in missing;
      if j + 1 < |L.chains[o]| { LinkAbove(g, fat, L, o, j + 1); }
    }
  }

  lemma LinkAbove(g: Geo, fat: seq<u16>, L: Layout, o: nat, j: nat)
    requires LayoutOk(g, fat, L) && o in L.chains && j < |L.chains[o]|
    ensures 2 <= L.chains[o][j]
  {
    assert LinkOk(g, fat, L, o, j);
  }

  /** Leaving out the chain of c. */
  lemma OneLess(fat: seq<u16>, L0: Layout, c: nat, missing: set<nat>)
    requires Lacks(fat, Start(L0, c), missing) && c !in L0.chains && c !in missing
    ensures Lacks(fat, L0, missing)
  {
    hide HasLink;
    var L1 := Start(L0, c);
    forall o, j: nat | o in L0.chains && j < |L0.chains[o]|
      ensures HasLink(fat, L0.chains[o], j) <==> L0.chains[o][j] !in missing
    {
      assert o in L1.chains && L1.chains[o] == L0.chains[o];
    }
    forall x | x in missing
      ensures !Unowned(L0, x)
    {
      var o, j: nat :| o in L1.chains && j < |L1.chains[o]| && L1.chains[o][j] == x;
      assert o in L0.chains && L0.chains[o][j] == x;
    }
  }

  /** A power cut while directory c is made in d. With a free slot in d the entry is on disk from image at on, the
      FAT not before its sector with c is written: the images between show neither volume. Without one, d grows
      first, and they are those between the sector of its last cluster and the last one of its new clusters. */
  lemma MkdirTorn(g: Geo, fat0: seq<u16>, L0: Layout, disk0: seq<Sector>, trail0: seq<seq<Sector>>, c: nat,
      fat: seq<u16>, L: Layout, disk: seq<Sector>, trail: seq<seq<Sector>>, d: nat, at: nat, i: nat)
    requires LayoutOk(g, fat0, L0) && Synced(g, disk0, fat0) && LayoutOk(g, fat, L) && |trail0| <= i < |trail|
    requires MadeCuts(g, fat0, L0, disk0, trail0, c, fat, L, disk, trail, d, at)
    ensures Grown(View(g, L0, disk0, d)) == 0 ==>
              && (Shown(g, L, disk, trail[i]) <==> c / 256 < i - at)
              && (Shown(g, L0, disk0, trail[i]) <==>
                    i < at || forall o :: View(g, L0, disk, o) == View(g, L0, disk0, o))
    ensures Grown(View(g, L0, disk0, d)) != 0 ==>
              && HasChain(L0, d) && HasChain(L, d)
              && (Shown(g, L0, disk0, trail[i]) <==> i - at <= LastOf(L0, d) / 256)
              && (Shown(g, L, disk, trail[i]) <==>
                    LastOf(L0, d) / 256 < i - at && LastOf(L, d) / 256 < i - at && c / 256 < i - at)
  {
    hide LayoutOk, Synced, View, Cuts, Quiet, Shown, Grown, Lacks, Unowned, Start;
    var fat1, L1 := fat0[c := END], Start(L0, c);
    FreeIsUnowned(g, fat0, L0, c);
    StartOk(g, fat0, L0, c);
    if Grown(View(g, L0, disk0, d)) == 0 {
      StartTorn(g, fat0, L0, disk0, trail, |trail0|, c, disk, at, i);
    } else {
      var last: nat, c': nat :| GrewBy(fat1, L1, fat, L, d, last, c');
      GrewLinks(g, fat1, L1, fat, L, d, last, c');
      StartChain(g, fat1, L0, fat, L, c, d, last, c');
      OneMore(g, fat0, fat, L, c, {last, c'});
      OneLess(fat, L0, c, {last});
      OldShown(g, fat0, L0, disk0, fat, disk, trail, |trail0|, at, i, {last});
      var missing := {last, c'} + {c};
      NewShown(g, fat0, L0, disk0, fat, L, disk, trail, |trail0|, at, i, missing);
      assert last in {last} && last in missing && c in missing && c' in missing;
    }
  }

  lemma StartChain(g: Geo, fat1: seq<u16>, L0: Layout, fat: seq<u16>, L: Layout, c: nat, d: nat, last: nat, c': nat)
    requires GrewBy(fat1, Start(L0, c), fat, L, d, last, c') && c !in L0.chains && d != c && Unowned(L0, c)
    ensures HasChain(L0, d) && HasChain(L, d) && LastOf(L0, d) == last && LastOf(L, d) == c' && last != c &&
            !Unowned(L, c)
  {
    assert L.chains[c] == [c];
    assert L.chains[c][0] == c;
  }

  lemma StartTorn(g: Geo, fat0: seq<u16>, L0: Layout, disk0: seq<Sector>, trail: seq<seq<Sector>>, n0: nat, c: nat,
      disk: seq<Sector>, at: nat, i: nat)
    requires LayoutOk(g, fat0, L0) && Synced(g, disk0, fat0) && c < |fat0| && fat0[c] == 0 && c !in L0.chains
    requires LayoutOk(g, fat0[c := END], Start(L0, c)) && n0 <= i < |trail|
    requires Cuts(g, L0, disk0, trail, n0, at, fat0[c := END], disk)
    ensures Shown(g, Start(L0, c), disk, trail[i]) <==> c / 256 < i - at
    ensures Shown(g, L0, disk0, trail[i]) <==> i < at || forall o :: View(g, L0, disk, o) == View(g, L0, disk0, o)
  {
    hide LayoutOk, Synced, View, FlushCut, Quiet, Shown, Lacks, HasLink, SameFats;
    var fat, L := fat0[c := END], Start(L0, c);
    AllLinks(g, fat, L);
    assert L.chains[c][0] == c;
    OneMore(g, fat0, fat, L, c, {});
    OneLess(fat, L0, c, {});
    assert c in {} + {c};
    NewShown(g, fat0, L0, disk0, fat, L, disk, trail, n0, at, i, {} + {c});
    if i < at {
      QuietShown(g, fat0, L0, disk0, trail[i]);
    } else {
      NothingLost(g, fat0, L0, disk0, fat, disk, trail, n0, at, i);
    }
  }

  lemma NothingLost(g: Geo, fat0: seq<u16>, L0: Layout, disk0: seq<Sector>, fat: seq<u16>, disk: seq<Sector>,
      trail: seq<seq<Sector>>, n0: nat, at: nat, i: nat)
    requires LayoutOk(g, fat0, L0) && Synced(g, disk0, fat0) && Lacks(fat, L0, {})
    requires Cuts(g, L0, disk0, trail, n0, at, fat, disk) && at <= i < |trail|
    ensures Shown(g, L0, disk0, trail[i]) <==> forall o :: View(g, L0, disk, o) == View(g, L0, disk0, o)
  {
    hide LayoutOk, Synced, Shown, HasLink, View;
    ShowsOld(g, fat0, L0, disk0, fat, disk, trail, n0, at, i);
  }

  /** A made directory is never safe when there is a free slot: image at has a live entry whose first cluster is
      free. When the parent grows it is safe exactly when neither new cluster is in a later sector of the FAT than
      its last one. */
  lemma MkdirSafe(g: Geo, fat0: seq<u16>, L0: Layout, disk0: seq<Sector>, trail0: seq<seq<Sector>>, c: nat,
      fat: seq<u16>, L: Layout, disk: seq<Sector>, trail: seq<seq<Sector>>, d: nat, at: nat, k: nat, e: Entry)
    requires LayoutOk(g, fat0, L0) && Synced(g, disk0, fat0) && LayoutOk(g, fat, L)
    requires MadeCuts(g, fat0, L0, disk0, trail0, c, fat, L, disk, trail, d, at)
    requires Inserted(View(g, L0, disk0, d), View(g, L, disk, d), k, e) && IsLive(e)
    ensures Grown(View(g, L0, disk0, d)) != 0 ==> HasChain(L0, d) && HasChain(L, d)
    ensures (forall i :: |trail0| <= i < |trail| ==> ShowsOne(g, L0, disk0, L, disk, trail[i])) <==>
            && Grown(View(g, L0, disk0, d)) != 0
            && LastOf(L, d) / 256 <= LastOf(L0, d) / 256 && c / 256 <= LastOf(L0, d) / 256
  {
    hide LayoutOk, Synced, View, Cuts, Quiet, Shown, Grown, Lacks, GrewBy, Inserted, IsLive, Start;
    forall i: nat | |trail0| <= i < |trail| {
      MkdirTorn(g, fat0, L0, disk0, trail0, c, fat, L, disk, trail, d, at, i);
    }
    CutsBegin(g, L0, disk0, trail, |trail0|, at, fat, disk);
    MkdirTorn(g, fat0, L0, disk0, trail0, c, fat, L, disk, trail, d, at, at);
    if Grown(View(g, L0, disk0, d)) == 0 {
      EntryShows(g, L0, disk0, c, disk, d, k, e);
      assert c / 256 >= 0;
      assert !ShowsOne(g, L0, disk0, L, disk, trail[at]);
    } else {
      LastInFat(g, fat0, L0, d);
      var i := at + LastOf(L0, d) / 256 + 1;
      MkdirTorn(g, fat0, L0, disk0, trail0, c, fat, L, disk, trail, d, at, i);
      assert LastOf(L0, d) / 256 < LastOf(L, d) / 256 || LastOf(L0, d) / 256 < c / 256 ==>
        !ShowsOne(g, L0, disk0, L, disk, trail[i]);
    }
  }

  /** A live entry in a free slot changes the directory. */
  lemma EntryShows(g: Geo, L0: Layout, disk0: seq<Sector>, c: nat, disk: seq<Sector>, d: nat, k: nat, e: Entry)
    requires Inserted(View(g, L0, disk0, d), View(g, Start(L0, c), disk, d), k, e) && IsLive(e)
    requires c !in L0.chains && c != 0 && d != c && Grown(View(g, L0, disk0, d)) == 0
    ensures View(g, L0, disk, d) != View(g, L0, disk0, d)
  {
    hide View, Slot;
    StartViews(g, L0, disk, c);
  }

  // ---- whole-file replace -------------------------------------------------------------------------------------

  /** Every other chain is there, every other object and every other entry as before. */
  ghost predicate OthersThere(J: Job, img: seq<Sector>) {
    && |img| == |J.disk| && |img| >= J.g.fatStart + J.g.fatSectors
    && (forall o :: o in J.L.chains && o != J.First() ==> OtherThere(J, img, o))
    && forall d, k :: OtherSlot(J, d, k) ==> Slot(View(J.g, J.L, img, d), k) == Slot(View(J.g, J.L, J.disk, d), k)
  }

  ghost predicate OtherThere(J: Job, img: seq<Sector>, o: nat)
    requires o in J.L.chains && |img| >= J.g.fatStart + J.g.fatSectors
  {
    ChainThere(J.g, img, J.L.chains[o]) && (o != J.d ==> View(J.g, J.L, img, o) == View(J.g, J.L, J.disk, o))
  }

  /** While the data is written: the FAT and the directory are the old ones, so the file has its old chain and entry,
      whatever its clusters hold by now. */
  lemma StillOld(J: Job, img: seq<Sector>)
    requires JobOk(J) && Quiet(J.g, Without(J.L, J.First()), J.disk, img)
    ensures OthersThere(J, img) && ChainThere(J.g, img, J.Chain()) && View(J.g, J.L, img, J.d) == J.Dir()
  {
    hide JobTree, LayoutOk, View, Slot, Synced, DiskFat, HasLink, OtherSlot;
    JobFile(J);
    JobLayout(J);
    WithoutOk(J);
    SameFatsFat(J.g, J.disk, J.fat, img);
    if J.First() != 0 { DropViews(J.g, J.L, img, J.First()); }
    forall o | o in J.L.chains
      ensures ChainThere(J.g, img, J.L.chains[o])
    {
      ChainStays(J, img, o);
    }
    forall d, k | OtherSlot(J, d, k)
      ensures View(J.g, J.L, img, d) == View(J.g, J.L, J.disk, d)
    {
      SlotInDir(J, d, k);
    }
  }

  lemma ChainStays(J: Job, img: seq<Sector>, o: nat)
    requires LayoutOk(J.g, J.fat, J.L) && o in J.L.chains
    requires |img| >= J.g.fatStart + J.g.fatSectors && DiskFat(J.g, img) == J.fat
    ensures ChainThere(J.g, img, J.L.chains[o])
  {
    hide LayoutOk, DiskFat;
    forall i: nat | i < |J.L.chains[o]|
      ensures LinkThere(J.g, img, J.L.chains[o], i)
    {
      LayoutLinks(J.g, J.fat, J.L, o, i);
    }
  }

  lemma SlotInDir(J: Job, d: nat, k: nat)
    requires JobTree(J) && OtherSlot(J, d, k)
    ensures d == 0 || (d in J.L.chains && d != J.First())
  {
    hide JobTree;
    DirIsKept(J, d);
  }

  /** The links of the new chain that are not there are among the first n sectors of the FAT. */
  ghost predicate LinksIn(fat0: seq<u16>, L: Layout, t: nat, n: int) {
    t in L.chains ==> forall j: nat :: j < |L.chains[t]| ==> L.chains[t][j] / 256 < n || HasLink(fat0, L.chains[t], j)
  }

  /** A power cut during a replacement. No image touches anything but the file. Before the entry is written the file has
      its old chain and entry; from then on an image shows the new volume exactly when every link of the new chain is
      written or was one of the old FAT. */
  lemma ReplaceTorn(J: Job, t: nat, fat: seq<u16>, L: Layout, disk: seq<Sector>, trail0: seq<seq<Sector>>,
      trail: seq<seq<Sector>>, at: nat, i: nat)
    requires JobOk(J) && Replaced(J, t, fat, L, disk) && ReplaceCuts(J, trail0, fat, disk, trail, at)
    requires |trail0| <= i < |trail|
    ensures OthersThere(J, trail[i])
    ensures i < at ==> ChainThere(J.g, trail[i], J.Chain()) && View(J.g, J.L, trail[i], J.d) == J.Dir()
    ensures at <= i ==> (Shown(J.g, L, disk, trail[i]) <==> LinksIn(J.fat, L, t, i - at))
    ensures at <= i ==> View(J.g, L, trail[i], J.d) == View(J.g, L, disk, J.d)
  {
    hide JobTree, Replaced, Shown, OthersThere, View, Synced, LinksIn, Without, Quiet, SameFats, FlushCut, SameAbove,
      Slot;
    if i < at {
      StillOld(J, trail[i]);
    } else {
      NewOnes(J, t, fat, L, disk, trail0, trail, at, i);
      FlushedOthers(J, t, fat, L, disk, trail0, trail, at, i);
    }
  }

  lemma NewOnes(J: Job, t: nat, fat: seq<u16>, L: Layout, disk: seq<Sector>, trail0: seq<seq<Sector>>,
      trail: seq<seq<Sector>>, at: nat, i: nat)
    requires JobOk(J) && Replaced(J, t, fat, L, disk) && ReplaceCuts(J, trail0, fat, disk, trail, at)
    requires at <= i < |trail|
    ensures Shown(J.g, L, disk, trail[i]) <==> LinksIn(J.fat, L, t, i - at)
  {
    hide JobTree, Shown, View, Synced, Without, Cuts, HasLink, LayoutOk, Slot, TreeOk, FreeSet, Clusters, OtherSlot,
      Content, Resized, TreeWith;
    JobLayout(J);
    ShowsNew(J.g, J.fat, Without(J.L, J.First()), J.disk, fat, L, disk, trail, |trail0|, at, i);
    forall o, j: nat | o in L.chains && o != t && j < |L.chains[o]|
      ensures HasLink(J.fat, L.chains[o], j)
    {
      assert Kept(J, L, disk, o);
      LayoutLinks(J.g, J.fat, J.L, o, j);
    }
  }

  lemma FlushedOthers(J: Job, t: nat, fat: seq<u16>, L: Layout, disk: seq<Sector>, trail0: seq<seq<Sector>>,
      trail: seq<seq<Sector>>, at: nat, i: nat)
    requires JobOk(J) && Replaced(J, t, fat, L, disk) && ReplaceCuts(J, trail0, fat, disk, trail, at)
    requires at <= i < |trail|
    ensures OthersThere(J, trail[i]) && View(J.g, L, trail[i], J.d) == View(J.g, L, disk, J.d)
  {
    hide JobTree, View, Synced, Without, HasLink, LayoutOk, Slot, TreeOk, FreeSet, Clusters, OtherSlot, Quiet, FlushCut,
      Content, Resized, TreeWith, OtherThere, DiskFat;
    var base, img := trail[at], trail[i];
    JobLayout(J);
    SameFatsFat(J.g, J.disk, J.fat, base);
    CutSize(J.g, base, fat, img, i - at);
    SameAboveViews(J.g, fat, L, disk, img);
    forall o | o in J.L.chains && o != J.First()
      ensures OtherThere(J, img, o)
    {
      assert Kept(J, L, disk, o);
      OtherStays(J, fat, L, disk, base, img, i - at, o);
    }
    forall d, k | OtherSlot(J, d, k)
      ensures Slot(View(J.g, J.L, img, d), k) == Slot(View(J.g, J.L, J.disk, d), k)
    {
      SlotInDir(J, d, k);
      assert d != 0 ==> Kept(J, L, disk, d);
      SameLayout(J.g, J.L, L, img, d);
    }
  }

  lemma OtherStays(J: Job, fat: seq<u16>, L: Layout, disk: seq<Sector>, base: seq<Sector>, img: seq<Sector>, n: nat,
      o: nat)
    requires LayoutOk(J.g, J.fat, J.L) && LayoutOk(J.g, fat, L) && o in J.L.chains && Kept(J, L, disk, o)
    requires |base| >= J.g.fatStart + J.g.fatSectors && DiskFat(J.g, base) == J.fat && FlushCut(J.g, base, fat, img, n)
    requires forall x :: View(J.g, L, img, x) == View(J.g, L, disk, x)
    ensures |img| >= J.g.fatStart + J.g.fatSectors && OtherThere(J, img, o)
  {
    hide View, LayoutOk, DiskFat, HasLink, FlushCut;
    CutSize(J.g, base, fat, img, n);
    forall j: nat | j < |L.chains[o]|
      ensures HasLink(fat, L.chains[o], j) && HasLink(J.fat, L.chains[o], j)
    {
      LayoutLinks(J.g, fat, L, o, j);
      LayoutLinks(J.g, J.fat, J.L, o, j);
    }
    CutNewChain(J.g, base, fat, img, n, L.chains[o]);
    SameLayout(J.g, J.L, L, img, o);
  }

  /** Every image from the entry on shows the new volume exactly when the old FAT has the new chain already. */
  lemma ReplaceSafe(J: Job, t: nat, fat: seq<u16>, L: Layout, disk: seq<Sector>, trail0: seq<seq<Sector>>,
      trail: seq<seq<Sector>>, at: nat)
    requires JobOk(J) && Replaced(J, t, fat, L, disk) && ReplaceCuts(J, trail0, fat, disk, trail, at)
    ensures (forall i :: at <= i < |trail| ==> Shown(J.g, L, disk, trail[i])) <==> LinksIn(J.fat, L, t, 0)
  {
    hide JobTree, Replaced, Shown, View, Synced, Without, Quiet, SameFats, FlushCut, SameAbove, HasLink;
    forall i: nat | at <= i < |trail|
      ensures Shown(J.g, L, disk, trail[i]) <==> LinksIn(J.fat, L, t, i - at)
    {
      NewOnes(J, t, fat, L, disk, trail0, trail, at, i);
    }
    if LinksIn(J.fat, L, t, 0) {
      forall i: nat | at <= i < |trail|
        ensures Shown(J.g, L, disk, trail[i])
      {
        assert LinksIn(J.fat, L, t, i - at);
      }
    }
  }
}
