/** Giving a chain back (fat16_free_chain). */
module Fat16Free {
  import opened Bytes
  import opened Fat16Layout
  import opened Fat16Image
  import opened Fat16Driver

  /** fat with the clusters of cs free. */
  function Freed(fat: seq<u16>, cs: seq<nat>): (r: seq<u16>)
    ensures |r| == |fat|
  {
    seq(|fat|, c requires 0 <= c < |fat| => if c in cs then 0 else fat[c])
  }

  /** The layout without object o. */
  function Drop(L: Layout, o: nat): Layout { Layout(L.chains - {o}, L.owner) }

  lemma ChainInside(g: Geo, fat: seq<u16>, L: Layout, o: nat)
    requires LayoutOk(g, fat, L) && o in L.chains
    ensures forall i :: 0 <= i < |L.chains[o]| ==>
            2 <= L.chains[o][i] < g.clusters && L.chains[o][i] < |fat| && fat[L.chains[o][i]] != 0
  {
    forall i | 0 <= i < |L.chains[o]|
      ensures 2 <= L.chains[o][i] < g.clusters && L.chains[o][i] < |fat| && fat[L.chains[o][i]] != 0
    {
      assert LinkOk(g, fat, L, o, i);
      if i + 1 < |L.chains[o]| { assert LinkOk(g, fat, L, o, i + 1); }
    }
  }

  /** Freeing an object's chain leaves every other chain in place. */
  lemma DropOk(g: Geo, fat: seq<u16>, L: Layout, o: nat)
    requires LayoutOk(g, fat, L) && o in L.chains
    ensures LayoutOk(g, Freed(fat, L.chains[o]), Drop(L, o))
  {
    var fat', L' := Freed(fat, L.chains[o]), Drop(L, o);
    forall o', i | o' in L'.chains && 0 <= i < |L'.chains[o']|
      ensures LinkOk(g, fat', L', o', i)
    {
      assert LinkOk(g, fat, L, o', i);
      NotInOther(g, fat, L, o, o', i);
    }
  }

  lemma NotInOther(g: Geo, fat: seq<u16>, L: Layout, o: nat, o': nat, i: nat)
    requires LayoutOk(g, fat, L) && o in L.chains && o' in L.chains && o' != o && i < |L.chains[o']|
    ensures L.chains[o'][i] !in L.chains[o]
  {
    var c := L.chains[o'][i];
    assert LinkOk(g, fat, L, o', i);
    forall j | 0 <= j < |L.chains[o]|
      ensures L.chains[o][j] != c
    {
      assert LinkOk(g, fat, L, o, j);
    }
  }

  lemma DropViews(g: Geo, L: Layout, disk: seq<Sector>, o: nat)
    requires o != 0
    ensures forall o' :: o' != o ==> View(g, Drop(L, o), disk, o') == View(g, L, disk, o')
  {
    hide At, ClusterLba;
  }

  ghost function ToSet(cs: seq<nat>): set<nat> { set c | c in cs }

  lemma {:induction false} DistinctCount(cs: seq<nat>)
    requires forall i, j :: 0 <= i < j < |cs| ==> cs[i] != cs[j]
    ensures |ToSet(cs)| == |cs|
  {
    if cs == [] {
      assert ToSet(cs) == {};
    } else {
      var n := |cs| - 1;
      DistinctCount(cs[..n]);
      assert ToSet(cs) == ToSet(cs[..n]) + {cs[n]};
      assert cs[n] !in ToSet(cs[..n]);
    }
  }

  /** Every cluster of a freed chain becomes free, and no other changes. */
  lemma FreedCount(g: Geo, fat: seq<u16>, L: Layout, o: nat)
    requires LayoutOk(g, fat, L) && o in L.chains
    ensures |FreeSet(g, Freed(fat, L.chains[o]))| == |FreeSet(g, fat)| + |L.chains[o]|
  {
    var cs := L.chains[o];
    ChainInside(g, fat, L, o);
    forall i, j | 0 <= i < j < |cs|
      ensures cs[i] != cs[j]
    {
      ChainDistinct(g, fat, L, o, i, j);
    }
    DistinctCount(cs);
    hide LayoutOk;
    assert FreeSet(g, Freed(fat, cs)) == FreeSet(g, fat) + ToSet(cs);
    assert FreeSet(g, fat) !! ToSet(cs);
  }

  lemma FreedStep(fat: seq<u16>, cs: seq<nat>, i: nat)
    requires i < |cs| && cs[i] < |fat|
    ensures Freed(fat, cs[..i + 1]) == Freed(fat, cs[..i])[cs[i] := 0]
  {
    assert cs[..i + 1] == cs[..i] + [cs[i]];
  }

  lemma NotYetFreed(g: Geo, fat: seq<u16>, L: Layout, o: nat, i: nat)
    requires LayoutOk(g, fat, L) && o in L.chains && i < |L.chains[o]|
    ensures 2 <= L.chains[o][i] < g.clusters && L.chains[o][i] < |fat| && L.chains[o][i] !in L.chains[o][..i]
    ensures i + 1 < |L.chains[o]| ==> fat[L.chains[o][i]] == L.chains[o][i + 1]
    ensures i + 1 == |L.chains[o]| ==> fat[L.chains[o][i]] >= END_MIN
  {
    assert LinkOk(g, fat, L, o, i);
    forall j | 0 <= j < i
      ensures L.chains[o][..i][j] != L.chains[o][i]
    {
      ChainDistinct(g, fat, L, o, j, i);
    }
  }

  /** fat16_free_chain: frees the clusters of the chain that starts at first; 0 has none. */
  method FreeChain(dr: Driver, first: nat)
    requires dr.Shaped() && LayoutOk(dr.g, dr.fat[..], dr.L) && (first == 0 || first in dr.L.chains)
    modifies dr.fat
    ensures dr.fat[..] == if first == 0 then old(dr.fat[..]) else Freed(old(dr.fat[..]), dr.L.chains[first])
  {
    if first == 0 { return; }
    ghost var fat0, cs := dr.fat[..], dr.L.chains[first];
    assert Freed(fat0, cs[..0]) == fat0;
    assert cs[0] == first;
    ChainInside(dr.g, fat0, dr.L, first);
    ghost var i := 0;
    var cluster := first;
    while 2 <= cluster < END_MIN
      invariant 0 <= i <= |cs| && dr.fat[..] == Freed(fat0, cs[..i])
      invariant if i < |cs| then cluster == cs[i] else cluster >= END_MIN
      decreases |cs| - i
    {
      NotYetFreed(dr.g, fat0, dr.L, first, i);
      FreedStep(fat0, cs, i);
      var next := dr.fat[cluster];
      dr.fat[cluster] := 0;
      cluster := next;
      i := i + 1;
    }
    assert i == |cs| && cs[..i] == cs;
  }
}
