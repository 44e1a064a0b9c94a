/** The kernel heap as a list of blocks: what first-fit allocation, freeing and growth do to it. */
module HeapBlocks {
  const HEADER: nat := 16

  datatype Block = Block(addr: nat, size: nat, free: bool) {
    function End(): nat { addr + HEADER + size }
  }

  /** Blocks in address order, apart from each other and inside [lo, hi). */
  ghost predicate Placed(bs: seq<Block>, lo: nat, hi: nat) {
    && (forall i :: 0 <= i < |bs| ==> lo <= bs[i].addr && bs[i].End() <= hi)
    && (forall i :: 0 <= i < |bs| - 1 ==> bs[i].End() <= bs[i + 1].addr)
  }

  ghost predicate NoTwoFree(bs: seq<Block>) {
    forall i :: 0 <= i < |bs| - 1 ==> !(bs[i].free && bs[i + 1].free)
  }

  ghost predicate HeapOk(bs: seq<Block>, lo: nat, hi: nat) { Placed(bs, lo, hi) && NoTwoFree(bs) }

  /** The first free block from i on that has size bytes, or -1. */
  function FirstFit(bs: seq<Block>, size: nat, i: nat): (r: int)
    ensures r == -1 || (i <= r < |bs| && bs[r].free && bs[r].size >= size)
    ensures r == -1 ==> forall j :: i <= j < |bs| ==> !(bs[j].free && bs[j].size >= size)
    ensures r != -1 ==> forall j :: i <= j < r ==> !(bs[j].free && bs[j].size >= size)
    decreases |bs| - i
  {
    if i >= |bs| then -1
    else if bs[i].free && bs[i].size >= size then i
    else FirstFit(bs, size, i + 1)
  }

  predicate Splits(b: Block, size: nat) { b.size >= size + HEADER + 4 }

  /** Block k in use; what is left over becomes a free block when it has room for a header and more. */
  function Take(bs: seq<Block>, k: nat, size: nat): seq<Block>
    requires k < |bs| && bs[k].size >= size
  {
    var b := bs[k];
    if Splits(b, size) then
      bs[..k] + [Block(b.addr, size, false), Block(b.addr + HEADER + size, b.size - size - HEADER, true)] + bs[k + 1..]
    else bs[k := b.(free := false)]
  }

  /** Blocks k and k + 1 made one, of the size the code gives it. */
  function Join(bs: seq<Block>, k: nat): seq<Block>
    requires k + 1 < |bs|
  {
    bs[..k] + [bs[k].(size := bs[k].size + HEADER + bs[k + 1].size)] + bs[k + 2..]
  }

  function JoinNext(bs: seq<Block>, k: nat): seq<Block>
    requires k < |bs|
  {
    if k + 1 < |bs| && bs[k + 1].free then Join(bs, k) else bs
  }

  function JoinPrev(bs: seq<Block>, k: nat): seq<Block>
    requires k < |bs|
  {
    if k > 0 && bs[k - 1].free then Join(bs, k - 1) else bs
  }

  /** Block k freed and merged with a free neighbour on either side. */
  function Release(bs: seq<Block>, k: nat): seq<Block>
    requires k < |bs|
  {
    JoinPrev(JoinNext(bs[k := bs[k].(free := true)], k), k)
  }

  /** New space [from, to) behind the list: a free block of its own, or added to a free last block. */
  function Append(bs: seq<Block>, from: nat, to: nat): seq<Block>
    requires from + HEADER <= to
  {
    var b := Block(from, to - from - HEADER, true);
    if bs != [] && bs[|bs| - 1].free then Join(bs + [b], |bs| - 1) else bs + [b]
  }

  lemma {:induction false} OrderedEnds(bs: seq<Block>, lo: nat, hi: nat, i: nat, j: nat)
    requires Placed(bs, lo, hi) && i < j < |bs|
    ensures bs[i].End() <= bs[j].addr
    decreases j - i
  {
    if i + 1 < j { OrderedEnds(bs, lo, hi, i + 1, j); }
  }

  lemma TakeAt(bs: seq<Block>, k: nat, size: nat)
    requires k < |bs| && bs[k].size >= size && Splits(bs[k], size)
    ensures |Take(bs, k, size)| == |bs| + 1
    ensures forall i :: 0 <= i < k ==> Take(bs, k, size)[i] == bs[i]
    ensures Take(bs, k, size)[k] == Block(bs[k].addr, size, false)
    ensures Take(bs, k, size)[k + 1] == Block(bs[k].addr + HEADER + size, bs[k].size - size - HEADER, true)
    ensures forall i :: k + 2 <= i <= |bs| ==> Take(bs, k, size)[i] == bs[i - 1]
  {
  }

  lemma TakeOk(bs: seq<Block>, lo: nat, hi: nat, k: nat, size: nat)
    requires HeapOk(bs, lo, hi) && k < |bs| && bs[k].free && bs[k].size >= size
    ensures HeapOk(Take(bs, k, size), lo, hi)
  {
    if Splits(bs[k], size) {
      TakeAt(bs, k, size);
      TakePlaced(bs, lo, hi, k, size);
      TakeFlags(bs, k, size);
    }
  }

  lemma TakePlaced(bs: seq<Block>, lo: nat, hi: nat, k: nat, size: nat)
    requires Placed(bs, lo, hi) && k < |bs| && bs[k].size >= size && Splits(bs[k], size)
    ensures Placed(Take(bs, k, size), lo, hi)
  {
    hide Take;
    TakeAt(bs, k, size);
    var r := Take(bs, k, size);
    forall i | 0 <= i < |r| - 1
      ensures r[i].End() <= r[i + 1].addr
    {
      if i < k { assert bs[i].End() <= bs[i + 1].addr; } else if i > k { assert bs[i - 1].End() <= bs[i].addr; }
    }
  }

  lemma TakeFlags(bs: seq<Block>, k: nat, size: nat)
    requires NoTwoFree(bs) && k < |bs| && bs[k].free && bs[k].size >= size && Splits(bs[k], size)
    ensures NoTwoFree(Take(bs, k, size))
  {
    hide Take;
    TakeAt(bs, k, size);
    var r := Take(bs, k, size);
    forall i | 0 <= i < |r| - 1
      ensures !(r[i].free && r[i + 1].free)
    {
      if i < k - 1 { assert !(bs[i].free && bs[i + 1].free); } else if i > k { assert !(bs[i - 1].free && bs[i].free); }
    }
  }

  lemma JoinAt(bs: seq<Block>, k: nat)
    requires k + 1 < |bs|
    ensures |Join(bs, k)| == |bs| - 1
    ensures forall i :: 0 <= i < k ==> Join(bs, k)[i] == bs[i]
    ensures Join(bs, k)[k] == bs[k].(size := bs[k].size + HEADER + bs[k + 1].size)
    ensures forall i :: k < i < |bs| - 1 ==> Join(bs, k)[i] == bs[i + 1]
  {
  }

  lemma JoinPlaced(bs: seq<Block>, lo: nat, hi: nat, k: nat)
    requires k + 1 < |bs| && Placed(bs, lo, hi)
    ensures Placed(Join(bs, k), lo, hi)
  {
    JoinAt(bs, k);
    hide Join;
    var r := Join(bs, k);
    assert bs[k].End() <= bs[k + 1].addr;
    assert r[k].End() <= bs[k + 1].End();
    forall i | 0 <= i < |r| - 1
      ensures r[i].End() <= r[i + 1].addr
    {
      if i >= k { assert bs[i + 1].End() <= bs[i + 2].addr; } else { assert bs[i].End() <= bs[i + 1].addr; }
    }
  }

  /** Joining with the next one, when only block k may have a free neighbour. */
  lemma JoinNextFlags(bs: seq<Block>, k: nat)
    requires k < |bs| && bs[k].free && forall i :: 0 <= i < |bs| - 1 && i != k && i != k - 1 ==>
             !(bs[i].free && bs[i + 1].free)
    ensures var r := JoinNext(bs, k);
            && k < |r| && r[k].free && (forall i :: 0 <= i < k ==> r[i] == bs[i])
            && forall i :: 0 <= i < |r| - 1 && i != k - 1 ==> !(r[i].free && r[i + 1].free)
  {
    if k + 1 < |bs| && bs[k + 1].free {
      JoinAt(bs, k);
      hide Join;
      var r := Join(bs, k);
      forall i | 0 <= i < |r| - 1 && i != k - 1
        ensures !(r[i].free && r[i + 1].free)
      {
        if i >= k { assert !(bs[i + 1].free && bs[i + 2].free); } else { assert !(bs[i].free && bs[i + 1].free); }
      }
    }
  }

  lemma JoinPrevFlags(bs: seq<Block>, k: nat)
    requires k < |bs| && bs[k].free && (k >= 2 ==> !(bs[k - 2].free && bs[k - 1].free))
    requires forall i :: 0 <= i < |bs| - 1 && i != k - 1 ==> !(bs[i].free && bs[i + 1].free)
    ensures NoTwoFree(JoinPrev(bs, k))
  {
    if k > 0 && bs[k - 1].free {
      JoinAt(bs, k - 1);
      hide Join;
      var r := Join(bs, k - 1);
      forall i | 0 <= i < |r| - 1
        ensures !(r[i].free && r[i + 1].free)
      {
        if i >= k - 1 { assert !(bs[i + 1].free && bs[i + 2].free); } else { assert !(bs[i].free && bs[i + 1].free); }
      }
    }
  }

  lemma ReleaseOk(bs: seq<Block>, lo: nat, hi: nat, k: nat)
    requires HeapOk(bs, lo, hi) && k < |bs| && !bs[k].free
    ensures HeapOk(Release(bs, k), lo, hi)
  {
    hide Join, Placed;
    var bs1 := bs[k := bs[k].(free := true)];
    var bs2 := JoinNext(bs1, k);
    JoinNextFlags(bs1, k);
    assert k >= 2 ==> !(bs[k - 2].free && bs[k - 1].free);
    JoinPrevFlags(bs2, k);
    FreedPlaced(bs, lo, hi, k);
    hide NoTwoFree;
    if k + 1 < |bs1| && bs1[k + 1].free { JoinPlaced(bs1, lo, hi, k); }
    if k > 0 && bs2[k - 1].free { JoinPlaced(bs2, lo, hi, k - 1); }
  }

  lemma FreedPlaced(bs: seq<Block>, lo: nat, hi: nat, k: nat)
    requires Placed(bs, lo, hi) && k < |bs|
    ensures Placed(bs[k := bs[k].(free := true)], lo, hi)
  {
  }

  lemma AppendOk(bs: seq<Block>, lo: nat, hi: nat, from: nat, to: nat)
    requires HeapOk(bs, lo, hi) && lo <= hi <= from && from + HEADER <= to
    ensures HeapOk(Append(bs, from, to), lo, to)
  {
    var b := Block(from, to - from - HEADER, true);
    var bs1 := bs + [b];
    assert Placed(bs1, lo, to);
    if bs != [] && bs[|bs| - 1].free {
      JoinPlaced(bs1, lo, to, |bs| - 1);
      JoinAt(bs1, |bs| - 1);
      hide Join, Placed;
    }
  }

  /** After growth by at least size bytes and a header, allocation cannot fail. */
  lemma AppendFits(bs: seq<Block>, from: nat, to: nat, size: nat)
    requires from + HEADER + size <= to
    ensures FirstFit(Append(bs, from, to), size, 0) >= 0
  {
    var r := Append(bs, from, to);
    assert r[|r| - 1].free && r[|r| - 1].size >= size;
  }

  /** Freeing what was just allocated restores the list exactly. */
  lemma TakeRelease(bs: seq<Block>, lo: nat, hi: nat, k: nat, size: nat)
    requires HeapOk(bs, lo, hi) && k < |bs| && bs[k].free && bs[k].size >= size
    ensures k < |Take(bs, k, size)| && Release(Take(bs, k, size), k) == bs
  {
    var t := Take(bs, k, size);
    var t1 := t[k := t[k].(free := true)];
    assert k + 1 < |bs| ==> !bs[k + 1].free;
    assert k > 0 ==> !bs[k - 1].free;
    if Splits(bs[k], size) {
      assert t1[k + 1].free;
      assert Join(t1, k) == bs;
    } else {
      assert t1 == bs;
    }
  }

  /** Bytes in free blocks; heap_free_bytes. */
  function FreeBytes(bs: seq<Block>): nat {
    if bs == [] then 0 else FreeBytes(bs[..|bs| - 1]) + if bs[|bs| - 1].free then bs[|bs| - 1].size else 0
  }

  lemma NoBytes(bs: seq<Block>)
    ensures FreeBytes(bs[..0]) == 0
  {
  }

  lemma MoreBytes(bs: seq<Block>, k: nat)
    requires k < |bs|
    ensures FreeBytes(bs[..k + 1]) == FreeBytes(bs[..k]) + if bs[k].free then bs[k].size else 0
  {
    assert bs[..k + 1][..k] == bs[..k];
  }

  lemma {:induction false} BytesConcat(a: seq<Block>, b: seq<Block>)
    ensures FreeBytes(a + b) == FreeBytes(a) + FreeBytes(b)
    decreases |b|
  {
    if b == [] {
      assert a + b == a;
    } else {
      assert (a + b)[..|a + b| - 1] == a + b[..|b| - 1];
      BytesConcat(a, b[..|b| - 1]);
    }
  }

  lemma BytesOfOne(b: Block)
    ensures FreeBytes([b]) == if b.free then b.size else 0
  {
    assert [b][..0] == [];
  }

  /** The free bytes of a list that has the blocks mid between front and back. */
  lemma BytesAround(front: seq<Block>, mid: seq<Block>, back: seq<Block>)
    ensures FreeBytes(front + mid + back) == FreeBytes(front) + FreeBytes(mid) + FreeBytes(back)
  {
    hide FreeBytes;
    BytesConcat(front + mid, back);
    BytesConcat(front, mid);
  }

  lemma BytesOfTwo(a: Block, b: Block)
    ensures FreeBytes([a, b]) == (if a.free then a.size else 0) + if b.free then b.size else 0
  {
    hide FreeBytes;
    assert [a, b] == [a] + [b];
    BytesConcat([a], [b]);
    BytesOfOne(a);
    BytesOfOne(b);
  }

  lemma BytesSet(bs: seq<Block>, k: nat, b: Block)
    requires k < |bs|
    ensures FreeBytes(bs[k := b]) ==
            FreeBytes(bs) - (if bs[k].free then bs[k].size else 0) + (if b.free then b.size else 0)
  {
    hide FreeBytes;
    assert bs == bs[..k] + [bs[k]] + bs[k + 1..];
    assert bs[k := b] == bs[..k] + [b] + bs[k + 1..];
    BytesAround(bs[..k], [bs[k]], bs[k + 1..]);
    BytesAround(bs[..k], [b], bs[k + 1..]);
    BytesOfOne(b);
    BytesOfOne(bs[k]);
  }

  /** Allocation takes the block's bytes off the free ones and, when it splits, those of one header. */
  lemma TakeBytes(bs: seq<Block>, k: nat, size: nat)
    requires k < |bs| && bs[k].free && bs[k].size >= size
    ensures FreeBytes(Take(bs, k, size)) + (if bs[k].size >= size + 20 then size + 16 else bs[k].size) == FreeBytes(bs)
  {
    hide FreeBytes;
    if Splits(bs[k], size) {
      var two := [Block(bs[k].addr, size, false), Block(bs[k].addr + HEADER + size, bs[k].size - size - HEADER, true)];
      assert bs == bs[..k] + [bs[k]] + bs[k + 1..];
      BytesAround(bs[..k], [bs[k]], bs[k + 1..]);
      BytesAround(bs[..k], two, bs[k + 1..]);
      BytesOfOne(bs[k]);
      BytesOfTwo(two[0], two[1]);
    } else {
      BytesSet(bs, k, bs[k].(free := false));
    }
  }

  lemma JoinBytes(bs: seq<Block>, k: nat)
    requires k + 1 < |bs| && bs[k].free && bs[k + 1].free
    ensures FreeBytes(Join(bs, k)) == FreeBytes(bs) + HEADER
  {
    hide FreeBytes;
    var one := bs[k].(size := bs[k].size + HEADER + bs[k + 1].size);
    assert bs == bs[..k] + [bs[k], bs[k + 1]] + bs[k + 2..];
    BytesAround(bs[..k], [bs[k], bs[k + 1]], bs[k + 2..]);
    BytesAround(bs[..k], [one], bs[k + 2..]);
    BytesOfTwo(bs[k], bs[k + 1]);
    BytesOfOne(one);
  }

  /** Freeing gives back the block's bytes and those of a header for each neighbour it is merged with. */
  lemma ReleaseBytes(bs: seq<Block>, k: nat)
    requires k < |bs| && !bs[k].free
    ensures FreeBytes(Release(bs, k)) == FreeBytes(bs) + bs[k].size +
              (if k + 1 < |bs| && bs[k + 1].free then 16 else 0) + (if k > 0 && bs[k - 1].free then 16 else 0)
  {
    hide Join, FreeBytes;
    var bs1 := bs[k := bs[k].(free := true)];
    BytesSet(bs, k, bs[k].(free := true));
    var bs2 := JoinNext(bs1, k);
    if k + 1 < |bs1| && bs1[k + 1].free {
      JoinBytes(bs1, k);
      JoinAt(bs1, k);
    }
    if k > 0 && bs2[k - 1].free { JoinBytes(bs2, k - 1); }
  }

  /** New space is all free but for its header, which a free last block takes in, too. */
  lemma AppendBytes(bs: seq<Block>, from: nat, to: nat)
    requires from + HEADER <= to
    ensures FreeBytes(Append(bs, from, to)) ==
            FreeBytes(bs) + (to - from) - if bs != [] && bs[|bs| - 1].free then 0 else 16
  {
    hide Join, FreeBytes;
    var b := Block(from, to - from - HEADER, true);
    BytesConcat(bs, [b]);
    BytesOfOne(b);
    if bs != [] && bs[|bs| - 1].free { JoinBytes(bs + [b], |bs| - 1); }
  }

  // ---- the blocks in use ----------------------------------------------------------------------------------------

  ghost function Used(bs: seq<Block>): set<Block> { set b | b in bs && !b.free }

  /** Allocation adds one block of the size asked for and leaves every other block in use as it was. */
  lemma TakeUsed(bs: seq<Block>, k: nat, size: nat)
    requires k < |bs| && bs[k].free && bs[k].size >= size
    ensures k < |Take(bs, k, size)|
    ensures var b := Take(bs, k, size)[k];
            && b.addr == bs[k].addr && b.size == (if bs[k].size >= size + 20 then size else bs[k].size)
            && Used(Take(bs, k, size)) == Used(bs) + {b}
  {
    var t := Take(bs, k, size);
    if Splits(bs[k], size) { TakeAt(bs, k, size); }
    hide Take;
    forall b: Block
      ensures b in t && !b.free <==> (b in bs && !b.free) || b == t[k]
    {
      if b in t && !b.free {
        var i :| 0 <= i < |t| && t[i] == b;
      }
      if b in bs && !b.free {
        var i :| 0 <= i < |bs| && bs[i] == b;
        assert i < k ==> t[i] == b;
        assert i > k ==> t[if Splits(bs[k], size) then i + 1 else i] == b;
      }
    }
  }

  lemma JoinUsed(bs: seq<Block>, k: nat)
    requires k + 1 < |bs| && bs[k].free && bs[k + 1].free
    ensures Used(Join(bs, k)) == Used(bs)
  {
    JoinAt(bs, k);
    hide Join;
    var t := Join(bs, k);
    forall b: Block
      ensures b in t && !b.free <==> b in bs && !b.free
    {
      if b in t && !b.free {
        var i :| 0 <= i < |t| && t[i] == b;
      }
      if b in bs && !b.free {
        var i :| 0 <= i < |bs| && bs[i] == b;
        assert i < k ==> t[i] == b;
        assert i > k + 1 ==> t[i - 1] == b;
      }
    }
  }

  lemma FreedUsed(bs: seq<Block>, lo: nat, hi: nat, k: nat)
    requires HeapOk(bs, lo, hi) && k < |bs| && !bs[k].free
    ensures Used(bs[k := bs[k].(free := true)]) == Used(bs) - {bs[k]}
  {
    hide Placed, NoTwoFree;
    var bs1 := bs[k := bs[k].(free := true)];
    forall b: Block
      ensures b in bs1 && !b.free <==> b in bs && !b.free && b != bs[k]
    {
      if b in bs1 && !b.free {
        var i :| 0 <= i < |bs1| && bs1[i] == b;
        if i < k { OrderedEnds(bs, lo, hi, i, k); } else { OrderedEnds(bs, lo, hi, k, i); }
      }
      if b in bs && !b.free && b != bs[k] {
        var i :| 0 <= i < |bs| && bs[i] == b;
        assert bs1[i] == b;
      }
    }
  }

  /** Freeing a block takes it, and no other, out of use. */
  lemma ReleaseUsed(bs: seq<Block>, lo: nat, hi: nat, k: nat)
    requires HeapOk(bs, lo, hi) && k < |bs| && !bs[k].free
    ensures Used(Release(bs, k)) == Used(bs) - {bs[k]}
  {
    hide Join, HeapOk, Used;
    FreedUsed(bs, lo, hi, k);
    var bs1 := bs[k := bs[k].(free := true)];
    var bs2 := JoinNext(bs1, k);
    if k + 1 < |bs1| && bs1[k + 1].free { JoinUsed(bs1, k); JoinAt(bs1, k); }
    if k > 0 && bs2[k - 1].free { JoinUsed(bs2, k - 1); }
  }

  lemma AppendUsed(bs: seq<Block>, from: nat, to: nat)
    requires from + HEADER <= to
    ensures Used(Append(bs, from, to)) == Used(bs)
  {
    var b := Block(from, to - from - HEADER, true);
    assert forall c: Block :: c in bs + [b] && !c.free <==> c in bs && !c.free;
    assert Used(bs + [b]) == Used(bs);
    if bs != [] && bs[|bs| - 1].free { JoinUsed(bs + [b], |bs| - 1); }
  }

  // ---- alignment ------------------------------------------------------------------------------------------------

  ghost predicate Aligned(bs: seq<Block>) { forall i :: 0 <= i < |bs| ==> bs[i].addr % 4 == 0 && bs[i].size % 4 == 0 }

  lemma RestAligned(a: nat, b: nat, n: nat)
    requires a % 4 == 0 && b % 4 == 0 && n % 4 == 0
    ensures (a + HEADER + n) % 4 == 0 && (b - n - HEADER) % 4 == 0
  {
  }

  lemma TakeWhole(bs: seq<Block>, k: nat, size: nat)
    requires k < |bs| && bs[k].size >= size && !Splits(bs[k], size)
    ensures Take(bs, k, size) == bs[k := bs[k].(free := false)]
  {
  }

  lemma TakeAligned(bs: seq<Block>, k: nat, size: nat)
    requires Aligned(bs) && k < |bs| && bs[k].size >= size && size % 4 == 0
    ensures Aligned(Take(bs, k, size))
  {
    hide Take;
    if !Splits(bs[k], size) {
      TakeWhole(bs, k, size);
    } else {
      TakeAt(bs, k, size);
      RestAligned(bs[k].addr, bs[k].size, size);
      var t := Take(bs, k, size);
      forall i | 0 <= i < |t|
        ensures t[i].addr % 4 == 0 && t[i].size % 4 == 0
      {
        assert i < k ==> t[i] == bs[i];
        assert i > k + 1 ==> t[i] == bs[i - 1];
      }
    }
  }

  lemma SumAligned(a: nat, b: nat)
    requires a % 4 == 0 && b % 4 == 0
    ensures (a + HEADER + b) % 4 == 0
  {
  }

  lemma JoinAligned(bs: seq<Block>, k: nat)
    requires Aligned(bs) && k + 1 < |bs|
    ensures Aligned(Join(bs, k))
  {
    hide Join;
    JoinAt(bs, k);
    SumAligned(bs[k].size, bs[k + 1].size);
    var t := Join(bs, k);
    forall i | 0 <= i < |t|
      ensures t[i].addr % 4 == 0 && t[i].size % 4 == 0
    {
      assert i < k ==> t[i] == bs[i];
      assert i > k ==> t[i] == bs[i + 1];
    }
  }

  lemma ReleaseAligned(bs: seq<Block>, k: nat)
    requires Aligned(bs) && k < |bs|
    ensures Aligned(Release(bs, k))
  {
    var bs1 := bs[k := bs[k].(free := true)];
    var bs2 := JoinNext(bs1, k);
    assert Aligned(bs1);
    hide Join, Aligned;
    if k + 1 < |bs1| && bs1[k + 1].free { JoinAligned(bs1, k); JoinAt(bs1, k); }
    if k > 0 && bs2[k - 1].free { JoinAligned(bs2, k - 1); }
  }

  lemma AppendAligned(bs: seq<Block>, from: nat, to: nat)
    requires Aligned(bs) && from + HEADER <= to && from % 4 == 0 && to % 4 == 0
    ensures Aligned(Append(bs, from, to))
  {
    var b := Block(from, to - from - HEADER, true);
    if bs != [] && bs[|bs| - 1].free { JoinAligned(bs + [b], |bs| - 1); }
  }
}
