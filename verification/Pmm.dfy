/** The physical page allocator (kernel/memory/pmm.c). A bitmap word of 32 pages is modelled by its 32
    bits: page p is bit p % 32 of word p / 32. */
module Pmm {
  const PAGE_SIZE: nat := 4096
  const MAX_PAGES: nat := 2048
  const LIMIT: nat := 0x80_0000
  const RESERVED_PAGES: nat := 1024

  /** Set bits. */
  function Count(s: seq<bool>): nat {
    if s == [] then 0 else Count(s[..|s| - 1]) + if s[|s| - 1] then 1 else 0
  }

  lemma {:induction false} CountSet(s: seq<bool>, i: nat, b: bool)
    requires i < |s|
    ensures Count(s[i := b]) == Count(s) - (if s[i] then 1 else 0) + (if b then 1 else 0)
    ensures s[i] ==> Count(s) > 0
  {
    var n := |s| - 1;
    if i < n {
      assert s[i := b][..n] == s[..n][i := b];
      CountSet(s[..n], i, b);
    } else {
      assert s[i := b][..n] == s[..n];
    }
  }

  lemma {:induction false} CountAll(s: seq<bool>)
    requires forall i :: 0 <= i < |s| ==> s[i]
    ensures Count(s) == |s|
  {
    if s != [] { CountAll(s[..|s| - 1]); }
  }

  /** Setting a bit at or behind n leaves the first n alone; before n it moves the count by one. */
  lemma CountPrefix(s: seq<bool>, n: nat, i: nat, b: bool)
    requires n <= |s| && i < |s|
    ensures Count(s[i := b][..n]) == Count(s[..n]) - (if i < n && s[i] then 1 else 0) + (if i < n && b then 1 else 0)
    ensures i < n && s[i] ==> Count(s[..n]) > 0
  {
    if i < n {
      assert s[i := b][..n] == s[..n][i := b];
      CountSet(s[..n], i, b);
    } else {
      assert s[i := b][..n] == s[..n];
    }
  }

  /** Pages that are set from n on up to the end count fully. */
  lemma {:induction false} CountTail(s: seq<bool>, n: nat)
    requires n <= |s| && forall i :: n <= i < |s| ==> s[i]
    ensures Count(s) == Count(s[..n]) + |s| - n
  {
    if n == |s| {
      assert s[..n] == s;
    } else {
      var m := |s| - 1;
      CountTail(s[..m], n);
      assert s[..m][..n] == s[..n];
    }
  }

  datatype Region = Region(base: nat, length: nat, usable: bool)

  /** Page p lies wholly inside the region. */
  ghost predicate Covers(r: Region, p: nat) {
    r.usable && r.base <= PAGE_SIZE * p && PAGE_SIZE * p + PAGE_SIZE <= r.base + r.length
  }

  ghost predicate Covered(regions: seq<Region>, p: nat) { exists r :: r in regions && Covers(r, p) }

  function RoundUp(a: nat): (r: nat)
    ensures r % PAGE_SIZE == 0 && a <= r < a + PAGE_SIZE
  {
    (a + PAGE_SIZE - 1) / PAGE_SIZE * PAGE_SIZE
  }

  function RoundDown(a: nat): (r: nat)
    ensures r % PAGE_SIZE == 0 && r <= a < r + PAGE_SIZE
  {
    a / PAGE_SIZE * PAGE_SIZE
  }

  /** The whole pages of a region below the limit. */
  function FirstPage(r: Region): nat { RoundUp(r.base) / PAGE_SIZE }

  function EndPage(r: Region): nat {
    var end := RoundDown(r.base + r.length);
    (if end > LIMIT then LIMIT else end) / PAGE_SIZE
  }

  lemma CoversRange(r: Region, p: nat)
    requires r.usable && p < MAX_PAGES
    ensures Covers(r, p) <==> FirstPage(r) <= p < EndPage(r)
    ensures EndPage(r) <= MAX_PAGES
  {
    var s, e := RoundUp(r.base), RoundDown(r.base + r.length);
    assert s == PAGE_SIZE * (s / PAGE_SIZE) && e == PAGE_SIZE * (e / PAGE_SIZE);
  }

  lemma CoveredNext(regions: seq<Region>, r: nat)
    requires r < |regions|
    ensures forall p: nat :: Covered(regions[..r + 1], p) <==> Covered(regions[..r], p) || Covers(regions[r], p)
  {
    assert regions[..r + 1] == regions[..r] + [regions[r]];
    assert regions[r] in regions[..r + 1];
    forall p: nat
      ensures Covered(regions[..r + 1], p) <==> Covered(regions[..r], p) || Covers(regions[r], p)
    {
      if Covered(regions[..r], p) {
        var x :| x in regions[..r] && Covers(x, p);
        assert x in regions[..r + 1];
      }
    }
  }

  class FrameAllocator {
    const bitmap: array<bool>
    var total: nat
    var used: nat

    /** The counter is the number of pages in use among those that are managed. */
    ghost predicate Valid()
      reads this, bitmap
    {
      bitmap.Length == MAX_PAGES && total <= MAX_PAGES && used == Count(bitmap[..total])
    }

    ghost predicate FreePageAt(p: nat)
      reads this, bitmap
    {
      bitmap.Length == MAX_PAGES && p < total <= MAX_PAGES && !bitmap[p]
    }

    constructor ()
      ensures bitmap.Length == MAX_PAGES && fresh(bitmap)
    {
      bitmap := new bool[MAX_PAGES](i => true);
      total, used := 0, 0;
    }

    method SetBit(p: nat, b: bool)
      requires Valid() && p < total && bitmap[p] != b
      modifies bitmap, this`used
      ensures Valid() && total == old(total) && bitmap[..] == old(bitmap[..])[p := b]
      ensures used == if b then old(used) + 1 else old(used) - 1
    {
      CountPrefix(bitmap[..], total, p, b);
      bitmap[p] := b;
      used := if b then used + 1 else used - 1;
    }

    /** pmm_mark_used (b) and pmm_mark_free (!b): the pages of size bytes from addr on, as far as they
        are managed. */
    method MarkPages(addr: nat, size: nat, b: bool)
      requires Valid()
      modifies bitmap, this`used
      ensures Valid() && total == old(total)
      ensures var page, n := addr / PAGE_SIZE, (size + PAGE_SIZE - 1) / PAGE_SIZE;
              forall p :: 0 <= p < MAX_PAGES ==>
                bitmap[p] == if page <= p < page + n && p < total then b else old(bitmap[p])
    {
      var page, n := addr / PAGE_SIZE, (size + PAGE_SIZE - 1) / PAGE_SIZE;
      var i := 0;
      while i < n && page + i < total
        invariant 0 <= i <= n && Valid() && total == old(total)
        invariant forall p :: 0 <= p < MAX_PAGES ==>
                  bitmap[p] == if page <= p < page + i && p < total then b else old(bitmap[p])
      {
        if bitmap[page + i] != b { SetBit(page + i, b); }
        i := i + 1;
      }
    }

    /** pmm_alloc_page: the lowest free page, skipping words that are full. */
    method AllocPage() returns (addr: nat)
      requires Valid()
      modifies bitmap, this`used
      ensures Valid() && total == old(total)
      ensures (forall p: nat :: !old(FreePageAt(p))) ==> addr == 0 && bitmap[..] == old(bitmap[..]) && used == old(used)
      ensures (exists p: nat :: old(FreePageAt(p))) ==>
                && addr % PAGE_SIZE == 0 && old(FreePageAt(addr / PAGE_SIZE))
                && (forall p: nat :: p < addr / PAGE_SIZE ==> !old(FreePageAt(p)))
                && bitmap[..] == old(bitmap[..])[addr / PAGE_SIZE := true] && used == old(used) + 1
    {
      var i := 0;
      while i < MAX_PAGES / 32
        invariant 0 <= i <= MAX_PAGES / 32 && Valid() && total == old(total) && used == old(used) &&
                  bitmap[..] == old(bitmap[..])
        invariant forall p: nat :: p < 32 * i ==> !old(FreePageAt(p))
      {
        if !(forall b :: 32 * i <= b < 32 * i + 32 ==> bitmap[b]) {
          var bit := 0;
          while bit < 32
            invariant 0 <= bit <= 32 && Valid() && total == old(total) && used == old(used) &&
                      bitmap[..] == old(bitmap[..])
            invariant forall p: nat :: p < 32 * i + bit ==> !old(FreePageAt(p))
          {
            var page := 32 * i + bit;
            if page >= total {
              assert forall p: nat :: !old(FreePageAt(p));
              return 0;
            }
            if !bitmap[page] {
              assert old(FreePageAt(page));
              SetBit(page, true);
              return page * PAGE_SIZE;
            }
            bit := bit + 1;
          }
        }
        i := i + 1;
      }
      assert forall p: nat :: !old(FreePageAt(p));
      addr := 0;
    }

    /** pmm_alloc_page_at: exactly this page, or nothing. */
    method AllocPageAt(addr: nat) returns (r: nat)
      requires Valid()
      modifies bitmap, this`used
      ensures Valid() && total == old(total)
      ensures addr % PAGE_SIZE == 0 && old(FreePageAt(addr / PAGE_SIZE)) ==>
                r == addr && bitmap[..] == old(bitmap[..])[addr / PAGE_SIZE := true] && used == old(used) + 1
      ensures !(addr % PAGE_SIZE == 0 && old(FreePageAt(addr / PAGE_SIZE))) ==>
              r == 0 && bitmap[..] == old(bitmap[..]) && used == old(used)
    {
      if addr % PAGE_SIZE != 0 { return 0; }
      var page := addr / PAGE_SIZE;
      if page >= total || bitmap[page] { return 0; }
      SetBit(page, true);
      r := addr;
    }

    /** pmm_free_page: gives a managed page in use back; anything else is ignored. */
    method FreePage(addr: nat)
      requires Valid()
      modifies bitmap, this`used
      ensures Valid() && total == old(total)
      ensures var p := addr / PAGE_SIZE;
              if p < total && old(bitmap[p]) then bitmap[..] == old(bitmap[..])[p := false] && used == old(used) - 1
              else bitmap[..] == old(bitmap[..]) && used == old(used)
    {
      var page := addr / PAGE_SIZE;
      if page >= total || !bitmap[page] { return; }
      SetBit(page, false);
    }

    /** Releases the whole pages of one region. */
    method FreeRegion(r: Region) returns (end: nat)
      requires Valid() && total == MAX_PAGES && r.usable
      modifies bitmap, this`used
      ensures Valid() && total == MAX_PAGES
      ensures forall p: nat :: p < MAX_PAGES ==> bitmap[p] == (old(bitmap[p]) && !Covers(r, p))
      ensures end % PAGE_SIZE == 0 && end <= LIMIT && forall p: nat :: p < MAX_PAGES && Covers(r, p) ==>
              PAGE_SIZE * p < end
    {
      var start := RoundUp(r.base);
      end := RoundDown(r.base + r.length);
      if end > LIMIT { end := LIMIT; }
      forall p: nat | p < MAX_PAGES
        ensures Covers(r, p) <==> start / PAGE_SIZE <= p < end / PAGE_SIZE
      {
        CoversRange(r, p);
      }
      if start >= end { return 0; }
      assert (end - start + PAGE_SIZE - 1) / PAGE_SIZE == end / PAGE_SIZE - start / PAGE_SIZE;
      MarkPages(start, end - start, false);
    }

    /** Releases every usable region; highest is where the last released page ends, or 0. */
    method FreeRegions(regions: seq<Region>) returns (highest: nat)
      requires Valid() && total == MAX_PAGES && forall p :: 0 <= p < MAX_PAGES ==> bitmap[p]
      modifies bitmap, this`used
      ensures Valid() && total == MAX_PAGES
      ensures forall p: nat :: p < MAX_PAGES ==> (!bitmap[p] <==> Covered(regions, p))
      ensures highest % PAGE_SIZE == 0 && highest <= LIMIT && forall p: nat :: p < MAX_PAGES && !bitmap[p] ==>
              PAGE_SIZE * p < highest
    {
      highest := 0;
      var r := 0;
      while r < |regions|
        invariant 0 <= r <= |regions| && Valid() && total == MAX_PAGES
        invariant forall p: nat :: p < MAX_PAGES ==> (!bitmap[p] <==> Covered(regions[..r], p))
        invariant highest % PAGE_SIZE == 0 && highest <= LIMIT && forall p: nat :: p < MAX_PAGES && !bitmap[p] ==>
                  PAGE_SIZE * p < highest
      {
        CoveredNext(regions, r);
        if regions[r].usable {
          var end := FreeRegion(regions[r]);
          if end > highest { highest := end; }
        }
        r := r + 1;
      }
      assert regions[..r] == regions;
    }

    /** pmm_init: afterwards a page is free exactly when it lies between 4 and 8 MB and wholly inside one
        usable region (anywhere between 4 and 8 MB when there is no memory map). */
    method Init(regions: seq<Region>)
      requires bitmap.Length == MAX_PAGES
      modifies bitmap, this
      ensures Valid()
      ensures forall p: nat :: p < MAX_PAGES ==>
              (!bitmap[p] <==> RESERVED_PAGES <= p && (regions == [] || Covered(regions, p)))
      ensures forall p: nat :: p < MAX_PAGES && !bitmap[p] ==> FreePageAt(p)
    {
      total, used := MAX_PAGES, MAX_PAGES;
      forall i | 0 <= i < MAX_PAGES { bitmap[i] := true; }
      assert bitmap[..MAX_PAGES] == bitmap[..];
      CountAll(bitmap[..]);
      if |regions| > 0 {
        var highest := FreeRegions(regions);
        if highest > 0 && highest < LIMIT {
          var managed := highest / PAGE_SIZE;
          assert bitmap[..MAX_PAGES] == bitmap[..];
          CountTail(bitmap[..], managed);
          used := used - (MAX_PAGES - managed);
          total := managed;
        }
      } else {
        MarkPages(0x10_0000, LIMIT - 0x10_0000, false);
      }
      MarkPages(0x0, 0x10_0000, true);
      MarkPages(0x10_0000, 0x30_0000, true);
    }
  }
}
