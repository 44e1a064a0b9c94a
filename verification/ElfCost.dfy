/** What loading an executable takes (kernel/elf.c, elf_load): a frame for every page of every segment, and one
    for every page table that is not there yet. A page that two segments share is mapped, and paid for, twice. */
module ElfCost {
  import opened Paging
  import opened ElfImage

  /** The page numbers from a up to b. */
  function Range(a: nat, b: nat): (r: seq<nat>)
    ensures |r| == if a <= b then b - a else 0
  {
    seq(if a <= b then b - a else 0, i => a + i)
  }

  /** The pages the first n segments map, in the order of the loader. */
  function PageList(segs: seq<Segment>, n: nat): seq<nat>
    requires n <= |segs|
  {
    if n == 0 then []
    else PageList(segs, n - 1) + if segs[n - 1].Live() then Range(segs[n - 1].First(), segs[n - 1].End()) else []
  }

  ghost function Tables(pages: seq<nat>): set<nat> { set vp | vp in pages :: vp / 1024 }

  /** The user tables a directory has. */
  ghost function Slots(mem: seq<Frame>, pd: nat): set<nat> { set di: nat | 2 <= di < 1024 && WordAt(mem, pd, di) != 0 }

  /** Frames for these pages in a directory with these tables. */
  ghost function Cost(slots: set<nat>, pages: seq<nat>): nat { |pages| + |Tables(pages) - slots| }

  ghost function LoadCost(mem: seq<Frame>, pd: nat, segs: seq<Segment>): nat {
    Cost(Slots(mem, pd), PageList(segs, |segs|))
  }

  /** Frames for one more page. */
  ghost function Next(slots: set<nat>, vp: nat): nat { if vp / 1024 in slots then 1 else 2 }

  lemma CostNext(slots: set<nat>, pages: seq<nat>, vp: nat)
    ensures Tables(pages + [vp]) == Tables(pages) + {vp / 1024}
    ensures Cost(slots, pages + [vp]) == Cost(slots, pages) + Next(slots + Tables(pages), vp)
  {
    var t, t' := Tables(pages), Tables(pages + [vp]);
    var all := pages + [vp];
    assert all[|pages|] == vp && vp in all && vp / 1024 in t';
    assert forall x :: x in all <==> x in pages || x == vp;
    assert t' == t + {vp / 1024};
    if vp / 1024 in slots + t {
      assert t' - slots == t - slots;
    } else {
      assert t' - slots == (t - slots) + {vp / 1024};
    }
  }

  lemma {:induction false} CostMono(slots: set<nat>, a: seq<nat>, b: seq<nat>)
    ensures Cost(slots, a) <= Cost(slots, a + b)
    decreases |b|
  {
    if b == [] {
      assert a + b == a;
    } else {
      assert a + b == (a + b[..|b| - 1]) + [b[|b| - 1]];
      CostMono(slots, a, b[..|b| - 1]);
      CostNext(slots, a + b[..|b| - 1], b[|b| - 1]);
    }
  }

  lemma RangeMore(a: nat, m: nat)
    requires a <= m
    ensures Range(a, m) + [m] == Range(a, m + 1) && Range(a, a) == []
  {
  }

  /** The pages up to m of segment n are a prefix of all. */
  lemma {:induction false} ListPrefix(segs: seq<Segment>, n: nat, m: nat, all: nat)
    requires n < all <= |segs| && segs[n].Live() && segs[n].First() <= m <= segs[n].End()
    ensures exists rest: seq<nat> :: PageList(segs, all) == PageList(segs, n) + Range(segs[n].First(), m) + rest
    decreases all
  {
    var s := segs[n];
    if all == n + 1 {
      var rest := Range(m, s.End());
      assert Range(s.First(), s.End()) == Range(s.First(), m) + rest;
      assert PageList(segs, all) == PageList(segs, n) + Range(s.First(), m) + rest;
    } else {
      ListPrefix(segs, n, m, all - 1);
      var rest :| PageList(segs, all - 1) == PageList(segs, n) + Range(s.First(), m) + rest;
      var last := segs[all - 1];
      var more := if last.Live() then Range(last.First(), last.End()) else [];
      assert PageList(segs, all) == PageList(segs, n) + Range(s.First(), m) + (rest + more);
    }
  }

  /** A load that cannot pay for the next page cannot pay for all. */
  lemma CannotPay(slots: set<nat>, segs: seq<Segment>, n: nat, m: nat)
    requires n < |segs| && segs[n].Live() && segs[n].First() <= m < segs[n].End()
    ensures Cost(slots, PageList(segs, n) + Range(segs[n].First(), m + 1)) <= Cost(slots, PageList(segs, |segs|))
  {
    hide Cost, PageList, Range;
    ListPrefix(segs, n, m + 1, |segs|);
    var done := PageList(segs, n) + Range(segs[n].First(), m + 1);
    var rest :| PageList(segs, |segs|) == done + rest;
    CostMono(slots, done, rest);
  }
}
