/** A fork with too few frames, from boot on. */
module ForkLoses {
  import opened Pmm
  import opened Paging
  import opened PagingSteps
  import opened Vmm
  import opened ForkCost
  import opened ForkSpace

  /** All pages but those from lo up to hi are in use. */
  lemma {:induction false} CountGap(s: seq<bool>, lo: nat, hi: nat)
    requires lo <= hi <= |s| && forall i :: 0 <= i < |s| ==> s[i] == !(lo <= i < hi)
    ensures Count(s) == |s| - (hi - lo)
    decreases hi - lo
  {
    if lo == hi {
      CountAll(s);
    } else {
      CountSet(s, lo, true);
      CountGap(s[lo := true], lo + 1, hi);
    }
  }

  /** Boot on a machine with seven free pages. */
  method Boot() returns (vm: AddressSpaces)
    ensures vm.Valid() && vm.pmm.total == vm.pmm.used + 7
    ensures fresh(vm) && fresh(vm.mem) && fresh(vm.pmm) && fresh(vm.pmm.bitmap)
  {
    hide VmOk;
    var pmm := new FrameAllocator();
    pmm.Init([Region(PAGE_SIZE * 1024, PAGE_SIZE * 7, true)]);
    var mem := new Frame[FRAMES](_ => ZeroFrame());
    SevenPages(pmm.bitmap[..], pmm.total);
    vm := new AddressSpaces(pmm, mem);
    vm.Init();
  }

  lemma SevenPages(bits: seq<bool>, total: nat)
    requires |bits| == MAX_PAGES && total <= MAX_PAGES
    requires forall p: nat :: p < MAX_PAGES ==>
             (!bits[p] <==> RESERVED_PAGES <= p && Covered([Region(PAGE_SIZE * 1024, PAGE_SIZE * 7, true)], p))
    requires forall p: nat :: p < MAX_PAGES && !bits[p] ==> p < total
    ensures Count(bits[..total]) + 7 == total
    ensures forall p: nat :: p < MAX_PAGES ==> (!bits[p] <==> 1024 <= p < 1031)
  {
    var r := Region(PAGE_SIZE * 1024, PAGE_SIZE * 7, true);
    forall p: nat | p < MAX_PAGES
      ensures !bits[p] <==> 1024 <= p < 1031
    {
      assert r in [r] && (Covered([r], p) <==> Covers(r, p));
    }
    assert !bits[1030];
    CountGap(bits[..total], 1024, 1031);
  }

  lemma TwoPages(mem: seq<Frame>, pd: nat)
    requires forall vp: nat :: UserFrame(mem, pd, vp) >= 0 <==> vp == 2048 || vp == 2049
    ensures TableSet(mem, pd, PAGES) == {2} && Cost(mem, pd, PAGES) == 4
  {
    hide UserFrame;
    assert PageSet(mem, pd, PAGES) == {2048, 2049};
    assert 2048 in PageSet(mem, pd, PAGES);
    assert TableSet(mem, pd, PAGES) == {2};
  }

  /** Gives a directory one more page. */
  method AddPage(vm: AddressSpaces, pd: nat, vp: nat)
    requires vm.Valid() && pd < FRAMES && vm.owner[pd] == Dir && 2048 <= vp < PAGES && vm.pmm.used + 2 <= vm.pmm.total
    modifies vm.mem, vm.pmm.bitmap, vm.pmm`used, vm`owner
    ensures vm.Valid() && vm.pmm.total == old(vm.pmm.total) && vm.owner[pd] == Dir &&
            WordAt(vm.mem[..], pd, vp / 1024) != 0
    ensures vm.pmm.used == old(vm.pmm.used) + 1 + if WordAt(old(vm.mem[..]), pd, vp / 1024) == 0 then 1 else 0
    ensures forall vp': nat :: UserFrame(vm.mem[..], pd, vp') >= 0 <==>
            vp' == vp || UserFrame(old(vm.mem[..]), pd, vp') >= 0
  {
    hide VmOk, UserFrame, WordAt, Agrees, PageAdded;
    FrameCount(vm);
    var p := vm.TakeFrame();
    FrameCount(vm);
    ghost var mem0, owner0 := vm.mem[..], vm.owner;
    var r := vm.MapUserPage(pd, 4096 * vp, p);
    PageFacts(mem0, owner0, vm.mem[..], vm.owner, pd, vp, p);
  }

  lemma FrameCount(vm: AddressSpaces)
    requires vm.Valid()
    ensures |vm.owner| == FRAMES
    ensures (forall f: nat :: f < FRAMES ==> vm.owner[f] != NoOne) <==> vm.pmm.used == vm.pmm.total
  {
    hide VmOk;
    FullIff(vm.owner, vm.pmm.bitmap[..], vm.pmm.total);
  }

  lemma PageFacts(mem0: seq<Frame>, owner0: seq<Owner>, mem: seq<Frame>, owner: seq<Owner>, pd: nat, vp: nat, p: nat)
    requires PageAdded(mem0, owner0, mem, owner, pd, vp, p) && owner0[pd] == Dir && owner0[p] == Loose
    ensures owner[pd] == Dir && WordAt(mem, pd, vp / 1024) != 0
    ensures forall vp': nat :: UserFrame(mem, pd, vp') >= 0 <==> vp' == vp || UserFrame(mem0, pd, vp') >= 0
  {
    assert UserFrame(mem, pd, vp) == p;
    hide WordAt;
    assert IsPresent(WordAt(mem, pd, vp / 1024));
  }

  lemma EmptySpace(mem: seq<Frame>, pd: nat)
    requires EmptyDir(mem, pd)
    ensures WordAt(mem, pd, 2) == 0 && forall vp: nat :: UserFrame(mem, pd, vp) < 0
  {
    forall vp: nat
      ensures UserFrame(mem, pd, vp) < 0
    {
      NoUserPages(mem, pd, vp);
    }
  }

  /** A process with two pages in one table, so four frames, forks when three are left: the call fails, and the table it
      had built for the child's first page stays allocated. */
  method LosesTable() returns (vm: AddressSpaces, ok: bool, child: int, before: nat)
    ensures vm.Valid() && !ok && child != -1
    ensures vm.pmm.total == before + 3 && vm.pmm.used == before + 1
  {
    hide VmOk, UserFrame, WordAt, EmptyDir, Cost, TableSet, Built, Agrees, Untouched, AllChilds, Lost;
    vm := Boot();
    FrameCount(vm);
    var parent := vm.CreateDirectory();
    FrameCount(vm);
    EmptySpace(vm.mem[..], parent);
    AddPage(vm, parent, 2048);
    AddPage(vm, parent, 2049);
    TwoPages(vm.mem[..], parent);
    OneBuilt(vm.mem[..], parent);
    before := vm.pmm.used;
    FrameCount(vm);
    ok, child := ForkAddressSpace(vm, parent);
  }

  lemma OneBuilt(mem: seq<Frame>, pd: nat)
    requires TableSet(mem, pd, PAGES) == {2} && Cost(mem, pd, PAGES) == 4
    ensures Built(mem, pd, 3) == 1
  {
    hide TableSet, Cost, Reached;
    NothingBuilt(mem, pd, 3);
    var m := Reached(mem, pd, 3, PAGES);
    CostMono(mem, pd, m, PAGES);
    Inside(TableSet(mem, pd, m), {2});
  }

  lemma Inside(a: set<nat>, b: set<nat>)
    requires a <= b
    ensures |a| <= |b|
  {
    assert b == a + (b - a);
  }
}
