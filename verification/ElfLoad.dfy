/** elf_load (kernel/elf.c): the image of an executable built page by page in an address space. */
module ElfLoad {
  import opened Bytes
  import opened Pmm
  import opened Paging
  import opened PagingSteps
  import opened Vmm
  import opened ElfImage
  import opened ElfCost

  // ---- how far the address space shows an image -----------------------------------------------------------------

  /** Frames in use stay what they are; a user page may only come loose. */
  ghost predicate KeptOwners(owner0: seq<Owner>, owner: seq<Owner>) {
    && |owner0| == FRAMES && |owner| == FRAMES
    && forall f: nat :: f < FRAMES && owner0[f] != NoOne ==>
       owner[f] == owner0[f] || (owner0[f].Page? && owner[f] == Loose)
  }

  /** Frames in use keep their contents, but for the directory and its tables. */
  ghost predicate KeptFrames(mem0: seq<Frame>, owner0: seq<Owner>, mem: seq<Frame>, pd: nat) {
    && |mem0| == FRAMES && |owner0| == FRAMES && |mem| == FRAMES
    && forall f: nat :: f < FRAMES && owner0[f] != NoOne && f != pd && !(owner0[f].Table? && owner0[f].dir == pd) ==>
       mem[f] == mem0[f]
  }

  ghost predicate KeptPages(img: Image, mem0: seq<Frame>, owner0: seq<Owner>, mem: seq<Frame>, pd: nat) {
    && |owner0| == FRAMES
    && forall d: nat, vp: nat :: d < FRAMES && owner0[d] == Dir && (d != pd || vp >= ELF_PAGES || img[vp].Kept?) ==>
         UserFrame(mem, d, vp) == UserFrame(mem0, d, vp)
  }

  ghost predicate FilledPage(slot: Slot, owner0: seq<Owner>, mem: seq<Frame>, pd: nat, vp: nat) {
    slot.Filled? ==>
      var f := UserFrame(mem, pd, vp); |owner0| == |mem| == FRAMES && 0 <= f < FRAMES && owner0[f] == NoOne &&
                                       mem[f] == slot.frame
  }

  ghost predicate FilledPages(img: Image, owner0: seq<Owner>, mem: seq<Frame>, pd: nat) {
    forall vp: nat :: vp < ELF_PAGES ==> FilledPage(img[vp], owner0, mem, pd, vp)
  }

  /** Directory pd shows img in frames that were free before; all else is as it was. */
  ghost predicate Shows(img: Image, mem0: seq<Frame>, owner0: seq<Owner>, mem: seq<Frame>, owner: seq<Owner>, pd: nat) {
    && KeptOwners(owner0, owner) && KeptFrames(mem0, owner0, mem, pd) && KeptPages(img, mem0, owner0, mem, pd)
    && FilledPages(img, owner0, mem, pd) && pd < FRAMES && owner0[pd] == Dir && owner[pd] == Dir
  }

  lemma ShowsNothing(mem: seq<Frame>, owner: seq<Owner>, pd: nat, img: Image)
    requires |mem| == FRAMES && |owner| == FRAMES && pd < FRAMES && owner[pd] == Dir &&
             forall vp :: 0 <= vp < ELF_PAGES ==> img[vp].Kept?
    ensures Shows(img, mem, owner, mem, owner, pd)
  {
    hide UserFrame;
  }

  // ---- a frame taken and zeroed ---------------------------------------------------------------------------------

  lemma StillNoOne(owner0: seq<Owner>, owner: seq<Owner>, p: nat)
    requires KeptOwners(owner0, owner) && p < FRAMES && owner[p] == NoOne
    ensures owner0[p] == NoOne && KeptOwners(owner0, owner[p := Loose])
  {
  }

  lemma TakenPage(img: Image, mem0: seq<Frame>, owner0: seq<Owner>, mem: seq<Frame>, owner: seq<Owner>, pd: nat,
      p: nat, x: Frame)
    requires Shows(img, mem0, owner0, mem, owner, pd) && p < FRAMES && owner[p] == NoOne
    requires VmOk(mem, owner[p := Loose])
    ensures Shows(img, mem0, owner0, mem[p := x], owner[p := Loose], pd)
  {
    hide UserFrame, VmOk, FilledPage;
    StillNoOne(owner0, owner, p);
    forall d: nat, vp: nat | d < FRAMES && owner0[d] == Dir
      ensures UserFrame(mem[p := x], d, vp) == UserFrame(mem, d, vp)
    {
      FillSame(mem, owner[p := Loose], p, x, d, vp);
    }
    forall vp: nat | vp < ELF_PAGES
      ensures FilledPage(img[vp], owner0, mem[p := x], pd, vp)
    {
      TakenFilled(img[vp], owner0, mem, owner, pd, vp, p, x);
    }
  }

  lemma TakenFilled(slot: Slot, owner0: seq<Owner>, mem: seq<Frame>, owner: seq<Owner>, pd: nat, vp: nat, p: nat,
      x: Frame)
    requires |owner| == FRAMES && pd < FRAMES && owner[pd] == Dir && p < FRAMES && owner[p] == NoOne &&
             VmOk(mem, owner[p := Loose])
    requires FilledPage(slot, owner0, mem, pd, vp) && UserFrame(mem[p := x], pd, vp) == UserFrame(mem, pd, vp) &&
             vp < ELF_PAGES
    ensures FilledPage(slot, owner0, mem[p := x], pd, vp)
  {
    hide UserFrame, VmOk;
    if slot.Filled? { UserPageOwned(mem, owner[p := Loose], pd, vp); }
  }

  lemma GivenBack(img: Image, mem0: seq<Frame>, owner0: seq<Owner>, mem: seq<Frame>, owner: seq<Owner>, pd: nat, p: nat)
    requires Shows(img, mem0, owner0, mem, owner, pd) && p < FRAMES && owner0[p] == NoOne && owner[p] == Loose
    ensures Shows(img, mem0, owner0, mem, owner[p := NoOne], pd)
  {
    hide UserFrame, FilledPages, KeptPages, KeptFrames;
  }

  // ---- a page mapped --------------------------------------------------------------------------------------------

  lemma MappedPage(img: Image, mem0: seq<Frame>, owner0: seq<Owner>, mem1: seq<Frame>, owner1: seq<Owner>,
      mem: seq<Frame>, owner: seq<Owner>, pd: nat, vp: nat, p: nat)
    requires |owner0| == FRAMES && p < FRAMES && vp < ELF_PAGES
    requires VmOk(mem1, owner1) && VmOk(mem, owner) && Shows(img, mem0, owner0, mem1, owner1, pd)
    requires PageAdded(mem1, owner1, mem, owner, pd, vp, p) && owner1[p] == Loose && owner0[p] == NoOne &&
             owner[pd] == Dir
    ensures Shows(img[vp := Filled(mem1[p])], mem0, owner0, mem, owner, pd)
  {
    hide UserFrame, VmOk, FilledPage, PageAdded, KeptOwners, KeptFrames, KeptPages, FilledPages;
    MappedOwners(mem1, owner0, owner1, mem, owner, pd, vp, p);
    MappedFrames(mem0, owner0, mem1, owner1, mem, owner, pd, vp, p);
    MappedPages(img, mem0, owner0, mem1, owner1, mem, owner, pd, vp, p);
    MappedFilled(img, owner0, mem1, owner1, mem, owner, pd, vp, p);
  }

  lemma MappedOwners(mem1: seq<Frame>, owner0: seq<Owner>, owner1: seq<Owner>, mem: seq<Frame>, owner: seq<Owner>,
      pd: nat, vp: nat, p: nat)
    requires KeptOwners(owner0, owner1) && PageAdded(mem1, owner1, mem, owner, pd, vp, p) && p < FRAMES &&
             owner0[p] == NoOne
    ensures KeptOwners(owner0, owner)
  {
    hide UserFrame, WordAt;
  }

  lemma MappedFrames(mem0: seq<Frame>, owner0: seq<Owner>, mem1: seq<Frame>, owner1: seq<Owner>, mem: seq<Frame>,
      owner: seq<Owner>, pd: nat, vp: nat, p: nat)
    requires KeptOwners(owner0, owner1) && KeptFrames(mem0, owner0, mem1, pd) &&
             PageAdded(mem1, owner1, mem, owner, pd, vp, p)
    ensures KeptFrames(mem0, owner0, mem, pd)
  {
    hide UserFrame, WordAt;
  }

  lemma MappedPages(img: Image, mem0: seq<Frame>, owner0: seq<Owner>, mem1: seq<Frame>, owner1: seq<Owner>,
      mem: seq<Frame>, owner: seq<Owner>, pd: nat, vp: nat, p: nat)
    requires KeptOwners(owner0, owner1) && KeptPages(img, mem0, owner0, mem1, pd) &&
             PageAdded(mem1, owner1, mem, owner, pd, vp, p) && vp < ELF_PAGES
    ensures KeptPages(img[vp := Filled(mem1[p])], mem0, owner0, mem, pd)
  {
    hide UserFrame, WordAt;
  }

  lemma MappedFilled(img: Image, owner0: seq<Owner>, mem1: seq<Frame>, owner1: seq<Owner>, mem: seq<Frame>,
      owner: seq<Owner>, pd: nat, vp: nat, p: nat)
    requires VmOk(mem1, owner1) && PageAdded(mem1, owner1, mem, owner, pd, vp, p) && vp < ELF_PAGES && owner1[pd] == Dir
    requires FilledPages(img, owner0, mem1, pd) && |owner0| == FRAMES && owner0[p] == NoOne && owner1[p] == Loose
    ensures FilledPages(img[vp := Filled(mem1[p])], owner0, mem, pd)
  {
    hide VmOk, UserFrame, WordAt;
    var img' := img[vp := Filled(mem1[p])];
    forall vp': nat | vp' < ELF_PAGES
      ensures FilledPage(img'[vp'], owner0, mem, pd, vp')
    {
      assert FilledPage(img[vp'], owner0, mem1, pd, vp');
      if vp' != vp && img[vp'].Filled? { UserPageOwned(mem1, owner1, pd, vp'); }
    }
  }

  // ---- a page filled --------------------------------------------------------------------------------------------

  lemma WrittenPage(img: Image, mem0: seq<Frame>, owner0: seq<Owner>, mem: seq<Frame>, owner: seq<Owner>, pd: nat,
      vp: nat, x: Frame)
    requires VmOk(mem, owner) && Shows(img, mem0, owner0, mem, owner, pd) && vp < ELF_PAGES && img[vp].Filled?
    ensures var f := UserFrame(mem, pd, vp); 0 <= f < FRAMES && AnyFrame(mem, pd, vp) == f && owner[f].Page? &&
                                             mem[f] == img[vp].frame
    ensures var f := UserFrame(mem, pd, vp); VmOk(mem[f := x], owner) &&
                                             Shows(img[vp := Filled(x)], mem0, owner0, mem[f := x], owner, pd)
  {
    hide UserFrame, VmOk, AnyFrame;
    assert FilledPage(img[vp], owner0, mem, pd, vp);
    UserPageOwned(mem, owner, pd, vp);
    var f := UserFrame(mem, pd, vp);
    var mem', img' := mem[f := x], img[vp := Filled(x)];
    FillOk(mem, owner, f, x);
    forall d: nat, vp': nat | d < FRAMES && owner0[d] == Dir
      ensures UserFrame(mem', d, vp') == UserFrame(mem, d, vp')
    {
      FillSame(mem, owner, f, x, d, vp');
    }
    WrittenFilled(img, owner0, mem, owner, pd, vp, x);
    hide FilledPage, FilledPages;
  }

  lemma WrittenFilled(img: Image, owner0: seq<Owner>, mem: seq<Frame>, owner: seq<Owner>, pd: nat, vp: nat, x: Frame)
    requires VmOk(mem, owner) && FilledPages(img, owner0, mem, pd) && vp < ELF_PAGES && img[vp].Filled? &&
             pd < FRAMES && owner[pd] == Dir
    requires 0 <= UserFrame(mem, pd, vp) < FRAMES
    requires forall vp': nat :: UserFrame(mem[UserFrame(mem, pd, vp) := x], pd, vp') == UserFrame(mem, pd, vp')
    ensures FilledPages(img[vp := Filled(x)], owner0, mem[UserFrame(mem, pd, vp) := x], pd)
  {
    hide UserFrame, VmOk;
    var f := UserFrame(mem, pd, vp);
    var mem', img' := mem[f := x], img[vp := Filled(x)];
    assert FilledPage(img[vp], owner0, mem, pd, vp);
    forall vp': nat | vp' < ELF_PAGES
      ensures FilledPage(img'[vp'], owner0, mem', pd, vp')
    {
      assert FilledPage(img[vp'], owner0, mem, pd, vp');
      if vp' != vp && img[vp'].Filled? &&
        UserFrame(mem, pd, vp') == f { UserPagesDisjoint(mem, owner, pd, vp, pd, vp'); }
    }
  }

  // ---- the loader -----------------------------------------------------------------------------------------------

  ghost predicate AtMostOneFree(owner: seq<Owner>) {
    forall f: nat, g: nat :: f < |owner| && g < |owner| && owner[f] == NoOne && owner[g] == NoOne ==> f == g
  }

  /** A zeroed frame that no one owns yet, or -1 when there is none. */
  method TakeZeroPage(vm: AddressSpaces, ghost pd: nat, ghost img: Image, ghost mem0: seq<Frame>,
      ghost owner0: seq<Owner>)
    returns (p: int)
    requires vm.Valid() && Shows(img, mem0, owner0, vm.mem[..], vm.owner, pd)
    modifies vm.mem, vm.pmm.bitmap, vm.pmm`used, vm`owner
    ensures vm.Valid() && vm.pmm.total == old(vm.pmm.total) && Shows(img, mem0, owner0, vm.mem[..], vm.owner, pd)
    ensures p == -1 <==> old(vm.pmm.used) == vm.pmm.total
    ensures p == -1 ==> AtMostOneFree(vm.owner)
    ensures p != -1 ==> 0 <= p < FRAMES && owner0[p] == NoOne && vm.owner[p] == Loose && vm.mem[p] == ZeroFrame()
    ensures vm.pmm.used == old(vm.pmm.used) + (if p == -1 then 0 else 1) <= vm.pmm.total
    ensures Slots(vm.mem[..], pd) == Slots(old(vm.mem[..]), pd)
  {
    hide VmOk, UserFrame, WordAt, ZeroFrame, KeptFrames, KeptPages, FilledPages;
    ghost var mem1, owner1 := vm.mem[..], vm.owner;
    FullIff(vm.owner, vm.pmm.bitmap[..], vm.pmm.total);
    p := vm.TakeFrame();
    if p == -1 { return; }
    StillNoOne(owner0, owner1, p);
    TakenPage(img, mem0, owner0, mem1, owner1, pd, p, ZeroFrame());
    hide KeptOwners;
    vm.ZeroLoose(p);
    SlotsElsewhere(mem1, p, ZeroFrame(), pd);
  }

  /** A zeroed frame mapped at page vp; false when memory runs out. */
  method MapZeroPage(vm: AddressSpaces, pd: nat, vp: nat, ghost img: Image, ghost mem0: seq<Frame>,
      ghost owner0: seq<Owner>) returns (ok: bool)
    requires vm.Valid() && Shows(img, mem0, owner0, vm.mem[..], vm.owner, pd) && USER_BASE / 4096 <= vp < ELF_PAGES
    modifies vm.mem, vm.pmm.bitmap, vm.pmm`used, vm`owner
    ensures vm.Valid() && vm.pmm.total == old(vm.pmm.total)
    ensures ok ==> Shows(img[vp := Filled(ZeroFrame())], mem0, owner0, vm.mem[..], vm.owner, pd)
    ensures !ok ==> Shows(img, mem0, owner0, vm.mem[..], vm.owner, pd) && AtMostOneFree(vm.owner)
    ensures var need := Next(Slots(old(vm.mem[..]), pd), vp);
            && (ok <==> old(vm.pmm.used) + need <= vm.pmm.total)
            && vm.pmm.used == old(vm.pmm.used) + (if ok then need else 0) <= vm.pmm.total
    ensures Slots(vm.mem[..], pd) == Slots(old(vm.mem[..]), pd) + if ok then {vp / 1024} else {}
  {
    hide VmOk, UserFrame, WordAt, ZeroFrame, PageAdded, Shows;
    var p := TakeZeroPage(vm, pd, img, mem0, owner0);
    if p == -1 { return false; }
    ghost var mem2, owner2 := vm.mem[..], vm.owner;
    ShowsDir(img, mem0, owner0, mem2, owner2, pd);
    FullIff(vm.owner, vm.pmm.bitmap[..], vm.pmm.total);
    var r := vm.MapUserPage(pd, 4096 * vp, p);
    if r != 0 {
      GivenBack(img, mem0, owner0, mem2, owner2, pd, p);
      vm.GiveFrame(p);
      return false;
    }
    DirStays(mem2, owner2, vm.mem[..], vm.owner, pd, vp, p);
    SlotsAfter(mem2, owner2, vm.mem[..], vm.owner, pd, vp, p);
    MappedPage(img, mem0, owner0, mem2, owner2, vm.mem[..], vm.owner, pd, vp, p);
    ok := true;
  }

  lemma ShowsDir(img: Image, mem0: seq<Frame>, owner0: seq<Owner>, mem: seq<Frame>, owner: seq<Owner>, pd: nat)
    requires Shows(img, mem0, owner0, mem, owner, pd)
    ensures pd < FRAMES && |owner0| == |owner| == FRAMES && owner0[pd] == Dir && owner[pd] == Dir
  {
  }

  lemma SlotsElsewhere(mem: seq<Frame>, f: nat, x: Frame, pd: nat)
    requires f < |mem| && f != pd
    ensures Slots(mem[f := x], pd) == Slots(mem, pd)
    ensures forall di: nat :: WordAt(mem[f := x], pd, di) == WordAt(mem, pd, di)
  {
  }

  lemma DirStays(mem0: seq<Frame>, owner0: seq<Owner>, mem: seq<Frame>, owner: seq<Owner>, pd: nat, vp: nat, p: nat)
    requires PageAdded(mem0, owner0, mem, owner, pd, vp, p) && owner0[pd] == Dir && owner0[p] == Loose
    ensures owner[pd] == Dir
  {
    hide UserFrame, WordAt;
  }

  /** vmm_get_phys_from_dir: the physical address of va, or 0. */
  method GetPhys(vm: AddressSpaces, pd: nat, va: nat) returns (phys: nat)
    requires vm.Valid() && pd < FRAMES && vm.owner[pd] == Dir && va < 0x1_0000_0000
    ensures var f := AnyFrame(vm.mem[..], pd, va / 4096); phys == if f == -1 then 0 else 4096 * f + va % 4096
  {
    hide VmOk;
    ghost var mem := vm.mem[..];
    var di, ti := va / 4096 / 1024, va / 4096 % 1024;
    TableOfDir(mem, vm.owner, pd, di);
    var pde := Word(vm.mem[pd], di);
    if !IsPresent(pde) { return 0; }
    var pte := Word(vm.mem[FrameOf(pde)], ti);
    if !IsPresent(pte) { return 0; }
    phys := 4096 * FrameOf(pte) + va % 4096;
  }

  /** memcpy8 into physical memory. */
  method StoreBytes(mem: array<Frame>, at: nat, src: seq<byte>)
    requires at + |src| <= 4096 * mem.Length
    modifies mem
    ensures mem[..] == Stored(old(mem[..]), at, src)
  {
    hide Stored;
    ghost var mem0 := mem[..];
    StoredNone(mem0, at);
    assert src[..0] == [];
    var j := 0;
    while j < |src|
      invariant 0 <= j <= |src| && mem[..] == Stored(mem0, at, src[..j])
    {
      StoredMore(mem0, at, src, j);
      var f := (at + j) / 4096;
      mem[f] := mem[f][(at + j) % 4096 := src[j]];
      j := j + 1;
    }
    assert src[..j] == src;
  }

  /** One chunk of the copy, from va on. When va starts a zeroed page of the image, that page gets the bytes. */
  method CopyChunk(vm: AddressSpaces, pd: nat, va: nat, src: seq<byte>, ghost img: Image, ghost mem0: seq<Frame>,
      ghost owner0: seq<Owner>)
    requires vm.Valid() && Shows(img, mem0, owner0, vm.mem[..], vm.owner, pd)
    requires va / 4096 < ELF_PAGES && img[va / 4096] == Filled(ZeroFrame())
    requires CopyTarget(UserFrame(vm.mem[..], pd, va / 4096), va) + |src| <= 4096 * FRAMES
    modifies vm.mem
    ensures vm.mem[..] == Stored(old(vm.mem[..]), CopyTarget(UserFrame(old(vm.mem[..]), pd, va / 4096), va), src)
    ensures va % 4096 == 0 && |src| <= 4096 ==>
              && vm.Valid() && Shows(img[va / 4096 := Filled(Padded(src))], mem0, owner0, vm.mem[..], vm.owner, pd)
              && Slots(vm.mem[..], pd) == Slots(old(vm.mem[..]), pd)
  {
    hide VmOk, UserFrame, AnyFrame, Shows, FrameAllocator.Valid, Agrees, Stored, Slots;
    ghost var vp, mem1 := va / 4096, vm.mem[..];
    ghost var x := if |src| <= 4096 then Padded(src) else ZeroFrame();
    ShowsDir(img, mem0, owner0, mem1, vm.owner, pd);
    WrittenPage(img, mem0, owner0, mem1, vm.owner, pd, vp, x);
    var phys := GetPhys(vm, pd, va);
    ghost var f := UserFrame(mem1, pd, vp);
    SlotsElsewhere(mem1, f, x, pd);
    if |src| <= 4096 { StoredPage(mem1, f, src); }
    StoreBytes(vm.mem, phys + va % 4096, src);
  }

  /** The copy loop goes page by page. */
  lemma ChunkPlace(s: Segment, size: nat, k: nat, copied: nat)
    requires s.Live() && SegmentOk(s, size) && s.vaddr % 4096 == 0 && copied < s.filesz && copied == 4096 * k
    ensures (s.vaddr + copied) / 4096 == s.First() + k && (s.vaddr + copied) % 4096 == 0
    ensures s.First() + k < s.End() && s.First() + k < ELF_PAGES && s.offset + s.filesz <= size
    ensures var n := ChunkLen(s.vaddr + copied, s.filesz - copied);
            && n == (if s.filesz - copied < 4096 then s.filesz - copied else 4096)
            && copied + n == if 4096 * (k + 1) <= s.filesz then 4096 * (k + 1) else s.filesz
  {
  }

  /** The bytes the copy loop takes for page First + k of a segment are that page's content. */
  lemma ChunkIs(file: seq<byte>, s: Segment, k: nat, n: nat)
    requires s.vaddr % 4096 == 0 && s.offset + s.filesz <= |file| && 4096 * k <= s.filesz
    requires n == if s.filesz - 4096 * k < 4096 then s.filesz - 4096 * k else 4096
    ensures Padded(file[s.offset + 4096 * k..s.offset + 4096 * k + n]) == Content(file, s, s.First() + k)
  {
    var x, y := Padded(file[s.offset + 4096 * k..s.offset + 4096 * k + n]), Content(file, s, s.First() + k);
    assert 4096 * (s.First() + k) - s.vaddr == 4096 * k;
    assert forall b :: 0 <= b < 4096 ==> x[b] == y[b];
  }

  /** The pages of one segment mapped and zeroed. */
  method MapSegment(vm: AddressSpaces, pd: nat, s: Segment, size: nat, ghost img: Image, ghost mem0: seq<Frame>,
      ghost owner0: seq<Owner>, ghost pages: seq<nat>, ghost used0: nat)
    returns (ok: bool, ghost m: nat)
    requires vm.Valid() && Shows(img, mem0, owner0, vm.mem[..], vm.owner, pd) && s.Live() && SegmentOk(s, size)
    requires Paid(vm, mem0, pd, pages, used0)
    modifies vm.mem, vm.pmm.bitmap, vm.pmm`used, vm`owner
    ensures vm.Valid() && vm.pmm.total == old(vm.pmm.total)
    ensures ok ==> Shows(Zeroed(img, s, s.End()), mem0, owner0, vm.mem[..], vm.owner, pd) &&
                   Paid(vm, mem0, pd, pages + Range(s.First(), s.End()), used0)
    ensures !ok ==> AtMostOneFree(vm.owner) && exists some: Image :: Shows(some, mem0, owner0, vm.mem[..], vm.owner, pd)
    ensures !ok ==>
              && s.First() <= m < s.End() && Paid(vm, mem0, pd, pages + Range(s.First(), m), used0)
              && vm.pmm.total < used0 + Cost(Slots(mem0, pd), pages + Range(s.First(), m + 1)) <= vm.pmm.total + 2
  {
    hide VmOk, Shows, Zeroed, AddressSpaces.Valid, ZeroFrame, Slots, Cost, Tables, Range, Next;
    var va, end := s.vaddr / 4096 * 4096, (s.vaddr + s.memsz + 4095) / 4096 * 4096;
    ZeroedStart(img, s);
    NoPages(pages, s.First());
    m := s.First();
    while va < end
      invariant vm.Valid() && vm.pmm.total == old(vm.pmm.total) && va == 4096 * m && s.First() <= m <= s.End()
      invariant Shows(Zeroed(img, s, m), mem0, owner0, vm.mem[..], vm.owner, pd)
      invariant Paid(vm, mem0, pd, pages + Range(s.First(), m), used0)
    {
      ZeroedMore(img, s, m);
      PayNext(Slots(mem0, pd), pages, s.First(), m);
      ok := MapZeroPage(vm, pd, va / 4096, Zeroed(img, s, m), mem0, owner0);
      if !ok { NextAtMost(Slots(mem0, pd) + Tables(pages + Range(s.First(), m)), m); return; }
      va := va + 4096;
      m := m + 1;
    }
    ok := true;
  }

  /** The pages mapped so far are paid for, and their tables are there. */
  ghost predicate Paid(vm: AddressSpaces, mem0: seq<Frame>, pd: nat, pages: seq<nat>, used0: nat)
    reads vm, vm.mem, vm.pmm
  {
    && Slots(vm.mem[..], pd) == Slots(mem0, pd) + Tables(pages)
    && vm.pmm.used == used0 + Cost(Slots(mem0, pd), pages) <= vm.pmm.total
  }

  lemma NoPages(pages: seq<nat>, a: nat)
    ensures pages + Range(a, a) == pages
  {
  }

  lemma PayNext(slots: set<nat>, pages: seq<nat>, a: nat, m: nat)
    requires a <= m
    ensures var done := pages + Range(a, m);
            && Tables(pages + Range(a, m + 1)) == Tables(done) + {m / 1024}
            && Cost(slots, pages + Range(a, m + 1)) == Cost(slots, done) + Next(slots + Tables(done), m)
  {
    hide Tables, Cost, Next;
    RangeMore(a, m);
    assert pages + Range(a, m + 1) == (pages + Range(a, m)) + [m];
    CostNext(slots, pages + Range(a, m), m);
  }

  lemma NextAtMost(slots: set<nat>, vp: nat)
    ensures 1 <= Next(slots, vp) <= 2
  {
  }

  lemma PageThere(vm: AddressSpaces, img: Image, mem0: seq<Frame>, owner0: seq<Owner>, pd: nat, vp: nat)
    requires vm.Valid() && Shows(img, mem0, owner0, vm.mem[..], vm.owner, pd) && vp < ELF_PAGES && img[vp].Filled?
    ensures 0 <= UserFrame(vm.mem[..], pd, vp) < FRAMES
  {
    hide VmOk, UserFrame, Shows;
    WrittenPage(img, mem0, owner0, vm.mem[..], vm.owner, pd, vp, img[vp].frame);
  }

  /** The file bytes of one segment copied into its pages; c is the first page not reached. */
  method CopySegment(vm: AddressSpaces, pd: nat, file: seq<byte>, s: Segment, ghost img: Image,
      ghost mem0: seq<Frame>, ghost owner0: seq<Owner>)
    returns (ghost c: nat)
    requires vm.Valid() && s.Live() && SegmentOk(s, |file|) && (s.filesz > 0 ==> s.vaddr % 4096 == 0)
    requires Shows(Zeroed(img, s, s.End()), mem0, owner0, vm.mem[..], vm.owner, pd)
    modifies vm.mem
    ensures vm.Valid() && (s.filesz == 0 || s.vaddr + s.filesz <= 4096 * c) &&
            Shows(Written(img, file, s, c), mem0, owner0, vm.mem[..], vm.owner, pd)
    ensures Slots(vm.mem[..], pd) == Slots(old(vm.mem[..]), pd)
  {
    hide VmOk, Shows, Zeroed, Written, AddressSpaces.Valid, ZeroFrame, Content, Slots, ChunkLen, UserFrame,
      Padded, Segment.First, Segment.End, SegmentOk;
    SegmentInFile(file, s);
    ZeroedWritten(img, file, s);
    var copied := 0;
    ghost var k := 0;
    while copied < s.filesz
      invariant vm.Valid() && copied == (if 4096 * k <= s.filesz then 4096 * k else s.filesz) && 0 <= k
      invariant Shows(Written(img, file, s, s.First() + k), mem0, owner0, vm.mem[..], vm.owner, pd)
      invariant Slots(vm.mem[..], pd) == Slots(old(vm.mem[..]), pd)
      decreases s.filesz - copied
    {
      var va := s.vaddr + copied;
      var chunk := ChunkLen(va, s.filesz - copied);
      ChunkPlace(s, |file|, k, copied);
      ChunkIs(file, s, k, chunk);
      WrittenMore(img, file, s, s.First() + k);
      PageThere(vm, Written(img, file, s, s.First() + k), mem0, owner0, pd, va / 4096);
      CopyChunk(vm, pd, va, file[s.offset + copied..s.offset + copied + chunk], Written(img, file, s, s.First() + k),
        mem0, owner0);
      copied, k := copied + chunk, k + 1;
    }
    c := s.First() + k;
    ChunksDone(s, k);
  }

  lemma SegmentInFile(file: seq<byte>, s: Segment)
    requires s.Live() && SegmentOk(s, |file|)
    ensures InFile(file, s)
  {
  }

  lemma ChunksDone(s: Segment, k: nat)
    requires s.filesz > 0 ==> s.vaddr % 4096 == 0 && s.filesz <= 4096 * k
    ensures s.filesz == 0 || s.vaddr + s.filesz <= 4096 * (s.First() + k)
  {
  }

  /** The checks elf_load makes before it maps anything. */
  method CheckHeaders(file: seq<byte>) returns (ok: bool)
    requires |file| < 0x1_0000_0000
    ensures ok == Accepts(file)
  {
    hide Half, Full, SegmentAt;
    if |file| < EHDR_SIZE || !IdentOk(file) { return false; }
    if PhNum(file) > MAX_PHNUM { return false; }
    if PhNum(file) != 0 {
      if PhEntSize(file) < PHDR_SIZE { return false; }
      if PhOff(file) + PhNum(file) * PhEntSize(file) > |file| { return false; }
    }
    var i := 0;
    while i < PhNum(file)
      invariant 0 <= i <= PhNum(file) && forall j :: 0 <= j < i ==> SegmentOk(Segments(file)[j], |file|)
    {
      var s := SegmentAt(file, i);
      assert Segments(file)[i] == s;
      if s.kind == PT_LOAD && s.memsz != 0 {
        if s.filesz > s.memsz { return false; }
        if s.filesz != 0 && s.offset + s.filesz > |file| { return false; }
        if s.vaddr < USER_BASE { return false; }
        if s.vaddr + s.memsz > USER_LIMIT { return false; }
      }
      i := i + 1;
    }
    ok := true;
  }

  /** elf_load, for segments that start on a page boundary or have no bytes in the file. An accepted file is loaded
      exactly when there are frames for all its pages and the tables they need. */
  method Load(vm: AddressSpaces, pd: nat, file: seq<byte>) returns (r: int, entry: u32)
    requires vm.Valid() && pd < FRAMES && vm.owner[pd] == Dir && |file| < 0x1_0000_0000
    requires Accepts(file) ==> PageStarts(Segments(file))
    modifies vm.mem, vm.pmm.bitmap, vm.pmm`used, vm`owner
    ensures vm.Valid() && (r == 0 || r == -1)
    ensures !Accepts(file) ==> r == -1 && vm.owner == old(vm.owner) && vm.mem[..] == old(vm.mem[..])
    ensures r == 0 ==> Accepts(file) && entry == Full(file, 24) &&
                       Shows(ImageAfter(file, Segments(file), |Segments(file)|), old(vm.mem[..]), old(vm.owner),
                         vm.mem[..], vm.owner, pd)
    ensures r == -1 && Accepts(file) ==>
              AtMostOneFree(vm.owner) &&
                exists some: Image :: Shows(some, old(vm.mem[..]), old(vm.owner), vm.mem[..], vm.owner, pd)
    ensures vm.pmm.total == old(vm.pmm.total) && old(vm.pmm.used) <= vm.pmm.total
    ensures Accepts(file) ==>
              var cost := LoadCost(old(vm.mem[..]), pd, Segments(file));
              && (r == 0 <==> cost <= vm.pmm.total - old(vm.pmm.used))
              && (r == 0 ==> vm.pmm.used == old(vm.pmm.used) + cost)
              && (r == -1 ==> vm.pmm.total - 1 <= vm.pmm.used <= vm.pmm.total)
  {
    hide VmOk, Shows, Zeroed, Written, AddressSpaces.Valid, SegmentAt, ImageAfter, Full, Half, SegmentOk, Slots, Cost,
      Tables, Range;
    entry := 0;
    ghost var mem0, owner0, used0, pages := vm.mem[..], vm.owner, vm.pmm.used, [];
    ValidLengths(vm);
    NothingPaid(vm, pd);
    var ok := CheckHeaders(file);
    if !ok { return -1, 0; }
    ghost var segs := Segments(file);
    NothingYet(file, segs, mem0, owner0, pd);
    var i := 0;
    while i < PhNum(file)
      invariant 0 <= i <= PhNum(file) && vm.Valid() &&
                Shows(ImageAfter(file, segs, i), mem0, owner0, vm.mem[..], vm.owner, pd)
      invariant vm.pmm.total == old(vm.pmm.total) && Paid(vm, mem0, pd, pages, used0) && pages == PageList(segs, i)
    {
      var s := SegmentAt(file, i);
      assert segs[i] == s;
      if s.kind == PT_LOAD && s.memsz != 0 {
        ghost var m;
        ok, m := MapSegment(vm, pd, s, |file|, ImageAfter(file, segs, i), mem0, owner0, pages, used0);
        if !ok {
          CannotPay(Slots(mem0, pd), segs, i, m);
          PayNext(Slots(mem0, pd), pages, s.First(), m);
          NextAtMost(Slots(mem0, pd) + Tables(pages + Range(s.First(), m)), m);
          return -1, 0;
        }
        pages := pages + Range(s.First(), s.End());
        ghost var c := CopySegment(vm, pd, file, s, ImageAfter(file, segs, i), mem0, owner0);
        SegmentDone(file, segs, i, c);
      } else {
        SegmentSkipped(file, segs, i);
      }
      i := i + 1;
    }
    return 0, Full(file, 24);
  }

  lemma NothingPaid(vm: AddressSpaces, pd: nat)
    requires vm.Valid()
    ensures Paid(vm, vm.mem[..], pd, [], vm.pmm.used) && PageList([], 0) == []
  {
    hide VmOk, Slots;
    FullIff(vm.owner, vm.pmm.bitmap[..], vm.pmm.total);
    assert Tables([]) == {};
  }

  lemma ValidLengths(vm: AddressSpaces)
    requires vm.Valid()
    ensures vm.mem.Length == FRAMES && |vm.owner| == FRAMES
  {
  }

  lemma NothingYet(file: seq<byte>, segs: seq<Segment>, mem: seq<Frame>, owner: seq<Owner>, pd: nat)
    requires SegmentsOk(segs, |file|) && |mem| == FRAMES && |owner| == FRAMES && pd < FRAMES && owner[pd] == Dir
    ensures Shows(ImageAfter(file, segs, 0), mem, owner, mem, owner, pd)
  {
    hide Shows;
    ShowsNothing(mem, owner, pd, ImageAfter(file, segs, 0));
  }
}
