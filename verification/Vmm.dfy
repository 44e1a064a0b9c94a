/** Address spaces (kernel/memory/vmm.c): directories, tables and user pages in physical frames. */
module Vmm {
  import opened Bytes
  import opened Pmm
  import opened Paging
  import opened PagingSteps

  const ERR_RANGE: int := -1
  const ERR_NOMEM: int := -2

  /** Free frames are those the allocator has; frames in use are managed by it. */
  ghost predicate Agrees(owner: seq<Owner>, bitmap: seq<bool>, total: nat) {
    && |owner| == FRAMES && |bitmap| == FRAMES && total <= FRAMES
    && (forall f: nat :: f < FRAMES ==> (owner[f] == NoOne <==> f < total && !bitmap[f]))
    && (forall f: nat :: f < FRAMES && (Attached(owner[f]) || owner[f] == Loose) ==> f < total && bitmap[f])
  }

  class AddressSpaces {
    const pmm: FrameAllocator
    const mem: array<Frame>
    /** What every frame is used for. */
    ghost var owner: seq<Owner>

    ghost predicate Valid()
      reads this, mem, pmm, pmm.bitmap
    {
      mem.Length == FRAMES && pmm.Valid() && Agrees(owner, pmm.bitmap[..], pmm.total) && VmOk(mem[..], owner)
    }

    constructor (pmm: FrameAllocator, mem: array<Frame>)
      ensures this.pmm == pmm && this.mem == mem
    {
      this.pmm, this.mem := pmm, mem;
      owner := [];
    }

    /** Fills table frame t with kernel entries for the frames from base on. */
    method FillIdentity(t: nat, base: nat)
      requires mem.Length == FRAMES && t < FRAMES && base + 1024 <= FRAMES
      modifies mem
      ensures forall g: nat, i: nat :: g < FRAMES && i < 1024 ==>
                WordAt(mem[..], g, i) == if g == t then Entry(base + i, KERNEL_FLAGS) else WordAt(old(mem[..]), g, i)
    {
      hide WordAt, SetWord;
      ghost var mem0 := mem[..];
      var k := 0;
      while k < 1024
        invariant 0 <= k <= 1024
        invariant forall g: nat, i: nat :: g < FRAMES && i < 1024 ==>
                    WordAt(mem[..], g, i) == if g == t &&
                      i < k then Entry(base + i, KERNEL_FLAGS) else WordAt(mem0, g, i)
      {
        PutWordAt(mem[..], t, k, Entry(base + k, KERNEL_FLAGS));
        ghost var mem1 := PutWord(mem[..], t, k, Entry(base + k, KERNEL_FLAGS));
        mem[t] := SetWord(mem[t], k, Entry(base + k, KERNEL_FLAGS));
        assert mem[..] == mem1;
        k := k + 1;
      }
    }

    /** vmm_init: the kernel directory maps the first 8 MB to itself. */
    method Init()
      requires mem.Length == FRAMES && pmm.Valid() && (forall p: nat :: p < LOW ==> pmm.bitmap[p])
      requires forall p: nat :: p < FRAMES && !pmm.bitmap[p] ==> p < pmm.total
      modifies mem, this`owner
      ensures Valid()
      ensures forall f: nat :: f < FRAMES ==> owner[f] == if pmm.bitmap[f] then Kernel else NoOne
    {
      hide WordAt, SetWord, IdentityOk, VmOk;
      ghost var bits := pmm.bitmap[..];
      mem[KERNEL_DIR] := ZeroFrame();
      FrameWords(mem[..], KERNEL_DIR);
      FillIdentity(KERNEL_TABLE0, 0);
      FillIdentity(KERNEL_TABLE1, LOW);
      PutKernelEntry(0, Entry(KERNEL_TABLE0, KERNEL_FLAGS));
      PutKernelEntry(1, Entry(KERNEL_TABLE1, KERNEL_FLAGS));
      KernelMap(mem[..]);
      owner := seq(FRAMES, f requires 0 <= f < FRAMES => if bits[f] then Kernel else NoOne);
      NothingAttached(mem[..], owner);
    }

    method PutKernelEntry(i: nat, e: u32)
      requires mem.Length == FRAMES && i < 1024
      modifies mem
      ensures forall g: nat, j: nat :: WordAt(mem[..], g, j) == if g == KERNEL_DIR &&
              j == i then e else WordAt(old(mem[..]), g, j)
    {
      hide WordAt, SetWord;
      PutWordAt(mem[..], KERNEL_DIR, i, e);
      ghost var mem1 := PutWord(mem[..], KERNEL_DIR, i, e);
      mem[KERNEL_DIR] := SetWord(mem[KERNEL_DIR], i, e);
      assert mem[..] == mem1;
    }

    /** pmm_alloc_page: the lowest free frame, or -1; the address 0 never names a free frame. */
    method TakeFrame() returns (f: int)
      requires Valid()
      modifies pmm.bitmap, pmm`used, this`owner
      ensures Valid() && pmm.total == old(pmm.total)
      ensures f == -1 <==> forall g: nat :: g < FRAMES ==> old(owner)[g] != NoOne
      ensures f == -1 ==> owner == old(owner) && pmm.bitmap[..] == old(pmm.bitmap[..]) && pmm.used == old(pmm.used)
      ensures f != -1 ==> LOW <= f < FRAMES && old(owner)[f] == NoOne && owner == old(owner)[f := Loose]
      ensures f != -1 ==> pmm.bitmap[..] == old(pmm.bitmap[..])[f := true] && pmm.used == old(pmm.used) + 1
    {
      hide VmOk;
      ghost var bits := pmm.bitmap[..];
      LowIsKernel(mem[..], owner);
      var addr := pmm.AllocPage();
      if addr == 0 {
        forall g: nat | g < FRAMES
          ensures old(owner)[g] != NoOne
        {
          assert !old(pmm.FreePageAt(g));
        }
        return -1;
      }
      f := addr / PAGE_SIZE;
      assert old(pmm.FreePageAt(f));
      TakeOk(mem[..], owner, f);
      owner := owner[f := Loose];
    }

    /** pmm_alloc_page_at and vmm_map_page for a kernel page at its own address: no word of memory changes. */
    method ClaimKernelPage(f: nat) returns (ok: bool)
      requires Valid() && LOW <= f < FRAMES
      modifies mem, pmm.bitmap, pmm`used, this`owner
      ensures Valid() && pmm.total == old(pmm.total) && mem[..] == old(mem[..])
      ensures ok <==> old(owner)[f] == NoOne
      ensures owner == if ok then old(owner)[f := Kernel] else old(owner)
    {
      hide VmOk, WordAt, SetWord, Word;
      ghost var mem0 := mem[..];
      var phys := pmm.AllocPageAt(PAGE_SIZE * f);
      if phys == 0 { return false; }
      ClaimOk(mem[..], owner, f);
      KernelWord(mem[..], owner, f);
      var table := FrameOf(Word(mem[KERNEL_DIR], 1));
      mem[table] := SetWord(mem[table], f - LOW, Entry(phys / PAGE_SIZE, KERNEL_FLAGS));
      assert mem[..] == mem0;
      owner := owner[f := Kernel];
      ok := true;
    }

    /** pmm_free_page on a frame that hangs in no directory. */
    method GiveFrame(f: nat)
      requires Valid() && f < FRAMES && owner[f] == Loose
      modifies pmm.bitmap, pmm`used, this`owner
      ensures Valid() && pmm.total == old(pmm.total) && owner == old(owner)[f := NoOne]
      ensures pmm.bitmap[..] == old(pmm.bitmap[..])[f := false] && pmm.used == old(pmm.used) - 1
    {
      hide VmOk;
      GiveOk(mem[..], owner, f);
      pmm.FreePage(PAGE_SIZE * f);
      owner := owner[f := NoOne];
    }

    /** zero_4kb on a loose frame. */
    method ZeroLoose(f: nat)
      requires Valid() && f < FRAMES && owner[f] == Loose
      modifies mem
      ensures Valid() && mem[..] == old(mem[..])[f := ZeroFrame()]
    {
      hide VmOk, SetWord;
      ghost var mem0 := mem[..];
      var i := 0;
      while i < 1024
        invariant 0 <= i <= 1024
        invariant mem[..] == mem0[f := mem[f]] && forall j :: 0 <= j < 4 * i ==> mem[f][j] == 0
      {
        ZeroWord(mem[f], i);
        mem[f] := SetWord(mem[f], i, 0);
        i := i + 1;
      }
      FillOk(mem0, owner, f, ZeroFrame());
      assert mem[f] == ZeroFrame();
    }

    /** vmm_create_directory: a directory with the kernel's two entries and nothing else, or -1. */
    method CreateDirectory() returns (pd: int)
      requires Valid()
      modifies mem, pmm.bitmap, pmm`used, this`owner
      ensures Valid() && pmm.total == old(pmm.total)
      ensures pd == -1 <==> forall g: nat :: g < FRAMES ==> old(owner)[g] != NoOne
      ensures pd == -1 ==> owner == old(owner) && mem[..] == old(mem[..]) && pmm.bitmap[..] == old(pmm.bitmap[..]) &&
                           pmm.used == old(pmm.used)
      ensures pd != -1 ==> LOW <= pd < FRAMES && old(owner)[pd] == NoOne && owner == old(owner)[pd := Dir] &&
                           EmptyDir(mem[..], pd)
      ensures pd != -1 ==> mem[..] == old(mem[..])[pd := mem[pd]]
      ensures pd != -1 ==> pmm.bitmap[..] == old(pmm.bitmap[..])[pd := true] && pmm.used == old(pmm.used) + 1
    {
      hide VmOk, WordAt, SetWord, Word, EmptyDir, ZeroFrame, Entry;
      pd := TakeFrame();
      if pd == -1 { return; }
      ghost var mem0 := mem[..];
      ZeroLoose(pd);
      KernelEntries(mem0, owner);
      NewDirectory(mem0, owner, pd);
      mem[pd] := SetWord(mem[pd], 0, Word(mem[KERNEL_DIR], 0));
      mem[pd] := SetWord(mem[pd], 1, Word(mem[KERNEL_DIR], 1));
      owner := owner[pd := Dir];
      assert mem[..] == mem0[pd := SetWord(SetWord(ZeroFrame(), 0, Entry(KERNEL_TABLE0, KERNEL_FLAGS)), 1,
        Entry(KERNEL_TABLE1, KERNEL_FLAGS))];
    }

    /** Hangs a new zeroed table into slot di of directory pd; false when no frame is left. */
    method AddTable(pd: nat, di: nat) returns (ok: bool)
      requires Valid() && pd < FRAMES && owner[pd] == Dir && 2 <= di < 1024 && WordAt(mem[..], pd, di) == 0
      modifies mem, pmm.bitmap, pmm`used, this`owner
      ensures Valid() && pmm.total == old(pmm.total)
      ensures !ok <==> forall g: nat :: g < FRAMES ==> old(owner)[g] != NoOne
      ensures !ok ==> owner == old(owner) && mem[..] == old(mem[..]) && pmm.bitmap[..] == old(pmm.bitmap[..]) &&
                      pmm.used == old(pmm.used)
      ensures ok ==> TableAdded(old(mem[..]), old(owner), mem[..], owner, pd, di)
      ensures ok ==> pmm.used == old(pmm.used) + 1
    {
      hide VmOk, WordAt, SetWord, UserFrame;
      var t := TakeFrame();
      if t == -1 { return false; }
      ghost var mem0, owner0 := old(mem[..]), old(owner);
      ZeroLoose(t);
      ghost var mem1, owner1 := mem[..], owner;
      FrameWords(mem1, t);
      ZeroedElsewhere(mem0, t, pd, di);
      TableMade(mem1, owner1, pd, di, t);
      mem[pd] := SetWord(mem[pd], di, Entry(t, USER_FLAGS));
      owner := owner[t := Table(pd, di)];
      assert mem[..] == PutWord(mem1, pd, di, Entry(t, USER_FLAGS));
      TableAddedOk(mem0, owner0, mem1, pd, di, t);
      ok := true;
    }

    /** vmm_map_user_page: fails below 8 MB or without a frame for a needed table, changing nothing;
        otherwise exactly the translation of this page in this directory changes. */
    method MapUserPage(pd: nat, virt: nat, p: nat) returns (r: int)
      requires Valid() && pd < FRAMES && owner[pd] == Dir && p < FRAMES && owner[p] == Loose && virt < 0x1_0000_0000
      modifies mem, pmm.bitmap, pmm`used, this`owner
      ensures Valid() && pmm.total == old(pmm.total)
      ensures r == if virt < LIMIT then ERR_RANGE
                   else if WordAt(old(mem[..]), pd, virt / 4096 / 1024) == 0 &&
                        (forall g: nat :: g < FRAMES ==> old(owner)[g] != NoOne) then ERR_NOMEM
                   else 0
      ensures r != 0 ==> owner == old(owner) && mem[..] == old(mem[..]) && pmm.bitmap[..] == old(pmm.bitmap[..]) &&
                         pmm.used == old(pmm.used)
      ensures r == 0 ==> PageAdded(old(mem[..]), old(owner), mem[..], owner, pd, virt / 4096, p)
      ensures r == 0 ==> pmm.used == old(pmm.used) + if WordAt(old(mem[..]), pd, virt / 4096 / 1024) == 0 then 1 else 0
    {
      hide VmOk, WordAt, SetWord, UserFrame, TableAdded, PageAdded;
      if virt < LIMIT { return ERR_RANGE; }
      var vp := virt / 4096;
      var di, ti := vp / 1024, vp % 1024;
      ghost var mem0, owner0 := mem[..], owner;
      SlotOk(mem0, owner0, pd, di);
      if !IsPresent(Word(mem[pd], di)) {
        var ok := AddTable(pd, di);
        if !ok { return ERR_NOMEM; }
        TableIsThere(mem0, owner0, mem[..], owner, pd, di, p);
      } else {
        TableWasThere(mem0, owner0, pd, di);
      }
      ghost var mem1, owner1 := mem[..], owner;
      SlotOk(mem1, owner1, pd, di);
      var t := FrameOf(Word(mem[pd], di));
      PageMapped(mem1, owner1, pd, di, t, ti, p);
      PageAddedOk(mem0, owner0, mem1, owner1, pd, vp, t, p);
      MappedAgrees(mem1, owner1, pmm.bitmap[..], pmm.total, pd, di, t, ti, p);
      mem[t] := SetWord(mem[t], ti, Entry(p, USER_FLAGS));
      owner := Mapped(mem1, owner1, t, ti, p);
      assert mem[..] == PutWord(mem1, t, ti, Entry(p, USER_FLAGS));
      r := 0;
    }
  }

  /** A table for slot di of directory pd has been made from a free frame; nothing else changed and no
      translation did. */
  ghost predicate TableAdded(mem0: seq<Frame>, owner0: seq<Owner>, mem: seq<Frame>, owner: seq<Owner>, pd: nat,
      di: nat) {
    && |mem0| == FRAMES && |owner0| == FRAMES && |mem| == FRAMES && |owner| == FRAMES && pd < FRAMES && 2 <= di < 1024
    && (forall f: nat :: f < FRAMES ==> owner[f] == owner0[f] || (owner0[f] == NoOne && owner[f] == Table(pd, di)))
    && (forall f: nat :: f < FRAMES && f != pd && owner[f] == owner0[f] ==> mem[f] == mem0[f])
    && (forall d: nat, vp: nat :: d < FRAMES && owner0[d] == Dir ==> UserFrame(mem, d, vp) == UserFrame(mem0, d, vp))
    && IsPresent(WordAt(mem, pd, di))
    && (exists t: nat :: t < FRAMES && owner0[t] == NoOne && owner == owner0[t := Table(pd, di)])
  }

  /** Frame p is now page vp of directory pd. Every other translation of every directory is as before, so
      is every frame in use but the directory and its table; at most a table was added, and a page that
      was mapped there before is loose. */
  ghost predicate PageAdded(mem0: seq<Frame>, owner0: seq<Owner>, mem: seq<Frame>, owner: seq<Owner>, pd: nat,
      vp: nat, p: nat) {
    && |mem0| == FRAMES && |owner0| == FRAMES && |mem| == FRAMES && |owner| == FRAMES && pd < FRAMES && p < FRAMES
    && (forall d: nat, vp': nat :: d < FRAMES && owner0[d] == Dir ==>
          UserFrame(mem, d, vp') == if d == pd && vp' == vp then p else UserFrame(mem0, d, vp'))
    && (forall f: nat :: f < FRAMES && owner0[f] != NoOne && f != pd && owner0[f] != Table(pd, vp / 1024) ==>
       mem[f] == mem0[f])
    && owner[p].Page?
    && (forall f: nat :: f < FRAMES && f != p ==>
          || owner[f] == owner0[f]
          || (owner0[f] == NoOne && owner[f] == Table(pd, vp / 1024) && WordAt(mem0, pd, vp / 1024) == 0)
          || (UserFrame(mem0, pd, vp) == f && owner0[f].Page? && owner[f] == Loose))
  }

  lemma KernelMap(mem: seq<Frame>)
    requires |mem| == FRAMES
    requires forall g: nat, i: nat :: (g == KERNEL_TABLE0 || g == KERNEL_TABLE1) && i < 1024 ==>
               WordAt(mem, g, i) == Entry((if g == KERNEL_TABLE0 then 0 else LOW) + i, KERNEL_FLAGS)
    requires WordAt(mem, KERNEL_DIR, 0) == Entry(KERNEL_TABLE0, KERNEL_FLAGS) &&
             WordAt(mem, KERNEL_DIR, 1) == Entry(KERNEL_TABLE1, KERNEL_FLAGS)
    requires forall di: nat :: 2 <= di < 1024 ==> WordAt(mem, KERNEL_DIR, di) == 0
    ensures IdentityOk(mem)
  {
    hide WordAt;
  }

  lemma NothingAttached(mem: seq<Frame>, owner: seq<Owner>)
    requires |mem| == FRAMES && |owner| == FRAMES && IdentityOk(mem)
    requires forall f: nat :: f < FRAMES ==>
             (owner[f] == Kernel || owner[f] == NoOne) && (f < LOW ==> owner[f] == Kernel)
    ensures VmOk(mem, owner)
  {
    hide WordAt, IdentityOk;
  }

  lemma FrameWords(mem: seq<Frame>, f: nat)
    requires f < |mem| && mem[f] == ZeroFrame()
    ensures forall i: nat :: i < 1024 ==> WordAt(mem, f, i) == 0
  {
    ZeroWords();
  }

  lemma ZeroWord(x: Frame, i: nat)
    requires i < 1024 && forall j :: 0 <= j < 4 * i ==> x[j] == 0
    ensures forall j :: 0 <= j < 4 * (i + 1) ==> SetWord(x, i, 0)[j] == 0
  {
    assert Le32(0) == [0, 0, 0, 0];
  }

  lemma LowIsKernel(mem: seq<Frame>, owner: seq<Owner>)
    requires VmOk(mem, owner)
    ensures forall f: nat :: f < LOW ==> owner[f] == Kernel
  {
    forall f: nat | f < LOW
      ensures owner[f] == Kernel
    {
      assert FrameOk(mem, owner, f);
    }
  }

  lemma KernelEntries(mem: seq<Frame>, owner: seq<Owner>)
    requires VmOk(mem, owner)
    ensures WordAt(mem, KERNEL_DIR, 0) == Word(mem[KERNEL_DIR], 0) == Entry(KERNEL_TABLE0, KERNEL_FLAGS)
    ensures WordAt(mem, KERNEL_DIR, 1) == Word(mem[KERNEL_DIR], 1) == Entry(KERNEL_TABLE1, KERNEL_FLAGS)
  {
  }

  lemma SameWord(x: Frame, i: nat)
    requires i < 1024
    ensures SetWord(x, i, Word(x, i)) == x
  {
    var s := x[4 * i..4 * i + 4];
    assert Le32(U32(s)) == s by { LeBack32(s); }
  }

  lemma KernelWord(mem: seq<Frame>, owner: seq<Owner>, f: nat)
    requires VmOk(mem, owner) && LOW <= f < FRAMES
    ensures Word(mem[KERNEL_DIR], 1) == Entry(KERNEL_TABLE1, KERNEL_FLAGS)
    ensures SetWord(mem[KERNEL_TABLE1], f - LOW, Entry(f, KERNEL_FLAGS)) == mem[KERNEL_TABLE1]
  {
    KernelEntries(mem, owner);
    assert WordAt(mem, KERNEL_TABLE1, f - LOW) == Entry(LOW + (f - LOW), KERNEL_FLAGS);
    hide SetWord, FrameOk;
    SameWord(mem[KERNEL_TABLE1], f - LOW);
  }

  lemma NewDirectory(mem: seq<Frame>, owner: seq<Owner>, f: nat)
    requires VmOk(mem, owner) && LOW <= f < FRAMES && owner[f] == Loose
    ensures var x := SetWord(SetWord(ZeroFrame(), 0, Entry(KERNEL_TABLE0, KERNEL_FLAGS)), 1,
            Entry(KERNEL_TABLE1, KERNEL_FLAGS));
            VmOk(mem[f := x], owner[f := Dir]) && EmptyDir(mem[f := x], f)
  {
    var x1 := SetWord(ZeroFrame(), 0, Entry(KERNEL_TABLE0, KERNEL_FLAGS));
    var x := SetWord(x1, 1, Entry(KERNEL_TABLE1, KERNEL_FLAGS));
    ZeroWords();
    WordSet(ZeroFrame(), 0, Entry(KERNEL_TABLE0, KERNEL_FLAGS));
    WordSet(x1, 1, Entry(KERNEL_TABLE1, KERNEL_FLAGS));
    hide VmOk, Word, SetWord;
    FillOk(mem, owner, f, x);
    DirMade(mem[f := x], owner, f);
  }

  lemma ZeroedElsewhere(mem: seq<Frame>, t: nat, g: nat, i: nat)
    requires t < |mem|
    ensures g != t ==> WordAt(mem[t := ZeroFrame()], g, i) == WordAt(mem, g, i)
  {
  }

  lemma TableAddedOk(mem0: seq<Frame>, owner0: seq<Owner>, mem1: seq<Frame>, pd: nat, di: nat, t: nat)
    requires VmOk(mem0, owner0) && pd < FRAMES && owner0[pd] == Dir && 2 <= di < 1024 && WordAt(mem0, pd, di) == 0
    requires t < FRAMES && owner0[t] == NoOne && mem1 == mem0[t := ZeroFrame()]
    ensures TableAdded(mem0, owner0, PutWord(mem1, pd, di, Entry(t, USER_FLAGS)), owner0[t := Table(pd, di)], pd, di)
  {
    var mem, owner := PutWord(mem1, pd, di, Entry(t, USER_FLAGS)), owner0[t := Table(pd, di)];
    PutWordAt(mem1, pd, di, Entry(t, USER_FLAGS));
    FrameWords(mem1, t);
    ZeroedElsewhere(mem0, t, pd, di);
    TakeOk(mem0, owner0, t);
    FillOk(mem0, owner0[t := Loose], t, ZeroFrame());
    hide VmOk, WordAt, UserFrame;
    forall d: nat, vp: nat | d < FRAMES && owner0[d] == Dir
      ensures UserFrame(mem, d, vp) == UserFrame(mem0, d, vp)
    {
      FillSame(mem0, owner0[t := Loose], t, ZeroFrame(), d, vp);
      TableMadeSame(mem1, owner0[t := Loose], pd, di, t, d, vp);
    }
  }

  /** A directory slot for user tables is empty or leads to a table of that directory. */
  lemma SlotOk(mem: seq<Frame>, owner: seq<Owner>, pd: nat, di: nat)
    requires VmOk(mem, owner) && pd < FRAMES && owner[pd] == Dir && 2 <= di < 1024
    ensures WordAt(mem, pd, di) == Word(mem[pd], di)
    ensures IsPresent(WordAt(mem, pd, di)) <==> WordAt(mem, pd, di) != 0
    ensures WordAt(mem, pd, di) != 0 ==>
            FrameOf(WordAt(mem, pd, di)) < FRAMES && owner[FrameOf(WordAt(mem, pd, di))] == Table(pd, di)
  {
    assert FrameOk(mem, owner, pd);
    assert PdeOk(mem, owner, pd, di);
  }

  lemma TableIsThere(mem0: seq<Frame>, owner0: seq<Owner>, mem: seq<Frame>, owner: seq<Owner>, pd: nat, di: nat, p: nat)
    requires TableAdded(mem0, owner0, mem, owner, pd, di) && owner0[pd] == Dir && p < FRAMES && owner0[p] == Loose
    ensures IsPresent(WordAt(mem, pd, di)) && owner[pd] == Dir && owner[p] == Loose
  {
  }

  lemma TableWasThere(mem: seq<Frame>, owner: seq<Owner>, pd: nat, di: nat)
    requires VmOk(mem, owner) && pd < FRAMES && owner[pd] == Dir && 2 <= di < 1024 && IsPresent(WordAt(mem, pd, di))
    ensures WordAt(mem, pd, di) != 0
  {
  }

  lemma PageAddedOk(mem0: seq<Frame>, owner0: seq<Owner>, mem1: seq<Frame>, owner1: seq<Owner>, pd: nat, vp: nat,
      t: nat, p: nat)
    requires VmOk(mem0, owner0) && VmOk(mem1, owner1) && pd < FRAMES && owner0[pd] == Dir && owner1[pd] == Dir &&
             p < FRAMES && owner0[p] == Loose && owner1[p] == Loose
    requires 2 <= vp / 1024 < 1024 && t < FRAMES && owner1[t] == Table(pd, vp / 1024) &&
             t == FrameOf(WordAt(mem1, pd, vp / 1024)) && IsPresent(WordAt(mem1, pd, vp / 1024))
    requires (mem1 == mem0 && owner1 == owner0) ||
             (TableAdded(mem0, owner0, mem1, owner1, pd, vp / 1024) && WordAt(mem0, pd, vp / 1024) == 0)
    ensures PageAdded(mem0, owner0, PutWord(mem1, t, vp % 1024, Entry(p, USER_FLAGS)),
            Mapped(mem1, owner1, t, vp % 1024, p), pd, vp, p)
  {
    var ti := vp % 1024;
    var mem, owner := PutWord(mem1, t, ti, Entry(p, USER_FLAGS)), Mapped(mem1, owner1, t, ti, p);
    OldPage(mem1, owner1, pd, vp, t);
    hide VmOk, WordAt, UserFrame;
    forall d: nat, vp': nat | d < FRAMES && owner0[d] == Dir
      ensures UserFrame(mem, d, vp') == if d == pd && vp' == vp then p else UserFrame(mem0, d, vp')
    {
      OneTranslation(mem1, owner1, pd, vp / 1024, t, ti, p, d, vp');
      SplitPage(vp, vp');
    }
  }

  lemma SplitPage(vp: nat, vp': nat)
    ensures vp / 1024 == vp' / 1024 && vp % 1024 == vp' % 1024 <==> vp == vp'
  {
  }

  /** The page mapped before, if any, is what the translation said. */
  lemma OldPage(mem: seq<Frame>, owner: seq<Owner>, pd: nat, vp: nat, t: nat)
    requires VmOk(mem, owner) && pd < FRAMES && owner[pd] == Dir && 2 <= vp / 1024 < 1024
    requires t < FRAMES && owner[t] == Table(pd, vp / 1024) && t == FrameOf(WordAt(mem, pd, vp / 1024)) &&
             IsPresent(WordAt(mem, pd, vp / 1024))
    ensures var e := WordAt(mem, t, vp % 1024);
            e != 0 ==> FrameOf(e) < FRAMES && UserFrame(mem, pd, vp) == FrameOf(e) &&
                       owner[FrameOf(e)] == Page(t, vp % 1024)
  {
    assert FrameOk(mem, owner, t) && FrameOk(mem, owner, pd);
    assert PteOk(mem, owner, t, vp % 1024) && PdeOk(mem, owner, pd, vp / 1024);
  }

  lemma MappedAgrees(mem: seq<Frame>, owner: seq<Owner>, bitmap: seq<bool>, total: nat, pd: nat, di: nat, t: nat,
      ti: nat, p: nat)
    requires VmOk(mem, owner) && Agrees(owner, bitmap, total) && t < FRAMES && owner[t] == Table(pd, di) && ti < 1024 &&
             p < FRAMES && owner[p] == Loose
    ensures Agrees(Mapped(mem, owner, t, ti, p), bitmap, total)
  {
    assert FrameOk(mem, owner, t);
    assert PteOk(mem, owner, t, ti);
    hide VmOk, WordAt;
  }

  /** No frame is free exactly when the allocator's counter says so. */
  lemma FullIff(owner: seq<Owner>, bits: seq<bool>, total: nat)
    requires Agrees(owner, bits, total)
    ensures Count(bits[..total]) <= total
    ensures (forall f: nat :: f < FRAMES ==> owner[f] != NoOne) <==> Count(bits[..total]) == total
  {
    var b := bits[..total];
    if forall f: nat :: f < FRAMES ==> owner[f] != NoOne {
      assert forall i :: 0 <= i < |b| ==> b[i];
      CountAll(b);
    } else {
      var f: nat :| f < FRAMES && owner[f] == NoOne;
      CountSet(b, f, true);
      CountAtMost(b[f := true]);
    }
  }

  lemma {:induction false} CountAtMost(s: seq<bool>)
    ensures Count(s) <= |s|
  {
    if s != [] { CountAtMost(s[..|s| - 1]); }
  }

  /** A directory slot is in use exactly when some frame is its table. */
  lemma SlotHasTable(mem: seq<Frame>, owner: seq<Owner>, pd: nat, di: nat)
    requires VmOk(mem, owner) && pd < FRAMES && owner[pd] == Dir && 2 <= di < 1024
    ensures WordAt(mem, pd, di) != 0 <==> exists t: nat :: t < FRAMES && owner[t] == Table(pd, di)
  {
    SlotOk(mem, owner, pd, di);
    if t: nat :| t < FRAMES && owner[t] == Table(pd, di) {
      assert FrameOk(mem, owner, t);
    }
  }

  lemma SameTables(mem1: seq<Frame>, owner1: seq<Owner>, mem: seq<Frame>, owner: seq<Owner>, child: nat, n: nat,
      p: nat, di: nat)
    requires PageAdded(mem1, owner1, mem, owner, child, n, p) && owner1[p] == Loose && di != n / 1024
    ensures (exists t: nat :: t < FRAMES && owner[t] == Table(child, di)) <==>
            (exists t: nat :: t < FRAMES && owner1[t] == Table(child, di))
  {
    hide UserFrame, WordAt;
  }

  /** Mapping a page gives its directory the one table it needs and no other. */
  lemma SlotsAfter(mem1: seq<Frame>, owner1: seq<Owner>, mem: seq<Frame>, owner: seq<Owner>, pd: nat, vp: nat, p: nat)
    requires VmOk(mem1, owner1) && VmOk(mem, owner) && pd < FRAMES && owner1[pd] == Dir && owner[pd] == Dir
    requires PageAdded(mem1, owner1, mem, owner, pd, vp, p) && 2 * 1024 <= vp < 0x10_0000 && owner1[p] == Loose
    ensures forall di: nat :: 2 <= di < 1024 ==>
              (WordAt(mem, pd, di) != 0 <==> WordAt(mem1, pd, di) != 0 || di == vp / 1024)
  {
    assert UserFrame(mem, pd, vp) == p && WordAt(mem, pd, vp / 1024) != 0;
    hide VmOk, UserFrame, WordAt;
    forall di: nat | 2 <= di < 1024 && di != vp / 1024
      ensures WordAt(mem, pd, di) != 0 <==> WordAt(mem1, pd, di) != 0
    {
      SlotHasTable(mem1, owner1, pd, di);
      SlotHasTable(mem, owner, pd, di);
      SameTables(mem1, owner1, mem, owner, pd, vp, p, di);
    }
  }
}
