/** The address-space half of process_fork (kernel/process.c): a full copy of the parent's user pages,
    or nothing but the page tables that were built on the way. */
module ForkSpace {
  import opened Bytes
  import opened Pmm
  import opened Paging
  import opened PagingSteps
  import opened Vmm
  import opened ForkCost

  /** The child's page vp is a copy of the parent's, or both have none. */
  ghost predicate Copied(mem0: seq<Frame>, parent: nat, mem: seq<Frame>, child: nat, vp: nat) {
    var p, c := UserFrame(mem0, parent, vp), UserFrame(mem, child, vp);
    if p < 0 then c < 0 else 0 <= c < |mem| && p < |mem0| && mem[c] == mem0[p]
  }

  /** Frames in use before the fork keep their owner and their contents. */
  ghost predicate Untouched(mem0: seq<Frame>, owner0: seq<Owner>, mem: seq<Frame>, owner: seq<Owner>) {
    && |mem0| == FRAMES && |owner0| == FRAMES && |mem| == FRAMES && |owner| == FRAMES
    && forall f: nat :: f < FRAMES && owner0[f] != NoOne ==> owner[f] == owner0[f] && mem[f] == mem0[f]
  }

  /** Frames taken since then all belong to the child. */
  ghost predicate AllChilds(owner0: seq<Owner>, owner: seq<Owner>, child: nat) {
    && |owner0| == FRAMES && |owner| == FRAMES
    && forall f: nat :: f < FRAMES && owner0[f] == NoOne ==>
         f == child || owner[f] == NoOne || (owner[f].Table? && owner[f].dir == child) || InSpace(owner, f, child)
  }

  /** The pages below n are copied, those from n on are not mapped yet. */
  ghost predicate CopiedUpTo(mem0: seq<Frame>, parent: nat, mem: seq<Frame>, child: nat, n: nat) {
    && (forall vp: nat :: vp < n ==> Copied(mem0, parent, mem, child, vp))
    && (forall vp: nat :: n <= vp ==> UserFrame(mem, child, vp) == -1)
  }

  ghost predicate Forking(mem0: seq<Frame>, owner0: seq<Owner>, mem: seq<Frame>, owner: seq<Owner>, parent: nat,
      child: nat, n: nat) {
    && Untouched(mem0, owner0, mem, owner) && AllChilds(owner0, owner, child)
    && parent < FRAMES && owner0[parent] == Dir && child < FRAMES && owner0[child] == NoOne && owner[child] == Dir
    && CopiedUpTo(mem0, parent, mem, child, n)
  }

  /** What was untouched translates as before. */
  lemma SameTranslation(mem0: seq<Frame>, owner0: seq<Owner>, mem: seq<Frame>, owner: seq<Owner>, d: nat, vp: nat)
    requires VmOk(mem0, owner0) && Untouched(mem0, owner0, mem, owner) && d < FRAMES && owner0[d] == Dir
    ensures UserFrame(mem, d, vp) == UserFrame(mem0, d, vp)
    ensures WordAt(mem, d, vp / 1024) == WordAt(mem0, d, vp / 1024)
  {
    TableOfDir(mem0, owner0, d, vp / 1024);
    if IsPresent(WordAt(mem0, d, vp / 1024)) {
      var t := FrameOf(WordAt(mem0, d, vp / 1024));
      assert FrameOk(mem0, owner0, t);
      assert mem[t] == mem0[t];
    }
  }

  lemma ForkStart(mem0: seq<Frame>, owner0: seq<Owner>, mem: seq<Frame>, parent: nat, child: nat)
    requires |mem0| == FRAMES && |owner0| == FRAMES && parent < FRAMES && owner0[parent] == Dir && child < FRAMES &&
             owner0[child] == NoOne
    requires |mem| == FRAMES && mem == mem0[child := mem[child]] && EmptyDir(mem, child)
    requires forall vp: nat :: vp < 2 * 1024 ==> UserFrame(mem0, parent, vp) == -1
    ensures Forking(mem0, owner0, mem, owner0[child := Dir], parent, child, 2 * 1024)
  {
    forall vp: nat
      ensures UserFrame(mem, child, vp) == -1
    {
      NoUserPages(mem, child, vp);
    }
    hide UserFrame, EmptyDir;
  }

  /** Skipping pages the parent does not have. */
  lemma ForkSkip(mem0: seq<Frame>, owner0: seq<Owner>, mem: seq<Frame>, owner: seq<Owner>, parent: nat, child: nat,
      n: nat, m: nat)
    requires Forking(mem0, owner0, mem, owner, parent, child, n) && n <= m
    requires forall vp: nat :: n <= vp < m ==> UserFrame(mem0, parent, vp) < 0
    ensures Forking(mem0, owner0, mem, owner, parent, child, m)
  {
    hide UserFrame;
  }

  /** A frame was taken for the next page: everything stands but for that one loose frame. */
  ghost predicate Between(mem0: seq<Frame>, owner0: seq<Owner>, mem: seq<Frame>, owner: seq<Owner>, parent: nat,
      child: nat, n: nat, p: nat) {
    && |owner| == FRAMES && p < FRAMES && owner[p] == Loose && |owner0| == FRAMES && owner0[p] == NoOne
    && Forking(mem0, owner0, mem, owner[p := NoOne], parent, child, n)
  }

  lemma TakenBetween(mem0: seq<Frame>, owner0: seq<Owner>, mem: seq<Frame>, owner: seq<Owner>, parent: nat,
      child: nat, n: nat, p: nat)
    requires Forking(mem0, owner0, mem, owner, parent, child, n) && p < FRAMES && owner[p] == NoOne
    ensures Between(mem0, owner0, mem, owner[p := Loose], parent, child, n, p)
  {
    assert owner[p := Loose][p := NoOne] == owner;
  }

  lemma FilledBetween(mem0: seq<Frame>, owner0: seq<Owner>, mem: seq<Frame>, owner: seq<Owner>, parent: nat,
      child: nat, n: nat, p: nat, x: Frame)
    requires VmOk(mem, owner) && Between(mem0, owner0, mem, owner, parent, child, n, p)
    ensures Between(mem0, owner0, mem[p := x], owner, parent, child, n, p)
  {
    var mem' := mem[p := x];
    hide VmOk, UserFrame;
    forall vp: nat
      ensures UserFrame(mem', child, vp) == UserFrame(mem, child, vp)
    {
      FillSame(mem, owner, p, x, child, vp);
    }
    forall vp: nat | vp < n
      ensures Copied(mem0, parent, mem', child, vp)
    {
      assert Copied(mem0, parent, mem, child, vp);
      PageIsNotLoose(mem, owner, child, vp, p);
    }
  }

  lemma PageIsNotLoose(mem: seq<Frame>, owner: seq<Owner>, d: nat, vp: nat, p: nat)
    requires VmOk(mem, owner) && d < FRAMES && owner[d] == Dir && p < FRAMES && owner[p] == Loose
    ensures UserFrame(mem, d, vp) != p
  {
    if UserFrame(mem, d, vp) >= 0 {
      InRange(mem, d, vp);
      UserPageOwned(mem, owner, d, vp);
    }
  }

  lemma InRange(mem: seq<Frame>, d: nat, vp: nat)
    requires UserFrame(mem, d, vp) >= 0
    ensures vp < 0x10_0000
  {
  }

  /** The page is mapped: one more is copied. */
  lemma MappedForking(mem0: seq<Frame>, owner0: seq<Owner>, mem1: seq<Frame>, owner1: seq<Owner>, mem: seq<Frame>,
      owner: seq<Owner>, parent: nat, child: nat, n: nat, p: nat)
    requires VmOk(mem0, owner0) && Between(mem0, owner0, mem1, owner1, parent, child, n, p) && VmOk(mem1, owner1) &&
             VmOk(mem, owner)
    requires PageAdded(mem1, owner1, mem, owner, child, n, p) && n < 0x10_0000
    requires 0 <= UserFrame(mem0, parent, n) < FRAMES && mem1[p] == mem0[UserFrame(mem0, parent, n)]
    ensures Forking(mem0, owner0, mem, owner, parent, child, n + 1)
  {
    assert UserFrame(mem, child, n) == p;
    UserPageOwned(mem, owner, child, n);
    hide VmOk, UserFrame;
    MappedOwners(mem0, owner0, mem1, owner1, mem, owner, parent, child, n, p);
    forall vp: nat | vp < n + 1
      ensures Copied(mem0, parent, mem, child, vp)
    {
      if vp < n {
        assert Copied(mem0, parent, mem1, child, vp);
        ChildPageKept(mem1, owner1, mem, owner, child, n, p, vp);
      }
    }
  }

  lemma ChildPageKept(mem1: seq<Frame>, owner1: seq<Owner>, mem: seq<Frame>, owner: seq<Owner>, child: nat, n: nat,
      p: nat, vp: nat)
    requires VmOk(mem1, owner1) && child < FRAMES && owner1[child] == Dir &&
             PageAdded(mem1, owner1, mem, owner, child, n, p) && vp != n
    ensures UserFrame(mem, child, vp) == UserFrame(mem1, child, vp)
    ensures 0 <= UserFrame(mem, child, vp) ==>
            UserFrame(mem, child, vp) < FRAMES && mem[UserFrame(mem, child, vp)] == mem1[UserFrame(mem, child, vp)]
  {
    assert UserFrame(mem, child, vp) == UserFrame(mem1, child, vp);
    if UserFrame(mem1, child, vp) >= 0 {
      InRange(mem1, child, vp);
      UserPageOwned(mem1, owner1, child, vp);
    }
  }

  lemma MappedOwners(mem0: seq<Frame>, owner0: seq<Owner>, mem1: seq<Frame>, owner1: seq<Owner>, mem: seq<Frame>,
      owner: seq<Owner>, parent: nat, child: nat, n: nat, p: nat)
    requires VmOk(mem0, owner0) && Between(mem0, owner0, mem1, owner1, parent, child, n, p) && VmOk(mem1, owner1)
    requires PageAdded(mem1, owner1, mem, owner, child, n, p) && InSpace(owner, p, child)
    ensures Untouched(mem0, owner0, mem, owner) && AllChilds(owner0, owner, child) && owner[child] == Dir
  {
    assert UserFrame(mem1, child, n) == -1;
    assert FrameOk(mem1, owner1, child);
    hide UserFrame, CopiedUpTo, VmOk;
    forall f: nat | f < FRAMES && owner0[f] != NoOne
      ensures owner[f] == owner0[f] && mem[f] == mem0[f]
    {
      NotChilds(mem0, owner0, child, f);
    }
    forall f: nat | f < FRAMES && owner0[f] == NoOne && InSpace(owner1, f, child)
      ensures InSpace(owner, f, child)
    {
    }
  }

  lemma NotChilds(mem: seq<Frame>, owner: seq<Owner>, child: nat, f: nat)
    requires VmOk(mem, owner) && child < FRAMES && owner[child] == NoOne && f < FRAMES
    ensures !(owner[f].Table? && owner[f].dir == child)
  {
    assert FrameOk(mem, owner, f);
  }

  // ---- what the copy has taken ----------------------------------------------------------------------------------

  /** The child has exactly the tables for the parent's pages below n. */
  ghost predicate SlotsFollow(mem0: seq<Frame>, parent: nat, mem: seq<Frame>, child: nat, n: nat) {
    forall di: nat :: 2 <= di < 1024 ==> (WordAt(mem, child, di) != 0 <==> di in TableSet(mem0, parent, n))
  }

  lemma SlotsNext(mem0: seq<Frame>, mem1: seq<Frame>, owner1: seq<Owner>, mem: seq<Frame>, owner: seq<Owner>,
      parent: nat, child: nat, n: nat, p: nat)
    requires VmOk(mem1, owner1) && VmOk(mem, owner) && child < FRAMES && owner1[child] == Dir && owner[child] == Dir
    requires PageAdded(mem1, owner1, mem, owner, child, n, p) && 2 * 1024 <= n < PAGES && p < FRAMES &&
             owner1[p] == Loose
    requires SlotsFollow(mem0, parent, mem1, child, n) && UserFrame(mem0, parent, n) >= 0
    ensures SlotsFollow(mem0, parent, mem, child, n + 1)
  {
    hide VmOk, UserFrame, WordAt, TableSet, PageAdded;
    CostNext(mem0, parent, n);
    SlotsAfter(mem1, owner1, mem, owner, child, n, p);
  }

  // ---- the copy as the kernel runs it ---------------------------------------------------------------------------

  lemma CopyWord(x: Frame, y: Frame, w: nat)
    requires w < 1024 && x[..4 * w] == y[..4 * w]
    ensures SetWord(x, w, Word(y, w))[..4 * (w + 1)] == y[..4 * (w + 1)]
  {
    LeBack32(y[4 * w..4 * w + 4]);
    var z := SetWord(x, w, Word(y, w));
    assert z[4 * w..4 * w + 4] == y[4 * w..4 * w + 4];
    assert y[..4 * (w + 1)] == y[..4 * w] + y[4 * w..4 * w + 4];
    assert z[..4 * (w + 1)] == z[..4 * w] + z[4 * w..4 * w + 4];
    assert z[..4 * w] == x[..4 * w];
  }

  /** Copies a frame word by word into a loose one. */
  method CopyFrame(vm: AddressSpaces, from: nat, to: nat)
    requires vm.Valid() && from < FRAMES && to < FRAMES && from != to && vm.owner[to] == Loose
    modifies vm.mem
    ensures vm.Valid() && vm.mem[..] == old(vm.mem[..])[to := old(vm.mem[from])]
  {
    hide VmOk, Word, SetWord;
    ghost var mem0 := vm.mem[..];
    var w := 0;
    while w < 1024
      invariant 0 <= w <= 1024 && vm.mem[..] == mem0[to := vm.mem[to]] && vm.mem[to][..4 * w] == mem0[from][..4 * w]
    {
      CopyWord(vm.mem[to], mem0[from], w);
      vm.mem[to] := SetWord(vm.mem[to], w, Word(vm.mem[from], w));
      w := w + 1;
    }
    assert vm.mem[to] == mem0[from];
    FillOk(mem0, vm.owner, to, mem0[from]);
  }

  /** One page of the copy; fails when a frame for the page or for its table is missing. */
  method ForkPage(vm: AddressSpaces, parent: nat, child: nat, vp: nat, src: nat, ghost mem0: seq<Frame>,
      ghost owner0: seq<Owner>) returns (ok: bool)
    requires vm.Valid() && VmOk(mem0, owner0) && Forking(mem0, owner0, vm.mem[..], vm.owner, parent, child, vp)
    requires 2 * 1024 <= vp < PAGES && src == UserFrame(mem0, parent, vp) && src < FRAMES && owner0[src] != NoOne
    requires SlotsFollow(mem0, parent, vm.mem[..], child, vp)
    modifies vm.mem, vm.pmm.bitmap, vm.pmm`used, vm`owner
    ensures vm.Valid() && vm.pmm.total == old(vm.pmm.total)
    ensures ok <==> old(vm.pmm.used) + Next(mem0, parent, vp) <= vm.pmm.total
    ensures vm.pmm.used == old(vm.pmm.used) + if ok then Next(mem0, parent, vp) else 0
    ensures Forking(mem0, owner0, vm.mem[..], vm.owner, parent, child, if ok then vp + 1 else vp)
    ensures SlotsFollow(mem0, parent, vm.mem[..], child, if ok then vp + 1 else vp)
  {
    hide VmOk, UserFrame, Forking, Between, PageAdded, WordAt, TableSet, Agrees;
    ghost var owner1 := vm.owner;
    FullIff(vm.owner, vm.pmm.bitmap[..], vm.pmm.total);
    assert WordAt(vm.mem[..], child, vp / 1024) == 0 <==> vp / 1024 !in TableSet(mem0, parent, vp);
    ForkFrames(mem0, owner0, vm.mem[..], owner1, parent, child, vp, src);
    var p := vm.TakeFrame();
    if p == -1 { return false; }
    TakenBetween(mem0, owner0, vm.mem[..], owner1, parent, child, vp, p);
    ghost var mem1 := vm.mem[..];
    CopyFrame(vm, src, p);
    FilledBetween(mem0, owner0, mem1, vm.owner, parent, child, vp, p, mem1[src]);
    ghost var mem2, owner2 := vm.mem[..], vm.owner;
    SlotsFilled(mem0, parent, mem1, child, vp, p, mem1[src]);
    FullIff(vm.owner, vm.pmm.bitmap[..], vm.pmm.total);
    var r := vm.MapUserPage(child, 4096 * vp, p);
    if r != 0 {
      vm.GiveFrame(p);
      BetweenBack(mem0, owner0, mem2, owner2, parent, child, vp, p);
      return false;
    }
    MappedForking(mem0, owner0, mem2, owner2, vm.mem[..], vm.owner, parent, child, vp, p);
    ParentRange(mem0, owner0, vm.mem[..], vm.owner, parent, child, vp + 1);
    SlotsNext(mem0, mem2, owner2, vm.mem[..], vm.owner, parent, child, vp, p);
    ok := true;
  }

  lemma SlotsFilled(mem0: seq<Frame>, parent: nat, mem: seq<Frame>, child: nat, n: nat, p: nat, x: Frame)
    requires SlotsFollow(mem0, parent, mem, child, n) && p < |mem| && p != child
    ensures SlotsFollow(mem0, parent, mem[p := x], child, n)
    ensures forall di: nat :: WordAt(mem[p := x], child, di) == WordAt(mem, child, di)
  {
    hide TableSet;
  }

  lemma ForkFrames(mem0: seq<Frame>, owner0: seq<Owner>, mem: seq<Frame>, owner: seq<Owner>, parent: nat, child: nat,
      n: nat, src: nat)
    requires Forking(mem0, owner0, mem, owner, parent, child, n) && src < FRAMES && owner0[src] != NoOne
    ensures |owner0| == FRAMES && |owner| == FRAMES && |mem| == FRAMES
    ensures child < FRAMES && owner[child] == Dir && mem[src] == mem0[src] && owner[src] == owner0[src] != NoOne
    ensures forall f: nat :: f < FRAMES && owner[f] == NoOne ==> owner0[f] == NoOne && f != child
  {
  }

  lemma BetweenBack(mem0: seq<Frame>, owner0: seq<Owner>, mem: seq<Frame>, owner: seq<Owner>, parent: nat, child: nat,
      n: nat, p: nat)
    requires Between(mem0, owner0, mem, owner, parent, child, n, p)
    ensures Forking(mem0, owner0, mem, owner[p := NoOne], parent, child, n)
  {
  }

  /** The copy has got to page n and taken what that costs. */
  ghost predicate Spent(vm: AddressSpaces, mem0: seq<Frame>, owner0: seq<Owner>, parent: nat, child: nat, n: nat,
      used0: nat)
    reads vm, vm.mem, vm.pmm
  {
    && Forking(mem0, owner0, vm.mem[..], vm.owner, parent, child, n) && SlotsFollow(mem0, parent, vm.mem[..], child, n)
    && vm.pmm.used == used0 + Cost(mem0, parent, n)
  }

  /** The next page does not fit. */
  ghost predicate Stuck(vm: AddressSpaces, mem0: seq<Frame>, parent: nat, n: nat, used0: nat)
    reads vm, vm.pmm
  {
    n < PAGES && vm.pmm.total < used0 + Cost(mem0, parent, n + 1)
  }

  lemma SlotsSkip(mem0: seq<Frame>, parent: nat, mem: seq<Frame>, child: nat, n: nat, m: nat)
    requires SlotsFollow(mem0, parent, mem, child, n) && n <= m
    requires forall vp: nat :: n <= vp < m ==> UserFrame(mem0, parent, vp) < 0
    ensures SlotsFollow(mem0, parent, mem, child, m) && Cost(mem0, parent, m) == Cost(mem0, parent, n)
  {
    hide UserFrame, WordAt;
    CostSkip(mem0, parent, n, m);
  }

  /** What the parent's tables say about one page, read from the current memory. */
  lemma ParentPage(mem0: seq<Frame>, owner0: seq<Owner>, mem: seq<Frame>, owner: seq<Owner>, parent: nat, child: nat,
      n: nat, vp: nat)
    requires VmOk(mem0, owner0) && VmOk(mem, owner) && Forking(mem0, owner0, mem, owner, parent, child, n) &&
             2 * 1024 <= vp < 0x10_0000
    ensures owner[parent] == Dir &&
            WordAt(mem, parent, vp / 1024) == WordAt(mem0, parent, vp / 1024) == Word(mem[parent], vp / 1024)
    ensures IsPresent(WordAt(mem, parent, vp / 1024)) ==>
              var t := FrameOf(WordAt(mem, parent, vp / 1024));
              && t < FRAMES && WordAt(mem, t, vp % 1024) == Word(mem[t], vp % 1024)
              && (IsPresent(WordAt(mem, t, vp % 1024)) <==> UserFrame(mem0, parent, vp) >= 0)
              && (IsPresent(WordAt(mem, t, vp % 1024)) ==>
                 UserFrame(mem0, parent, vp) == FrameOf(WordAt(mem, t, vp % 1024)))
    ensures !IsPresent(WordAt(mem, parent, vp / 1024)) ==> UserFrame(mem0, parent, vp) < 0
    ensures UserFrame(mem0, parent, vp) >= 0 ==>
            UserFrame(mem0, parent, vp) < FRAMES && owner0[UserFrame(mem0, parent, vp)] != NoOne
  {
    assert owner[parent] == Dir;
    SameTranslation(mem0, owner0, mem, owner, parent, vp);
    SlotOk(mem, owner, parent, vp / 1024);
    if UserFrame(mem0, parent, vp) >= 0 { UserPageOwned(mem0, owner0, parent, vp); }
    if IsPresent(WordAt(mem, parent, vp / 1024)) {
      var t := FrameOf(WordAt(mem, parent, vp / 1024));
      EntryOfTable(mem, owner, parent, vp / 1024, t, vp % 1024);
    }
  }

  lemma EntryOfTable(mem: seq<Frame>, owner: seq<Owner>, pd: nat, di: nat, t: nat, ti: nat)
    requires VmOk(mem, owner) && pd < FRAMES && owner[pd] == Dir && 2 <= di < 1024 && ti < 1024
    requires t == FrameOf(WordAt(mem, pd, di)) && t < FRAMES && owner[t] == Table(pd, di) &&
             IsPresent(WordAt(mem, pd, di))
    ensures IsUser(WordAt(mem, pd, di)) && (IsPresent(WordAt(mem, t, ti)) ==> IsUser(WordAt(mem, t, ti)))
  {
    assert FrameOk(mem, owner, pd) && FrameOk(mem, owner, t);
    assert PdeOk(mem, owner, pd, di) && PteOk(mem, owner, t, ti);
  }

  /** The inner loop: the pages of one table of the parent. */
  method ForkTable(vm: AddressSpaces, parent: nat, child: nat, di: nat, ghost mem0: seq<Frame>,
      ghost owner0: seq<Owner>, ghost used0: nat)
    returns (ok: bool, ghost n: nat)
    requires vm.Valid() && VmOk(mem0, owner0) && 2 <= di < 1024 &&
             Spent(vm, mem0, owner0, parent, child, 1024 * di, used0)
    requires IsPresent(WordAt(vm.mem[..], parent, di))
    modifies vm.mem, vm.pmm.bitmap, vm.pmm`used, vm`owner
    ensures vm.Valid() && vm.pmm.total == old(vm.pmm.total) && Spent(vm, mem0, owner0, parent, child, n, used0)
    ensures if ok then n == 1024 * (di + 1) else Stuck(vm, mem0, parent, n, used0)
  {
    hide VmOk, UserFrame, Forking, WordAt, Word, SlotsFollow, Cost, TableSet, Agrees;
    ParentRange(mem0, owner0, vm.mem[..], vm.owner, parent, child, 1024 * di);
    var ti := 0;
    n := 1024 * di;
    while ti < 1024
      invariant 0 <= ti <= 1024 && vm.Valid() && vm.pmm.total == old(vm.pmm.total) && n == 1024 * di + ti
      invariant Spent(vm, mem0, owner0, parent, child, n, used0)
      invariant IsPresent(WordAt(vm.mem[..], parent, di))
    {
      var vp := 1024 * di + ti;
      assert vp / 1024 == di && vp % 1024 == ti;
      ParentPage(mem0, owner0, vm.mem[..], vm.owner, parent, child, n, vp);
      var pte := Word(vm.mem[FrameOf(Word(vm.mem[parent], di))], ti);
      if IsPresent(pte) {
        CostNext(mem0, parent, vp);
        ok := ForkPage(vm, parent, child, vp, FrameOf(pte), mem0, owner0);
        if !ok { return; }
        ParentPage(mem0, owner0, vm.mem[..], vm.owner, parent, child, n + 1, vp);
      } else {
        ForkSkip(mem0, owner0, vm.mem[..], vm.owner, parent, child, n, n + 1);
        SlotsSkip(mem0, parent, vm.mem[..], child, n, n + 1);
      }
      n := n + 1;
      ti := ti + 1;
    }
    ok := true;
  }

  lemma ParentRange(mem0: seq<Frame>, owner0: seq<Owner>, mem: seq<Frame>, owner: seq<Owner>, parent: nat, child: nat,
      n: nat)
    requires Forking(mem0, owner0, mem, owner, parent, child, n)
    ensures parent < FRAMES && child < FRAMES && |mem0| == FRAMES && |owner0| == FRAMES && |mem| == FRAMES &&
            |owner| == FRAMES
    ensures owner[parent] == Dir && owner[child] == Dir && owner0[parent] == Dir && owner0[child] == NoOne
  {
  }

  lemma NoTableNoPages(mem: seq<Frame>, pd: nat, di: nat)
    requires !IsPresent(WordAt(mem, pd, di))
    ensures forall vp: nat :: 1024 * di <= vp < 1024 * (di + 1) ==> UserFrame(mem, pd, vp) < 0
  {
    forall vp: nat | 1024 * di <= vp < 1024 * (di + 1)
      ensures UserFrame(mem, pd, vp) < 0
    {
      assert vp / 1024 == di;
    }
  }

  /** Both loops: every page table and every page of the parent. */
  method ForkPages(vm: AddressSpaces, parent: nat, child: nat, ghost mem0: seq<Frame>, ghost owner0: seq<Owner>,
      ghost used0: nat)
    returns (ok: bool, ghost n: nat)
    requires vm.Valid() && VmOk(mem0, owner0) && Spent(vm, mem0, owner0, parent, child, 2 * 1024, used0)
    modifies vm.mem, vm.pmm.bitmap, vm.pmm`used, vm`owner
    ensures vm.Valid() && vm.pmm.total == old(vm.pmm.total) && Spent(vm, mem0, owner0, parent, child, n, used0)
    ensures if ok then n == PAGES else Stuck(vm, mem0, parent, n, used0)
  {
    hide VmOk, UserFrame, Forking, WordAt, Word, SlotsFollow, Cost, TableSet, Agrees;
    var di := 2;
    n := 2 * 1024;
    while di < 1024
      invariant 2 <= di <= 1024 && vm.Valid() && vm.pmm.total == old(vm.pmm.total) && n == 1024 * di
      invariant Spent(vm, mem0, owner0, parent, child, n, used0)
    {
      ParentRange(mem0, owner0, vm.mem[..], vm.owner, parent, child, n);
      assert (1024 * di) / 1024 == di;
      ParentPage(mem0, owner0, vm.mem[..], vm.owner, parent, child, n, 1024 * di);
      if IsPresent(Word(vm.mem[parent], di)) {
        ok, n := ForkTable(vm, parent, child, di, mem0, owner0, used0);
        if !ok { return; }
      } else {
        NoTableNoPages(mem0, parent, di);
        ForkSkip(mem0, owner0, vm.mem[..], vm.owner, parent, child, n, 1024 * (di + 1));
        SlotsSkip(mem0, parent, vm.mem[..], child, n, 1024 * (di + 1));
        n := 1024 * (di + 1);
      }
      di := di + 1;
    }
    ok := true;
  }

  // ---- giving up ------------------------------------------------------------------------------------------------

  /** Where in its address space a page hangs. */
  ghost function PlaceOf(owner: seq<Owner>, f: nat): nat
    requires |owner| == FRAMES && f < FRAMES
  {
    if owner[f].Page? && owner[f].table < FRAMES &&
      owner[owner[f].table].Table? then 1024 * owner[owner[f].table].di + owner[f].ti else 0
  }

  /** Frame f is a page of the child that hangs below n. */
  ghost predicate Passed(owner: seq<Owner>, f: nat, child: nat, n: nat)
    requires |owner| == FRAMES && f < FRAMES
  {
    InSpace(owner, f, child) && PlaceOf(owner, f) < n
  }

  lemma PageAtPlace(mem: seq<Frame>, owner: seq<Owner>, child: nat, f: nat)
    requires VmOk(mem, owner) && child < FRAMES && f < FRAMES && InSpace(owner, f, child)
    ensures owner[child] == Dir
    ensures var n := PlaceOf(owner, f);
            && 2 * 1024 <= n < 0x10_0000 && WordAt(mem, child, n / 1024) == Entry(owner[f].table, USER_FLAGS)
            && WordAt(mem, owner[f].table, n % 1024) == Entry(f, USER_FLAGS)
  {
    assert FrameOk(mem, owner, f);
    assert FrameOk(mem, owner, owner[f].table);
    hide WordAt;
  }

  /** No page of the child hangs where its directory has no table. */
  lemma NothingThere(mem: seq<Frame>, owner: seq<Owner>, child: nat, di: nat)
    requires VmOk(mem, owner) && child < FRAMES && !IsPresent(WordAt(mem, child, di))
    ensures forall f: nat :: f < FRAMES ==>
            (Passed(owner, f, child, 1024 * (di + 1)) <==> Passed(owner, f, child, 1024 * di))
  {
    forall f: nat | f < FRAMES
      ensures Passed(owner, f, child, 1024 * (di + 1)) <==> Passed(owner, f, child, 1024 * di)
    {
      if InSpace(owner, f, child) {
        PageAtPlace(mem, owner, child, f);
        hide VmOk, WordAt;
        assert PlaceOf(owner, f) / 1024 != di;
      }
    }
  }

  /** Exactly one page, or none, hangs at entry ti of the child's table t. */
  lemma OneThere(mem: seq<Frame>, owner: seq<Owner>, child: nat, di: nat, t: nat, ti: nat, n: nat, m: nat)
    requires VmOk(mem, owner) && child < FRAMES && owner[child] == Dir && 2 <= di < 1024 && ti < 1024 &&
             n == 1024 * di + ti && m == n + 1
    requires IsPresent(WordAt(mem, child, di)) && t == FrameOf(WordAt(mem, child, di))
    ensures t < FRAMES && WordAt(mem, t, ti) == Word(mem[t], ti)
    ensures IsPresent(WordAt(mem, t, ti)) ==>
            FrameOf(WordAt(mem, t, ti)) < FRAMES && Attached(owner[FrameOf(WordAt(mem, t, ti))])
    ensures forall f: nat :: f < FRAMES ==>
              (Passed(owner, f, child, m) <==>
                Passed(owner, f, child, n) || (IsPresent(WordAt(mem, t, ti)) && f == FrameOf(WordAt(mem, t, ti))))
    ensures IsPresent(WordAt(mem, t, ti)) ==> !Passed(owner, FrameOf(WordAt(mem, t, ti)), child, n)
  {
    hide VmOk, WordAt, IsPresent, FrameOf, Word, PlaceOf, InSpace;
    EntryThere(mem, owner, child, di, t, ti);
    forall f: nat | f < FRAMES
      ensures var e := WordAt(mem, t, ti);
              && (Passed(owner, f, child, m) <==> Passed(owner, f, child, n) || (IsPresent(e) && f == FrameOf(e)))
              && (IsPresent(e) && f == FrameOf(e) ==> !Passed(owner, f, child, n))
    {
      OnePassed(mem, owner, child, di, t, ti, f);
    }
  }

  lemma EntryThere(mem: seq<Frame>, owner: seq<Owner>, child: nat, di: nat, t: nat, ti: nat)
    requires VmOk(mem, owner) && child < FRAMES && owner[child] == Dir && 2 <= di < 1024 && ti < 1024
    requires IsPresent(WordAt(mem, child, di)) && t == FrameOf(WordAt(mem, child, di))
    ensures |mem| == FRAMES && |owner| == FRAMES && t < FRAMES && owner[t] == Table(child, di)
    ensures WordAt(mem, t, ti) == Word(mem[t], ti)
    ensures var e := WordAt(mem, t, ti);
            IsPresent(e) ==> FrameOf(e) < FRAMES && owner[FrameOf(e)] == Page(t, ti) && Attached(owner[FrameOf(e)])
  {
    assert FrameOk(mem, owner, child);
    assert PdeOk(mem, owner, child, di);
    assert FrameOk(mem, owner, t);
    assert PteOk(mem, owner, t, ti);
  }

  /** Going on by one page passes exactly the frame of that page. */
  lemma OnePassed(mem: seq<Frame>, owner: seq<Owner>, child: nat, di: nat, t: nat, ti: nat, f: nat)
    requires VmOk(mem, owner) && child < FRAMES && owner[child] == Dir && 2 <= di < 1024 && ti < 1024 && f < FRAMES
    requires IsPresent(WordAt(mem, child, di)) && t == FrameOf(WordAt(mem, child, di))
    ensures t < FRAMES
    ensures var e, n := WordAt(mem, t, ti), 1024 * di + ti;
            && (Passed(owner, f, child, n + 1) <==> Passed(owner, f, child, n) || (IsPresent(e) && f == FrameOf(e)))
            && (IsPresent(e) && f == FrameOf(e) ==> !Passed(owner, f, child, n))
  {
    hide VmOk, WordAt;
    EntryThere(mem, owner, child, di, t, ti);
    var n := 1024 * di + ti;
    assert n / 1024 == di && n % 1024 == ti;
    if InSpace(owner, f, child) { PageAtPlace(mem, owner, child, f); }
  }

  lemma AllPassed(mem: seq<Frame>, owner: seq<Owner>, child: nat)
    requires VmOk(mem, owner) && child < FRAMES
    ensures forall f: nat :: f < FRAMES ==> (Passed(owner, f, child, 0x10_0000) <==> InSpace(owner, f, child))
    ensures forall f: nat :: f < FRAMES ==> !Passed(owner, f, child, 2 * 1024)
  {
    forall f: nat | f < FRAMES
      ensures (Passed(owner, f, child, 0x10_0000) <==> InSpace(owner, f, child)) && !Passed(owner, f, child, 2 * 1024)
    {
      if InSpace(owner, f, child) { PageAtPlace(mem, owner, child, f); }
    }
  }

  /** The allocator has got back the child's pages below n. */
  ghost predicate GivenUpTo(owner: seq<Owner>, bits0: seq<bool>, bits: seq<bool>, child: nat, n: nat) {
    && |owner| == FRAMES && |bits0| == FRAMES && |bits| == FRAMES
    && forall f: nat :: f < FRAMES ==> bits[f] == (bits0[f] && !Passed(owner, f, child, n))
  }

  method FreeTable(vm: AddressSpaces, child: nat, di: nat, ghost bits0: seq<bool>)
    requires vm.mem.Length == FRAMES && vm.pmm.Valid() && VmOk(vm.mem[..], vm.owner) &&
             Agrees(vm.owner, bits0, vm.pmm.total)
    requires child < FRAMES && vm.owner[child] == Dir && 2 <= di < 1024 && IsPresent(WordAt(vm.mem[..], child, di))
    requires GivenUpTo(vm.owner, bits0, vm.pmm.bitmap[..], child, 1024 * di)
    modifies vm.pmm.bitmap, vm.pmm`used
    ensures vm.pmm.Valid() && vm.pmm.total == old(vm.pmm.total) &&
            GivenUpTo(vm.owner, bits0, vm.pmm.bitmap[..], child, 1024 * (di + 1))
  {
    hide VmOk, Passed, WordAt, Word;
    SlotOk(vm.mem[..], vm.owner, child, di);
    var t := FrameOf(Word(vm.mem[child], di));
    var ti := 0;
    while ti < 1024
      invariant 0 <= ti <= 1024 && vm.pmm.Valid() && vm.pmm.total == old(vm.pmm.total)
      invariant GivenUpTo(vm.owner, bits0, vm.pmm.bitmap[..], child, 1024 * di + ti)
    {
      OneThere(vm.mem[..], vm.owner, child, di, t, ti, 1024 * di + ti, 1024 * di + ti + 1);
      var pte := Word(vm.mem[t], ti);
      if IsPresent(pte) { vm.pmm.FreePage(PAGE_SIZE * FrameOf(pte)); }
      ti := ti + 1;
    }
  }

  /** fork_free_address_space: frees the child's pages and directory; its tables stay allocated. */
  method FreeSpace(vm: AddressSpaces, child: nat)
    requires vm.Valid() && child < FRAMES && vm.owner[child] == Dir
    modifies vm.pmm.bitmap, vm.pmm`used, vm`owner
    ensures vm.Valid() && vm.pmm.total == old(vm.pmm.total) && vm.owner == Unwound(old(vm.owner), child)
  {
    hide VmOk, Passed, WordAt, Word, InSpace;
    ghost var bits0, owner0 := vm.pmm.bitmap[..], vm.owner;
    AllPassed(vm.mem[..], vm.owner, child);
    assert GivenUpTo(vm.owner, bits0, vm.pmm.bitmap[..], child, 2 * 1024);
    var di := 2;
    while di < 1024
      invariant 2 <= di <= 1024 && vm.pmm.Valid() && vm.pmm.total == old(vm.pmm.total) && vm.owner == owner0
      invariant GivenUpTo(vm.owner, bits0, vm.pmm.bitmap[..], child, 1024 * di)
    {
      SlotOk(vm.mem[..], vm.owner, child, di);
      if IsPresent(Word(vm.mem[child], di)) {
        FreeTable(vm, child, di, bits0);
      } else {
        NothingThere(vm.mem[..], vm.owner, child, di);
      }
      di := di + 1;
    }
    DirIsNoPage(vm.owner, child);
    vm.pmm.FreePage(PAGE_SIZE * child);
    UnwindOk(vm.mem[..], vm.owner, child);
    UnwoundAgrees(vm.owner, bits0, vm.pmm.bitmap[..], vm.pmm.total, child);
    vm.owner := Unwound(vm.owner, child);
  }

  lemma DirIsNoPage(owner: seq<Owner>, child: nat)
    requires |owner| == FRAMES && child < FRAMES && owner[child] == Dir
    ensures !InSpace(owner, child, child)
  {
  }

  lemma UnwoundAgrees(owner: seq<Owner>, bits0: seq<bool>, bits: seq<bool>, total: nat, child: nat)
    requires Agrees(owner, bits0, total) && child < FRAMES && owner[child] == Dir && |bits| == FRAMES
    requires forall f: nat :: f < FRAMES ==> bits[f] == (bits0[f] && !InSpace(owner, f, child) && f != child)
    ensures Agrees(Unwound(owner, child), bits, total)
  {
  }

  // ---- process_fork ---------------------------------------------------------------------------------------------

  /** Frames that were free and are now allocated without an owner. */
  ghost function Lost(owner0: seq<Owner>, owner: seq<Owner>): (r: seq<bool>)
    requires |owner0| == FRAMES && |owner| == FRAMES
    ensures |r| == FRAMES
  {
    seq(FRAMES, f requires 0 <= f < FRAMES => owner0[f] == NoOne && owner[f] == Loose)
  }

  /** The page tables of a directory. */
  ghost function TablesOf(owner: seq<Owner>, d: nat): (r: seq<bool>)
    requires |owner| == FRAMES
    ensures |r| == FRAMES
  {
    seq(FRAMES, f requires 0 <= f < FRAMES => owner[f].Table? && owner[f].dir == d)
  }

  lemma {:induction false} CountSum(a: seq<bool>, b: seq<bool>, c: seq<bool>)
    requires |a| == |b| == |c| && forall i :: 0 <= i < |a| ==> b[i] == (a[i] || c[i]) && !(a[i] && c[i])
    ensures Count(b) == Count(a) + Count(c)
  {
    if a != [] {
      var n := |a| - 1;
      CountSum(a[..n], b[..n], c[..n]);
    }
  }

  lemma {:induction false} CountBelow(s: seq<bool>, n: nat)
    requires n <= |s| && forall i :: n <= i < |s| ==> !s[i]
    ensures Count(s) == Count(s[..n])
  {
    if n == |s| {
      assert s[..n] == s;
    } else {
      var m := |s| - 1;
      CountBelow(s[..m], n);
      assert s[..m][..n] == s[..n];
    }
  }

  /** After giving up, only the child's tables are gone from the free pages. */
  lemma OnlyTablesLost(mem0: seq<Frame>, owner0: seq<Owner>, mem: seq<Frame>, owner: seq<Owner>, parent: nat,
      child: nat, n: nat, bits0: seq<bool>, bits: seq<bool>, total: nat)
    requires Forking(mem0, owner0, mem, owner, parent, child, n) && VmOk(mem0, owner0)
    requires Agrees(owner0, bits0, total) && Agrees(Unwound(owner, child), bits, total)
    ensures Untouched(mem0, owner0, mem, Unwound(owner, child))
    ensures Lost(owner0, Unwound(owner, child)) == TablesOf(owner, child)
    ensures Count(bits[..total]) == Count(bits0[..total]) + Count(TablesOf(owner, child))
  {
    var owner', lost := Unwound(owner, child), TablesOf(owner, child);
    hide CopiedUpTo, UserFrame, VmOk;
    forall f: nat | f < FRAMES && owner0[f] != NoOne
      ensures owner'[f] == owner0[f] && !InSpace(owner, f, child) && !lost[f]
    {
      NotChilds(mem0, owner0, child, f);
      if owner[f].Page? { OldPageTable(mem0, owner0, child, f); }
    }
    assert Lost(owner0, owner') == lost;
    forall f | 0 <= f < total
      ensures bits[f] == (bits0[f] || lost[f]) && !(bits0[f] && lost[f])
    {
    }
    CountSum(bits0[..total], bits[..total], lost[..total]);
    CountBelow(lost, total);
  }

  lemma OldPageTable(mem: seq<Frame>, owner: seq<Owner>, child: nat, f: nat)
    requires VmOk(mem, owner) && child < FRAMES && owner[child] == NoOne && f < FRAMES && owner[f].Page?
    ensures owner[f].table < FRAMES && owner[owner[f].table].Table? && owner[owner[f].table].dir != child
  {
    assert FrameOk(mem, owner, f);
    NotChilds(mem, owner, child, owner[f].table);
  }

  /** As many frames are set as there are in the set. */
  lemma {:induction false} CountIsSize(s: seq<bool>)
    ensures Count(s) == |set i: nat | i < |s| && s[i]|
  {
    if s != [] {
      var n := |s| - 1;
      CountIsSize(s[..n]);
      var a, b := set i: nat | i < n && s[..n][i], set i: nat | i < |s| && s[i];
      assert b == if s[n] then a + {n} else a;
    }
  }

  lemma {:induction false} OneToOne(d: set<nat>, f: map<nat, nat>)
    requires d <= f.Keys && forall x, y :: x in d && y in d && f[x] == f[y] ==> x == y
    ensures |set x | x in d :: f[x]| == |d|
  {
    if d != {} {
      var x :| x in d;
      var d' := d - {x};
      OneToOne(d', f);
      assert (set y | y in d :: f[y]) == (set y | y in d' :: f[y]) + {f[x]};
    }
  }

  /** The child has as many tables as the parent has tables with a page below n. */
  lemma TablesBuilt(mem0: seq<Frame>, mem: seq<Frame>, owner: seq<Owner>, parent: nat, child: nat, n: nat)
    requires VmOk(mem, owner) && child < FRAMES && owner[child] == Dir && SlotsFollow(mem0, parent, mem, child, n)
    requires forall di :: di in TableSet(mem0, parent, n) ==> 2 <= di < 1024
    ensures Count(TablesOf(owner, child)) == |TableSet(mem0, parent, n)|
  {
    hide TableSet, WordAt;
    var d, t := TableSet(mem0, parent, n), TablesOf(owner, child);
    hide VmOk;
    var f := map di: nat | di < 1024 :: FrameOf(WordAt(mem, child, di));
    forall di | di in d
      ensures f[di] < FRAMES && owner[f[di]] == Table(child, di)
    {
      SlotOk(mem, owner, child, di);
    }
    forall i: nat | i < |t| && t[i]
      ensures owner[i].di in d && f[owner[i].di] == i
    {
      TableInSlot(mem, owner, child, i);
    }
    CountIsSize(t);
    OneToOne(d, f);
    assert (set i: nat | i < |t| && t[i]) == set di | di in d :: f[di];
  }

  lemma TableInSlot(mem: seq<Frame>, owner: seq<Owner>, pd: nat, t: nat)
    requires VmOk(mem, owner) && t < FRAMES && owner[t].Table? && owner[t].dir == pd
    ensures 2 <= owner[t].di < 1024 && WordAt(mem, pd, owner[t].di) != 0 && FrameOf(WordAt(mem, pd, owner[t].di)) == t
  {
    assert FrameOk(mem, owner, t);
  }

  lemma TablesInRange(mem: seq<Frame>, owner: seq<Owner>, d: nat, n: nat)
    requires VmOk(mem, owner) && d < FRAMES && owner[d] == Dir && n <= PAGES
    ensures forall di :: di in TableSet(mem, d, n) ==> 2 <= di < 1024
  {
    hide UserFrame, VmOk;
    KernelPart(mem, owner, d);
  }

  /** The address-space copy of process_fork, which takes a frame for the directory, one for each page of the
      parent and one for each of its tables that holds a page. With that many free frames the child gets the same
      pages with equal contents, in frames that were free before, and nothing else is taken. With fewer the call
      fails, and the frames not free again are the tables built for the pages that did fit: none exactly when
      there were at most two frames. In both cases every frame in use before is untouched. */
  method ForkAddressSpace(vm: AddressSpaces, parent: nat) returns (ok: bool, child: int)
    requires vm.Valid() && parent < FRAMES && vm.owner[parent] == Dir
    modifies vm.mem, vm.pmm.bitmap, vm.pmm`used, vm`owner
    ensures vm.Valid() && vm.pmm.total == old(vm.pmm.total) && old(vm.pmm.used) <= vm.pmm.total
    ensures Untouched(old(vm.mem[..]), old(vm.owner), vm.mem[..], vm.owner)
    ensures child == -1 <==> old(vm.pmm.used) == vm.pmm.total
    ensures ok <==> Cost(old(vm.mem[..]), parent, PAGES) <= vm.pmm.total - old(vm.pmm.used)
    ensures ok ==> 0 <= child < FRAMES && old(vm.owner)[child] == NoOne && vm.owner[child] == Dir
    ensures ok ==> vm.pmm.used == old(vm.pmm.used) + Cost(old(vm.mem[..]), parent, PAGES) &&
                   AllChilds(old(vm.owner), vm.owner, child)
    ensures ok ==> forall vp: nat :: vp < PAGES ==> Copied(old(vm.mem[..]), parent, vm.mem[..], child, vp)
    ensures ok ==> forall vp: nat :: vp < PAGES && UserFrame(vm.mem[..], child, vp) >= 0 ==>
              UserFrame(vm.mem[..], child, vp) < FRAMES && old(vm.owner)[UserFrame(vm.mem[..], child, vp)] == NoOne
    ensures !ok && child == -1 ==>
            vm.owner == old(vm.owner) && vm.mem[..] == old(vm.mem[..]) && vm.pmm.used == old(vm.pmm.used)
    ensures !ok && child != -1 ==>
              && vm.pmm.used == old(vm.pmm.used) + Built(old(vm.mem[..]), parent, vm.pmm.total - old(vm.pmm.used))
              && (vm.pmm.used == old(vm.pmm.used) <==> vm.pmm.total - old(vm.pmm.used) <= 2)
              && Count(Lost(old(vm.owner), vm.owner)) == vm.pmm.used - old(vm.pmm.used)
              && forall f: nat :: f < FRAMES && old(vm.owner)[f] == NoOne ==>
                 vm.owner[f] == NoOne || vm.owner[f] == Loose
  {
    hide VmOk, UserFrame, Forking, WordAt, EmptyDir, Copied, SlotsFollow, Cost, TableSet, Reached, AllChilds, Built,
      Agrees, Untouched, Lost;
    ghost var mem0, owner0, bits0, used0 := vm.mem[..], vm.owner, vm.pmm.bitmap[..], vm.pmm.used;
    FullIff(owner0, bits0, vm.pmm.total);
    NothingTouched(mem0, owner0);
    CostMono(mem0, parent, 0, PAGES);
    CostNothing(mem0, parent, 0);
    child := vm.CreateDirectory();
    if child == -1 { return false, child; }
    KernelPart(mem0, owner0, parent);
    ForkStart(mem0, owner0, vm.mem[..], parent, child);
    SlotsStart(mem0, parent, vm.mem[..], child);
    ghost var n;
    ok, n := ForkPages(vm, parent, child, mem0, owner0, used0);
    FullIff(vm.owner, vm.pmm.bitmap[..], vm.pmm.total);
    if ok {
      ForkDone(mem0, owner0, vm.mem[..], vm.owner, parent, child);
    } else {
      CostMono(mem0, parent, n + 1, PAGES);
      GiveUp(vm, parent, child, mem0, owner0, bits0, used0, n);
    }
  }

  /** The failed half of the copy: what is left after it got stuck at page n. */
  method GiveUp(vm: AddressSpaces, parent: nat, child: nat, ghost mem0: seq<Frame>, ghost owner0: seq<Owner>,
      ghost bits0: seq<bool>, ghost used0: nat, ghost n: nat)
    requires vm.Valid() && VmOk(mem0, owner0) && Agrees(owner0, bits0, vm.pmm.total) &&
             used0 == Count(bits0[..vm.pmm.total])
    requires Spent(vm, mem0, owner0, parent, child, n, used0) && Stuck(vm, mem0, parent, n, used0) &&
             vm.pmm.used <= vm.pmm.total
    modifies vm.pmm.bitmap, vm.pmm`used, vm`owner
    ensures vm.Valid() && vm.pmm.total == old(vm.pmm.total) && Untouched(mem0, owner0, vm.mem[..], vm.owner)
    ensures var free := vm.pmm.total - used0;
            free > 0 && vm.pmm.used == used0 + Built(mem0, parent, free) && (vm.pmm.used == used0 <==> free <= 2)
    ensures Count(Lost(owner0, vm.owner)) == vm.pmm.used - used0
    ensures forall f: nat :: f < FRAMES && owner0[f] == NoOne ==> vm.owner[f] == NoOne || vm.owner[f] == Loose
  {
    hide VmOk, UserFrame, Forking, WordAt, SlotsFollow, Cost, TableSet, Reached, Agrees, Untouched, Unwound, Lost,
      TablesOf;
    ghost var mid, free := vm.owner, vm.pmm.total - used0;
    ParentRange(mem0, owner0, vm.mem[..], mid, parent, child, n);
    CostMono(mem0, parent, 0, n);
    CostNothing(mem0, parent, 0);
    CostMono(mem0, parent, n + 1, PAGES);
    TablesInRange(mem0, owner0, parent, n);
    TablesBuilt(mem0, vm.mem[..], mid, parent, child, n);
    ReachedIs(mem0, parent, free, PAGES, n);
    NothingBuilt(mem0, parent, free);
    FreeSpace(vm, child);
    OnlyTablesLost(mem0, owner0, vm.mem[..], mid, parent, child, n, bits0, vm.pmm.bitmap[..], vm.pmm.total);
    UnwoundFree(mem0, owner0, vm.mem[..], mid, parent, child, n);
  }

  lemma NothingTouched(mem: seq<Frame>, owner: seq<Owner>)
    requires VmOk(mem, owner)
    ensures |mem| == FRAMES && |owner| == FRAMES && Untouched(mem, owner, mem, owner)
  {
  }

  lemma SlotsStart(mem0: seq<Frame>, parent: nat, mem: seq<Frame>, child: nat)
    requires EmptyDir(mem, child) && forall vp: nat :: vp < 2 * 1024 ==> UserFrame(mem0, parent, vp) == -1
    ensures SlotsFollow(mem0, parent, mem, child, 2 * 1024) && Cost(mem0, parent, 2 * 1024) == 1
  {
    hide UserFrame, WordAt;
    CostNothing(mem0, parent, 2 * 1024);
  }

  lemma KernelPart(mem: seq<Frame>, owner: seq<Owner>, d: nat)
    requires VmOk(mem, owner) && d < FRAMES && owner[d] == Dir
    ensures forall vp: nat :: vp < 2 * 1024 ==> UserFrame(mem, d, vp) == -1
  {
    forall vp: nat | vp < 2 * 1024
      ensures UserFrame(mem, d, vp) == -1
    {
      Identity(mem, owner, d, vp);
    }
  }

  lemma UnwoundFree(mem0: seq<Frame>, owner0: seq<Owner>, mem: seq<Frame>, owner: seq<Owner>, parent: nat, child: nat,
      n: nat)
    requires Forking(mem0, owner0, mem, owner, parent, child, n)
    ensures forall f: nat :: f < FRAMES && owner0[f] == NoOne ==>
            Unwound(owner, child)[f] == NoOne || Unwound(owner, child)[f] == Loose
  {
    hide CopiedUpTo;
  }

  lemma ForkDone(mem0: seq<Frame>, owner0: seq<Owner>, mem: seq<Frame>, owner: seq<Owner>, parent: nat, child: nat)
    requires VmOk(mem0, owner0) && VmOk(mem, owner) && Forking(mem0, owner0, mem, owner, parent, child, 0x10_0000)
    ensures Untouched(mem0, owner0, mem, owner) && AllChilds(owner0, owner, child) && child < FRAMES &&
            owner0[child] == NoOne && owner[child] == Dir
    ensures forall vp: nat :: vp < 0x10_0000 ==> Copied(mem0, parent, mem, child, vp)
    ensures forall vp: nat :: vp < 0x10_0000 && UserFrame(mem, child, vp) >= 0 ==>
              UserFrame(mem, child, vp) < FRAMES && owner0[UserFrame(mem, child, vp)] == NoOne
  {
    hide VmOk, UserFrame;
    forall vp: nat | vp < 0x10_0000 && UserFrame(mem, child, vp) >= 0
      ensures UserFrame(mem, child, vp) < FRAMES && owner0[UserFrame(mem, child, vp)] == NoOne
    {
      UserPageOwned(mem, owner, child, vp);
      var c := UserFrame(mem, child, vp);
      if owner0[c] != NoOne {
        assert owner[c] == owner0[c];
        OldPageTable(mem0, owner0, child, c);
      }
    }
  }
}
