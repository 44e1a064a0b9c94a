/** sys_fork as a whole (kernel/syscall.c, kernel/process.c): the process table, the fd table and the pipes
    together with the address spaces the processes run in. */
module Processes {
  import opened Paging
  import opened Vmm
  import opened ForkCost
  import opened ForkSpace
  import opened Protocol
  import opened ProtocolSteps
  import opened ProtocolRuns
  import opened ProtocolTheorems
  import opened ProtocolEffects
  import opened Kernel

  /** The process in slot s is complete: it has an address space. */
  ghost predicate Complete(S: Sys, s: nat) {
    Shape(S) && s < PROCESS_MAX && S.procs[s].state != Unused && !S.calls[s].Newborn?
  }

  /** Every complete process has a page directory, and no two have the same. */
  ghost predicate Homes(S: Sys, cr3: seq<nat>, owner: seq<Owner>) {
    && |cr3| == PROCESS_MAX && |owner| == FRAMES
    && (forall s: nat :: Complete(S, s) ==> cr3[s] < FRAMES && owner[cr3[s]] == Dir)
    && (forall s: nat, t: nat :: Complete(S, s) && Complete(S, t) && cr3[s] == cr3[t] ==> s == t)
  }

  /** Directory d translates every page as before, to the same bytes. */
  ghost predicate SameSpace(mem0: seq<Frame>, mem: seq<Frame>, d: nat) {
    forall vp: nat :: vp < PAGES ==>
      && UserFrame(mem, d, vp) == UserFrame(mem0, d, vp)
      && var f := UserFrame(mem, d, vp); 0 <= f < |mem| && f < |mem0| ==> mem[f] == mem0[f]
  }

  lemma UntouchedSpace(mem0: seq<Frame>, owner0: seq<Owner>, mem: seq<Frame>, owner: seq<Owner>, d: nat)
    requires VmOk(mem0, owner0) && Untouched(mem0, owner0, mem, owner) && d < FRAMES && owner0[d] == Dir
    ensures SameSpace(mem0, mem, d)
  {
    hide VmOk, UserFrame;
    forall vp: nat | vp < PAGES
      ensures UserFrame(mem, d, vp) == UserFrame(mem0, d, vp)
      ensures var f := UserFrame(mem, d, vp); 0 <= f < |mem| && f < |mem0| ==> mem[f] == mem0[f]
    {
      SameTranslation(mem0, owner0, mem, owner, d, vp);
      if UserFrame(mem0, d, vp) >= 0 { UserPageOwned(mem0, owner0, d, vp); }
    }
  }

  /** The complete processes after a fork are those before it and, if it succeeds, the child. */
  lemma CompleteAfter(S: Sys, memory: bool)
    requires Runs(S)
    ensures var c := FirstUnused(S.procs, 0);
            forall s: nat :: Complete(Fork(S, memory), s) ==> Complete(S, s) || (memory && s == c)
  {
    hide FdAt;
    var c := FirstUnused(S.procs, 0);
    if c >= 0 { CopyKeeps(Claim(S, c, Ready), S.current, c, 0); }
    hide CopyRow;
  }

  lemma HomesAfter(S: Sys, memory: bool, cr3: seq<nat>, cr3': seq<nat>, owner: seq<Owner>, owner': seq<Owner>)
    requires Runs(S) && Homes(S, cr3, owner) && |owner'| == FRAMES && |cr3'| == PROCESS_MAX
    requires forall f: nat :: f < FRAMES && owner[f] == Dir ==> owner'[f] == Dir
    requires var c := FirstUnused(S.procs, 0);
             && (forall s: nat :: s < PROCESS_MAX && s != c ==> cr3'[s] == cr3[s])
             && (memory && c >= 0 ==> cr3'[c] < FRAMES && owner'[cr3'[c]] == Dir && owner[cr3'[c]] != Dir)
    ensures Homes(Fork(S, memory), cr3', owner')
  {
    CompleteAfter(S, memory);
    hide Fork;
  }

  /** Frames a copy that fails loses; without a frame for the directory there is none to lose. */
  ghost function Lose(mem: seq<Frame>, d: nat, free: nat): nat { if free == 0 then 0 else Built(mem, d, free) }

  /** The copy of address space d with this many free frames: all of it into directory child, or nothing but page tables
      lost. */
  ghost predicate SpaceForked(mem0: seq<Frame>, free: int, mem: seq<Frame>, left: int, d: nat, ok: bool, child: int) {
    && 0 <= free && (ok <==> Cost(mem0, d, PAGES) <= free)
    && (ok ==>
          && 0 <= child < FRAMES && left == free - Cost(mem0, d, PAGES)
          && forall vp: nat :: vp < PAGES ==> Copied(mem0, d, mem, child, vp))
    && (!ok ==> left == free - Lose(mem0, d, free))
  }

  ghost predicate SameSpaces(S: Sys, mem0: seq<Frame>, mem: seq<Frame>, cr3: seq<nat>) {
    |cr3| == PROCESS_MAX && forall s: nat :: Complete(S, s) ==> SameSpace(mem0, mem, cr3[s])
  }

  /** What sys_fork does to the processes and their memory. free and left are the free frames before and after. */
  ghost predicate Forked(S0: Sys, dirs0: seq<nat>, mem0: seq<Frame>, free: int, S: Sys, dirs: seq<nat>, mem: seq<Frame>,
      left: int, pid: int)
  {
    && Runs(S0) && |dirs0| == PROCESS_MAX && |dirs| == PROCESS_MAX && SameSpaces(S0, mem0, mem, dirs0)
    && var c, d := FirstUnused(S0.procs, 0), dirs0[S0.current];
    && (pid >= 0 <==> c >= 0 && Cost(mem0, d, PAGES) <= free)
    && S == Fork(S0, Cost(mem0, d, PAGES) <= free)
    && (if pid < 0 then NoChild(S0, S) && dirs == dirs0
        else ChildMade(S0, c, pid, S) && Complete(S, c) && dirs == dirs0[c := dirs[c]])
    && (if c < 0 then mem == mem0 && left == free
        else SpaceForked(mem0, free, mem, left, d, pid >= 0, if pid >= 0 then dirs[c] else -1))
  }

  lemma NotForked(S: Sys, dirs: seq<nat>, mem: seq<Frame>, free: int)
    requires Runs(S) && FirstUnused(S.procs, 0) < 0 && SameSpaces(S, mem, mem, dirs)
    ensures Forked(S, dirs, mem, free, S, dirs, mem, free, -1)
  {
    hide SameSpace, Cost;
  }

  lemma ForkedBoth(S0: Sys, dirs0: seq<nat>, mem0: seq<Frame>, free: int, S: Sys, dirs: seq<nat>, mem: seq<Frame>,
      left: int, pid: int, ok: bool, child: int)
    requires Idle(S0) && Inv(S0) && S == Fork(S0, ok) && SameSpaces(S0, mem0, mem, dirs0) && |dirs| == PROCESS_MAX
    requires SpaceForked(mem0, free, mem, left, dirs0[S0.current], ok, child)
    requires var c := FirstUnused(S0.procs, 0);
             && c >= 0 && pid == (if ok then S0.nextPid else -1)
             && (ok ==> child >= 0) && dirs == if ok then dirs0[c := child] else dirs0
    ensures Forked(S0, dirs0, mem0, free, S, dirs, mem, left, pid)
  {
    hide NoChild, ChildMade;
    ChildComplete(S0, ok);
    ForkMakes(S0, ok);
    hide SameSpaces, Cost, Inv, Fork, Copied, Built;
  }

  method CopySpace(vm: AddressSpaces, d: nat) returns (ok: bool, child: int)
    requires vm.Valid() && d < FRAMES && vm.owner[d] == Dir
    modifies vm.mem, vm.pmm.bitmap, vm.pmm`used, vm`owner
    ensures vm.Valid() && vm.pmm.total == old(vm.pmm.total)
    ensures Untouched(old(vm.mem[..]), old(vm.owner), vm.mem[..], vm.owner)
    ensures SpaceForked(old(vm.mem[..]), vm.pmm.total - old(vm.pmm.used), vm.mem[..], vm.pmm.total - vm.pmm.used, d, ok,
              child)
    ensures ok ==> 0 <= child < FRAMES && vm.owner[child] == Dir && old(vm.owner)[child] != Dir
  {
    hide VmOk, UserFrame, Cost, Built, Agrees, Copied, Untouched, AllChilds, Lost;
    ok, child := ForkAddressSpace(vm, d);
  }

  lemma TablesSay(tables: Tables)
    requires tables.Valid()
    ensures tables.current == tables.S.current && tables.nextPid == tables.S.nextPid &&
            tables.procs[..] == tables.S.procs
  {
  }

  lemma AllFree(vm: AddressSpaces)
    requires vm.Valid()
    ensures vm.pmm.used <= vm.pmm.total && |vm.owner| == FRAMES && vm.mem.Length == FRAMES
    ensures VmOk(vm.mem[..], vm.owner) && Untouched(vm.mem[..], vm.owner, vm.mem[..], vm.owner)
  {
    hide VmOk;
    FullIff(vm.owner, vm.pmm.bitmap[..], vm.pmm.total);
    NothingTouched(vm.mem[..], vm.owner);
  }

  lemma ParentHas(S: Sys, cr3: seq<nat>, owner: seq<Owner>)
    requires Idle(S) && Homes(S, cr3, owner)
    ensures |cr3| == PROCESS_MAX && |owner| == FRAMES && 0 <= S.current < PROCESS_MAX && Complete(S, S.current)
    ensures cr3[S.current] < FRAMES && owner[cr3[S.current]] == Dir
  {
  }

  lemma ChildComplete(S: Sys, memory: bool)
    requires Idle(S) && Inv(S)
    ensures var c := FirstUnused(S.procs, 0); c >= 0 && memory ==> Complete(Fork(S, memory), c)
  {
    var c := FirstUnused(S.procs, 0);
    assert c >= 0 ==> StateOk(S, c);
    hide FdAt, Inv;
    if c >= 0 && memory { CopyKeeps(Claim(S, c, Ready), S.current, c, 0); }
  }

  lemma SpacesSame(S: Sys, mem0: seq<Frame>, owner0: seq<Owner>, mem: seq<Frame>, owner: seq<Owner>, cr3: seq<nat>)
    requires VmOk(mem0, owner0) && Untouched(mem0, owner0, mem, owner) && Homes(S, cr3, owner0)
    ensures SameSpaces(S, mem0, mem, cr3)
  {
    hide VmOk, Untouched, SameSpace;
    forall s: nat | Complete(S, s)
      ensures SameSpace(mem0, mem, cr3[s])
    {
      UntouchedSpace(mem0, owner0, mem, owner, cr3[s]);
    }
  }

  lemma DirsStay(mem0: seq<Frame>, owner0: seq<Owner>, mem: seq<Frame>, owner: seq<Owner>)
    requires Untouched(mem0, owner0, mem, owner)
    ensures |owner0| == FRAMES && |owner| == FRAMES && forall f: nat :: f < FRAMES && owner0[f] == Dir ==>
            owner[f] == Dir
  {
  }

  class Processes {
    const tables: Tables
    const vm: AddressSpaces
    /** The page directory of each process. */
    const cr3: array<nat>

    ghost predicate Valid()
      reads this, tables, tables.procs, tables.fds, tables.pipes, tables.bufs, tables.gateWaiters
      reads vm, vm.mem, vm.pmm, vm.pmm.bitmap, cr3
    {
      && tables.Valid() && Inv(tables.S) && vm.Valid() && cr3 != tables.gateWaiters
      && Homes(tables.S, cr3[..], vm.owner)
    }

    constructor (tables: Tables, vm: AddressSpaces)
      requires tables.Valid() && tables.S == Initial() && Inv(tables.S) && vm.Valid()
      ensures Valid() && this.tables == tables && this.vm == vm && fresh(cr3)
    {
      this.tables, this.vm := tables, vm;
      cr3 := new nat[PROCESS_MAX](_ => 0);
    }

    /** sys_fork: succeeds exactly when a process slot is free and there are frames for the copy. Then the child has the
        parent's fd entries, counted at their pipes, and a copy of each of its pages; otherwise no process is made, and
        the frames lost are the page tables built. No process sees any change in its memory. */
    method ForkCurrent() returns (pid: int)
      requires Valid() && Idle(tables.S)
      modifies tables.procs, tables.pipes, tables.fds, tables`nextPid, tables`S
      modifies vm.mem, vm.pmm.bitmap, vm.pmm`used, vm`owner, cr3
      ensures Valid() && vm.pmm.total == old(vm.pmm.total)
      ensures Forked(old(tables.S), old(cr3[..]), old(vm.mem[..]), vm.pmm.total - old(vm.pmm.used), tables.S, cr3[..],
                vm.mem[..], vm.pmm.total - vm.pmm.used, pid)
    {
      hide VmOk, Inv, UserFrame, Cost, Built, PoolOk, Agrees, Copied, Untouched, AllChilds, Lost, Fork, Homes, Forked,
        SpaceForked, SameSpaces, Tables.Valid, AddressSpaces.Valid, Complete;
      TablesSay(tables);
      ghost var S0, mem0, owner0, dirs0, free := tables.S, vm.mem[..], vm.owner, cr3[..], vm.pmm.total - vm.pmm.used;
      AllFree(vm);
      var c := tables.FindSlot();
      ParentHas(S0, dirs0, owner0);
      if c < 0 {
        SpacesSame(S0, mem0, owner0, vm.mem[..], vm.owner, dirs0);
        NotForked(S0, dirs0, mem0, free);
        return -1;
      }
      var ok, child := CopySpace(vm, cr3[tables.current]);
      SpacesSame(S0, mem0, owner0, vm.mem[..], vm.owner, dirs0);
      DirsStay(mem0, owner0, vm.mem[..], vm.owner);
      pid := tables.ForkProcess(ok);
      if ok { cr3[c] := child; }
      HomesAfter(S0, ok, dirs0, cr3[..], owner0, vm.owner);
      ForkedBoth(S0, dirs0, mem0, free, tables.S, cr3[..], vm.mem[..], vm.pmm.total - vm.pmm.used, pid, ok, child);
    }
  }
}
