/** Two-level page tables in physical frames, who owns each frame, and what a directory translates. */
module Paging {
  import opened Bytes

  type Frame = s: seq<byte> | |s| == 4096 witness seq(4096, i => 0)

  const FRAMES: nat := 2048
  const LOW: nat := 1024
  const KERNEL_FLAGS: nat := 3
  const USER_FLAGS: nat := 7
  const KERNEL_DIR: nat := 0x300
  const KERNEL_TABLE0: nat := 0x301
  const KERNEL_TABLE1: nat := 0x302

  // ---- words of a frame ------------------------------------------------------------------------------------

  function Word(f: Frame, i: nat): u32
    requires i < 1024
  {
    U32(f[4 * i..4 * i + 4])
  }

  function SetWord(f: Frame, i: nat, v: u32): Frame
    requires i < 1024
  {
    Patch(f, 4 * i, Le32(v))
  }

  lemma WordSetOther(f: Frame, i: nat, v: u32, j: nat)
    requires i < 1024 && j < 1024 && j != i
    ensures SetWord(f, i, v)[4 * j..4 * j + 4] == f[4 * j..4 * j + 4]
  {
  }

  lemma WordSet(f: Frame, i: nat, v: u32)
    requires i < 1024
    ensures Word(SetWord(f, i, v), i) == v
    ensures forall j: nat :: j < 1024 && j != i ==> Word(SetWord(f, i, v), j) == Word(f, j)
  {
    assert SetWord(f, i, v)[4 * i..4 * i + 4] == Le32(v);
    hide SetWord;
    forall j: nat | j < 1024 && j != i
      ensures Word(SetWord(f, i, v), j) == Word(f, j)
    {
      WordSetOther(f, i, v, j);
    }
  }

  function ZeroFrame(): (f: Frame) { Zeros(4096) }

  lemma ZeroWords()
    ensures forall i: nat :: i < 1024 ==> Word(ZeroFrame(), i) == 0
  {
    forall i: nat | i < 1024
      ensures Word(ZeroFrame(), i) == 0
    {
      assert ZeroFrame()[4 * i..4 * i + 4] == [0, 0, 0, 0];
    }
  }

  // ---- entries ----------------------------------------------------------------------------------------------

  predicate IsPresent(e: u32) { e % 2 == 1 }
  predicate IsUser(e: u32) { (e / 4) % 2 == 1 }
  function FrameOf(e: u32): nat { e / 4096 }

  function Entry(f: nat, flags: nat): (e: u32)
    requires f < 0x10_0000 && flags < 8
    ensures FrameOf(e) == f
    ensures flags == USER_FLAGS ==> IsPresent(e) && IsUser(e)
    ensures flags == KERNEL_FLAGS ==> IsPresent(e) && !IsUser(e)
  {
    4096 * f + flags
  }

  // ---- translation --------------------------------------------------------------------------------------------

  function WordAt(mem: seq<Frame>, f: nat, i: nat): u32 {
    if f < |mem| && i < 1024 then Word(mem[f], i) else 0
  }

  /** The frame that virtual page vp of directory pd is mapped to, or -1; vmm_get_phys_from_dir. */
  function AnyFrame(mem: seq<Frame>, pd: nat, vp: nat): int {
    var pde := WordAt(mem, pd, vp / 1024);
    if !IsPresent(pde) then -1
    else
      var pte := WordAt(mem, FrameOf(pde), vp % 1024);
      if !IsPresent(pte) then -1 else FrameOf(pte)
  }

  /** The same for pages that user code may touch; vmm_get_user_phys_from_dir. */
  function UserFrame(mem: seq<Frame>, pd: nat, vp: nat): int {
    var pde := WordAt(mem, pd, vp / 1024);
    if !IsPresent(pde) || !IsUser(pde) then -1
    else
      var pte := WordAt(mem, FrameOf(pde), vp % 1024);
      if !IsPresent(pte) || !IsUser(pte) then -1 else FrameOf(pte)
  }

  // ---- ownership ------------------------------------------------------------------------------------------------

  /** What a frame is for. Loose frames are allocated but hang in no directory. */
  datatype Owner = NoOne | Kernel | Loose | Dir | Table(dir: nat, di: nat) | Page(table: nat, ti: nat)

  /** Directory slot di of d: the shared kernel entries, or nothing, or a table of d's own. */
  ghost predicate PdeOk(mem: seq<Frame>, owner: seq<Owner>, d: nat, di: nat)
    requires |mem| == FRAMES && |owner| == FRAMES
  {
    var e := WordAt(mem, d, di);
    if di == 0 then e == Entry(KERNEL_TABLE0, KERNEL_FLAGS)
    else if di == 1 then e == Entry(KERNEL_TABLE1, KERNEL_FLAGS)
    else e == 0 || (FrameOf(e) < FRAMES && e == Entry(FrameOf(e), USER_FLAGS) && owner[FrameOf(e)] == Table(d, di))
  }

  ghost predicate PteOk(mem: seq<Frame>, owner: seq<Owner>, t: nat, ti: nat)
    requires |mem| == FRAMES && |owner| == FRAMES
  {
    var e := WordAt(mem, t, ti);
    e == 0 || (FrameOf(e) < FRAMES && e == Entry(FrameOf(e), USER_FLAGS) && owner[FrameOf(e)] == Page(t, ti))
  }

  ghost predicate FrameOk(mem: seq<Frame>, owner: seq<Owner>, f: nat)
    requires |mem| == FRAMES && |owner| == FRAMES && f < FRAMES
  {
    && (f < LOW ==> owner[f] == Kernel)
    && match owner[f]
       case NoOne => true
       case Kernel => true
       case Loose => true
       case Dir => forall di: nat :: di < 1024 ==> PdeOk(mem, owner, f, di)
       case Table(d, di) =>
         && d < FRAMES && owner[d] == Dir && 2 <= di < 1024 && WordAt(mem, d, di) == Entry(f, USER_FLAGS)
         && forall ti: nat :: ti < 1024 ==> PteOk(mem, owner, f, ti)
       case Page(t, ti) => t < FRAMES && owner[t].Table? && ti < 1024 && WordAt(mem, t, ti) == Entry(f, USER_FLAGS)
  }

  /** The kernel's own tables map the first 8 MB to itself, without user rights. */
  ghost predicate IdentityOk(mem: seq<Frame>) {
    && |mem| == FRAMES
    && (forall i: nat :: i < 1024 ==> WordAt(mem, KERNEL_TABLE0, i) == Entry(i, KERNEL_FLAGS))
    && (forall i: nat :: i < 1024 ==> WordAt(mem, KERNEL_TABLE1, i) == Entry(1024 + i, KERNEL_FLAGS))
    && WordAt(mem, KERNEL_DIR, 0) == Entry(KERNEL_TABLE0, KERNEL_FLAGS)
    && WordAt(mem, KERNEL_DIR, 1) == Entry(KERNEL_TABLE1, KERNEL_FLAGS)
    && (forall di: nat :: 2 <= di < 1024 ==> WordAt(mem, KERNEL_DIR, di) == 0)
  }

  ghost predicate VmOk(mem: seq<Frame>, owner: seq<Owner>) {
    && |mem| == FRAMES && |owner| == FRAMES && IdentityOk(mem)
    && forall f: nat :: f < FRAMES ==> FrameOk(mem, owner, f)
  }

  // ---- what the invariant gives ---------------------------------------------------------------------------------

  /** In every directory the first 8 MB are mapped to themselves and closed to user code. */
  lemma Identity(mem: seq<Frame>, owner: seq<Owner>, d: nat, vp: nat)
    requires VmOk(mem, owner) && d < FRAMES && (owner[d] == Dir || d == KERNEL_DIR) && vp < FRAMES
    ensures AnyFrame(mem, d, vp) == vp && UserFrame(mem, d, vp) == -1
  {
    assert FrameOk(mem, owner, d);
    if owner[d] == Dir { assert PdeOk(mem, owner, d, vp / 1024); }
    hide FrameOk;
  }

  /** A user page of a directory is a frame that belongs to that directory alone. */
  lemma UserPageOwned(mem: seq<Frame>, owner: seq<Owner>, d: nat, vp: nat)
    requires VmOk(mem, owner) && d < FRAMES && owner[d] == Dir && vp < 0x10_0000 && UserFrame(mem, d, vp) >= 0
    ensures var p := UserFrame(mem, d, vp);
            && p < FRAMES && owner[p].Page? && owner[p].table < FRAMES &&
               owner[owner[p].table] == Table(d, vp / 1024) && owner[p].ti == vp % 1024
            && FRAMES <= vp && AnyFrame(mem, d, vp) == p && LOW <= p
  {
    assert FrameOk(mem, owner, d);
    assert PdeOk(mem, owner, d, vp / 1024);
    var t := FrameOf(WordAt(mem, d, vp / 1024));
    if vp / 1024 >= 2 {
      assert FrameOk(mem, owner, t);
      assert PteOk(mem, owner, t, vp % 1024);
      assert FrameOk(mem, owner, UserFrame(mem, d, vp));
    }
  }

  /** No frame is a user page twice: not in two directories, not at two addresses. */
  lemma UserPagesDisjoint(mem: seq<Frame>, owner: seq<Owner>, d: nat, vp: nat, d': nat, vp': nat)
    requires VmOk(mem, owner) && d < FRAMES && owner[d] == Dir && d' < FRAMES && owner[d'] == Dir && vp < 0x10_0000 &&
             vp' < 0x10_0000
    requires UserFrame(mem, d, vp) >= 0 && UserFrame(mem, d, vp) == UserFrame(mem, d', vp')
    ensures d == d' && vp == vp'
  {
    UserPageOwned(mem, owner, d, vp);
    UserPageOwned(mem, owner, d', vp');
  }
}
