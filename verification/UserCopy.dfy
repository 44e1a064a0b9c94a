/** User pointers in system calls (kernel/syscall.c): validation and copying through the page tables. */
module UserCopy {
  import opened Bytes
  import opened Paging
  import opened PagingSteps
  import opened Vmm

  const SPACE_END: nat := 0x1_0000_0000

  /** Every byte of the range is a user byte of the directory. */
  ghost predicate AllMapped(mem: seq<Frame>, pd: nat, uaddr: nat, len: nat) {
    forall a: nat :: uaddr <= a < uaddr + len ==> UserFrame(mem, pd, a / 4096) >= 0
  }

  /** The byte at user address a. */
  function UserByte(mem: seq<Frame>, pd: nat, a: nat): byte {
    var f := UserFrame(mem, pd, a / 4096);
    if 0 <= f < |mem| then mem[f][a % 4096] else 0
  }

  /** The page check of user_ptr_valid is a check of every byte. */
  lemma PagesCover(mem: seq<Frame>, pd: nat, uaddr: nat, len: nat)
    requires len > 0
    ensures AllMapped(mem, pd, uaddr, len) <==>
            forall vp: nat :: uaddr / 4096 <= vp <= (uaddr + len - 1) / 4096 ==> UserFrame(mem, pd, vp) >= 0
  {
    if AllMapped(mem, pd, uaddr, len) {
      forall vp: nat | uaddr / 4096 <= vp <= (uaddr + len - 1) / 4096
        ensures UserFrame(mem, pd, vp) >= 0
      {
        var a := if 4096 * vp < uaddr then uaddr else 4096 * vp;
        assert a / 4096 == vp;
      }
    }
  }

  /** Looks up the frame of a user page, as vmm_get_user_phys_from_dir does. */
  method LookUp(vm: AddressSpaces, pd: nat, vp: nat) returns (f: int)
    requires vm.Valid() && pd < FRAMES && vm.owner[pd] == Dir && vp < 0x10_0000
    ensures f == UserFrame(vm.mem[..], pd, vp) && (f >= 0 ==> LOW <= f < FRAMES && vm.owner[f].Page?)
  {
    hide VmOk, Word;
    if UserFrame(vm.mem[..], pd, vp) >= 0 { UserPageOwned(vm.mem[..], vm.owner, pd, vp); }
    TableOfDir(vm.mem[..], vm.owner, pd, vp / 1024);
    var pde := Word(vm.mem[pd], vp / 1024);
    if !IsPresent(pde) || !IsUser(pde) { return -1; }
    var pte := Word(vm.mem[FrameOf(pde)], vp % 1024);
    if !IsPresent(pte) || !IsUser(pte) { return -1; }
    f := FrameOf(pte);
  }

  /** user_ptr_valid: accepts exactly the non-empty ranges that do not wrap and whose every byte is
      mapped for user code. */
  method UserPtrValid(vm: AddressSpaces, pd: nat, uaddr: nat, len: nat) returns (r: bool)
    requires vm.Valid() && pd < FRAMES && vm.owner[pd] == Dir && uaddr < SPACE_END && len < SPACE_END
    ensures r <==> len > 0 && uaddr + len < SPACE_END && AllMapped(vm.mem[..], pd, uaddr, len)
  {
    hide VmOk, UserFrame;
    if len == 0 { return false; }
    if (uaddr + len) % SPACE_END < uaddr { return false; }
    PagesCover(vm.mem[..], pd, uaddr, len);
    hide AllMapped;
    var vp, last := uaddr / 4096, (uaddr + len - 1) / 4096;
    while true
      invariant uaddr / 4096 <= vp <= last
      invariant forall q: nat :: uaddr / 4096 <= q < vp ==> UserFrame(vm.mem[..], pd, q) >= 0
      decreases last - vp
    {
      var f := LookUp(vm, pd, vp);
      if f < 0 { return false; }
      if vp == last { break; }
      vp := vp + 1;
    }
    r := true;
  }

  /** copy_from_user: all of the range, or nothing. */
  method CopyFromUser(vm: AddressSpaces, pd: nat, usrc: nat, len: nat, dst: array<byte>) returns (ok: bool)
    requires vm.Valid() && pd < FRAMES && vm.owner[pd] == Dir && usrc < SPACE_END && len < SPACE_END &&
             len <= dst.Length
    modifies dst
    ensures ok <==> len > 0 && usrc + len < SPACE_END && AllMapped(vm.mem[..], pd, usrc, len)
    ensures ok ==> forall i: nat :: i < len ==> dst[i] == UserByte(vm.mem[..], pd, usrc + i)
    ensures forall i: nat :: i < dst.Length && (ok ==> len <= i) ==> dst[i] == old(dst[i])
  {
    hide VmOk, UserFrame;
    ok := UserPtrValid(vm, pd, usrc, len);
    if !ok { return; }
    var i := 0;
    while i < len
      invariant 0 <= i <= len
      invariant forall k: nat :: k < i ==> dst[k] == UserByte(vm.mem[..], pd, usrc + k)
      invariant forall k: nat :: i <= k < dst.Length ==> dst[k] == old(dst[k])
    {
      assert UserFrame(vm.mem[..], pd, (usrc + i) / 4096) >= 0;
      var f := LookUp(vm, pd, (usrc + i) / 4096);
      dst[i] := vm.mem[f][(usrc + i) % 4096];
      i := i + 1;
    }
  }

  // ---- writing --------------------------------------------------------------------------------------------------

  /** mem is mem0 with src stored at user address udst of directory pd: no other byte of any address
      space changes, no frame but user pages, and no translation. */
  ghost predicate Stored(mem0: seq<Frame>, owner: seq<Owner>, mem: seq<Frame>, pd: nat, udst: nat, src: seq<byte>) {
    && |mem0| == FRAMES && |mem| == FRAMES && |owner| == FRAMES
    && (forall f: nat :: f < FRAMES && !owner[f].Page? ==> mem[f] == mem0[f])
    && (forall d: nat, vp: nat :: d < FRAMES && owner[d] == Dir ==> UserFrame(mem, d, vp) == UserFrame(mem0, d, vp))
    && (forall d: nat, a: nat :: d < FRAMES && owner[d] == Dir && a < SPACE_END && UserFrame(mem0, d, a / 4096) >= 0 ==>
          UserByte(mem, d, a) == if d == pd && udst <= a < udst + |src| then src[a - udst] else UserByte(mem0, d, a))
  }

  /** One byte stored behind the bytes stored so far. */
  lemma StoreByte(mem0: seq<Frame>, owner: seq<Owner>, mem: seq<Frame>, pd: nat, udst: nat, src: seq<byte>, b: byte)
    requires VmOk(mem, owner) && Stored(mem0, owner, mem, pd, udst, src) && pd < FRAMES && owner[pd] == Dir
    requires udst + |src| < SPACE_END && UserFrame(mem, pd, (udst + |src|) / 4096) >= 0
    ensures var f := UserFrame(mem, pd, (udst + |src|) / 4096);
            && f < FRAMES && owner[f].Page?
            && VmOk(mem[f := mem[f][(udst + |src|) % 4096 := b]], owner)
            && Stored(mem0, owner, mem[f := mem[f][(udst + |src|) % 4096 := b]], pd, udst, src + [b])
  {
    hide VmOk, UserFrame;
    var at := udst + |src|;
    UserPageOwned(mem, owner, pd, at / 4096);
    var f := UserFrame(mem, pd, at / 4096);
    var x: Frame := mem[f][at % 4096 := b];
    var mem' := mem[f := x];
    FillOk(mem, owner, f, x);
    forall d: nat, vp: nat | d < FRAMES && owner[d] == Dir
      ensures UserFrame(mem', d, vp) == UserFrame(mem0, d, vp)
    {
      FillSame(mem, owner, f, x, d, vp);
    }
    forall d: nat, a: nat | d < FRAMES && owner[d] == Dir && a < SPACE_END && UserFrame(mem0, d, a / 4096) >= 0
      ensures UserByte(mem', d, a) == if d == pd &&
              udst <= a < udst + |src + [b]| then (src + [b])[a - udst] else UserByte(mem0, d, a)
    {
      OneByte(mem, owner, pd, at, b, d, a);
    }
  }

  lemma OneByte(mem: seq<Frame>, owner: seq<Owner>, pd: nat, at: nat, b: byte, d: nat, a: nat)
    requires VmOk(mem, owner) && pd < FRAMES && owner[pd] == Dir && d < FRAMES && owner[d] == Dir && at < SPACE_END &&
             a < SPACE_END
    requires UserFrame(mem, pd, at / 4096) >= 0 && UserFrame(mem, d, a / 4096) >= 0
    ensures var f := UserFrame(mem, pd, at / 4096);
            && f < FRAMES
            && UserByte(mem[f := mem[f][at % 4096 := b]], d, a) == if d == pd && a == at then b else UserByte(mem, d, a)
  {
    assert |mem| == FRAMES;
    hide VmOk, UserFrame;
    UserPageOwned(mem, owner, pd, at / 4096);
    UserPageOwned(mem, owner, d, a / 4096);
    var f := UserFrame(mem, pd, at / 4096);
    FillSame(mem, owner, f, mem[f][at % 4096 := b], d, a / 4096);
    if UserFrame(mem, d, a / 4096) == f { UserPagesDisjoint(mem, owner, pd, at / 4096, d, a / 4096); }
  }

  /** copy_to_user: stores all of src, or nothing. */
  method CopyToUser(vm: AddressSpaces, pd: nat, udst: nat, src: seq<byte>) returns (ok: bool)
    requires vm.Valid() && pd < FRAMES && vm.owner[pd] == Dir && udst < SPACE_END && |src| < SPACE_END
    modifies vm.mem
    ensures vm.Valid()
    ensures ok <==> |src| > 0 && udst + |src| < SPACE_END && AllMapped(old(vm.mem[..]), pd, udst, |src|)
    ensures !ok ==> vm.mem[..] == old(vm.mem[..])
    ensures ok ==> Stored(old(vm.mem[..]), vm.owner, vm.mem[..], pd, udst, src)
  {
    hide VmOk, UserFrame, Stored;
    ok := UserPtrValid(vm, pd, udst, |src|);
    if !ok { return; }
    ghost var mem0 := vm.mem[..];
    NothingStored(mem0, vm.owner, pd, udst);
    var i := 0;
    while i < |src|
      invariant 0 <= i <= |src| && vm.Valid() && Stored(mem0, vm.owner, vm.mem[..], pd, udst, src[..i])
    {
      StoredSame(mem0, vm.owner, vm.mem[..], pd, udst, src[..i], pd, (udst + i) / 4096);
      assert UserFrame(mem0, pd, (udst + i) / 4096) >= 0;
      StoreByte(mem0, vm.owner, vm.mem[..], pd, udst, src[..i], src[i]);
      assert src[..i + 1] == src[..i] + [src[i]];
      var f := LookUp(vm, pd, (udst + i) / 4096);
      vm.mem[f] := vm.mem[f][(udst + i) % 4096 := src[i]];
      i := i + 1;
    }
    assert src[..i] == src;
  }

  lemma NothingStored(mem: seq<Frame>, owner: seq<Owner>, pd: nat, udst: nat)
    requires |mem| == FRAMES && |owner| == FRAMES
    ensures Stored(mem, owner, mem, pd, udst, [])
  {
    hide UserFrame;
  }

  lemma StoredSame(mem0: seq<Frame>, owner: seq<Owner>, mem: seq<Frame>, pd: nat, udst: nat, src: seq<byte>, d: nat,
      vp: nat)
    requires Stored(mem0, owner, mem, pd, udst, src) && d < FRAMES && owner[d] == Dir
    ensures UserFrame(mem, d, vp) == UserFrame(mem0, d, vp)
  {
  }
}
