/** The page walk of the processor on the bytes of physical memory (Intel SDM volume 3A, sections 4.3 and 4.6:
    32-bit paging with 4-KByte pages), against the translation the model uses. */
module PageWalk {
  import opened Bytes
  import opened Paging

  /** The byte at physical address a. */
  function Physical(mem: seq<Frame>, a: nat): byte { if a / 4096 < |mem| then mem[a / 4096][a % 4096] else 0 }

  /** The four bytes from physical address a on as a number, low byte first. */
  function Dword(mem: seq<Frame>, a: nat): nat {
    Physical(mem, a) as nat + 0x100 * Physical(mem, a + 1) as nat + 0x1_0000 * Physical(mem, a + 2) as nat +
    0x100_0000 * Physical(mem, a + 3) as nat
  }

  /** The physical address of linear address va, or -1 for a page fault. Bit 0 of an entry is the present flag,
      bit 2 the user flag, bits 31:12 are the frame. Bits 31:22 of va select the directory entry, bits 21:12 the
      table entry. */
  function Walk(mem: seq<Frame>, cr3: nat, va: nat, user: bool): int {
    var pde := Dword(mem, cr3 + 4 * (va / 0x40_0000));
    if pde % 2 == 0 || (user && pde / 4 % 2 == 0) then -1
    else
      var pte := Dword(mem, 0x1000 * (pde / 0x1000) + 4 * (va % 0x40_0000 / 0x1000));
      if pte % 2 == 0 || (user && pte / 4 % 2 == 0) then -1 else 0x1000 * (pte / 0x1000) + va % 0x1000
  }

  lemma DwordIs(mem: seq<Frame>, f: nat, i: nat)
    requires i < 1024
    ensures Dword(mem, 4096 * f + 4 * i) == WordAt(mem, f, i)
  {
    Inside(f, 4 * i);
    Inside(f, 4 * i + 1);
    Inside(f, 4 * i + 2);
    Inside(f, 4 * i + 3);
    if f < |mem| { WordIs(mem[f], i); }
  }

  lemma Inside(f: nat, b: nat)
    requires b < 4096
    ensures (4096 * f + b) / 4096 == f && (4096 * f + b) % 4096 == b
  {
  }

  lemma WordIs(f: Frame, i: nat)
    requires i < 1024
    ensures Word(f, i) == f[4 * i] as nat + 0x100 * f[4 * i + 1] as nat + 0x1_0000 * f[4 * i + 2] as nat +
            0x100_0000 * f[4 * i + 3] as nat
  {
    var b := f[4 * i..4 * i + 4];
    assert b[..2] == [f[4 * i], f[4 * i + 1]] && b[2..] == [f[4 * i + 2], f[4 * i + 3]];
  }

  /** In every memory the processor, running user code or the kernel, translates as the model says. */
  lemma WalkIs(mem: seq<Frame>, pd: nat, va: nat)
    requires va < 0x1_0000_0000
    ensures var f := UserFrame(mem, pd, va / 4096);
            Walk(mem, 4096 * pd, va, true) == if f < 0 then -1 else 4096 * f + va % 4096
    ensures var f := AnyFrame(mem, pd, va / 4096);
            Walk(mem, 4096 * pd, va, false) == if f < 0 then -1 else 4096 * f + va % 4096
  {
    hide Dword, WordAt;
    var di, ti := va / 4096 / 1024, va / 4096 % 1024;
    AddressParts(va);
    DwordIs(mem, pd, di);
    DwordIs(mem, WordAt(mem, pd, di) / 4096, ti);
  }

  /** An entry lets user code write through it: bit 1. */
  predicate IsWritable(e: nat) { e / 2 % 2 == 1 }

  /** Every page that user code sees it can write as well; the kernel can write everything it sees below 8 MB,
      where user code sees nothing. */
  lemma SeenIsWritable(mem: seq<Frame>, owner: seq<Owner>, d: nat, va: nat)
    requires VmOk(mem, owner) && d < FRAMES && owner[d] == Dir && va < 0x1_0000_0000
    requires Walk(mem, 4096 * d, va, true) >= 0 || va < 0x80_0000
    ensures CanWrite(mem, 4096 * d, va)
    ensures va < 0x80_0000 ==> Walk(mem, 4096 * d, va, false) == va && Walk(mem, 4096 * d, va, true) == -1
  {
    hide Dword, Walk, WordAt, VmOk, UserFrame, AnyFrame, IsWritable;
    var vp := va / 4096;
    AddressParts(va);
    WalkIs(mem, d, va);
    DwordIs(mem, d, vp / 1024);
    DwordIs(mem, WordAt(mem, d, vp / 1024) / 4096, vp % 1024);
    if vp < FRAMES { Identity(mem, owner, d, vp); }
    EntriesAre(mem, owner, d, vp);
  }

  /** Both entries on the way of va allow writes. */
  predicate CanWrite(mem: seq<Frame>, cr3: nat, va: nat) {
    var pde := Dword(mem, cr3 + 4 * (va / 0x40_0000));
    IsWritable(pde) && IsWritable(Dword(mem, 0x1000 * (pde / 0x1000) + 4 * (va % 0x40_0000 / 0x1000)))
  }

  lemma AddressParts(va: nat)
    ensures va / 0x40_0000 == va / 4096 / 1024 && va % 0x40_0000 / 0x1000 == va / 4096 % 1024
    ensures va < 0x80_0000 <==> va / 4096 < FRAMES
    ensures va == 4096 * (va / 4096) + va % 4096
  {
  }

  lemma EntriesAre(mem: seq<Frame>, owner: seq<Owner>, d: nat, vp: nat)
    requires VmOk(mem, owner) && d < FRAMES && owner[d] == Dir && vp < 0x10_0000
    requires UserFrame(mem, d, vp) >= 0 || vp < FRAMES
    ensures IsWritable(WordAt(mem, d, vp / 1024)) &&
            IsWritable(WordAt(mem, WordAt(mem, d, vp / 1024) / 4096, vp % 1024))
  {
    hide FrameOk, WordAt, UserFrame, Entry, IsWritable;
    var e := WordAt(mem, d, vp / 1024);
    DirEntry(mem, owner, d, vp / 1024);
    if vp < FRAMES {
      EntryWrites(if vp < 1024 then KERNEL_TABLE0 else KERNEL_TABLE1, KERNEL_FLAGS);
      EntryWrites(vp, KERNEL_FLAGS);
    } else {
      UserPageOwned(mem, owner, d, vp);
      var p := UserFrame(mem, d, vp);
      PageEntries(mem, owner, d, vp, p);
      EntryWrites(owner[p].table, USER_FLAGS);
      EntryWrites(p, USER_FLAGS);
    }
  }

  lemma DirEntry(mem: seq<Frame>, owner: seq<Owner>, d: nat, di: nat)
    requires VmOk(mem, owner) && d < FRAMES && owner[d] == Dir && di < 1024
    ensures di == 0 ==> WordAt(mem, d, di) == Entry(KERNEL_TABLE0, KERNEL_FLAGS)
    ensures di == 1 ==> WordAt(mem, d, di) == Entry(KERNEL_TABLE1, KERNEL_FLAGS)
  {
    hide WordAt;
    assert FrameOk(mem, owner, d);
    assert PdeOk(mem, owner, d, di);
  }

  lemma PageEntries(mem: seq<Frame>, owner: seq<Owner>, d: nat, vp: nat, p: nat)
    requires VmOk(mem, owner) && p < FRAMES && owner[p].Page? && owner[p].table < FRAMES
    requires owner[owner[p].table] == Table(d, vp / 1024) && owner[p].ti == vp % 1024
    ensures WordAt(mem, d, vp / 1024) == Entry(owner[p].table, USER_FLAGS)
    ensures WordAt(mem, owner[p].table, vp % 1024) == Entry(p, USER_FLAGS)
  {
    hide WordAt;
    assert FrameOk(mem, owner, p) && FrameOk(mem, owner, owner[p].table);
  }

  lemma EntryWrites(f: nat, flags: nat)
    requires f < 0x10_0000 && (flags == KERNEL_FLAGS || flags == USER_FLAGS)
    ensures IsWritable(Entry(f, flags)) && Entry(f, flags) / 4096 == f
  {
    var half := if flags == KERNEL_FLAGS then 1 else 3;
    DivModUnique(4096 * f + flags, 2048 * f + half, 1, 2);
    DivModUnique(2048 * f + half, 1024 * f + (half - 1) / 2, 1, 2);
    DivModUnique(4096 * f + flags, f, flags, 4096);
  }
}
