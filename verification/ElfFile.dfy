/** Executables laid out as the ELF format says (the parts "ELF Header" and "Program Header" of the TIS ELF
    Specification 1.2): the loader accepts them and finds the segments that were put in. */
module ElfFile {
  import opened Bytes
  import opened Paging
  import opened ElfImage

  /** The ELF header: a 32-bit little-endian executable for the 386 with n program headers right behind it. */
  function Header(entry: u32, n: u16): (h: seq<byte>)
    ensures |h| == 52
  {
    [0x7F, 0x45, 0x4C, 0x46, 1, 1, 1] + Zeros(9)
    + Le16(2) + Le16(3) + Le32(1) + Le32(entry) + Le32(52) + Le32(0) + Le32(0)
    + Le16(52) + Le16(32) + Le16(n) + Le16(0) + Le16(0) + Le16(0)
  }

  /** A program header: type, offset, virtual and physical address, sizes in the file and in memory, flags,
      alignment. */
  function ProgramHeader(s: Segment, paddr: u32, flags: u32, align: u32): (h: seq<byte>)
    ensures |h| == 32
  {
    Le32(s.kind) + Le32(s.offset) + Le32(s.vaddr) + Le32(paddr) + Le32(s.filesz) + Le32(s.memsz)
    + Le32(flags) + Le32(align)
  }

  function Table(segs: seq<Segment>): (t: seq<byte>)
    ensures |t| == 32 * |segs|
  {
    if segs == [] then [] else ProgramHeader(segs[0], 0, 7, 4096) + Table(segs[1..])
  }

  function Executable(entry: u32, segs: seq<Segment>, data: seq<byte>): seq<byte>
    requires |segs| < 0x1_0000
  {
    Header(entry, |segs|) + Table(segs) + data
  }

  lemma HeaderFields(entry: u32, n: u16, rest: seq<byte>)
    ensures var f := Header(entry, n) + rest;
            && IdentOk(f) && Full(f, 24) == entry && PhOff(f) == 52 && PhEntSize(f) == 32 && PhNum(f) == n
  {
    var f := Header(entry, n) + rest;
    hide Le16, Le32, U16, U32;
    assert f[16..18] == Le16(2) && f[18..20] == Le16(3);
    assert f[24..28] == Le32(entry) && f[28..32] == Le32(52);
    assert f[42..44] == Le16(32) && f[44..46] == Le16(n);
  }

  lemma SegmentFields(front: seq<byte>, s: Segment, paddr: u32, flags: u32, align: u32, back: seq<byte>)
    ensures var f, at := front + ProgramHeader(s, paddr, flags, align) + back, |front|;
            && Full(f, at) == s.kind && Full(f, at + 4) == s.offset && Full(f, at + 8) == s.vaddr
            && Full(f, at + 16) == s.filesz && Full(f, at + 20) == s.memsz
  {
    var f, at := front + ProgramHeader(s, paddr, flags, align) + back, |front|;
    hide Le32, U32;
    assert f[at..at + 4] == Le32(s.kind) && f[at + 4..at + 8] == Le32(s.offset) && f[at + 8..at + 12] == Le32(s.vaddr);
    assert f[at + 16..at + 20] == Le32(s.filesz) && f[at + 20..at + 24] == Le32(s.memsz);
  }

  lemma {:induction false} TableSplit(segs: seq<Segment>, i: nat)
    requires i < |segs|
    ensures Table(segs) == Table(segs[..i]) + ProgramHeader(segs[i], 0, 7, 4096) + Table(segs[i + 1..])
  {
    hide ProgramHeader;
    if i == 0 {
      assert segs[..0] == [];
    } else {
      TableSplit(segs[1..], i - 1);
      assert segs[1..][..i - 1] == segs[..i][1..] && segs[1..][i..] == segs[i + 1..];
    }
  }

  /** What the loader asks of any file, byte by byte: the ELF header of an executable for the 386, at most 64 program
      headers, each of at least 32 bytes, and the end of their table inside the file. */
  lemma AcceptedHeader(f: seq<byte>)
    ensures TableOk(f) <==>
            && |f| >= 52 && f[..6] == [0x7F, 0x45, 0x4C, 0x46, 1, 1] && f[16..20] == [2, 0, 3, 0]
            && var b := (i: nat) requires i < |f| => f[i] as int;
               var at := b(28) + 0x100 * b(29) + 0x1_0000 * b(30) + 0x100_0000 * b(31);
               var size, n := b(42) + 0x100 * b(43), b(44) + 0x100 * b(45);
               n <= 64 && (n > 0 ==> size >= 32 && at + n * size <= |f|)
  {
    if |f| >= 52 {
      assert f[..6] == f[..4] + [f[4], f[5]];
      assert f[16..20] == f[16..18] + f[18..20];
      assert f[16..20] == [2, 0, 3, 0] <==> f[16] == 2 && f[17] == 0 && f[18] == 3 && f[19] == 0;
    }
  }

  /** What the loader asks of a segment it loads: enough memory for its bytes, all of which are in the file, and a place
      between 8 and 32 MB. */
  predicate InBounds(s: Segment, size: nat) {
    s.kind == 1 && s.memsz > 0 ==>
      && s.filesz <= s.memsz && (s.filesz > 0 ==> s.offset + s.filesz <= size)
      && 0x80_0000 <= s.vaddr && s.vaddr + s.memsz <= 0x200_0000
  }

  /** The loader accepts such a file exactly when it has at most 64 segments and each is in bounds, and then reads
      out of it what was put in. */
  lemma BuiltIsAccepted(entry: u32, segs: seq<Segment>, data: seq<byte>)
    requires |segs| < 0x1_0000
    ensures var f := Executable(entry, segs, data);
            && (Accepts(f) <==> |segs| <= 64 && forall i :: 0 <= i < |segs| ==> InBounds(segs[i], |f|))
            && (|segs| <= 64 ==> TableOk(f) && Segments(f) == segs && Full(f, 24) == entry)
  {
    hide Header, ProgramHeader, U16, U32;
    var f, h, t := Executable(entry, segs, data), Header(entry, |segs|), Table(segs);
    assert f == h + (t + data);
    HeaderFields(entry, |segs|, t + data);
    if |segs| <= 64 {
      forall i: nat | i < |segs|
        ensures SegmentAt(f, i) == segs[i]
      {
        TableSplit(segs, i);
        var a, b := Table(segs[..i]), Table(segs[i + 1..]);
        assert f == (h + a) + ProgramHeader(segs[i], 0, 7, 4096) + (b + data);
        SegmentFields(h + a, segs[i], 0, 7, 4096, b + data);
      }
      assert Segments(f) == segs;
    }
  }
}
