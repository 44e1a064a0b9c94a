/** ELF executables (kernel/elf.c): which files are accepted and what memory image they describe. */
module ElfImage {
  import opened Bytes
  import opened Paging

  const EHDR_SIZE: nat := 52
  const PHDR_SIZE: nat := 32
  const MAX_PHNUM: nat := 64
  const PT_LOAD: nat := 1
  const USER_BASE: nat := 0x80_0000
  const USER_LIMIT: nat := 0x200_0000
  const ELF_PAGES: nat := 0x2000

  // ---- headers --------------------------------------------------------------------------------------------------

  function Half(file: seq<byte>, at: nat): u16
    requires at + 2 <= |file|
  {
    U16(file[at..at + 2])
  }

  function Full(file: seq<byte>, at: nat): u32
    requires at + 4 <= |file|
  {
    U32(file[at..at + 4])
  }

  predicate IdentOk(file: seq<byte>) {
    && |file| >= EHDR_SIZE && file[..4] == [0x7F, 0x45, 0x4C, 0x46] && file[4] == 1 && file[5] == 1
    && Half(file, 16) == 2 && Half(file, 18) == 3
  }

  function PhOff(file: seq<byte>): u32 requires |file| >= EHDR_SIZE { Full(file, 28) }
  function PhEntSize(file: seq<byte>): u16 requires |file| >= EHDR_SIZE { Half(file, 42) }
  function PhNum(file: seq<byte>): u16 requires |file| >= EHDR_SIZE { Half(file, 44) }

  /** The program header table lies in the file. */
  predicate TableOk(file: seq<byte>) {
    && IdentOk(file) && PhNum(file) <= MAX_PHNUM
    && (PhNum(file) != 0 ==> PhEntSize(file) >= PHDR_SIZE && PhOff(file) + PhNum(file) * PhEntSize(file) <= |file|)
  }

  datatype Segment = Segment(kind: u32, offset: u32, vaddr: u32, filesz: u32, memsz: u32) {
    predicate Live() { kind == PT_LOAD && memsz > 0 }
    function First(): nat { vaddr / 4096 }
    function End(): nat { (vaddr + memsz + 4095) / 4096 }
    predicate Covers(vp: nat) { Live() && First() <= vp < End() }
  }

  function HeaderAt(file: seq<byte>, i: nat): (at: nat)
    requires TableOk(file) && i < PhNum(file)
    ensures at + PHDR_SIZE <= |file|
  {
    HeaderInside(PhOff(file), PhEntSize(file), PhNum(file), i, |file|);
    PhOff(file) + i * PhEntSize(file)
  }

  lemma HeaderInside(off: nat, size: nat, n: nat, i: nat, total: nat)
    requires i < n && PHDR_SIZE <= size && off + n * size <= total
    ensures 0 <= i * size && off + i * size + PHDR_SIZE <= total
  {
    assert (i + 1) * size <= n * size;
  }

  function SegmentAt(file: seq<byte>, i: nat): Segment
    requires TableOk(file) && i < PhNum(file)
  {
    var at := HeaderAt(file, i);
    Segment(Full(file, at), Full(file, at + 4), Full(file, at + 8), Full(file, at + 16), Full(file, at + 20))
  }

  predicate SegmentOk(s: Segment, size: nat) {
    s.Live() ==>
      && s.filesz <= s.memsz && (s.filesz != 0 ==> s.offset + s.filesz <= size)
      && USER_BASE <= s.vaddr && s.vaddr + s.memsz <= USER_LIMIT
  }

  function Segments(file: seq<byte>): (segs: seq<Segment>)
    requires TableOk(file)
    ensures |segs| == PhNum(file)
  {
    seq(PhNum(file), i requires 0 <= i < PhNum(file) => SegmentAt(file, i))
  }

  predicate SegmentsOk(segs: seq<Segment>, size: nat) { forall i :: 0 <= i < |segs| ==> SegmentOk(segs[i], size) }

  predicate Accepts(file: seq<byte>) { TableOk(file) && SegmentsOk(Segments(file), |file|) }

  /** Segments with bytes in the file start on a page boundary. */
  predicate PageStarts(segs: seq<Segment>) {
    forall i :: 0 <= i < |segs| && segs[i].Live() && segs[i].filesz > 0 ==> segs[i].vaddr % 4096 == 0
  }

  // ---- the image ------------------------------------------------------------------------------------------------

  /** What a page shall hold: what it held before, or these bytes. */
  datatype Slot = Kept | Filled(frame: Frame)
  type Image = s: seq<Slot> | |s| == ELF_PAGES witness seq(ELF_PAGES, i => Kept)

  predicate InFile(file: seq<byte>, s: Segment) { s.offset + s.filesz <= |file| || s.filesz == 0 }

  /** Page vp of a segment: its file bytes, and zero behind them. */
  function Content(file: seq<byte>, s: Segment, vp: nat): Frame
    requires InFile(file, s)
  {
    seq(4096, b requires 0 <= b < 4096 =>
          var o := 4096 * vp + b - s.vaddr;
          if 0 <= o < s.filesz then file[s.offset + o] else 0)
  }

  /** Some bytes and zeros up to a page. */
  function Padded(src: seq<byte>): Frame
    requires |src| <= 4096
  {
    src + Zeros(4096 - |src|)
  }

  /** The last of the first n segments that covers page vp, or -1. */
  function LastCover(segs: seq<Segment>, n: nat, vp: nat): (r: int)
    requires n <= |segs|
    ensures -1 <= r < n && (r != -1 ==> segs[r].Covers(vp))
    ensures forall i :: r < i < n ==> !segs[i].Covers(vp)
  {
    if n == 0 then -1 else if segs[n - 1].Covers(vp) then n - 1 else LastCover(segs, n - 1, vp)
  }

  function SlotAfter(file: seq<byte>, segs: seq<Segment>, n: nat, vp: nat): Slot
    requires SegmentsOk(segs, |file|) && n <= |segs|
  {
    var k := LastCover(segs, n, vp);
    if k == -1 then Kept else Filled(Content(file, segs[k], vp))
  }

  /** The image after the first n segments. */
  ghost function ImageAfter(file: seq<byte>, segs: seq<Segment>, n: nat): Image
    requires SegmentsOk(segs, |file|) && n <= |segs|
  {
    seq(ELF_PAGES, vp requires 0 <= vp < ELF_PAGES => SlotAfter(file, segs, n, vp))
  }

  /** The byte of the whole image at address a: that of the last segment with memory in its page, by the place of
      a in the segment, and zero where the file has none; pages without a segment are left. */
  lemma ImageByte(file: seq<byte>, segs: seq<Segment>, a: nat)
    requires SegmentsOk(segs, |file|) && a < 4096 * ELF_PAGES
    ensures var img := ImageAfter(file, segs, |segs|);
            && (img[a / 4096].Kept? <==> forall i :: 0 <= i < |segs| ==> !Reaches(segs[i], a))
            && forall i :: && 0 <= i < |segs| && Reaches(segs[i], a)
                           && (forall j :: i < j < |segs| ==> !Reaches(segs[j], a)) ==>
                 var s := segs[i];
                 && img[a / 4096].Filled? && (s.filesz > 0 ==> s.offset + s.filesz <= |file|)
                 && img[a / 4096].frame[a % 4096] ==
                    if s.vaddr <= a < s.vaddr + s.filesz then file[s.offset + (a - s.vaddr)] else 0
  {
    var k := LastCover(segs, |segs|, a / 4096);
    forall i | 0 <= i < |segs|
      ensures Reaches(segs[i], a) <==> segs[i].Covers(a / 4096)
    {
      PageOf(segs[i], a);
    }
  }

  /** Segment s is loaded and has memory in the page of address a. */
  predicate Reaches(s: Segment, a: nat) {
    s.kind == 1 && s.memsz > 0 && s.vaddr / 4096 <= a / 4096 <= (s.vaddr + s.memsz - 1) / 4096
  }

  lemma PageOf(s: Segment, a: nat)
    ensures Reaches(s, a) <==> s.Covers(a / 4096)
  {
  }

  /** img with the pages of s zeroed up to page m. */
  ghost function Zeroed(img: Image, s: Segment, m: nat): Image {
    var zero: Frame := ZeroFrame();
    seq(ELF_PAGES, vp requires 0 <= vp < ELF_PAGES => if s.First() <= vp < m then Filled(zero) else img[vp])
  }

  /** img with all pages of s in place and filled up to page c. */
  ghost function Written(img: Image, file: seq<byte>, s: Segment, c: nat): Image
    requires InFile(file, s)
  {
    seq(ELF_PAGES, vp requires 0 <= vp < ELF_PAGES =>
          if s.First() <= vp < s.End() then (if vp < c then Filled(Content(file, s, vp)) else Filled(ZeroFrame()))
            else img[vp])
  }

  lemma ZeroedStart(img: Image, s: Segment)
    ensures Zeroed(img, s, s.First()) == img
  {
  }

  lemma ZeroedMore(img: Image, s: Segment, m: nat)
    requires s.First() <= m < ELF_PAGES
    ensures Zeroed(img, s, m)[m := Filled(ZeroFrame())] == Zeroed(img, s, m + 1)
  {
  }

  lemma ZeroedWritten(img: Image, file: seq<byte>, s: Segment)
    requires InFile(file, s)
    ensures Zeroed(img, s, s.End()) == Written(img, file, s, s.First())
  {
  }

  lemma WrittenMore(img: Image, file: seq<byte>, s: Segment, c: nat)
    requires InFile(file, s) && s.First() <= c < s.End() && c < ELF_PAGES
    ensures Written(img, file, s, c)[c] == Filled(ZeroFrame())
    ensures Written(img, file, s, c)[c := Filled(Content(file, s, c))] == Written(img, file, s, c + 1)
  {
    hide Content;
  }

  lemma PastTheFile(file: seq<byte>, s: Segment, vp: nat)
    requires InFile(file, s) && (s.filesz == 0 || s.vaddr + s.filesz <= 4096 * vp)
    ensures Content(file, s, vp) == ZeroFrame()
  {
  }

  /** Once the file bytes of segment n are written, the image is that of the first n + 1 segments. */
  lemma SegmentDone(file: seq<byte>, segs: seq<Segment>, n: nat, c: nat)
    requires SegmentsOk(segs, |file|) && n < |segs| && segs[n].Live()
    requires segs[n].filesz == 0 || segs[n].vaddr + segs[n].filesz <= 4096 * c
    ensures Written(ImageAfter(file, segs, n), file, segs[n], c) == ImageAfter(file, segs, n + 1)
  {
    hide Content;
    var s := segs[n];
    var x, y := Written(ImageAfter(file, segs, n), file, s, c), ImageAfter(file, segs, n + 1);
    forall vp | 0 <= vp < ELF_PAGES
      ensures x[vp] == y[vp]
    {
      if vp >= c { PastTheFile(file, s, vp); }
    }
  }

  lemma SegmentSkipped(file: seq<byte>, segs: seq<Segment>, n: nat)
    requires SegmentsOk(segs, |file|) && n < |segs| && !segs[n].Live()
    ensures ImageAfter(file, segs, n) == ImageAfter(file, segs, n + 1)
  {
    hide Content;
    var x, y := ImageAfter(file, segs, n), ImageAfter(file, segs, n + 1);
    assert forall vp :: 0 <= vp < ELF_PAGES ==> x[vp] == y[vp];
  }

  /** Nothing is mapped outside [8 MB, 32 MB). */
  lemma ImageInside(segs: seq<Segment>, size: nat, n: nat, vp: nat)
    requires SegmentsOk(segs, size) && n <= |segs| && LastCover(segs, n, vp) != -1
    ensures USER_BASE / 4096 <= vp < USER_LIMIT / 4096
  {
    assert SegmentOk(segs[LastCover(segs, n, vp)], size);
  }

  // ---- address arithmetic of the copy ---------------------------------------------------------------------------

  /** The address the copy of a chunk from va on starts writing at: the offset in the page is in the translation
      already and is added again. */
  function CopyTarget(frame: nat, va: nat): nat { (4096 * frame + va % 4096) + va % 4096 }

  /** Bytes copied at once: up to the end of the page, or of what is left. */
  function ChunkLen(va: nat, left: nat): (n: nat)
    ensures n <= left && (left > 0 ==> n > 0)
  {
    if 4096 - va % 4096 > left then left else 4096 - va % 4096
  }

  /** Where the copy loop puts byte i of a segment, from byte copied on, when page vp is in frame frames(vp). */
  ghost function Target(frames: nat -> nat, s: Segment, i: nat, copied: nat): nat
    requires copied <= i < s.filesz
    decreases s.filesz - copied
  {
    var va := s.vaddr + copied;
    var n := ChunkLen(va, s.filesz - copied);
    if i < copied + n then CopyTarget(frames(va / 4096), va) + (i - copied) else Target(frames, s, i, copied + n)
  }

  /** Where it belongs. */
  ghost function Home(frames: nat -> nat, s: Segment, i: nat): nat {
    4096 * frames((s.vaddr + i) / 4096) + (s.vaddr + i) % 4096
  }

  /** From a page boundary on, everything lands where it belongs. */
  lemma {:induction false} AlignedLands(frames: nat -> nat, s: Segment, i: nat, copied: nat)
    requires copied <= i < s.filesz && (s.vaddr + copied) % 4096 == 0
    ensures Target(frames, s, i, copied) == Home(frames, s, i)
    decreases s.filesz - copied
  {
    var n := ChunkLen(s.vaddr + copied, s.filesz - copied);
    if i < copied + n {
      InPage(s.vaddr + copied, i - copied);
    } else {
      AlignedLands(frames, s, i, copied + n);
    }
  }

  lemma InPage(va: nat, k: nat)
    requires va % 4096 + k < 4096
    ensures (va + k) / 4096 == va / 4096 && (va + k) % 4096 == va % 4096 + k
  {
  }

  /** A byte lands where it belongs exactly when the segment starts on a page boundary or the byte is behind its
      first page. */
  lemma ByteLands(frames: nat -> nat, s: Segment, i: nat)
    requires i < s.filesz
    ensures Target(frames, s, i, 0) == Home(frames, s, i) <==> s.vaddr % 4096 == 0 || 4096 - s.vaddr % 4096 <= i
  {
    var n := ChunkLen(s.vaddr, s.filesz);
    if s.vaddr % 4096 == 0 {
      AlignedLands(frames, s, i, 0);
    } else if i < n {
      InPage(s.vaddr, i);
    } else {
      AlignedLands(frames, s, i, n);
    }
  }

  /** The file bytes of a segment land where they belong exactly when it starts on a page boundary or has none. */
  lemma CopyLandsRight(frames: nat -> nat, s: Segment)
    ensures (forall i: nat :: i < s.filesz ==> Target(frames, s, i, 0) == Home(frames, s, i)) <==>
            s.vaddr % 4096 == 0 || s.filesz == 0
  {
    hide Target, Home;
    forall i: nat | i < s.filesz
      ensures Target(frames, s, i, 0) == Home(frames, s, i) <==> s.vaddr % 4096 == 0 || 4096 - s.vaddr % 4096 <= i
    {
      ByteLands(frames, s, i);
    }
    assert s.filesz > 0 ==> (Target(frames, s, 0, 0) == Home(frames, s, 0) <==> s.vaddr % 4096 == 0);
  }

  /** Half a page of bytes for the second half of a page: all of them end up in the frame behind it. */
  lemma WrongFrame(frames: nat -> nat, s: Segment, i: nat)
    requires s.vaddr == 0x80_0800 && s.filesz == 2048 && i < 2048
    ensures Target(frames, s, i, 0) == 4096 * (frames(0x800) + 1) + i &&
            Home(frames, s, i) == 4096 * frames(0x800) + 2048 + i
  {
  }

  // ---- bytes of physical memory ---------------------------------------------------------------------------------

  /** Memory with src stored from address at on. */
  ghost function Stored(mem: seq<Frame>, at: nat, src: seq<byte>): (r: seq<Frame>)
    ensures |r| == |mem|
  {
    seq(|mem|, f requires 0 <= f < |mem| => StoredFrame(mem[f], 4096 * f, at, src))
  }

  ghost function StoredFrame(x: Frame, base: nat, at: nat, src: seq<byte>): Frame {
    seq(4096, b requires 0 <= b < 4096 => if at <= base + b < at + |src| then src[base + b - at] else x[b])
  }

  lemma StoredNone(mem: seq<Frame>, at: nat)
    ensures Stored(mem, at, []) == mem
  {
    forall f | 0 <= f < |mem|
      ensures Stored(mem, at, [])[f] == mem[f]
    {
    }
  }

  lemma StoredMore(mem: seq<Frame>, at: nat, src: seq<byte>, j: nat)
    requires j < |src| && (at + j) / 4096 < |mem|
    ensures var x, f, b := Stored(mem, at, src[..j]), (at + j) / 4096, (at + j) % 4096;
            x[f := x[f][b := src[j]]] == Stored(mem, at, src[..j + 1])
  {
    var x, y, f, b := Stored(mem, at, src[..j]), Stored(mem, at, src[..j + 1]), (at + j) / 4096, (at + j) % 4096;
    forall g | 0 <= g < |mem|
      ensures y[g] == if g == f then x[f][b := src[j]] else x[g]
    {
      StoredByte(mem[g], 4096 * g, at, src, j);
    }
  }

  lemma StoredByte(x: Frame, base: nat, at: nat, src: seq<byte>, j: nat)
    requires j < |src|
    ensures var y, z := StoredFrame(x, base, at, src[..j]), StoredFrame(x, base, at, src[..j + 1]);
            z == if base <= at + j < base + 4096 then y[at + j - base := src[j]] else y
  {
  }

  /** The same half page in memory: its frame f gets none of the bytes, frame f + 1 gets them all. */
  lemma WrongFrameFilled(mem: seq<Frame>, f: nat, src: seq<byte>)
    requires f + 1 < |mem| && |src| == 2048
    ensures var mem' := Stored(mem, CopyTarget(f, 0x80_0800), src);
            mem'[f] == mem[f] && mem'[f + 1] == src + mem[f + 1][2048..]
  {
    var at := CopyTarget(f, 0x80_0800);
    assert StoredFrame(mem[f], 4096 * f, at, src) == mem[f];
    assert StoredFrame(mem[f + 1], 4096 * (f + 1), at, src) == src + mem[f + 1][2048..];
  }

  /** Up to a page of bytes stored at the start of a zeroed frame. */
  lemma StoredPage(mem: seq<Frame>, f: nat, src: seq<byte>)
    requires f < |mem| && mem[f] == ZeroFrame() && |src| <= 4096
    ensures Stored(mem, 4096 * f, src) == mem[f := Padded(src)]
  {
    var r := Stored(mem, 4096 * f, src);
    forall g | 0 <= g < |mem|
      ensures r[g] == if g == f then Padded(src) else mem[g]
    {
      var x := StoredFrame(mem[g], 4096 * g, 4096 * f, src);
      assert x == if g == f then Padded(src) else mem[g];
    }
  }
}
