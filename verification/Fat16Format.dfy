/** The driver's view of the disk against the on-disk format, byte by byte (the sections "FAT Data Structure" and "FAT
    Directory Structure" of "FAT: General Overview of On-Disk Format", version 1.03). */
module Fat16Format {
  import opened Bytes
  import opened Fat16Layout
  import opened Fat16Image
  import opened Fat16Dir

  /** Byte i of a directory entry that was just made: name, attributes, zeros, first cluster, size, the numbers
      with their low bytes first. */
  lemma EntryBytes(name: seq<byte>, attr: byte, first: u16, size: u32, i: nat)
    requires |name| == 11 && i < 32
    ensures MakeEntry(name, attr, first, size)[i] ==
            if i < 11 then name[i] else if i == 11 then attr else if i < 26 then 0 else TailByte(first, size, i)
  {
    TailBytes(first, size, i);
    hide Le16, Le32;
    var e := name + [attr] + Zeros(14) + Le16(first) + Le32(size);
    assert i >= 26 ==> e[i] == (Le16(first) + Le32(size))[i - 26];
  }

  /** Bytes 26 to 31 of an entry. */
  function TailByte(first: u16, size: u32, i: nat): byte {
    if i == 26 then first % 0x100 else if i == 27 then first / 0x100
    else if i == 28 then size % 0x100 else if i == 29 then size / 0x100 % 0x100
    else if i == 30 then size / 0x1_0000 % 0x100 else size / 0x100_0000
  }

  lemma TailBytes(first: u16, size: u32, i: nat)
    requires i < 32
    ensures i >= 26 ==> (Le16(first) + Le32(size))[i - 26] == TailByte(first, size, i)
  {
    assert size % 0x1_0000 % 0x100 == size % 0x100 && size % 0x1_0000 / 0x100 == size / 0x100 % 0x100;
    assert size / 0x1_0000 / 0x100 == size / 0x100_0000;
  }

  /** Updating an entry changes its first cluster and size and no other byte. */
  lemma ResizedBytes(e: Entry, first: u16, size: u32, i: nat)
    requires i < 32
    ensures Resized(e, first, size)[i] == if i < 26 then e[i] else TailByte(first, size, i)
  {
    TailBytes(first, size, i);
    hide Le16, Le32;
    var r := e[..26] + Le16(first) + Le32(size);
    assert i >= 26 ==> r[i] == (Le16(first) + Le32(size))[i - 26];
  }

  /** New files have the archive attribute, new directories that of a directory; bit 4 of the attributes tells a
      directory, bit 3 a volume label, and a first byte of 0x00 or 0xE5 a slot that nothing is in. */
  lemma EntryKinds(name: seq<byte>, first: u16, size: u32, e: Entry)
    requires |name| == 11
    ensures MakeEntry(name, ATTR_ARCHIVE, first, size)[11] == 0x20 &&
            MakeEntry(name, ATTR_DIRECTORY, first, size)[11] == 0x10
    ensures IsDir(e) <==> e[11] % 32 >= 16
    ensures IsLive(e) <==> e[0] != 0x00 && e[0] != 0xE5 && e[11] % 16 < 8
  {
  }

  function Times(a: nat, b: nat): (r: nat)
    ensures r == a * b
  {
    MulNonneg(a, b);
    a * b
  }

  /** The FAT entry of cluster c is two bytes, low byte first, at the same place of every FAT copy. */
  lemma FatBytes(g: Geo, disk: seq<Sector>, fat: seq<u16>, f: nat, c: nat)
    requires Synced(g, disk, fat) && f < g.numFats && c < |fat|
    ensures var s := SectorAt(disk, g.fatStart + Times(f, g.fatSectors) + c / 256);
            s[2 * (c % 256)] == fat[c] % 0x100 && s[2 * (c % 256) + 1] == fat[c] / 0x100
  {
    hide FatSector, SectorAt;
    assert SectorAt(disk, FatLba(g, f, c / 256)) == FatSector(fat, c / 256);
    hide Synced;
    SectorBytes(fat, c);
  }

  lemma SectorBytes(fat: seq<u16>, c: nat)
    requires c < |fat| && |fat| % 256 == 0
    ensures var s := FatSector(fat, c / 256);
            s[2 * (c % 256)] == fat[c] % 0x100 && s[2 * (c % 256) + 1] == fat[c] / 0x100
  {
    var s, i := c / 256, c % 256;
    assert FatSector(fat, s)[2 * i] == Le16(fat[256 * s + (2 * i) / 2])[(2 * i) % 2];
    assert FatSector(fat, s)[2 * i + 1] == Le16(fat[256 * s + (2 * i + 1) / 2])[(2 * i + 1) % 2];
  }

  /** Byte b of sector s of the i-th cluster of an object is its byte 512 * (i * spc + s) + b. Clusters follow one
      another from the start of the data area on, the first of them being number 2. */
  lemma DataBytes(g: Geo, fat: seq<u16>, L: Layout, disk: seq<Sector>, o: nat, i: nat, s: nat, b: nat)
    requires LayoutOk(g, fat, L) && o in L.chains && i < |L.chains[o]| && s < g.spc && b < 512
    ensures 2 <= L.chains[o][i]
    ensures var p := 512 * (Times(i, g.spc) + s) + b;
            p < |Flat(View(g, L, disk, o))| && Flat(View(g, L, disk, o))[p] ==
              SectorAt(disk, g.dataStart + Times(L.chains[o][i] - 2, g.spc) + s)[b]
  {
    assert LinkOk(g, fat, L, o, i) && o != 0;
    hide LayoutOk;
    var j := Times(i, g.spc) + s;
    DivModUnique(j, i, s, g.spc);
    InChain(g, i, s, |L.chains[o]|);
    hide Times;
    var p := 512 * j + b;
    assert p / 512 == j && p % 512 == b;
    assert View(g, L, disk, o)[j] == SectorAt(disk, Lba(g, L, o, j));
  }

  lemma InChain(g: Geo, i: nat, s: nat, n: nat)
    requires i < n && s < g.spc
    ensures Times(i, g.spc) + s < At(g, n, 0)
  {
    MulStep(i, n, g.spc);
  }

  /** The root directory is the sectors before the data area, one after the other. */
  lemma RootBytes(g: Geo, L: Layout, disk: seq<Sector>, p: nat)
    requires p < 512 * (g.dataStart - g.rootStart)
    ensures Flat(View(g, L, disk, 0))[p] == SectorAt(disk, g.rootStart + p / 512)[p % 512]
  {
  }
}
