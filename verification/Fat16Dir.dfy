/** Directory sectors as 32-byte entries, and the invariant that makes the volume a tree of
    uniquely named files and directories. */
module Fat16Dir {
  import opened Bytes
  import opened Fat16Layout
  import opened Fat16Image

  type Entry = s: seq<byte> | |s| == 32 witness seq(32, i => 0)

  const ATTR_VOLUME_ID: byte := 0x08
  const ATTR_DIRECTORY: byte := 0x10
  const ATTR_ARCHIVE: byte := 0x20
  const DELETED: byte := 0xE5

  function NameOf(e: Entry): seq<byte> { e[..11] }
  function FirstOf(e: Entry): u16 { U16(e[26..28]) }
  function SizeOf(e: Entry): u32 { U32(e[28..32]) }

  predicate IsEmpty(e: Entry) { e[0] == 0 }
  predicate IsDeleted(e: Entry) { e[0] == DELETED }
  predicate IsVolume(e: Entry) { (e[11] / ATTR_VOLUME_ID) % 2 == 1 }
  predicate IsDir(e: Entry) { (e[11] / ATTR_DIRECTORY) % 2 == 1 }

  /** An entry a lookup can match. */
  predicate IsLive(e: Entry) { !IsEmpty(e) && !IsDeleted(e) && !IsVolume(e) }

  /** A new entry: name, attribute, ten reserved bytes, time and date all zero. */
  function MakeEntry(name: seq<byte>, attr: byte, first: u16, size: u32): (e: Entry)
    requires |name| == 11
    ensures NameOf(e) == name && e[11] == attr && FirstOf(e) == first && SizeOf(e) == size
  {
    var e := name + [attr] + Zeros(14) + Le16(first) + Le32(size);
    assert e[26..28] == Le16(first);
    assert e[28..32] == Le32(size);
    e
  }

  /** The entry with its first cluster and size replaced. */
  function Resized(e: Entry, first: u16, size: u32): (r: Entry)
    ensures NameOf(r) == NameOf(e) && r[11] == e[11] && FirstOf(r) == first && SizeOf(r) == size
  {
    var r := e[..26] + Le16(first) + Le32(size);
    assert r[26..28] == Le16(first);
    assert r[28..32] == Le32(size);
    r
  }

  lemma ResizedSame(e: Entry)
    ensures Resized(e, FirstOf(e), SizeOf(e)) == e
  {
    LeBack16(e[26..28]);
    LeBack32(e[28..32]);
  }

  // ---- slots of a directory --------------------------------------------------------------------

  function Slot(v: seq<Sector>, k: nat): (e: Entry) {
    if k < 16 * |v| then Flat(v)[32 * k..32 * k + 32] else Zeros(32)
  }

  /** The sector with slot i of its sixteen replaced. */
  function SetSlot(s: Sector, i: nat, e: Entry): (r: Sector)
    requires i < 16
  {
    Patch(s, 32 * i, e)
  }

  function PutSlot(v: seq<Sector>, k: nat, e: Entry): (r: seq<Sector>)
    requires k / 16 < |v|
  {
    v[k / 16 := SetSlot(v[k / 16], k % 16, e)]
  }

  lemma SlotIndex(j: nat, i: nat)
    requires i < 16
    ensures (16 * j + i) / 16 == j && (16 * j + i) % 16 == i
  {
  }

  lemma SlotInSector(v: seq<Sector>, j: nat, i: nat)
    requires j < |v| && i < 16
    ensures Slot(v, 16 * j + i) == v[j][32 * i..32 * i + 32]
  {
    var x, y := Flat(v)[32 * (16 * j + i)..32 * (16 * j + i) + 32], v[j][32 * i..32 * i + 32];
    forall b | 0 <= b < 32
      ensures x[b] == y[b]
    {
      var p := 32 * (16 * j + i) + b;
      assert p / 512 == j && p % 512 == 32 * i + b;
    }
  }

  lemma SetSlotOther(s: Sector, i: nat, e: Entry, i': nat)
    requires i < 16 && i' < 16 && i != i'
    ensures SetSlot(s, i, e)[32 * i'..32 * i' + 32] == s[32 * i'..32 * i' + 32]
  {
  }

  lemma SetSectorSlot(v: seq<Sector>, j0: nat, i0: nat, e: Entry, j: nat, i: nat)
    requires j0 < |v| && j < |v| && i0 < 16 && i < 16 && (j, i) != (j0, i0)
    ensures v[j0 := SetSlot(v[j0], i0, e)][j][32 * i..32 * i + 32] == v[j][32 * i..32 * i + 32]
  {
    if j == j0 { SetSlotOther(v[j], i0, e, i); }
  }

  lemma SlotPutOther(v: seq<Sector>, k: nat, e: Entry, k': nat)
    requires k / 16 < |v| && k' != k
    ensures Slot(PutSlot(v, k, e), k') == Slot(v, k')
  {
    if k' < 16 * |v| {
      var j, i := k' / 16, k' % 16;
      SlotInSector(PutSlot(v, k, e), j, i);
      SlotInSector(v, j, i);
      hide Slot, SetSlot;
      SetSectorSlot(v, k / 16, k % 16, e, j, i);
    }
  }

  lemma SlotPut(v: seq<Sector>, k: nat, e: Entry)
    requires k / 16 < |v|
    ensures |PutSlot(v, k, e)| == |v|
    ensures Slot(PutSlot(v, k, e), k) == e
    ensures forall k': nat :: k' != k ==> Slot(PutSlot(v, k, e), k') == Slot(v, k')
  {
    SlotInSector(PutSlot(v, k, e), k / 16, k % 16);
    hide Slot;
    forall k': nat | k' != k
      ensures Slot(PutSlot(v, k, e), k') == Slot(v, k')
    {
      SlotPutOther(v, k, e, k');
    }
  }

  /** Index of the first live entry called name before the first empty slot, from slot k on, or -1. */
  function Find(v: seq<Sector>, name: seq<byte>, k: nat): (r: int)
    ensures r == -1 || k <= r < 16 * |v|
    ensures r >= 0 ==> IsLive(Slot(v, r)) && NameOf(Slot(v, r)) == name
    decreases 16 * |v| - k
  {
    if k >= 16 * |v| || IsEmpty(Slot(v, k)) then -1
    else if IsLive(Slot(v, k)) && NameOf(Slot(v, k)) == name then k
    else Find(v, name, k + 1)
  }

  lemma FindStep(v: seq<Sector>, name: seq<byte>, j: nat, i: nat)
    requires j < |v| && i < 16
    ensures Slot(v, 16 * j + i) == v[j][32 * i..32 * i + 32]
    ensures IsEmpty(Slot(v, 16 * j + i)) ==> Find(v, name, 16 * j + i) == -1
    ensures IsLive(Slot(v, 16 * j + i)) && NameOf(Slot(v, 16 * j + i)) == name ==>
            Find(v, name, 16 * j + i) == 16 * j + i
    ensures !IsEmpty(Slot(v, 16 * j + i)) && !(IsLive(Slot(v, 16 * j + i)) && NameOf(Slot(v, 16 * j + i)) == name) ==>
              Find(v, name, 16 * j + i) == Find(v, name, 16 * j + i + 1)
  {
    SlotInSector(v, j, i);
  }

  lemma FindEnd(v: seq<Sector>, name: seq<byte>, k: nat)
    requires 16 * |v| <= k
    ensures Find(v, name, k) == -1
  {
  }

  // ---- the tree ----------------------------------------------------------------------------------

  /** parent and depth: the directory tree (0 is the root and in neither map). used: slots before the
      first empty one. index: where each live name of a directory is. home: the slot that names a
      first cluster. The last two make names and first clusters unique. */
  datatype Tree = Tree(
    parent: map<nat, nat>,
    depth: map<nat, nat>,
    used: map<nat, nat>,
    index: map<(nat, seq<byte>), nat>,
    home: map<nat, (nat, nat)>)

  const DOT: seq<byte> := [0x2E, 0x20, 0x20, 0x20, 0x20, 0x20, 0x20, 0x20, 0x20, 0x20, 0x20]
  const DOTDOT: seq<byte> := [0x2E, 0x2E, 0x20, 0x20, 0x20, 0x20, 0x20, 0x20, 0x20, 0x20, 0x20]

  ghost predicate IsDirectory(T: Tree, d: nat) { d == 0 || d in T.parent }

  function Depth(T: Tree, d: nat): nat { if d in T.depth then T.depth[d] else 0 }

  /** What slot k of directory d may hold. */
  ghost predicate EntryOk(g: Geo, L: Layout, T: Tree, d: nat, k: nat, e: Entry) {
    && d in T.used && (IsEmpty(e) <==> T.used[d] <= k)
    && (IsLive(e) ==> (d, NameOf(e)) in T.index && T.index[(d, NameOf(e))] == k)
    && (d != 0 && k < 2 ==>
          && IsLive(e) && IsDir(e)
          && NameOf(e) == (if k == 0 then DOT else DOTDOT)
          && FirstOf(e) == (if k == 0 then d else if d in T.parent then T.parent[d] else 0))
    && (IsLive(e) && (d == 0 || 2 <= k) ==>
          && e[0] != 0x2E
          && if IsDir(e) then
               && FirstOf(e) in T.parent && T.parent[FirstOf(e)] == d
               && FirstOf(e) in T.home && T.home[FirstOf(e)] == (d, k)
             else if FirstOf(e) == 0 then SizeOf(e) == 0
             else
               && FirstOf(e) in L.chains && FirstOf(e) !in T.parent
               && FirstOf(e) in T.home && T.home[FirstOf(e)] == (d, k)
               && SizeOf(e) > 0 && |L.chains[FirstOf(e)]| == Clusters(g, SizeOf(e)))
  }

  ghost predicate DirOk(g: Geo, L: Layout, T: Tree, d: nat, v: seq<Sector>) {
    && d in T.used && T.used[d] <= 16 * |v|
    && forall k: nat :: k < 16 * |v| ==> EntryOk(g, L, T, d, k, Slot(v, k))
  }

  /** Directory d has its chain, its parent one level up and an entry in that parent. */
  ghost predicate LinkedIn(g: Geo, L: Layout, disk: seq<Sector>, T: Tree, d: nat)
    requires d in T.parent
  {
    && d in L.chains && d != 0
    && IsDirectory(T, T.parent[d])
    && Depth(T, d) == Depth(T, T.parent[d]) + 1
    && d in T.home && T.home[d].0 == T.parent[d]
    && var v := View(g, L, disk, T.parent[d]);
       var k := T.home[d].1;
       && k < 16 * |v| && (T.parent[d] == 0 || 2 <= k)
       && IsLive(Slot(v, k)) && IsDir(Slot(v, k)) && FirstOf(Slot(v, k)) == d
  }

  ghost predicate TreeOk(g: Geo, L: Layout, disk: seq<Sector>, T: Tree) {
    && 0 !in T.parent && 0 !in T.depth && 0 in T.used
    && (forall d :: IsDirectory(T, d) ==> DirOk(g, L, T, d, View(g, L, disk, d)))
    && (forall d :: d in T.parent ==> LinkedIn(g, L, disk, T, d))
  }

  /** Slot k of directory d has a live entry of this name. */
  ghost predicate HasEntry(g: Geo, L: Layout, disk: seq<Sector>, d: nat, name: seq<byte>, k: nat) {
    k < 16 * |View(g, L, disk, d)| && IsLive(Slot(View(g, L, disk, d), k)) &&
      NameOf(Slot(View(g, L, disk, d), k)) == name
  }

  /** Entries are found exactly when they exist: lookup by first match meets the index. */
  lemma {:induction false} FindIndexed(g: Geo, L: Layout, T: Tree, d: nat, v: seq<Sector>, name: seq<byte>, from: nat,
      k: nat)
    requires DirOk(g, L, T, d, v)
    requires from <= k < 16 * |v| && IsLive(Slot(v, k)) && NameOf(Slot(v, k)) == name
    ensures Find(v, name, from) == k
    decreases k - from
  {
    hide Slot;
    assert EntryOk(g, L, T, d, k, Slot(v, k));
    assert EntryOk(g, L, T, d, from, Slot(v, from));
    if from < k {
      FindIndexed(g, L, T, d, v, name, from + 1, k);
    }
  }

  /** A name that lookup does not find is on no live entry. */
  lemma {:induction false} FindNothing(g: Geo, L: Layout, T: Tree, d: nat, v: seq<Sector>, name: seq<byte>, from: nat,
      k: nat)
    requires DirOk(g, L, T, d, v)
    requires from <= k < 16 * |v| && Find(v, name, from) == -1 && IsLive(Slot(v, k))
    ensures NameOf(Slot(v, k)) != name
  {
    if NameOf(Slot(v, k)) == name { FindIndexed(g, L, T, d, v, name, from, k); }
  }

  /** Lookup finds "." and ".." in every subdirectory, where they belong. */
  lemma DotsFound(g: Geo, fat: seq<u16>, L: Layout, disk: seq<Sector>, T: Tree, d: nat)
    requires LayoutOk(g, fat, L) && TreeOk(g, L, disk, T) && d in T.parent
    ensures Find(View(g, L, disk, d), DOT, 0) == 0 && FirstOf(Slot(View(g, L, disk, d), 0)) == d
    ensures Find(View(g, L, disk, d), DOTDOT, 0) == 1 && FirstOf(Slot(View(g, L, disk, d), 1)) == T.parent[d]
    ensures IsDir(Slot(View(g, L, disk, d), 0)) && IsDir(Slot(View(g, L, disk, d), 1))
  {
    var v := View(g, L, disk, d);
    assert LinkedIn(g, L, disk, T, d);
    assert DirOk(g, L, T, d, v);
    AtMono(g, 0, |L.chains[d]|);
    assert EntryOk(g, L, T, d, 0, Slot(v, 0)) && EntryOk(g, L, T, d, 1, Slot(v, 1));
    hide Slot, View, Find, TreeOk, LayoutOk;
    FindIndexed(g, L, T, d, v, DOT, 0, 0);
    FindIndexed(g, L, T, d, v, DOTDOT, 0, 1);
  }
}
