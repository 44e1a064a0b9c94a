/** Adding an entry to a directory keeps the volume a tree: the pure half of fat16_create and
    fat16_mkdir. */
module Fat16Insert {
  import opened Bytes
  import opened Fat16Layout
  import opened Fat16Dir

  /** The first empty or deleted slot from k on, or -1 when the directory is full. */
  function FreeSlot(v: seq<Sector>, k: nat): (r: int)
    ensures r == -1 || k <= r < 16 * |v|
    ensures r >= 0 ==> IsEmpty(Slot(v, r)) || IsDeleted(Slot(v, r))
    ensures forall i :: k <= i < (if r < 0 then 16 * |v| else r) ==> !IsEmpty(Slot(v, i)) && !IsDeleted(Slot(v, i))
    decreases 16 * |v| - k
  {
    if k >= 16 * |v| then -1
    else if IsEmpty(Slot(v, k)) || IsDeleted(Slot(v, k)) then k
    else FreeSlot(v, k + 1)
  }

  /** v' is v with entry e put in its first free slot or, when it is full, in the first slot of added
      sectors that are otherwise zero. */
  ghost predicate Inserted(v: seq<Sector>, v': seq<Sector>, k: nat, e: Entry) {
    && |v| <= |v'| && k < 16 * |v'| && Slot(v', k) == e
    && (if FreeSlot(v, 0) >= 0 then k == FreeSlot(v, 0) && |v'| == |v| else k == 16 * |v|)
    && (forall i: nat :: i < 16 * |v| && i != k ==> Slot(v', i) == Slot(v, i))
    && (forall i: nat :: 16 * |v| <= i < 16 * |v'| && i != k ==> IsEmpty(Slot(v', i)))
  }

  ghost function UsedAfter(T: Tree, d: nat, k: nat): map<nat, nat>
    requires d in T.used
  {
    T.used[d := if k < T.used[d] then T.used[d] else k + 1]
  }

  ghost function AddFile(T: Tree, d: nat, k: nat, name: seq<byte>): Tree
    requires d in T.used
  {
    T.(used := UsedAfter(T, d, k), index := T.index[(d, name) := k])
  }

  /** The tree with entry e, an empty file, in slot k of d; an entry that lookup does not see only takes up the slot. */
  ghost function AddEntry(T: Tree, d: nat, k: nat, e: Entry): Tree
    requires d in T.used
  {
    if IsLive(e) then AddFile(T, d, k, NameOf(e)) else T.(used := UsedAfter(T, d, k))
  }

  ghost function AddDir(T: Tree, d: nat, k: nat, name: seq<byte>, c: nat): Tree
    requires d in T.used
  {
    Tree(
      T.parent[c := d],
      T.depth[c := Depth(T, d) + 1],
      UsedAfter(T, d, k)[c := 2],
      T.index[(d, name) := k][(c, DOT) := 0][(c, DOTDOT) := 1],
      T.home[c := (d, k)])
  }

  /** In a directory that gains one entry, used counts exactly the slots before the first empty one. */
  lemma UsedIsExact(g: Geo, L: Layout, T: Tree, d: nat, v: seq<Sector>, v': seq<Sector>, k: nat, e: Entry, i: nat)
    requires DirOk(g, L, T, d, v) && Inserted(v, v', k, e) && d in T.used && !IsEmpty(e) && i < 16 * |v'|
    ensures IsEmpty(Slot(v', i)) <==> UsedAfter(T, d, k)[d] <= i
  {
    if i < 16 * |v| { assert EntryOk(g, L, T, d, i, Slot(v, i)); }
    if k < 16 * |v| { assert EntryOk(g, L, T, d, k, Slot(v, k)); }
    if 0 < k {
      assert EntryOk(g, L, T, d, k - 1, Slot(v, k - 1));
    }
    if FreeSlot(v, 0) < 0 && |v| > 0 { assert EntryOk(g, L, T, d, 16 * |v| - 1, Slot(v, 16 * |v| - 1)); }
  }

  /** Entry e goes into slot k of directory d: the volume before (L, T, disk) and after (L', disk'). */
  datatype Insertion = Insertion(g: Geo, L: Layout, T: Tree, disk: seq<Sector>, d: nat, k: nat, e: Entry,
                                 L': Layout, disk': seq<Sector>)
  {
    ghost function Before(): seq<Sector> { View(g, L, disk, d) }
    ghost function After(): seq<Sector> { View(g, L', disk', d) }
    /** The name lookup gets to see, if any. */
    ghost function NewName(): seq<byte> { if IsLive(e) then NameOf(e) else [] }
  }

  /** Whatever e is, it is in the slot where it belongs and nothing else changed. */
  ghost predicate PutIn(I: Insertion) {
    && 0 !in I.L.chains && (forall o :: o in I.L.chains ==> |I.L.chains[o]| > 0) && TreeOk(I.g, I.L, I.disk, I.T) &&
       IsDirectory(I.T, I.d)
    && Inserted(I.Before(), I.After(), I.k, I.e)
    && (forall o :: o != I.d && (o == 0 || o in I.L.chains) ==>
       View(I.g, I.L', I.disk', o) == View(I.g, I.L, I.disk, o))
    && (forall o :: o != I.d && o in I.L.chains ==> o in I.L'.chains && I.L'.chains[o] == I.L.chains[o])
    && (I.d != 0 ==> I.d in I.L'.chains)
  }

  /** e is an entry a tree can take. */
  ghost predicate InsertionOk(I: Insertion) {
    PutIn(I) && !IsEmpty(I.e) && (IsLive(I.e) ==> Find(I.Before(), NameOf(I.e), 0) == -1 && I.e[0] != 0x2E)
  }

  /** The slot is behind "." and "..", and no other live entry has the name. */
  lemma InsertionSlot(I: Insertion)
    requires InsertionOk(I)
    ensures I.d in I.T.used && (I.d == 0 || 2 <= I.k) && (I.d != 0 ==> I.d in I.T.parent && I.d in I.L.chains)
    ensures forall i: nat :: i < 16 * |I.Before()| && IsLive(Slot(I.Before(), i)) ==>
            NameOf(Slot(I.Before(), i)) != I.NewName()
  {
    var v := I.Before();
    assert DirOk(I.g, I.L, I.T, I.d, v);
    if I.d != 0 {
      assert LinkedIn(I.g, I.L, I.disk, I.T, I.d);
      if 2 <= 16 * |v| {
        assert EntryOk(I.g, I.L, I.T, I.d, 0, Slot(v, 0)) && EntryOk(I.g, I.L, I.T, I.d, 1, Slot(v, 1));
      }
      DirNotEmpty(I);
    }
    forall i: nat | i < 16 * |v| && IsLive(Slot(v, i))
      ensures NameOf(Slot(v, i)) != I.NewName()
    {
      if IsLive(I.e) { FindNothing(I.g, I.L, I.T, I.d, v, NameOf(I.e), 0, i); }
    }
  }

  lemma DirNotEmpty(I: Insertion)
    requires InsertionOk(I) && I.d != 0
    ensures |I.Before()| > 0
  {
    assert LinkedIn(I.g, I.L, I.disk, I.T, I.d);
    AtMono(I.g, 0, |I.L.chains[I.d]|);
  }

  /** The directories of the old tree, seen on the new volume. */
  lemma OldDir(I: Insertion, d: nat)
    requires InsertionOk(I) && IsDirectory(I.T, d)
    ensures DirOk(I.g, I.L, I.T, d, View(I.g, I.L, I.disk, d))
    ensures d == I.d ==> Inserted(View(I.g, I.L, I.disk, d), View(I.g, I.L', I.disk', d), I.k, I.e)
    ensures d != I.d ==> View(I.g, I.L', I.disk', d) == View(I.g, I.L, I.disk, d)
    ensures 0 !in I.T.parent && !IsEmpty(I.e)
    ensures forall o :: o != I.d && o in I.L.chains ==> o in I.L'.chains && I.L'.chains[o] == I.L.chains[o]
  {
    hide DirOk, Inserted, View, Slot, Find;
    if d != 0 { assert LinkedIn(I.g, I.L, I.disk, I.T, d); }
  }

  lemma OldEntry(g: Geo, L: Layout, T: Tree, d: nat, v: seq<Sector>, i: nat)
    requires DirOk(g, L, T, d, v) && i < 16 * |v|
    ensures EntryOk(g, L, T, d, i, Slot(v, i))
  {
  }

  /** Entries that were there before stay good in a tree that gained only the new entry. */
  lemma OldEntryStays(I: Insertion, T': Tree, d: nat, i: nat)
    requires InsertionOk(I) && I.d in I.T.used && IsDirectory(I.T, d) && i < 16 * |View(I.g, I.L', I.disk', d)| &&
             (d, i) != (I.d, I.k)
    requires d in T'.used && T'.used[d] == UsedAfter(I.T, I.d, I.k)[d]
    requires forall n :: n != I.NewName() || d != I.d ==>
             ((d, n) in I.T.index ==> (d, n) in T'.index && T'.index[(d, n)] == I.T.index[(d, n)])
    requires forall o :: o in I.T.parent ==> o in T'.parent && T'.parent[o] == I.T.parent[o]
    requires forall o :: o in I.L.chains && o in I.T.home ==> o in T'.home && T'.home[o] == I.T.home[o]
    requires forall o :: o in I.L.chains && o !in I.T.parent ==> o !in T'.parent
    ensures EntryOk(I.g, I.L', T', d, i, Slot(View(I.g, I.L', I.disk', d), i))
  {
    hide InsertionOk, DirOk, View, Slot, EntryOk, Find;
    InsertionSlot(I);
    OldDir(I, d);
    var v, v' := View(I.g, I.L, I.disk, d), View(I.g, I.L', I.disk', d);
    if d == I.d {
      UsedIsExact(I.g, I.L, I.T, d, v, v', I.k, I.e, i);
      if d != 0 { DirNotEmpty(I); }
    } else {
      UsedElsewhere(I.g, I.L, I.T, d, v, i);
    }
    if i < 16 * |v| {
      OldEntry(I.g, I.L, I.T, d, v, i);
      FirstIsChain(I, d, i);
      assert d == I.d ==> v == I.Before() &&
                          (IsLive(Slot(I.Before(), i)) ==> NameOf(Slot(I.Before(), i)) != I.NewName());
      OldEntryKept(I.g, I.L, I.L', I.T, T', I.d, I.NewName(), d, i, Slot(v, i));
    } else {
      EmptyEntry(I.g, I.L', T', d, i, Slot(v', i));
    }
  }

  lemma UsedElsewhere(g: Geo, L: Layout, T: Tree, d: nat, v: seq<Sector>, i: nat)
    requires DirOk(g, L, T, d, v) && i < 16 * |v|
    ensures d in T.used && (IsEmpty(Slot(v, i)) <==> T.used[d] <= i)
  {
    hide Slot;
    assert EntryOk(g, L, T, d, i, Slot(v, i));
  }

  lemma EmptyEntry(g: Geo, L: Layout, T: Tree, d: nat, i: nat, x: Entry)
    requires IsEmpty(x) && d in T.used && T.used[d] <= i && (d == 0 || 2 <= i)
    ensures EntryOk(g, L, T, d, i, x)
  {
  }

  lemma OldEntryKept(g: Geo, L: Layout, L': Layout, T: Tree, T': Tree, d0: nat, name: seq<byte>, d: nat, i: nat,
      x: Entry)
    requires EntryOk(g, L, T, d, i, x) && (d == 0 || d in T.parent)
    requires IsLive(x) && d == d0 ==> NameOf(x) != name
    requires IsLive(x) && (d == 0 || 2 <= i) && FirstOf(x) != 0 ==>
             FirstOf(x) in L.chains && (!IsDir(x) ==> FirstOf(x) != d0)
    requires d in T'.used && (IsEmpty(x) <==> T'.used[d] <= i)
    requires forall n :: n != name || d != d0 ==>
             ((d, n) in T.index ==> (d, n) in T'.index && T'.index[(d, n)] == T.index[(d, n)])
    requires forall o :: o in T.parent ==> o in T'.parent && T'.parent[o] == T.parent[o]
    requires forall o :: o in L.chains && o in T.home ==> o in T'.home && T'.home[o] == T.home[o]
    requires forall o :: o in L.chains && o !in T.parent ==> o !in T'.parent
    requires forall o :: o != d0 && o in L.chains ==> o in L'.chains && L'.chains[o] == L.chains[o]
    requires 0 !in T.parent
    ensures EntryOk(g, L', T', d, i, x)
  {
  }

  /** A live entry's first cluster, if it has one, is an object. */
  lemma FirstIsChain(I: Insertion, d: nat, i: nat)
    requires InsertionOk(I) && IsDirectory(I.T, d) && i < 16 * |View(I.g, I.L, I.disk, d)|
    requires EntryOk(I.g, I.L, I.T, d, i, Slot(View(I.g, I.L, I.disk, d), i))
    ensures var x := Slot(View(I.g, I.L, I.disk, d), i);
            IsLive(x) && (d == 0 || 2 <= i) && FirstOf(x) != 0 ==>
              FirstOf(x) in I.L.chains && (!IsDir(x) ==> FirstOf(x) != I.d)
  {
    var x := Slot(View(I.g, I.L, I.disk, d), i);
    var f := FirstOf(x);
    if f in I.T.parent { assert LinkedIn(I.g, I.L, I.disk, I.T, f); }
  }

  /** T' has everything T has. */
  ghost predicate Keeps(I: Insertion, T': Tree) {
    && (forall o :: o in I.T.parent ==> o in T'.parent && T'.parent[o] == I.T.parent[o])
    && (forall o :: IsDirectory(I.T, o) ==> Depth(T', o) == Depth(I.T, o))
    && (forall o :: o in I.L.chains && o in I.T.home ==> o in T'.home && T'.home[o] == I.T.home[o])
    && (forall o :: o in I.L.chains && o !in I.T.parent ==> o !in T'.parent)
  }

  lemma LinkStays(I: Insertion, T': Tree, x: nat)
    requires InsertionOk(I) && x in I.T.parent && Keeps(I, T')
    ensures x in T'.parent && LinkedIn(I.g, I.L', I.disk', T', x)
  {
    assert LinkedIn(I.g, I.L, I.disk, I.T, x);
    var p, k := I.T.parent[x], I.T.home[x].1;
    var v, v' := View(I.g, I.L, I.disk, p), View(I.g, I.L', I.disk', p);
    assert x != I.d ==> x in I.L'.chains;
    if p != 0 { assert LinkedIn(I.g, I.L, I.disk, I.T, p); }
    assert |v| <= |v'| && Slot(v', k) == Slot(v, k);
    LinkMoves(I.g, I.L, I.L', I.disk, I.disk', I.T, T', x);
  }

  lemma LinkMoves(g: Geo, L: Layout, L': Layout, disk: seq<Sector>, disk': seq<Sector>, T: Tree, T': Tree, x: nat)
    requires x in T.parent && LinkedIn(g, L, disk, T, x) && x in L'.chains
    requires x in T'.parent && T'.parent[x] == T.parent[x] && IsDirectory(T', T.parent[x])
    requires Depth(T', x) == Depth(T, x) && Depth(T', T.parent[x]) == Depth(T, T.parent[x])
    requires x in T'.home && T'.home[x] == T.home[x]
    requires |View(g, L, disk, T.parent[x])| <= |View(g, L', disk', T.parent[x])|
    requires Slot(View(g, L', disk', T.parent[x]), T.home[x].1) == Slot(View(g, L, disk, T.parent[x]), T.home[x].1)
    ensures LinkedIn(g, L', disk', T', x)
  {
  }

  lemma NewFileEntry(I: Insertion)
    requires InsertionOk(I) && I.d in I.T.used && EmptyFile(I.e)
    ensures EntryOk(I.g, I.L', AddEntry(I.T, I.d, I.k, I.e), I.d, I.k, I.e)
  {
    hide InsertionOk, Slot, View;
    InsertionSlot(I);
    NewEntryUsed(I);
  }

  /** An empty file, as far as lookup sees the entry at all. */
  predicate EmptyFile(e: Entry) { IsLive(e) ==> !IsDir(e) && FirstOf(e) == 0 && SizeOf(e) == 0 }

  /** Creating an empty file, or an entry nobody sees, keeps the volume a tree. */
  lemma FileInserted(I: Insertion)
    requires InsertionOk(I) && EmptyFile(I.e)
    ensures I.d in I.T.used && TreeOk(I.g, I.L', I.disk', AddEntry(I.T, I.d, I.k, I.e))
  {
    hide DirOk, LinkedIn, Slot, View, Inserted;
    InsertionSlot(I);
    var T' := AddEntry(I.T, I.d, I.k, I.e);
    forall d | IsDirectory(T', d)
      ensures DirOk(I.g, I.L', T', d, View(I.g, I.L', I.disk', d))
    {
      FileInsertedDir(I, d);
    }
    forall d | d in T'.parent
      ensures LinkedIn(I.g, I.L', I.disk', T', d)
    {
      LinkStays(I, T', d);
    }
  }

  lemma FileInsertedDir(I: Insertion, d: nat)
    requires InsertionOk(I) && I.d in I.T.used && EmptyFile(I.e) && IsDirectory(I.T, d)
    ensures DirOk(I.g, I.L', AddEntry(I.T, I.d, I.k, I.e), d, View(I.g, I.L', I.disk', d))
  {
    hide InsertionOk, Slot, View, EntryOk;
    var T' := AddEntry(I.T, I.d, I.k, I.e);
    var v := View(I.g, I.L', I.disk', d);
    UsedFits(I, d);
    InsertionPlace(I);
    forall i: nat | i < 16 * |v|
      ensures EntryOk(I.g, I.L', T', d, i, Slot(v, i))
    {
      if (d, i) == (I.d, I.k) { NewFileEntry(I); } else { OldEntryStays(I, T', d, i); }
    }
  }

  /** A directory that holds only "." for itself, c, and ".." for its parent, p. */
  ghost predicate JustDots(v: seq<Sector>, c: nat, p: nat) {
    && |v| > 0 && c < 0x1_0000 && p < 0x1_0000
    && Slot(v, 0) == MakeEntry(DOT, ATTR_DIRECTORY, c, 0) && Slot(v, 1) == MakeEntry(DOTDOT, ATTR_DIRECTORY, p, 0)
    && forall i: nat :: 2 <= i < 16 * |v| ==> IsEmpty(Slot(v, i))
  }

  ghost predicate NewDir(I: Insertion, c: nat) {
    && IsLive(I.e) && IsDir(I.e) && FirstOf(I.e) == c && c != 0 && c !in I.L.chains && c in I.L'.chains
    && JustDots(View(I.g, I.L', I.disk', c), c, I.d)
  }

  lemma DirsAreObjects(I: Insertion)
    requires InsertionOk(I)
    ensures forall o :: o in I.T.parent ==> o in I.L.chains
  {
    forall o | o in I.T.parent
      ensures o in I.L.chains
    {
      assert LinkedIn(I.g, I.L, I.disk, I.T, o);
    }
  }

  lemma NewDirKeeps(I: Insertion, c: nat)
    requires InsertionOk(I) && NewDir(I, c)
    ensures I.d in I.T.used && c !in I.T.parent && c != I.d
    ensures Keeps(I, AddDir(I.T, I.d, I.k, NameOf(I.e), c))
  {
    hide InsertionOk, JustDots, Slot, View;
    InsertionSlot(I);
    DirsAreObjects(I);
  }

  lemma NewEntryUsed(I: Insertion)
    requires InsertionOk(I) && I.d in I.T.used
    ensures I.k < UsedAfter(I.T, I.d, I.k)[I.d] && !IsEmpty(I.e) && (IsLive(I.e) ==> I.e[0] != 0x2E)
  {
    UsedIsExact(I.g, I.L, I.T, I.d, I.Before(), I.After(), I.k, I.e, I.k);
  }

  lemma DirEntryOk(g: Geo, L: Layout, T: Tree, d: nat, k: nat, e: Entry)
    requires IsLive(e) && IsDir(e) && d in T.used && k < T.used[d] && (d == 0 || 2 <= k)
    requires (d, NameOf(e)) in T.index && T.index[(d, NameOf(e))] == k && e[0] != 0x2E
    requires FirstOf(e) in T.parent && T.parent[FirstOf(e)] == d && FirstOf(e) in T.home && T.home[FirstOf(e)] == (d, k)
    ensures EntryOk(g, L, T, d, k, e)
  {
  }

  lemma NewDirEntry(I: Insertion, c: nat)
    requires InsertionOk(I) && NewDir(I, c) && I.d in I.T.used && c != I.d
    ensures EntryOk(I.g, I.L', AddDir(I.T, I.d, I.k, NameOf(I.e), c), I.d, I.k, I.e)
  {
    hide InsertionOk, JustDots, Slot, View, EntryOk;
    InsertionSlot(I);
    NewEntryUsed(I);
    DirEntryOk(I.g, I.L', AddDir(I.T, I.d, I.k, NameOf(I.e), c), I.d, I.k, I.e);
  }

  lemma DotEntry(g: Geo, L: Layout, T: Tree, c: nat, i: nat, name: seq<byte>, first: u16)
    requires i < 2 && name == (if i == 0 then DOT else DOTDOT) && c != 0 && c in T.parent &&
             first == (if i == 0 then c else T.parent[c])
    requires c in T.used && T.used[c] == 2 && (c, name) in T.index && T.index[(c, name)] == i
    ensures EntryOk(g, L, T, c, i, MakeEntry(name, ATTR_DIRECTORY, first, 0))
  {
    assert MakeEntry(name, ATTR_DIRECTORY, first, 0)[..11][0] == name[0];
  }

  lemma DotEntries(g: Geo, L: Layout, T: Tree, c: nat, p: nat, v: seq<Sector>)
    requires JustDots(v, c, p) && c != 0 && c in T.parent && T.parent[c] == p && c in T.used && T.used[c] == 2
    requires (c, DOT) in T.index && T.index[(c, DOT)] == 0 && (c, DOTDOT) in T.index && T.index[(c, DOTDOT)] == 1
    ensures DirOk(g, L, T, c, v)
  {
    hide Slot, MakeEntry;
    DotEntry(g, L, T, c, 0, DOT, c);
    DotEntry(g, L, T, c, 1, DOTDOT, p);
    forall i: nat | i < 16 * |v|
      ensures EntryOk(g, L, T, c, i, Slot(v, i))
    {
      if 2 <= i { EmptyEntry(g, L, T, c, i, Slot(v, i)); }
    }
  }

  /** A directory still uses no more slots than it has. */
  lemma UsedFits(I: Insertion, d: nat)
    requires InsertionOk(I) && I.d in I.T.used && IsDirectory(I.T, d)
    ensures d in I.T.used && UsedAfter(I.T, I.d, I.k)[d] <= 16 * |View(I.g, I.L', I.disk', d)|
  {
    hide InsertionOk, View, Slot;
    OldDir(I, d);
  }

  lemma DirInsertedDir(I: Insertion, c: nat, d: nat)
    requires InsertionOk(I) && NewDir(I, c) && I.d in I.T.used && c != I.d && c !in I.T.parent
    requires Keeps(I, AddDir(I.T, I.d, I.k, NameOf(I.e), c)) && IsDirectory(I.T, d)
    ensures DirOk(I.g, I.L', AddDir(I.T, I.d, I.k, NameOf(I.e), c), d, View(I.g, I.L', I.disk', d))
  {
    hide InsertionOk, JustDots, Slot, View, EntryOk;
    var T' := AddDir(I.T, I.d, I.k, NameOf(I.e), c);
    var v := View(I.g, I.L', I.disk', d);
    UsedFits(I, d);
    InsertionPlace(I);
    forall i: nat | i < 16 * |v|
      ensures EntryOk(I.g, I.L', T', d, i, Slot(v, i))
    {
      if (d, i) == (I.d, I.k) { NewDirEntry(I, c); } else { OldEntryStays(I, T', d, i); }
    }
  }

  lemma InsertionPlace(I: Insertion)
    requires InsertionOk(I)
    ensures Slot(I.After(), I.k) == I.e && I.k < 16 * |I.After()|
  {
  }

  lemma NewDirLinked(I: Insertion, c: nat)
    requires InsertionOk(I) && NewDir(I, c) && I.d in I.T.used && c != I.d && c !in I.T.parent
    ensures LinkedIn(I.g, I.L', I.disk', AddDir(I.T, I.d, I.k, NameOf(I.e), c), c)
  {
    hide InsertionOk, JustDots, Slot, View;
    InsertionSlot(I);
    InsertionPlace(I);
    NewEntryUsed(I);
  }

  /** Making a directory keeps the volume a tree. */
  lemma DirInserted(I: Insertion, c: nat)
    requires InsertionOk(I) && NewDir(I, c)
    ensures I.d in I.T.used && TreeOk(I.g, I.L', I.disk', AddDir(I.T, I.d, I.k, NameOf(I.e), c))
  {
    hide DirOk, LinkedIn, Slot, View, Inserted;
    NewDirKeeps(I, c);
    var T' := AddDir(I.T, I.d, I.k, NameOf(I.e), c);
    forall d | IsDirectory(T', d)
      ensures DirOk(I.g, I.L', T', d, View(I.g, I.L', I.disk', d))
    {
      if d == c {
        DotEntries(I.g, I.L', T', c, I.d, View(I.g, I.L', I.disk', c));
      } else {
        DirInsertedDir(I, c, d);
      }
    }
    forall d | d in T'.parent
      ensures LinkedIn(I.g, I.L', I.disk', T', d)
    {
      if d == c { NewDirLinked(I, c); } else { LinkStays(I, T', d); }
    }
  }
}
