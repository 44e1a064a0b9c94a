/** Path resolution over the directory tree (resolve_path, fat16_resolve_dir): components are cut at
    slashes, or after 63 characters, and looked up one directory at a time. */
module Fat16Path {
  import opened Bytes
  import opened Fat16Layout
  import opened Fat16Image
  import opened Fat16Dir
  import opened Fat16Name
  import opened Fat16Driver

  const SLASH: byte := 0x2F
  const COMPONENT_MAX: nat := 63

  function SkipSlashes(p: seq<byte>): (r: seq<byte>)
    ensures |r| <= |p| && (r == [] || r[0] != SLASH)
    ensures p != [] && p[0] == SLASH ==> |r| < |p|
  {
    if p == [] || p[0] != SLASH then p else SkipSlashes(p[1..])
  }

  /** The component a path starts with, and the path behind it. */
  function FirstComp(p: seq<byte>): seq<byte> { Take(Before(p, SLASH), COMPONENT_MAX) }

  function RestPath(p: seq<byte>): (r: seq<byte>)
    ensures p != [] ==> |r| < |p|
    ensures r == [] || r[0] != SLASH
  {
    SkipSlashes(p[|FirstComp(p)|..])
  }

  datatype Place = Place(dir: nat, name: seq<byte>) | Nowhere

  /** The directory that name names in directory d, or -1. */
  function Child(g: Geo, L: Layout, disk: seq<Sector>, d: nat, name: seq<byte>): int {
    var v := View(g, L, disk, d);
    var k := Find(v, name, 0);
    if k < 0 || !IsDir(Slot(v, k)) then -1 else FirstOf(Slot(v, k))
  }

  /** Walks path from directory dir, stopping before the last component. */
  function Walk(g: Geo, L: Layout, disk: seq<Sector>, dir: nat, path: seq<byte>): Place
    requires path != []
    decreases |path|
  {
    var name := Name83(FirstComp(path));
    if RestPath(path) == [] then Place(dir, name)
    else
      var child := Child(g, L, disk, dir, name);
      if child < 0 then Nowhere else Walk(g, L, disk, child, RestPath(path))
  }

  /** resolve_path: an absolute path starts at the root, any other at cwd. */
  function Resolve(g: Geo, L: Layout, disk: seq<Sector>, cwd: nat, path: seq<byte>): Place {
    var p := SkipSlashes(path);
    if p == [] then Nowhere
    else Walk(g, L, disk, if path[0] == SLASH then 0 else cwd, p)
  }

  datatype DirResult = Dir(cluster: nat) | NotFound | NotADirectory

  /** fat16_resolve_dir: the directory a path names. */
  function ResolveDir(g: Geo, L: Layout, disk: seq<Sector>, cwd: nat, path: seq<byte>): DirResult {
    if path == [] || path == [SLASH] then Dir(0)
    else
      match Resolve(g, L, disk, cwd, path)
      case Nowhere => NotFound
      case Place(d, name) =>
        var v := View(g, L, disk, d);
        var k := Find(v, name, 0);
        if k < 0 then NotFound
        else if IsDir(Slot(v, k)) then Dir(FirstOf(Slot(v, k))) else NotADirectory
  }

  // ---- the last component ----------------------------------------------------------------------

  /** The last component of a path without leading slashes. */
  function LastComp(p: seq<byte>): seq<byte>
    decreases |p|
  {
    if p == [] || RestPath(p) == [] then FirstComp(p) else LastComp(RestPath(p))
  }

  lemma {:induction false} WalkName(g: Geo, L: Layout, disk: seq<Sector>, dir: nat, p: seq<byte>)
    requires p != [] && p[0] != SLASH
    ensures Walk(g, L, disk, dir, p).Place? ==> Walk(g, L, disk, dir, p).name == Name83(LastComp(p))
    ensures LastComp(p) != [] && forall c :: c in LastComp(p) ==> c in p
    decreases |p|
  {
    hide Child, Name83;
    FirstCompOf(p);
    if RestPath(p) != [] {
      var child := Child(g, L, disk, dir, Name83(FirstComp(p)));
      WalkName(g, L, disk, if child < 0 then 0 else child, RestPath(p));
      RestInside(p);
    }
  }

  lemma FirstCompOf(p: seq<byte>)
    requires p != [] && p[0] != SLASH
    ensures FirstComp(p) != [] && forall c :: c in FirstComp(p) ==> c in p
  {
    assert IndexOf(p, SLASH) > 0;
    assert FirstComp(p) == p[..|FirstComp(p)|];
  }

  lemma {:induction false} SkipInside(p: seq<byte>)
    ensures forall c :: c in SkipSlashes(p) ==> c in p
  {
    if p != [] && p[0] == SLASH { SkipInside(p[1..]); }
  }

  lemma RestInside(p: seq<byte>)
    ensures forall c :: c in RestPath(p) ==> c in p
  {
    SkipInside(p[|FirstComp(p)|..]);
  }

  // ---- walking stays inside the tree ------------------------------------------------------------

  /** A directory entry leads to a directory. */
  lemma DirEntryLeads(g: Geo, L: Layout, disk: seq<Sector>, T: Tree, d: nat, k: nat)
    requires TreeOk(g, L, disk, T) && IsDirectory(T, d) && k < 16 * |View(g, L, disk, d)|
    requires IsLive(Slot(View(g, L, disk, d), k)) && IsDir(Slot(View(g, L, disk, d), k))
    ensures IsDirectory(T, FirstOf(Slot(View(g, L, disk, d), k)))
  {
    assert DirOk(g, L, T, d, View(g, L, disk, d));
    assert EntryOk(g, L, T, d, k, Slot(View(g, L, disk, d), k));
    if d != 0 { assert LinkedIn(g, L, disk, T, d); }
  }

  /** A place, if there is one, is in a directory of the tree. */
  ghost predicate Lands(T: Tree, p: Place) {
    p != Nowhere ==> IsDirectory(T, p.dir) && |p.name| == 11
  }

  ghost predicate LandsIn(T: Tree, r: DirResult) {
    r.Dir? ==> IsDirectory(T, r.cluster)
  }

  lemma ChildIsDirectory(g: Geo, L: Layout, disk: seq<Sector>, T: Tree, d: nat, name: seq<byte>)
    requires TreeOk(g, L, disk, T) && IsDirectory(T, d) && Child(g, L, disk, d, name) >= 0
    ensures IsDirectory(T, Child(g, L, disk, d, name))
  {
    hide TreeOk, IsDirectory, View, Slot, Find;
    DirEntryLeads(g, L, disk, T, d, Find(View(g, L, disk, d), name, 0));
  }

  lemma {:induction false} WalkStays(g: Geo, L: Layout, disk: seq<Sector>, T: Tree, dir: nat, path: seq<byte>)
    requires TreeOk(g, L, disk, T) && IsDirectory(T, dir) && path != []
    ensures Lands(T, Walk(g, L, disk, dir, path))
    decreases |path|
  {
    hide TreeOk, IsDirectory, Child, RestPath, FirstComp;
    var child := Child(g, L, disk, dir, Name83(FirstComp(path)));
    if RestPath(path) != [] && child >= 0 {
      ChildIsDirectory(g, L, disk, T, dir, Name83(FirstComp(path)));
      WalkStays(g, L, disk, T, child, RestPath(path));
    }
  }

  /** Resolving any path in a valid tree ends in a directory of the tree. */
  lemma ResolveStays(g: Geo, L: Layout, disk: seq<Sector>, T: Tree, cwd: nat, path: seq<byte>)
    requires TreeOk(g, L, disk, T) && IsDirectory(T, cwd)
    ensures Lands(T, Resolve(g, L, disk, cwd, path))
    ensures LandsIn(T, ResolveDir(g, L, disk, cwd, path))
  {
    hide TreeOk, View, Slot, Find, Walk;
    var p := SkipSlashes(path);
    if p != [] {
      var start := if path[0] == SLASH then 0 else cwd;
      WalkStays(g, L, disk, T, start, p);
      var r := Walk(g, L, disk, start, p);
      if r != Nowhere {
        var k := Find(View(g, L, disk, r.dir), r.name, 0);
        if k >= 0 && IsDir(Slot(View(g, L, disk, r.dir), k)) { DirEntryLeads(g, L, disk, T, r.dir, k); }
      }
    }
  }

  // ---- the resolver as the driver runs it -------------------------------------------------------

  /** path_next_component: copies one component and steps over the slashes behind it. */
  method NextComponent(path: seq<byte>) returns (comp: seq<byte>, rest: seq<byte>)
    ensures comp == FirstComp(path) && rest == RestPath(path)
  {
    var i := 0;
    while i < |path| && path[i] != SLASH && i < COMPONENT_MAX
      invariant 0 <= i <= |path| && i <= COMPONENT_MAX
      invariant forall j :: 0 <= j < i ==> path[j] != SLASH
    {
      i := i + 1;
    }
    comp := path[..i];
    CutAt(path, i);
    while i < |path| && path[i] == SLASH
      invariant |FirstComp(path)| <= i <= |path|
      invariant SkipSlashes(path[i..]) == RestPath(path)
    {
      assert path[i..][1..] == path[i + 1..];
      i := i + 1;
    }
    rest := path[i..];
  }

  lemma CutAt(path: seq<byte>, i: nat)
    requires i <= |path| && i <= COMPONENT_MAX && (forall j :: 0 <= j < i ==> path[j] != SLASH)
    requires i == |path| || i == COMPONENT_MAX || path[i] == SLASH
    ensures path[..i] == FirstComp(path)
  {
    var q := IndexOf(path, SLASH);
    assert forall j :: 0 <= j < q ==> path[..q][j] != SLASH;
  }

  /** Looks up one component that must be a directory. */
  method Enter(dr: Driver, d: nat, name: seq<byte>) returns (ok: bool, child: nat)
    requires dr.Valid() && IsDirectory(dr.T, d) && |name| == 11
    modifies dr.dirBuf
    ensures Child(dr.g, dr.L, dr.disk[..], d, name) == if ok then child else -1
    ensures ok ==> IsDirectory(dr.T, child)
    ensures dr.disk[..] == old(dr.disk[..]) && dr.fat[..] == old(dr.fat[..])
  {
    hide Find, View, Slot, TreeOk, LayoutOk, Synced, IsDirectory;
    dr.DirHasChain(d);
    var found, e, lba, index, k := dr.DirLookup(d, name);
    ok, child := found && IsDir(e), FirstOf(e);
    if ok { ChildIsDirectory(dr.g, dr.L, dr.disk[..], dr.T, d, name); }
  }

  /** resolve_path: looks up every component but the last. */
  method ResolvePath(dr: Driver, cwd: nat, path: seq<byte>) returns (ok: bool, parent: nat, name: seq<byte>)
    requires dr.Valid() && IsDirectory(dr.T, cwd)
    modifies dr.dirBuf
    ensures Resolve(dr.g, dr.L, dr.disk[..], cwd, path) == if ok then Place(parent, name) else Nowhere
    ensures ok ==> IsDirectory(dr.T, parent) && |name| == 11
    ensures dr.disk[..] == old(dr.disk[..]) && dr.fat[..] == old(dr.fat[..])
  {
    hide Child, TreeOk, LayoutOk, Synced, Name83, RestPath, FirstComp, SkipSlashes;
    parent, name := if |path| > 0 && path[0] == SLASH then 0 else cwd, [];
    var p := StripSlashes(path);
    if p == [] { return false, parent, name; }
    ghost var p0 := p;
    var comp;
    comp, p := NextComponent(p);
    while p != []
      invariant p0 != [] && comp == FirstComp(p0) && p == RestPath(p0)
      invariant IsDirectory(dr.T, parent) && dr.disk[..] == old(dr.disk[..]) && dr.fat[..] == old(dr.fat[..])
      invariant Walk(dr.g, dr.L, dr.disk[..], parent, p0) == Resolve(dr.g, dr.L, dr.disk[..], cwd, path)
      decreases |p|
    {
      name := To83(comp);
      var child;
      ok, child := Enter(dr, parent, name);
      if !ok { return; }
      p0, parent := p, child;
      comp, p := NextComponent(p);
    }
    name := To83(comp);
    ok := true;
  }

  method StripSlashes(path: seq<byte>) returns (p: seq<byte>)
    ensures p == SkipSlashes(path)
  {
    var i := 0;
    while i < |path| && path[i] == SLASH
      invariant 0 <= i <= |path| && SkipSlashes(path[i..]) == SkipSlashes(path)
    {
      assert path[i..][1..] == path[i + 1..];
      i := i + 1;
    }
    p := path[i..];
  }
}
