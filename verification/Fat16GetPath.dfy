/** From a directory back to its path (fat16_get_path), and the round trip through the resolver. */
module Fat16GetPath {
  import opened Bytes
  import opened Fat16Layout
  import opened Fat16Image
  import opened Fat16Dir
  import opened Fat16Name
  import opened Fat16Driver
  import opened Fat16Path

  const MAX_DEPTH: nat := 16
  const TMP_SIZE: nat := 128

  /** The name of directory d in its parent. */
  ghost function OwnName(g: Geo, L: Layout, disk: seq<Sector>, T: Tree, d: nat): (n: seq<byte>)
    requires d in T.parent && d in T.home
    ensures |n| == 11
  {
    NameOf(Slot(View(g, L, disk, T.parent[d]), T.home[d].1))
  }

  /** s "/" c */
  function Join(s: seq<byte>, c: seq<byte>): seq<byte> { s + [SLASH] + c }

  /** "/a/b/c" for the directory n levels below the root; nothing for the root. */
  ghost function PathUp(g: Geo, L: Layout, disk: seq<Sector>, T: Tree, d: nat, n: nat): seq<byte>
    decreases n
  {
    if n == 0 || d !in T.parent || d !in T.home then []
    else Join(PathUp(g, L, disk, T, T.parent[d], n - 1), Display(OwnName(g, L, disk, T, d)))
  }

  ghost function PathOf(g: Geo, L: Layout, disk: seq<Sector>, T: Tree, d: nat): seq<byte> {
    PathUp(g, L, disk, T, d, Depth(T, d))
  }

  ghost function PathText(g: Geo, L: Layout, disk: seq<Sector>, T: Tree, d: nat): seq<byte> {
    if d == 0 then [SLASH] else PathOf(g, L, disk, T, d)
  }

  /** A name without slashes whose only spaces are its padding, and not all of it. */
  predicate Plain(n: seq<byte>)
    requires |n| == 11
  {
    Canonical(n) && n != Spaces(11) && SLASH !in n
  }

  /** The names on the way from the root to d are plain. */
  ghost predicate PlainUp(g: Geo, L: Layout, disk: seq<Sector>, T: Tree, d: nat, n: nat)
    decreases n
  {
    n == 0 || d !in T.parent || d !in T.home ||
    (Plain(OwnName(g, L, disk, T, d)) && PlainUp(g, L, disk, T, T.parent[d], n - 1))
  }

  lemma DisplayParts(b: seq<byte>, x: seq<byte>)
    requires |b| <= 8 && |x| <= 3 && SPACE !in b && SPACE !in x
    ensures Display(Pad(b, 8) + Pad(x, 3)) == if x == [] then b else b + [PERIOD] + x
  {
    var n := Pad(b, 8) + Pad(x, 3);
    assert n[..8] == Pad(b, 8) && n[8..] == Pad(x, 3);
    BeforePadded(b, 8);
    BeforePadded(x, 3);
    hide Before;
    if x != [] { assert Pad(x, 3)[0] == x[0] && x[0] != SPACE; }
  }

  lemma NoSlash(s: seq<byte>)
    requires SLASH !in s
    ensures SLASH !in UpperAll(s)
  {
  }

  lemma ComponentParts(c: seq<byte>)
    requires c != [] && SPACE !in c && SLASH !in c && c != [PERIOD] && c != [PERIOD, PERIOD]
    ensures var b, x := UpperAll(Take(Before(c, PERIOD), 8)), UpperAll(Take(After(c, PERIOD), 3));
            && Name83(c) == Pad(b, 8) + Pad(x, 3)
            && SPACE !in b && SPACE !in x && SLASH !in b && SLASH !in x && (b != [] || x != [])
  {
    var b, x := Take(Before(c, PERIOD), 8), Take(After(c, PERIOD), 3);
    UpperSpace(b);
    UpperSpace(x);
    if b == [] { assert c[0] == PERIOD && x != []; }
    NoSlash(b);
    NoSlash(x);
  }

  /** Space-free path components give plain names. */
  lemma ComponentIsPlain(c: seq<byte>)
    requires c != [] && SPACE !in c && SLASH !in c && c != [PERIOD] && c != [PERIOD, PERIOD]
    ensures Plain(Name83(c))
  {
    hide Canonical, Before, After, Take, UpperAll, IndexOf, Name83;
    ComponentParts(c);
    Name83Canonical(c);
    var b, x := UpperAll(Take(Before(c, PERIOD), 8)), UpperAll(Take(After(c, PERIOD), 3));
    assert b != [] ==> Name83(c)[0] == b[0] != SPACE;
    assert x != [] ==> Name83(c)[8] == x[0] != SPACE;
  }

  // ---- round trip -------------------------------------------------------------------------------

  /** A directory is linked by a directory entry of its parent, which lookup by its own name finds. */
  lemma OwnSlot(g: Geo, L: Layout, disk: seq<Sector>, T: Tree, d: nat)
    requires TreeOk(g, L, disk, T) && d in T.parent
    ensures d in T.home
    ensures var v := View(g, L, disk, T.parent[d]);
            Find(v, OwnName(g, L, disk, T, d), 0) == T.home[d].1 && IsDir(Slot(v, T.home[d].1)) &&
              FirstOf(Slot(v, T.home[d].1)) == d
  {
    assert LinkedIn(g, L, disk, T, d);
    var p, k := T.parent[d], T.home[d].1;
    var v := View(g, L, disk, p);
    assert DirOk(g, L, T, p, v);
    hide DirOk, LinkedIn, Slot, View, Find;
    FindIndexed(g, L, T, p, v, OwnName(g, L, disk, T, d), 0, k);
  }

  /** The parent is one level up, and entering it by the directory's own name leads back. */
  lemma OwnEntry(g: Geo, L: Layout, disk: seq<Sector>, T: Tree, d: nat)
    requires TreeOk(g, L, disk, T) && d in T.parent
    ensures d in T.home && IsDirectory(T, T.parent[d]) && Depth(T, d) == Depth(T, T.parent[d]) + 1 && d != 0
    ensures Child(g, L, disk, T.parent[d], OwnName(g, L, disk, T, d)) == d
  {
    assert LinkedIn(g, L, disk, T, d);
    hide LinkedIn, Slot, View, Find;
    OwnSlot(g, L, disk, T, d);
  }

  lemma SplitSlash(c: seq<byte>, q: seq<byte>)
    requires Component(c) && q != [] && q[0] != SLASH
    ensures FirstComp(Join(c, q)) == c && RestPath(Join(c, q)) == q
  {
    var s := Join(c, q);
    assert s[..|c|] == c;
    IndexIs(s, SLASH, |c|);
    assert FirstComp(s) == c;
    assert s[|c|..] == [SLASH] + q;
    assert s[|c|..][1..] == q && SkipSlashes(q) == q;
  }

  lemma LastComponent(c: seq<byte>)
    requires Component(c)
    ensures FirstComp(c) == c && RestPath(c) == []
  {
    assert c[..|c|] == c;
    IndexIs(c, SLASH, |c|);
  }

  /** Walking s from the root, with q behind it, arrives at directory d with q to go. */
  ghost predicate Arrives(g: Geo, L: Layout, disk: seq<Sector>, s: seq<byte>, d: nat, q: seq<byte>)
    requires q != []
  {
    |s| > 1 && s[0] == SLASH && s[1] != SLASH && Walk(g, L, disk, 0, Join(s[1..], q)) == Walk(g, L, disk, d, q)
  }

  /** A string that is one path component. */
  predicate Component(c: seq<byte>) { c != [] && |c| <= COMPONENT_MAX && SLASH !in c && c[0] != SLASH }

  lemma JoinSplit(c: seq<byte>, q: seq<byte>)
    requires Component(c)
    ensures Join(c, q) != [] && Join(c, q)[0] != SLASH
  {
  }

  lemma JoinTop(c: seq<byte>)
    requires Component(c)
    ensures var s := Join([], c); |s| > 1 && s[0] == SLASH && s[1] != SLASH && s[1..] == c
  {
  }

  lemma JoinDeep(s: seq<byte>, c: seq<byte>)
    requires |s| > 1 && s[0] == SLASH && s[1] != SLASH
    ensures var s' := Join(s, c); |s'| > 1 && s'[0] == SLASH && s'[1] != SLASH && s'[1..] == Join(s[1..], c)
  {
  }

  lemma JoinAssoc(s: seq<byte>, c: seq<byte>, q: seq<byte>)
    ensures Join(Join(s, c), q) == Join(s, Join(c, q))
  {
  }

  /** One component into the tree. */
  lemma WalkInto(g: Geo, L: Layout, disk: seq<Sector>, p: nat, c: seq<byte>, d: nat, q: seq<byte>)
    requires Component(c) && Child(g, L, disk, p, Name83(c)) == d && q != [] && q[0] != SLASH
    ensures Join(c, q) != [] && Walk(g, L, disk, p, Join(c, q)) == Walk(g, L, disk, d, q)
  {
    hide Child, FirstComp, RestPath, Name83;
    SplitSlash(c, q);
  }

  lemma WalkFromRoot(g: Geo, L: Layout, disk: seq<Sector>, c: seq<byte>, d: nat, q: seq<byte>)
    requires Component(c) && Child(g, L, disk, 0, Name83(c)) == d && q != [] && q[0] != SLASH
    ensures Arrives(g, L, disk, Join([], c), d, q)
  {
    hide Child, Component, Name83, Walk, Join;
    WalkInto(g, L, disk, 0, c, d, q);
    JoinTop(c);
  }

  lemma WalkDeeper(g: Geo, L: Layout, disk: seq<Sector>, s: seq<byte>, p: nat, c: seq<byte>, d: nat, q: seq<byte>)
    requires Component(c) && Child(g, L, disk, p, Name83(c)) == d && q != [] && q[0] != SLASH
    requires Join(c, q) != [] && Arrives(g, L, disk, s, p, Join(c, q))
    ensures Arrives(g, L, disk, Join(s, c), d, q)
  {
    hide Child, Component, Name83, Walk, Join;
    WalkInto(g, L, disk, p, c, d, q);
    JoinDeep(s, c);
    JoinAssoc(s[1..], c, q);
  }

  /** Walking the path of d from the root arrives at d with the rest of the path. */
  lemma {:induction false} WalkDown(g: Geo, L: Layout, disk: seq<Sector>, T: Tree, d: nat, n: nat, q: seq<byte>)
    requires TreeOk(g, L, disk, T) && d in T.parent && Depth(T, d) == n && PlainUp(g, L, disk, T, d, n)
    requires q != [] && q[0] != SLASH
    ensures Arrives(g, L, disk, PathUp(g, L, disk, T, d, n), d, q)
    decreases n
  {
    hide TreeOk, Child, OwnName, Plain, Display, Arrives, Component, Name83, IsDirectory, Join;
    OwnEntry(g, L, disk, T, d);
    var p, c := T.parent[d], Display(OwnName(g, L, disk, T, d));
    PlainName(OwnName(g, L, disk, T, d));
    if p == 0 {
      AtRoot(g, L, disk, T, n - 1);
      WalkFromRoot(g, L, disk, c, d, q);
    } else {
      JoinSplit(c, q);
      NotRoot(T, p);
      WalkDown(g, L, disk, T, p, n - 1, Join(c, q));
      WalkDeeper(g, L, disk, PathUp(g, L, disk, T, p, n - 1), p, c, d, q);
    }
  }

  lemma NotRoot(T: Tree, d: nat)
    requires IsDirectory(T, d) && d != 0
    ensures d in T.parent
  {
  }

  /** Resolving a path from the root whose last component is c. */
  lemma ResolveLast(g: Geo, L: Layout, disk: seq<Sector>, cwd: nat, s: seq<byte>, p: nat, c: seq<byte>, d: nat)
    requires Component(c) && Child(g, L, disk, p, Name83(c)) == d
    requires |s| > 1 && s[0] == SLASH && s[1] != SLASH && Walk(g, L, disk, 0, s[1..]) == Walk(g, L, disk, p, c)
    ensures ResolveDir(g, L, disk, cwd, s) == Dir(d)
  {
    hide FirstComp, RestPath, View, Slot, Find, Component, Name83, SkipSlashes;
    LastComponent(c);
    ComponentStart(c);
    assert Walk(g, L, disk, p, c) == Place(p, Name83(c));
    SkipOne(s);
  }

  lemma SkipOne(s: seq<byte>)
    requires |s| > 1 && s[0] == SLASH && s[1] != SLASH
    ensures SkipSlashes(s) == s[1..]
  {
    assert SkipSlashes(s[1..]) == s[1..];
  }

  lemma ResolveTop(g: Geo, L: Layout, disk: seq<Sector>, cwd: nat, c: seq<byte>, d: nat)
    requires Component(c) && Child(g, L, disk, 0, Name83(c)) == d
    ensures ResolveDir(g, L, disk, cwd, Join([], c)) == Dir(d)
  {
    hide Component, ResolveDir, Child, Name83, Join;
    JoinTop(c);
    ResolveLast(g, L, disk, cwd, Join([], c), 0, c, d);
  }

  lemma ResolveDeep(g: Geo, L: Layout, disk: seq<Sector>, cwd: nat, s: seq<byte>, p: nat, c: seq<byte>, d: nat)
    requires Component(c) && Child(g, L, disk, p, Name83(c)) == d
    requires Arrives(g, L, disk, s, p, c)
    ensures ResolveDir(g, L, disk, cwd, Join(s, c)) == Dir(d)
  {
    hide Component, ResolveDir, Child, Name83, Walk, Join;
    JoinDeep(s, c);
    ComponentStart(c);
    ResolveLast(g, L, disk, cwd, Join(s, c), p, c, d);
  }

  lemma ResolveOwn(g: Geo, L: Layout, disk: seq<Sector>, T: Tree, cwd: nat, d: nat, n: nat)
    requires TreeOk(g, L, disk, T) && d in T.parent && Depth(T, d) == n && PlainUp(g, L, disk, T, d, n)
    ensures ResolveDir(g, L, disk, cwd, PathUp(g, L, disk, T, d, n)) == Dir(d)
  {
    hide TreeOk, Child, OwnName, Plain, Display, Component, Name83, IsDirectory, ResolveDir, Walk, Arrives, Join;
    OwnEntry(g, L, disk, T, d);
    var p, c := T.parent[d], Display(OwnName(g, L, disk, T, d));
    PlainName(OwnName(g, L, disk, T, d));
    if p == 0 {
      AtRoot(g, L, disk, T, n - 1);
      ResolveTop(g, L, disk, cwd, c, d);
    } else {
      NotRoot(T, p);
      ComponentStart(c);
      WalkDown(g, L, disk, T, p, n - 1, c);
      ResolveDeep(g, L, disk, cwd, PathUp(g, L, disk, T, p, n - 1), p, c, d);
    }
  }

  /** The path built for a directory resolves to that directory, from anywhere. */
  lemma PathRoundTrip(g: Geo, L: Layout, disk: seq<Sector>, T: Tree, cwd: nat, d: nat)
    requires TreeOk(g, L, disk, T) && IsDirectory(T, d) && PlainUp(g, L, disk, T, d, Depth(T, d))
    ensures ResolveDir(g, L, disk, cwd, PathText(g, L, disk, T, d)) == Dir(d)
  {
    hide TreeOk, PlainUp, PathUp, Resolve;
    if d != 0 {
      NotRoot(T, d);
      ResolveOwn(g, L, disk, T, cwd, d, Depth(T, d));
    }
  }

  // ---- relative paths ---------------------------------------------------------------------------

  /** A single component names an entry of the current directory. */
  lemma OneComponent(g: Geo, L: Layout, disk: seq<Sector>, cwd: nat, c: seq<byte>)
    requires c != [] && |c| <= COMPONENT_MAX && SLASH !in c
    ensures Resolve(g, L, disk, cwd, c) == Place(cwd, Name83(c))
  {
    hide FirstComp, RestPath, Name83, Child;
    assert c[0] in c;
    LastComponent(c);
  }

  /** A path that goes on behind its first component goes on in the directory the component names. */
  lemma NextDirectory(g: Geo, L: Layout, disk: seq<Sector>, cwd: nat, c: seq<byte>, p: seq<byte>)
    requires c != [] && |c| <= COMPONENT_MAX && SLASH !in c && p != [] && p[0] != SLASH
    ensures var d := Child(g, L, disk, cwd, Name83(c));
            Resolve(g, L, disk, cwd, c + [SLASH] + p) == if d < 0 then Nowhere else Resolve(g, L, disk, d, p)
  {
    hide FirstComp, RestPath, Name83, Child;
    assert c[0] in c;
    SplitSlash(c, p);
    assert Join(c, p)[0] == c[0];
  }

  function Slashes(n: nat): (s: seq<byte>)
    ensures |s| == n && forall i :: 0 <= i < n ==> s[i] == SLASH
  {
    seq(n, _ => SLASH)
  }

  lemma {:induction false} SkipMany(n: nat, p: seq<byte>)
    requires p == [] || p[0] != SLASH
    ensures SkipSlashes(Slashes(n) + p) == p
  {
    if n == 0 {
      assert Slashes(0) + p == p;
    } else {
      assert (Slashes(n) + p)[1..] == Slashes(n - 1) + p;
      SkipMany(n - 1, p);
    }
  }

  /** Any number of slashes in a row counts as one, and at the end as none. */
  lemma SlashesAreOne(g: Geo, L: Layout, disk: seq<Sector>, cwd: nat, c: seq<byte>, n: nat, p: seq<byte>)
    requires c != [] && |c| <= COMPONENT_MAX && SLASH !in c && n > 0 && (p == [] || p[0] != SLASH)
    ensures Resolve(g, L, disk, cwd, c + Slashes(n) + p) ==
            Resolve(g, L, disk, cwd, if p == [] then c else c + [SLASH] + p)
    ensures Resolve(g, L, disk, cwd, Slashes(n) + c) == Resolve(g, L, disk, 0, c)
  {
    hide Child, Name83, FirstComp, RestPath;
    assert c[0] in c;
    var s := c + Slashes(n) + p;
    ManyBehind(c, n, p);
    if p == [] { LastComponent(c); } else { SplitSlash(c, p); }
    assert s[0] == c[0] && (p != [] ==> (c + [SLASH] + p)[0] == c[0]);
    SkipMany(n, c);
    assert (Slashes(n) + c)[0] == SLASH;
  }

  lemma ManyBehind(c: seq<byte>, n: nat, p: seq<byte>)
    requires Component(c) && n > 0 && (p == [] || p[0] != SLASH)
    ensures FirstComp(c + Slashes(n) + p) == c && RestPath(c + Slashes(n) + p) == p
  {
    var s := c + Slashes(n) + p;
    assert s[..|c|] == c && s[|c|] == SLASH;
    IndexIs(s, SLASH, |c|);
    assert FirstComp(s) == c;
    assert s[|c|..] == Slashes(n) + p;
    SkipMany(n, p);
  }

  /** A component that is too long is cut, and what is left of it taken for the next one. */
  lemma LongComponent(g: Geo, L: Layout, disk: seq<Sector>, cwd: nat, c: seq<byte>)
    requires |c| > COMPONENT_MAX && SLASH !in c
    ensures var d := Child(g, L, disk, cwd, Name83(c[..63]));
            Resolve(g, L, disk, cwd, c) == if d < 0 then Nowhere else Resolve(g, L, disk, d, c[63..])
  {
    hide Child, Name83;
    assert c[0] in c && c[63] in c;
    assert c[..|c|] == c;
    IndexIs(c, SLASH, |c|);
    assert c[..|c|][..63] == c[..63];
    assert FirstComp(c) == c[..63] && RestPath(c) == c[63..];
    hide FirstComp, RestPath;
  }

  /** A relative path behind the path of a directory means what it means in that directory, wherever one is; behind a
      single slash it means what it means in the root. */
  lemma PathsCompose(g: Geo, L: Layout, disk: seq<Sector>, T: Tree, cwd: nat, d: nat, p: seq<byte>)
    requires TreeOk(g, L, disk, T) && IsDirectory(T, d) && PlainUp(g, L, disk, T, d, Depth(T, d))
    requires p != [] && p[0] != SLASH
    ensures Resolve(g, L, disk, cwd, PathText(g, L, disk, T, d) + [SLASH] + p) == Resolve(g, L, disk, d, p)
    ensures Resolve(g, L, disk, cwd, [SLASH] + p) == Resolve(g, L, disk, 0, p)
  {
    hide TreeOk, PlainUp, PathUp, Walk, Depth;
    assert SkipSlashes(p) == p;
    SkipOne([SLASH] + p);
    assert ([SLASH] + p)[1..] == p;
    var s := PathText(g, L, disk, T, d) + [SLASH] + p;
    if d == 0 {
      assert s == [SLASH] + ([SLASH] + p) && s[1..] == [SLASH] + p;
      assert SkipSlashes(s) == p;
    } else {
      NotRoot(T, d);
      WalkDown(g, L, disk, T, d, Depth(T, d), p);
      SkipOne(s);
      assert s[1..] == Join(PathText(g, L, disk, T, d)[1..], p);
    }
  }

  /** In a subdirectory "." is the directory itself and ".." the one above it; in the root neither is there. */
  lemma DotsResolve(g: Geo, fat: seq<u16>, L: Layout, disk: seq<Sector>, T: Tree, d: nat)
    requires LayoutOk(g, fat, L) && TreeOk(g, L, disk, T) && IsDirectory(T, d)
    ensures d != 0 ==> d in T.parent && ResolveDir(g, L, disk, d, [PERIOD]) == Dir(d) &&
                       ResolveDir(g, L, disk, d, [PERIOD, PERIOD]) == Dir(T.parent[d])
    ensures d == 0 ==> ResolveDir(g, L, disk, d, [PERIOD]) == NotFound == ResolveDir(g, L, disk, d, [PERIOD, PERIOD])
  {
    hide TreeOk, LayoutOk, View, Find, Slot, Resolve, Name83;
    OneComponent(g, L, disk, d, [PERIOD]);
    OneComponent(g, L, disk, d, [PERIOD, PERIOD]);
    DotNames();
    if d == 0 {
      NoDotInRoot(g, L, disk, T, DOT);
      NoDotInRoot(g, L, disk, T, DOTDOT);
    } else {
      DotsFound(g, fat, L, disk, T, d);
    }
  }

  /** A single component leads to the directory of that name, if there is one; a file of that name is not a
      directory, and without either nothing is found. The empty path is the root. */
  lemma DirectoryFound(g: Geo, L: Layout, disk: seq<Sector>, T: Tree, d: nat, c: seq<byte>, k: nat)
    requires TreeOk(g, L, disk, T) && IsDirectory(T, d) && c != [] && |c| <= COMPONENT_MAX && SLASH !in c
    ensures var e, r := Slot(View(g, L, disk, d), k), ResolveDir(g, L, disk, d, c);
            && (HasEntry(g, L, disk, d, Name83(c), k) ==> r == if IsDir(e) then Dir(FirstOf(e)) else NotADirectory)
            && ((forall i: nat :: !HasEntry(g, L, disk, d, Name83(c), i)) ==> r == NotFound)
            && ResolveDir(g, L, disk, d, []) == Dir(0)
  {
    var v := View(g, L, disk, d);
    assert DirOk(g, L, T, d, v);
    hide TreeOk, DirOk, View, Slot, Find, Resolve, Name83;
    assert c != [SLASH] by { assert c[0] in c; }
    OneComponent(g, L, disk, d, c);
    if HasEntry(g, L, disk, d, Name83(c), k) { FindIndexed(g, L, T, d, v, Name83(c), 0, k); }
    var f := Find(v, Name83(c), 0);
    if f >= 0 { assert HasEntry(g, L, disk, d, Name83(c), f); }
  }

  lemma NoDotInRoot(g: Geo, L: Layout, disk: seq<Sector>, T: Tree, name: seq<byte>)
    requires TreeOk(g, L, disk, T) && |name| == 11 && name[0] == PERIOD
    ensures Find(View(g, L, disk, 0), name, 0) == -1
  {
    var v := View(g, L, disk, 0);
    var k := Find(v, name, 0);
    assert DirOk(g, L, T, 0, v);
    hide View, Slot, DirOk, Find;
    if k >= 0 { EntryFirst(g, L, T, v, k); }
  }

  lemma EntryFirst(g: Geo, L: Layout, T: Tree, v: seq<Sector>, k: nat)
    requires DirOk(g, L, T, 0, v) && k < 16 * |v| && IsLive(Slot(v, k))
    ensures NameOf(Slot(v, k))[0] != PERIOD
  {
    assert EntryOk(g, L, T, 0, k, Slot(v, k));
    hide Slot;
  }

  lemma ComponentStart(c: seq<byte>)
    requires Component(c)
    ensures c != [] && c[0] != SLASH
  {
  }

  lemma PlainName(n: seq<byte>)
    requires |n| == 11 && Plain(n)
    ensures Component(Display(n)) && Name83(Display(n)) == n
  {
    hide Canonical, Name83, Display, Component;
    NameRoundTrip(n);
    PlainComponent(n);
  }

  lemma PlainComponent(n: seq<byte>)
    requires |n| == 11 && Plain(n)
    ensures Component(Display(n))
  {
    hide Canonical, Before, IndexOf, Display;
    CanonicalParts(n);
    var b, x := Before(n[..8], SPACE), Before(n[8..], SPACE);
    PartsInside(n);
    DisplayParts(b, x);
    PadFacts();
    assert Spaces(8) + Spaces(3) == Spaces(11);
  }

  lemma PartsInside(n: seq<byte>)
    requires |n| == 11
    ensures var b, x := Before(n[..8], SPACE), Before(n[8..], SPACE);
            && SPACE !in b && SPACE !in x && forall c :: c in b || c in x ==> c in n
  {
    var b, x := Before(n[..8], SPACE), Before(n[8..], SPACE);
    assert b <= n[..8] && x <= n[8..];
    forall c | c in b || c in x
      ensures c in n
    {
    }
  }

  lemma AtRoot(g: Geo, L: Layout, disk: seq<Sector>, T: Tree, n: nat)
    requires TreeOk(g, L, disk, T)
    ensures PathUp(g, L, disk, T, 0, n) == [] && PlainUp(g, L, disk, T, 0, n)
  {
  }

  // ---- the path builder as the driver runs it -----------------------------------------------------

  /** fat16_resolve_dir. */
  method ResolveDirectory(dr: Driver, cwd: nat, path: seq<byte>) returns (r: DirResult)
    requires dr.Valid() && IsDirectory(dr.T, cwd)
    modifies dr.dirBuf
    ensures r == ResolveDir(dr.g, dr.L, dr.disk[..], cwd, path)
    ensures LandsIn(dr.T, r)
    ensures dr.disk[..] == old(dr.disk[..]) && dr.fat[..] == old(dr.fat[..])
  {
    hide Resolve, View, Find, Slot, TreeOk, LayoutOk, Synced;
    ResolveStays(dr.g, dr.L, dr.disk[..], dr.T, cwd, path);
    if |path| == 0 || (path[0] == SLASH && |path| == 1) { return Dir(0); }
    var ok, parent, name := ResolvePath(dr, cwd, path);
    if !ok { return NotFound; }
    dr.DirHasChain(parent);
    var found, e, lba, index, k := dr.DirLookup(parent, name);
    if !found { return NotFound; }
    r := if IsDir(e) then Dir(FirstOf(e)) else NotADirectory;
  }

  method CopyWord(s: seq<byte>) returns (r: seq<byte>)
    ensures r == Before(s, SPACE)
  {
    var j := 0;
    r := [];
    while j < |s| && s[j] != SPACE
      invariant 0 <= j <= |s| && r == s[..j] && SPACE !in r
    {
      r := r + [s[j]];
      j := j + 1;
    }
    IndexIs(s, SPACE, j);
  }

  /** dirent_display_name: the text form of a directory name. */
  method DisplayName(n: seq<byte>) returns (r: seq<byte>)
    requires |n| == 11
    ensures r == Display(n)
  {
    r := CopyWord(n[..8]);
    var hasExt, j := false, 8;
    while j < 11 && !hasExt
      invariant 8 <= j <= 11
      invariant hasExt ==> n[8..] != Spaces(3)
      invariant !hasExt ==> forall i :: 8 <= i < j ==> n[i] == SPACE
    {
      if n[j] != SPACE {
        assert n[8..][j - 8] != Spaces(3)[j - 8];
        hasExt := true;
      }
      j := j + 1;
    }
    if hasExt {
      var ext := CopyWord(n[8..]);
      r := r + [PERIOD] + ext;
    } else {
      assert n[8..] == Spaces(3);
    }
  }

  /** The entry of a subdirectory, as opposed to "." and "..", whose first cluster is child. */
  predicate Names(e: Entry, child: nat) {
    IsLive(e) && IsDir(e) && e[0] != PERIOD && FirstOf(e) == child
  }

  /** The first slot from k on that names child, before the first empty one, or -1. */
  function ChildAt(v: seq<Sector>, child: nat, k: nat): (r: int)
    ensures r == -1 || k <= r < 16 * |v|
    decreases 16 * |v| - k
  {
    if k >= 16 * |v| || IsEmpty(Slot(v, k)) then -1
    else if Names(Slot(v, k), child) then k
    else ChildAt(v, child, k + 1)
  }

  lemma ChildStep(v: seq<Sector>, child: nat, j: nat, i: nat)
    requires j < |v| && i < 16
    ensures Slot(v, 16 * j + i) == v[j][32 * i..32 * i + 32]
    ensures ChildAt(v, child, 16 * j + i) ==
              if IsEmpty(Slot(v, 16 * j + i)) then -1
              else if Names(Slot(v, 16 * j + i), child) then 16 * j + i
              else ChildAt(v, child, 16 * j + i + 1)
  {
    SlotInSector(v, j, i);
  }

  /** Only its own slot names a directory, so the search finds that one. */
  lemma {:induction false} ChildFound(g: Geo, L: Layout, T: Tree, p: nat, v: seq<Sector>, d: nat, from: nat, k: nat)
    requires DirOk(g, L, T, p, v) && d in T.home && T.home[d] == (p, k)
    requires from <= k < 16 * |v| && (p == 0 || 2 <= k) && IsLive(Slot(v, k)) && IsDir(Slot(v, k)) &&
             FirstOf(Slot(v, k)) == d
    ensures ChildAt(v, d, from) == k
    decreases k - from
  {
    hide Slot;
    assert EntryOk(g, L, T, p, k, Slot(v, k));
    assert EntryOk(g, L, T, p, from, Slot(v, from));
    if from < k { ChildFound(g, L, T, p, v, d, from + 1, k); }
  }

  lemma OwnChild(g: Geo, L: Layout, disk: seq<Sector>, T: Tree, d: nat)
    requires TreeOk(g, L, disk, T) && d in T.parent
    ensures d in T.home && ChildAt(View(g, L, disk, T.parent[d]), d, 0) == T.home[d].1
  {
    assert LinkedIn(g, L, disk, T, d);
    var p, k := T.parent[d], T.home[d].1;
    var v := View(g, L, disk, p);
    assert DirOk(g, L, T, p, v);
    hide DirOk, Slot, View;
    ChildFound(g, L, T, p, v, d, 0, k);
  }

  /** Searches the sixteen entries in dirBuf, which holds sector j of the directory v. */
  method ScanChild(dr: Driver, child: nat, ghost v: seq<Sector>, ghost j: nat) returns (r: Scan, i: nat)
    requires dr.dirBuf.Length == 512 && j < |v| && v[j] == dr.dirBuf[..]
    ensures i <= 16 && (r == Miss <==> i == 16)
    ensures r == Hit ==> ChildAt(v, child, 16 * j) == 16 * j + i &&
                         Slot(v, 16 * j + i) == dr.dirBuf[32 * i..32 * i + 32]
    ensures r == Stop ==> ChildAt(v, child, 16 * j) == -1
    ensures r == Miss ==> ChildAt(v, child, 16 * j) == ChildAt(v, child, 16 * (j + 1))
  {
    hide ChildAt, Slot;
    i := 0;
    while i < 16
      invariant 0 <= i <= 16
      invariant ChildAt(v, child, 16 * j) == ChildAt(v, child, 16 * j + i)
    {
      var e := dr.dirBuf[32 * i..32 * i + 32];
      ChildStep(v, child, j, i);
      if IsEmpty(e) { return Stop, i; }
      if Names(e, child) { return Hit, i; }
      i := i + 1;
    }
    r := Miss;
  }

  lemma ChildEnd(v: seq<Sector>, child: nat, k: nat)
    requires 16 * |v| <= k
    ensures ChildAt(v, child, k) == -1
  {
  }

  /** dir_find_child_name: the text form of the name child has in directory parent. */
  method FindChildName(dr: Driver, parent: nat, child: nat) returns (found: bool, name: seq<byte>)
    requires dr.Shaped() && LayoutOk(dr.g, dr.fat[..], dr.L) && (parent == 0 || parent in dr.L.chains)
    modifies dr.dirBuf
    ensures var v := View(dr.g, dr.L, dr.disk[..], parent);
            var k := ChildAt(v, child, 0);
            found == (k >= 0) && (found ==> name == Display(NameOf(Slot(v, k))))
    ensures dr.disk[..] == old(dr.disk[..]) && dr.fat[..] == old(dr.fat[..])
  {
    hide ChildAt, Slot, LayoutOk, View, Lba, Span, Display;
    ghost var v := View(dr.g, dr.L, dr.disk[..], parent);
    var it := dr.StartIter(parent);
    ghost var j := 0;
    name := [];
    while true
      invariant dr.IterAt(it, j) && it.dir == parent && j <= |v|
      invariant dr.disk[..] == old(dr.disk[..]) && dr.fat[..] == old(dr.fat[..])
      invariant ChildAt(v, child, 0) == ChildAt(v, child, 16 * j)
      decreases |v| - j
    {
      var more, lba;
      more, it, lba := dr.NextSector(it, j);
      if !more {
        ChildEnd(v, child, 16 * j);
        return false, name;
      }
      ViewAt(dr.g, dr.L, dr.disk[..], parent, j);
      var scan, i := ScanChild(dr, child, v, j);
      if scan == Stop { return false, name; }
      if scan == Hit {
        name := DisplayName(NameOf(dr.dirBuf[32 * i..32 * i + 32]));
        return true, name;
      }
      j := j + 1;
    }
  }

  /** One step of the walk to the root: the parent of d by its ".." entry and d's name there. */
  method StepUp(dr: Driver, d: nat) returns (parent: nat, name: seq<byte>)
    requires dr.Valid() && d in dr.T.parent
    modifies dr.dirBuf
    ensures parent == dr.T.parent[d] && IsDirectory(dr.T, parent) && Depth(dr.T, d) == Depth(dr.T, parent) + 1
    ensures d in dr.T.home && name == Display(OwnName(dr.g, dr.L, dr.disk[..], dr.T, d))
    ensures dr.disk[..] == old(dr.disk[..]) && dr.fat[..] == old(dr.fat[..])
  {
    hide Find, View, Slot, TreeOk, LayoutOk, Synced, ChildAt, Display, Child;
    DotsFound(dr.g, dr.fat[..], dr.L, dr.disk[..], dr.T, d);
    OwnChild(dr.g, dr.L, dr.disk[..], dr.T, d);
    OwnEntry(dr.g, dr.L, dr.disk[..], dr.T, d);
    dr.DirHasChain(d);
    DotNames();
    var dotdot := To83([PERIOD, PERIOD]);
    var found, up, lba, index, k := dr.DirLookup(d, dotdot);
    parent := FirstOf(up);
    dr.DirHasChain(parent);
    found, name := FindChildName(dr, parent, d);
  }

  /** Puts "/" name in front of what tmp holds from p on. */
  method Prepend(tmp: array<byte>, p: nat, name: seq<byte>) returns (p': nat)
    requires |name| + 1 <= p <= tmp.Length
    modifies tmp
    ensures p' == p - |name| - 1 && tmp[p'..] == [SLASH] + name + old(tmp[p..])
  {
    p' := p - |name|;
    var i := 0;
    while i < |name|
      invariant 0 <= i <= |name|
      invariant tmp[p'..p' + i] == name[..i] && tmp[p..] == old(tmp[p..])
    {
      tmp[p' + i] := name[i];
      i := i + 1;
    }
    assert tmp[p'..] == name + old(tmp[p..]);
    ghost var tail := tmp[p'..];
    p' := p' - 1;
    tmp[p'] := SLASH;
    assert tmp[p' + 1..] == tail;
  }

  lemma JoinTail(s: seq<byte>, c: seq<byte>, tail: seq<byte>)
    ensures Join(s, c) + tail == s + ([SLASH] + c + tail) && |Join(s, c)| >= |c| + 1
  {
  }

  lemma PathStep(g: Geo, L: Layout, disk: seq<Sector>, T: Tree, d: nat, tail: seq<byte>)
    requires d in T.parent && d in T.home && Depth(T, d) == Depth(T, T.parent[d]) + 1
    ensures PathOf(g, L, disk, T, d) + tail ==
              PathOf(g, L, disk, T, T.parent[d]) + ([SLASH] + Display(OwnName(g, L, disk, T, d)) + tail)
    ensures |PathOf(g, L, disk, T, d)| >= |Display(OwnName(g, L, disk, T, d))| + 1
  {
    hide Display, OwnName, Join, Depth;
    JoinTail(PathOf(g, L, disk, T, T.parent[d]), Display(OwnName(g, L, disk, T, d)), tail);
  }

  /** The path of a directory is that of the one above it, a slash, and the text of the entry that leads to it. */
  lemma PathOfChild(g: Geo, L: Layout, disk: seq<Sector>, T: Tree, d: nat)
    requires TreeOk(g, L, disk, T) && d in T.parent
    ensures d in T.home && d != 0
    ensures var p, e := T.parent[d], Slot(View(g, L, disk, T.parent[d]), T.home[d].1);
            && IsDir(e) && FirstOf(e) == d
            && PathText(g, L, disk, T, d) ==
               (if p == 0 then [] else PathText(g, L, disk, T, p)) + [SLASH] + Display(NameOf(e))
  {
    hide TreeOk, Display, View, Slot, Find, PathUp;
    OwnSlot(g, L, disk, T, d);
    OwnEntry(g, L, disk, T, d);
    PathStep(g, L, disk, T, d, []);
    RootPath(g, L, disk, T);
    assert forall s: seq<byte> :: s + [] == s;
  }

  lemma RootPath(g: Geo, L: Layout, disk: seq<Sector>, T: Tree)
    requires TreeOk(g, L, disk, T)
    ensures Depth(T, 0) == 0 && PathOf(g, L, disk, T, 0) == []
  {
  }

  lemma DeepEnough(T: Tree, g: Geo, L: Layout, disk: seq<Sector>, d: nat)
    requires TreeOk(g, L, disk, T) && d in T.parent
    ensures Depth(T, d) > 0
  {
    assert LinkedIn(g, L, disk, T, d);
  }

  /** The walk from d to the root, building the path from the end of tmp to its start. */
  method BuildPath(dr: Driver, d: nat, tmp: array<byte>) returns (ok: bool, p: nat)
    requires dr.Valid() && d in dr.T.parent && tmp.Length == TMP_SIZE - 1 && tmp != dr.dirBuf
    modifies dr.dirBuf, tmp
    ensures ok <==> Depth(dr.T, d) <= MAX_DEPTH && |PathOf(dr.g, dr.L, dr.disk[..], dr.T, d)| <= TMP_SIZE - 1
    ensures ok ==> p <= tmp.Length && tmp[p..] == PathOf(dr.g, dr.L, dr.disk[..], dr.T, d)
    ensures dr.disk[..] == old(dr.disk[..]) && dr.fat[..] == old(dr.fat[..])
  {
    hide TreeOk, LayoutOk, Synced, PathOf, Display, OwnName, Depth;
    ghost var g, L, T, disk0 := dr.g, dr.L, dr.T, dr.disk[..];
    RootPath(g, L, disk0, T);
    p := tmp.Length;
    var cluster, depth := d, 0;
    while cluster != 0
      invariant 0 <= depth <= MAX_DEPTH && p <= tmp.Length
      invariant dr.disk[..] == disk0 && dr.fat[..] == old(dr.fat[..])
      invariant IsDirectory(T, cluster) && Depth(T, d) == Depth(T, cluster) + depth
      invariant PathOf(g, L, disk0, T, d) == PathOf(g, L, disk0, T, cluster) + tmp[p..]
      decreases Depth(T, cluster)
    {
      DeepEnough(T, g, L, disk0, cluster);
      if depth >= MAX_DEPTH { return false, p; }
      var parent, name := StepUp(dr, cluster);
      PathStep(g, L, disk0, T, cluster, tmp[p..]);
      if |name| + 1 > p { return false, p; }
      p := Prepend(tmp, p, name);
      cluster, depth := parent, depth + 1;
    }
    ok := true;
  }

  /** Copies tmp from p on, and a NUL, to out. */
  method CopyOut(tmp: array<byte>, p: nat, out: array<byte>) returns (n: nat)
    requires p <= tmp.Length && tmp.Length - p + 1 <= out.Length && tmp != out
    modifies out
    ensures n == tmp.Length - p && out[..n] == tmp[p..] && out[n] == 0 && out[n + 1..] == old(out[n + 1..])
  {
    n := 0;
    while n < tmp.Length - p
      invariant 0 <= n <= tmp.Length - p
      invariant forall k :: 0 <= k < n ==> out[k] == tmp[p + k]
      invariant forall k :: n <= k < out.Length ==> out[k] == old(out[k])
    {
      out[n] := tmp[p + n];
      n := n + 1;
    }
    out[n] := 0;
    assert |out[..n]| == |tmp[p..]| && forall k :: 0 <= k < n ==> out[..n][k] == tmp[p..][k];
  }

  /** fat16_get_path: fails exactly when the directory is more than sixteen levels deep or its path
      does not fit the 128-byte scratch buffer or out, with its NUL. */
  method GetPath(dr: Driver, d: nat, out: array<byte>) returns (r: int)
    requires dr.Valid() && IsDirectory(dr.T, d) && out != dr.dirBuf
    modifies dr.dirBuf, out
    ensures r == -1 || r == |PathText(dr.g, dr.L, dr.disk[..], dr.T, d)|
    ensures r == -1 <==>
              var n := |PathText(dr.g, dr.L, dr.disk[..], dr.T, d)|;
              out.Length < 2 || (d != 0 && (Depth(dr.T, d) > MAX_DEPTH || n > TMP_SIZE - 1 || n + 1 > out.Length))
    ensures r == -1 ==> out[..] == old(out[..])
    ensures r != -1 ==> r < out.Length && out[..r] == PathText(dr.g, dr.L, dr.disk[..], dr.T, d) && out[r] == 0 &&
                        out[r + 1..] == old(out[r + 1..])
    ensures dr.disk[..] == old(dr.disk[..]) && dr.fat[..] == old(dr.fat[..])
  {
    hide TreeOk, LayoutOk, Synced, PathOf, Depth;
    if out.Length < 2 { return -1; }
    if d == 0 {
      out[0] := SLASH;
      out[1] := 0;
      return 1;
    }
    var tmp := new byte[TMP_SIZE - 1];
    var ok, p := BuildPath(dr, d, tmp);
    if !ok { return -1; }
    if tmp.Length - p + 1 > out.Length { return -1; }
    r := CopyOut(tmp, p, out);
  }
}
