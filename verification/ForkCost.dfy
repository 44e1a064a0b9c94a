/** What the copy of an address space takes, and how far it gets with too few frames (kernel/process.c,
    process_fork). */
module ForkCost {
  import opened Paging

  const PAGES: nat := 0x10_0000

  /** The user pages of directory pd below page n, and the numbers of the tables they are in. */
  ghost function PageSet(mem: seq<Frame>, pd: nat, n: nat): set<nat> {
    set vp: nat | vp < n && UserFrame(mem, pd, vp) >= 0
  }

  ghost function TableSet(mem: seq<Frame>, pd: nat, n: nat): set<nat> {
    set vp | vp in PageSet(mem, pd, n) :: vp / 1024
  }

  /** Frames for a directory, the pages below n and their tables. */
  ghost function Cost(mem: seq<Frame>, pd: nat, n: nat): nat { 1 + |PageSet(mem, pd, n)| + |TableSet(mem, pd, n)| }

  /** Frames for page n, once those before it are copied. */
  ghost function Next(mem: seq<Frame>, pd: nat, n: nat): nat {
    if UserFrame(mem, pd, n) < 0 then 0 else if n / 1024 in TableSet(mem, pd, n) then 1 else 2
  }

  lemma CostNext(mem: seq<Frame>, pd: nat, n: nat)
    ensures Cost(mem, pd, n + 1) == Cost(mem, pd, n) + Next(mem, pd, n)
    ensures TableSet(mem, pd, n + 1) == TableSet(mem, pd, n) + if UserFrame(mem, pd, n) < 0 then {} else {n / 1024}
  {
    hide UserFrame;
    var p, p' := PageSet(mem, pd, n), PageSet(mem, pd, n + 1);
    var t, t' := TableSet(mem, pd, n), TableSet(mem, pd, n + 1);
    if UserFrame(mem, pd, n) < 0 {
      assert p' == p;
    } else {
      assert p' == p + {n};
      assert n in p';
      assert t' == t + {n / 1024};
    }
  }

  lemma CostNothing(mem: seq<Frame>, pd: nat, n: nat)
    requires forall vp: nat :: vp < n ==> UserFrame(mem, pd, vp) < 0
    ensures PageSet(mem, pd, n) == {} && TableSet(mem, pd, n) == {} && Cost(mem, pd, n) == 1
  {
    hide UserFrame;
    assert PageSet(mem, pd, n) == {};
  }

  /** Pages that are not there cost nothing. */
  lemma CostSkip(mem: seq<Frame>, pd: nat, n: nat, m: nat)
    requires n <= m && forall vp: nat :: n <= vp < m ==> UserFrame(mem, pd, vp) < 0
    ensures PageSet(mem, pd, m) == PageSet(mem, pd, n) && TableSet(mem, pd, m) == TableSet(mem, pd, n)
    ensures Cost(mem, pd, m) == Cost(mem, pd, n)
  {
    hide UserFrame;
    assert PageSet(mem, pd, m) == PageSet(mem, pd, n);
  }

  lemma {:induction false} CostMono(mem: seq<Frame>, pd: nat, n: nat, m: nat)
    requires n <= m
    ensures Cost(mem, pd, n) <= Cost(mem, pd, m) && TableSet(mem, pd, n) <= TableSet(mem, pd, m)
    decreases m
  {
    hide UserFrame, Cost, Next, TableSet;
    if n < m {
      CostMono(mem, pd, n, m - 1);
      CostNext(mem, pd, m - 1);
    }
  }

  /** How far a copy gets with this many free frames: the last page number up to which everything fits. */
  ghost function Reached(mem: seq<Frame>, pd: nat, free: nat, n: nat): (m: nat)
    ensures m <= n
  {
    if n == 0 || Cost(mem, pd, n) <= free then n else Reached(mem, pd, free, n - 1)
  }

  lemma {:induction false} ReachedIs(mem: seq<Frame>, pd: nat, free: nat, n: nat, m: nat)
    requires m < n && Cost(mem, pd, m) <= free < Cost(mem, pd, m + 1)
    ensures Reached(mem, pd, free, n) == m
    decreases n
  {
    hide Cost;
    CostMono(mem, pd, m + 1, n);
    if m + 1 < n { ReachedIs(mem, pd, free, n - 1, m); }
  }

  /** Page tables a copy has built when it runs out of frames. */
  ghost function Built(mem: seq<Frame>, pd: nat, free: nat): nat { |TableSet(mem, pd, Reached(mem, pd, free, PAGES))| }

  /** A copy that fails has built no table exactly when there were at most two frames: one for the directory, one
      for the first page, and none for its table. */
  lemma NothingBuilt(mem: seq<Frame>, pd: nat, free: nat)
    requires 1 <= free < Cost(mem, pd, PAGES)
    ensures Built(mem, pd, free) == 0 <==> free <= 2
  {
    hide UserFrame, Cost, TableSet, Reached;
    var v := FirstPage(mem, pd);
    if free <= 2 {
      ReachedIs(mem, pd, free, PAGES, v);
    } else {
      var m := Reached(mem, pd, free, PAGES);
      ReachedFar(mem, pd, free, PAGES, v + 1);
      CostMono(mem, pd, v + 1, m);
      assert v / 1024 in TableSet(mem, pd, m);
    }
  }

  lemma {:induction false} ReachedFar(mem: seq<Frame>, pd: nat, free: nat, n: nat, m: nat)
    requires m <= n && Cost(mem, pd, m) <= free
    ensures m <= Reached(mem, pd, free, n)
    decreases n
  {
    hide Cost;
    if n > m { ReachedFar(mem, pd, free, n - 1, m); }
  }

  /** The first page of a space that has one. */
  lemma FirstPage(mem: seq<Frame>, pd: nat) returns (v: nat)
    requires Cost(mem, pd, PAGES) > 1
    ensures v < PAGES && Cost(mem, pd, v) == 1 && TableSet(mem, pd, v) == {} && Cost(mem, pd, v + 1) == 3
    ensures v / 1024 in TableSet(mem, pd, v + 1)
  {
    hide UserFrame, Cost, TableSet;
    if forall vp: nat :: vp < PAGES ==> UserFrame(mem, pd, vp) < 0 {
      CostNothing(mem, pd, PAGES);
      assert false;
    }
    v :| v < PAGES && UserFrame(mem, pd, v) >= 0;
    while exists w: nat :: w < v && UserFrame(mem, pd, w) >= 0
      invariant v < PAGES && UserFrame(mem, pd, v) >= 0
      decreases v
    {
      var w: nat :| w < v && UserFrame(mem, pd, w) >= 0;
      v := w;
    }
    CostNothing(mem, pd, v);
    CostNext(mem, pd, v);
  }
}
