/** How frames change hands: taking, giving back, making directories and tables, mapping a page. */
module PagingSteps {
  import opened Bytes
  import opened Paging

  function PutWord(mem: seq<Frame>, f: nat, i: nat, v: u32): (r: seq<Frame>)
    requires f < |mem| && i < 1024
    ensures |r| == |mem|
  {
    mem[f := SetWord(mem[f], i, v)]
  }

  lemma PutWordAt(mem: seq<Frame>, f: nat, i: nat, v: u32)
    requires f < |mem| && i < 1024
    ensures forall g: nat, j: nat :: WordAt(PutWord(mem, f, i, v), g, j) == if g == f &&
            j == i then v else WordAt(mem, g, j)
  {
    WordSet(mem[f], i, v);
  }

  predicate Attached(o: Owner) { o.Dir? || o.Table? || o.Page? }

  /** Every attached frame keeps its owner, and every entry in use of a directory or table its value. */
  ghost predicate Keeps(mem: seq<Frame>, owner: seq<Owner>, mem': seq<Frame>, owner': seq<Owner>) {
    && |mem| == FRAMES && |owner| == FRAMES && |mem'| == FRAMES && |owner'| == FRAMES
    && (forall h: nat :: h < FRAMES && Attached(owner[h]) ==> owner'[h] == owner[h])
    && (forall h: nat, i: nat :: h < FRAMES && (owner[h].Dir? || owner[h].Table?) && WordAt(mem, h, i) != 0 ==>
       WordAt(mem', h, i) == WordAt(mem, h, i))
  }

  lemma Carry(mem: seq<Frame>, owner: seq<Owner>, mem': seq<Frame>, owner': seq<Owner>, g: nat)
    requires VmOk(mem, owner) && Keeps(mem, owner, mem', owner') && g < FRAMES && Attached(owner[g])
    requires owner[g].Dir? || owner[g].Table? ==> forall i: nat :: WordAt(mem, g, i) == 0 ==> WordAt(mem', g, i) == 0
    ensures FrameOk(mem', owner', g)
  {
    hide WordAt;
    assert FrameOk(mem, owner, g);
    if owner[g] == Dir {
      forall i: nat | i < 1024
        ensures PdeOk(mem', owner', g, i)
      {
        assert PdeOk(mem, owner, g, i);
      }
    } else if owner[g].Table? {
      forall i: nat | i < 1024
        ensures PteOk(mem', owner', g, i)
      {
        assert PteOk(mem, owner, g, i);
      }
    }
  }

  /** Nothing attached changes, and no directory or table gets a new entry. */
  lemma AllCarry(mem: seq<Frame>, owner: seq<Owner>, mem': seq<Frame>, owner': seq<Owner>)
    requires VmOk(mem, owner) && Keeps(mem, owner, mem', owner') && IdentityOk(mem')
    requires forall h: nat, i: nat :: h < FRAMES && (owner[h].Dir? || owner[h].Table?) ==>
             WordAt(mem', h, i) == WordAt(mem, h, i)
    requires forall h: nat :: h < FRAMES && !Attached(owner[h]) ==>
             owner'[h] == owner[h] || (h >= LOW && !Attached(owner'[h]))
    ensures VmOk(mem', owner')
  {
    hide WordAt, IdentityOk;
    forall g: nat | g < FRAMES
      ensures FrameOk(mem', owner', g)
    {
      assert FrameOk(mem, owner, g);
      if Attached(owner[g]) { Carry(mem, owner, mem', owner', g); }
    }
  }

  lemma TakeOk(mem: seq<Frame>, owner: seq<Owner>, f: nat)
    requires VmOk(mem, owner) && f < FRAMES && owner[f] == NoOne
    ensures VmOk(mem, owner[f := Loose])
  {
    hide WordAt, IdentityOk;
    assert FrameOk(mem, owner, f);
    AllCarry(mem, owner, mem, owner[f := Loose]);
  }

  lemma ClaimOk(mem: seq<Frame>, owner: seq<Owner>, f: nat)
    requires VmOk(mem, owner) && f < FRAMES && owner[f] == NoOne
    ensures VmOk(mem, owner[f := Kernel])
  {
    hide WordAt, IdentityOk;
    assert FrameOk(mem, owner, f);
    AllCarry(mem, owner, mem, owner[f := Kernel]);
  }

  lemma GiveOk(mem: seq<Frame>, owner: seq<Owner>, f: nat)
    requires VmOk(mem, owner) && f < FRAMES && owner[f] == Loose
    ensures VmOk(mem, owner[f := NoOne])
  {
    hide WordAt, IdentityOk;
    assert FrameOk(mem, owner, f);
    AllCarry(mem, owner, mem, owner[f := NoOne]);
  }

  lemma IdentityKept(mem: seq<Frame>, f: nat, x: Frame)
    requires IdentityOk(mem) && LOW <= f < FRAMES
    ensures IdentityOk(mem[f := x])
  {
    var mem' := mem[f := x];
    assert forall g: nat, i: nat :: g != f ==> WordAt(mem', g, i) == WordAt(mem, g, i);
    hide WordAt;
  }

  /** The contents of loose frames and of user pages are nobody's business. */
  lemma FillOk(mem: seq<Frame>, owner: seq<Owner>, f: nat, x: Frame)
    requires VmOk(mem, owner) && f < FRAMES && (owner[f] == Loose || owner[f].Page?)
    ensures VmOk(mem[f := x], owner)
  {
    assert FrameOk(mem, owner, f);
    IdentityKept(mem, f, x);
    var mem' := mem[f := x];
    assert forall g: nat, i: nat :: g != f ==> WordAt(mem', g, i) == WordAt(mem, g, i);
    hide WordAt, IdentityOk;
    AllCarry(mem, owner, mem', owner);
  }

  lemma FillSame(mem: seq<Frame>, owner: seq<Owner>, f: nat, x: Frame, d: nat, vp: nat)
    requires VmOk(mem, owner) && f < FRAMES && (owner[f] == Loose || owner[f].Page?) && d < FRAMES && owner[d] == Dir
    ensures UserFrame(mem[f := x], d, vp) == UserFrame(mem, d, vp)
  {
    assert FrameOk(mem, owner, f);
    assert forall g: nat, i: nat :: g != f ==> WordAt(mem[f := x], g, i) == WordAt(mem, g, i);
    hide WordAt;
    TableOfDir(mem, owner, d, vp / 1024);
  }

  /** The table a directory entry leads to is a table, or a kernel table for the first two. */
  lemma TableOfDir(mem: seq<Frame>, owner: seq<Owner>, d: nat, di: nat)
    requires VmOk(mem, owner) && d < FRAMES && owner[d] == Dir
    ensures IsPresent(WordAt(mem, d, di)) ==>
              var t := FrameOf(WordAt(mem, d, di));
              && di < 1024 && t < FRAMES && (if di < 2 then t < LOW else owner[t] == Table(d, di))
    ensures di < 2 ==> !IsUser(WordAt(mem, d, di))
  {
    if di < 1024 {
      assert FrameOk(mem, owner, d);
      assert PdeOk(mem, owner, d, di);
    }
  }

  /** A loose frame set up as an empty directory. */
  ghost predicate EmptyDir(mem: seq<Frame>, f: nat) {
    && WordAt(mem, f, 0) == Entry(KERNEL_TABLE0, KERNEL_FLAGS) &&
       WordAt(mem, f, 1) == Entry(KERNEL_TABLE1, KERNEL_FLAGS)
    && forall di: nat :: 2 <= di < 1024 ==> WordAt(mem, f, di) == 0
  }

  lemma DirMade(mem: seq<Frame>, owner: seq<Owner>, f: nat)
    requires VmOk(mem, owner) && f < FRAMES && owner[f] == Loose && EmptyDir(mem, f)
    ensures VmOk(mem, owner[f := Dir])
  {
    hide WordAt, IdentityOk;
    assert FrameOk(mem, owner, f);
    var owner' := owner[f := Dir];
    forall g: nat | g < FRAMES
      ensures FrameOk(mem, owner', g)
    {
      assert FrameOk(mem, owner, g);
      if Attached(owner[g]) { Carry(mem, owner, mem, owner', g); }
      if g == f { NewDirOk(mem, owner', f); }
    }
  }

  lemma NewDirOk(mem: seq<Frame>, owner: seq<Owner>, f: nat)
    requires |mem| == FRAMES && |owner| == FRAMES && LOW <= f < FRAMES && owner[f] == Dir && EmptyDir(mem, f)
    ensures FrameOk(mem, owner, f)
  {
    hide WordAt;
    forall di: nat | di < 1024
      ensures PdeOk(mem, owner, f, di)
    {
    }
  }

  lemma NoUserPages(mem: seq<Frame>, f: nat, vp: nat)
    requires EmptyDir(mem, f)
    ensures UserFrame(mem, f, vp) == -1
  {
  }

  /** A zeroed loose frame hung into slot di of directory d as its table. */
  lemma TableMade(mem: seq<Frame>, owner: seq<Owner>, d: nat, di: nat, t: nat)
    requires VmOk(mem, owner) && d < FRAMES && owner[d] == Dir && 2 <= di < 1024 && WordAt(mem, d, di) == 0
    requires t < FRAMES && owner[t] == Loose && forall i: nat :: i < 1024 ==> WordAt(mem, t, i) == 0
    ensures VmOk(PutWord(mem, d, di, Entry(t, USER_FLAGS)), owner[t := Table(d, di)])
  {
    assert FrameOk(mem, owner, d) && FrameOk(mem, owner, t);
    PutWordAt(mem, d, di, Entry(t, USER_FLAGS));
    IdentityKept(mem, d, SetWord(mem[d], di, Entry(t, USER_FLAGS)));
    var mem', owner' := PutWord(mem, d, di, Entry(t, USER_FLAGS)), owner[t := Table(d, di)];
    assert IdentityOk(mem');
    hide WordAt, PutWord, IdentityOk;
    forall g: nat | g < FRAMES
      ensures FrameOk(mem', owner', g)
    {
      assert FrameOk(mem, owner, g);
      if g == d {
        GrownDirOk(mem, owner, d, di, t, mem', owner');
      } else if g == t {
        NewTableOk(mem', owner', d, di, t);
      } else if Attached(owner[g]) {
        Carry(mem, owner, mem', owner', g);
      }
    }
  }

  lemma NewTableOk(mem: seq<Frame>, owner: seq<Owner>, d: nat, di: nat, t: nat)
    requires |mem| == FRAMES && |owner| == FRAMES && LOW <= t < FRAMES && owner[t] == Table(d, di) && d < FRAMES &&
             owner[d] == Dir && 2 <= di < 1024
    requires WordAt(mem, d, di) == Entry(t, USER_FLAGS) && forall i: nat :: i < 1024 ==> WordAt(mem, t, i) == 0
    ensures FrameOk(mem, owner, t)
  {
    hide WordAt;
  }

  lemma GrownDirOk(mem: seq<Frame>, owner: seq<Owner>, d: nat, di: nat, t: nat, mem': seq<Frame>, owner': seq<Owner>)
    requires VmOk(mem, owner) && d < FRAMES && owner[d] == Dir && 2 <= di < 1024 && t < FRAMES && owner[t] == Loose
    requires |mem'| == FRAMES && owner' == owner[t := Table(d, di)]
    requires forall g: nat, j: nat :: WordAt(mem', g, j) == if g == d &&
             j == di then Entry(t, USER_FLAGS) else WordAt(mem, g, j)
    ensures FrameOk(mem', owner', d)
  {
    hide WordAt;
    assert FrameOk(mem, owner, d);
    forall i: nat | i < 1024
      ensures PdeOk(mem', owner', d, i)
    {
      assert PdeOk(mem, owner, d, i);
    }
  }

  lemma TableMadeSame(mem: seq<Frame>, owner: seq<Owner>, d: nat, di: nat, t: nat, d': nat, vp: nat)
    requires VmOk(mem, owner) && d < FRAMES && owner[d] == Dir && 2 <= di < 1024 && WordAt(mem, d, di) == 0
    requires t < FRAMES && owner[t] == Loose && (forall i: nat :: i < 1024 ==> WordAt(mem, t, i) == 0) && d' < FRAMES &&
             owner[d'] == Dir
    ensures UserFrame(PutWord(mem, d, di, Entry(t, USER_FLAGS)), d', vp) == UserFrame(mem, d', vp)
  {
    PutWordAt(mem, d, di, Entry(t, USER_FLAGS));
    TableOfDir(mem, owner, d', vp / 1024);
    hide WordAt, PutWord;
  }

  /** Owners after frame p is mapped at entry ti of table t; a page mapped there before is left loose. */
  ghost function Mapped(mem: seq<Frame>, owner: seq<Owner>, t: nat, ti: nat, p: nat): (r: seq<Owner>)
    requires |owner| == FRAMES && p < FRAMES
    ensures |r| == FRAMES
  {
    var e := WordAt(mem, t, ti);
    (if e != 0 && FrameOf(e) < FRAMES then owner[FrameOf(e) := Loose] else owner)[p := Page(t, ti)]
  }

  lemma PageMapped(mem: seq<Frame>, owner: seq<Owner>, d: nat, di: nat, t: nat, ti: nat, p: nat)
    requires VmOk(mem, owner) && t < FRAMES && owner[t] == Table(d, di) && ti < 1024 && p < FRAMES && owner[p] == Loose
    ensures VmOk(PutWord(mem, t, ti, Entry(p, USER_FLAGS)), Mapped(mem, owner, t, ti, p))
  {
    assert FrameOk(mem, owner, t) && FrameOk(mem, owner, p);
    assert PteOk(mem, owner, t, ti);
    PutWordAt(mem, t, ti, Entry(p, USER_FLAGS));
    var mem', owner' := PutWord(mem, t, ti, Entry(p, USER_FLAGS)), Mapped(mem, owner, t, ti, p);
    var e := WordAt(mem, t, ti);
    if e != 0 { assert FrameOk(mem, owner, FrameOf(e)); }
    hide WordAt, PutWord;
    forall g: nat | g < FRAMES
      ensures FrameOk(mem', owner', g)
    {
      assert FrameOk(mem, owner, g);
      MappedFrame(mem, owner, mem', owner', t, ti, p, g);
    }
  }

  lemma MappedFrame(mem: seq<Frame>, owner: seq<Owner>, mem': seq<Frame>, owner': seq<Owner>, t: nat, ti: nat, p: nat,
      g: nat)
    requires VmOk(mem, owner) && t < FRAMES && owner[t].Table? && ti < 1024 && LOW <= p < FRAMES && owner[p] == Loose &&
             g < FRAMES
    requires |mem'| == FRAMES && owner' == Mapped(mem, owner, t, ti, p) && LOW <= t
    requires forall h: nat, j: nat :: WordAt(mem', h, j) == if h == t &&
             j == ti then Entry(p, USER_FLAGS) else WordAt(mem, h, j)
    ensures FrameOk(mem', owner', g)
  {
    hide WordAt;
    assert FrameOk(mem, owner, g) && FrameOk(mem, owner, t);
    assert PteOk(mem, owner, t, ti);
    var e := WordAt(mem, t, ti);
    if e != 0 { assert FrameOk(mem, owner, FrameOf(e)); }
    if owner[g] == Dir {
      forall i: nat | i < 1024
        ensures PdeOk(mem', owner', g, i)
      {
        assert PdeOk(mem, owner, g, i);
      }
    } else if owner[g].Table? {
      forall i: nat | i < 1024
        ensures PteOk(mem', owner', g, i)
      {
        assert PteOk(mem, owner, g, i);
      }
    }
  }

  /** Mapping a page changes one translation of one directory. */
  lemma OneTranslation(mem: seq<Frame>, owner: seq<Owner>, d: nat, di: nat, t: nat, ti: nat, p: nat, d': nat, vp: nat)
    requires VmOk(mem, owner) && t < FRAMES && owner[t] == Table(d, di) && ti < 1024 && p < FRAMES && d' < FRAMES &&
             owner[d'] == Dir
    ensures UserFrame(PutWord(mem, t, ti, Entry(p, USER_FLAGS)), d', vp) ==
              if d' == d && vp / 1024 == di && vp % 1024 == ti then p else UserFrame(mem, d', vp)
  {
    PutWordAt(mem, t, ti, Entry(p, USER_FLAGS));
    assert FrameOk(mem, owner, t);
    TableOfDir(mem, owner, d', vp / 1024);
    hide WordAt, PutWord;
  }

  // ---- undoing an address space ---------------------------------------------------------------------------------

  /** Owners after fork_free_address_space: the pages and the directory are free, the tables are lost. */
  ghost function Unwound(owner: seq<Owner>, d: nat): (r: seq<Owner>)
    requires |owner| == FRAMES
    ensures |r| == FRAMES
  {
    seq(FRAMES, f requires 0 <= f < FRAMES =>
      if f == d then NoOne
      else if owner[f].Table? && owner[f].dir == d then Loose
      else if InSpace(owner, f, d) then NoOne
      else owner[f])
  }

  /** Frame f is a page of directory d. */
  ghost predicate InSpace(owner: seq<Owner>, f: nat, d: nat)
    requires |owner| == FRAMES && f < FRAMES
  {
    owner[f].Page? && owner[f].table < FRAMES && owner[owner[f].table].Table? && owner[owner[f].table].dir == d
  }

  lemma UnwindOk(mem: seq<Frame>, owner: seq<Owner>, d: nat)
    requires VmOk(mem, owner) && d < FRAMES && owner[d] == Dir
    ensures VmOk(mem, Unwound(owner, d))
  {
    assert FrameOk(mem, owner, d);
    hide WordAt;
    var owner' := Unwound(owner, d);
    forall g: nat | g < FRAMES
      ensures FrameOk(mem, owner', g)
    {
      UnwoundFrame(mem, owner, d, g);
    }
  }

  lemma UnwoundFrame(mem: seq<Frame>, owner: seq<Owner>, d: nat, g: nat)
    requires VmOk(mem, owner) && d < FRAMES && owner[d] == Dir && g < FRAMES
    ensures FrameOk(mem, Unwound(owner, d), g)
  {
    hide WordAt;
    var owner' := Unwound(owner, d);
    assert FrameOk(mem, owner, g) && FrameOk(mem, owner, d);
    if owner'[g] == Dir {
      forall i: nat | i < 1024
        ensures PdeOk(mem, owner', g, i)
      {
        assert PdeOk(mem, owner, g, i);
      }
    } else if owner'[g].Table? {
      forall i: nat | i < 1024
        ensures PteOk(mem, owner', g, i)
      {
        assert PteOk(mem, owner, g, i);
      }
    }
  }
}
