/** kmalloc and kfree (kernel/memory/heap.c): a doubly linked list of block headers edited in place. */
module Heap {
  import opened HeapBlocks
  import opened Pmm
  import opened Paging
  import opened Vmm

  const HEAP_START: nat := 0x40_0000
  const HEAP_MAX: nat := 0x80_0000

  /** block_header_t at some address; free stands for the magic value, 0 is the null pointer. */
  datatype Header = Header(free: bool, size: nat, next: nat, prev: nat)

  function At(list: seq<nat>, i: int): nat { if 0 <= i < |list| then list[i] else 0 }

  /** The headers at the addresses of list are linked in that order, both ways. */
  ghost predicate Linked(headers: map<nat, Header>, list: seq<nat>) {
    && (forall i :: 0 <= i < |list| ==> list[i] > 0 && list[i] in headers)
    && (forall i :: 0 <= i < |list| ==>
       headers[list[i]].next == At(list, i + 1) && headers[list[i]].prev == At(list, i - 1))
  }

  ghost predicate Increasing(list: seq<nat>) { forall i, j :: 0 <= i < j < |list| ==> list[i] < list[j] }

  lemma Apart(list: seq<nat>, i: nat, j: nat)
    requires Increasing(list) && i < |list| && j < |list|
    ensures list[i] == list[j] <==> i == j
    ensures i < j ==> list[i] < list[j]
    ensures j < i ==> list[j] < list[i]
  {
  }

  lemma LinkAt(headers: map<nat, Header>, list: seq<nat>, i: nat)
    requires Linked(headers, list) && i < |list|
    ensures list[i] > 0 && list[i] in headers && headers[list[i]].next == At(list, i + 1) &&
            headers[list[i]].prev == At(list, i - 1)
  {
  }

  ghost function BlocksOf(headers: map<nat, Header>, list: seq<nat>): (bs: seq<Block>)
    requires forall i :: 0 <= i < |list| ==> list[i] in headers
    ensures |bs| == |list|
  {
    seq(|list|, i requires 0 <= i < |list| => Block(list[i], headers[list[i]].size, headers[list[i]].free))
  }

  lemma IncreasingList(headers: map<nat, Header>, list: seq<nat>, lo: nat, hi: nat)
    requires Linked(headers, list) && Placed(BlocksOf(headers, list), lo, hi)
    ensures Increasing(list)
  {
    var bs := BlocksOf(headers, list);
    forall i, j | 0 <= i < j < |list|
      ensures list[i] < list[j]
    {
      OrderedEnds(bs, lo, hi, i, j);
    }
  }

  // ---- splitting ------------------------------------------------------------------------------------------------

  /** The headers after block a gave up all but size bytes to a new block behind it. */
  function SplitHeaders(headers: map<nat, Header>, a: nat, size: nat): map<nat, Header>
    requires a in headers && headers[a].size >= size + HEADER
  {
    var h, n := headers[a], a + HEADER + size;
    var hs1 := headers[n := Header(true, h.size - size - HEADER, h.next, a)];
    var hs2 := if h.next != 0 && h.next in hs1 then hs1[h.next := hs1[h.next].(prev := n)] else hs1;
    hs2[a := Header(false, size, n, h.prev)]
  }

  ghost function SplitList(list: seq<nat>, k: nat, n: nat): seq<nat>
    requires k < |list|
  {
    list[..k + 1] + [n] + list[k + 1..]
  }

  lemma SplitAt(list: seq<nat>, k: nat, n: nat, i: nat)
    requires k < |list|
    ensures |SplitList(list, k, n)| == |list| + 1
    ensures i < |list| + 1 ==>
            SplitList(list, k, n)[i] == if i <= k then list[i] else if i == k + 1 then n else list[i - 1]
    ensures At(SplitList(list, k, n), i + 1) == if i < k then At(list, i + 1) else if i == k then n else At(list, i)
    ensures At(SplitList(list, k, n), i - 1) == if i <= k + 1 then At(list, i - 1)
            else if i == k + 2 then n else At(list, i - 2)
  {
  }

  ghost predicate CanSplit(headers: map<nat, Header>, list: seq<nat>, k: nat, size: nat) {
    && k < |list| && list[k] in headers && headers[list[k]].size >= size + HEADER
    && Linked(headers, list) && Increasing(list) && (k + 1 < |list| ==> list[k] + HEADER + size < list[k + 1])
  }

  lemma NewApart(list: seq<nat>, k: nat, n: nat, j: nat)
    requires Increasing(list) && k < |list| && list[k] < n && (k + 1 < |list| ==> n < list[k + 1]) && j < |list|
    ensures list[j] != n
  {
    hide Increasing;
    Apart(list, k, j);
    if k + 1 < |list| { Apart(list, k + 1, j); }
  }

  /** What one header of the split list looks like. */
  ghost predicate SplitShape(headers: map<nat, Header>, list: seq<nat>, k: nat, size: nat, hs: map<nat, Header>, j: nat)
    requires k < |list| && list[k] in headers && headers[list[k]].size >= size + HEADER
  {
    var a, n := list[k], list[k] + HEADER + size;
    && n in hs && hs[n] == Header(true, headers[a].size - size - HEADER, At(list, k + 1), a)
    && a in hs && hs[a] == Header(false, size, n, At(list, k - 1))
    && (j < |list| && j != k ==> list[j] in hs && list[j] in headers &&
                                 hs[list[j]] == headers[list[j]].(prev := if j == k + 1 then n
                                   else headers[list[j]].prev))
  }

  lemma SplitOne(headers: map<nat, Header>, list: seq<nat>, k: nat, size: nat, j: nat)
    requires CanSplit(headers, list, k, size)
    ensures SplitShape(headers, list, k, size, SplitHeaders(headers, list[k], size), j)
  {
    hide Linked, Increasing;
    LinkAt(headers, list, k);
    var n := list[k] + HEADER + size;
    if k + 1 < |list| { LinkAt(headers, list, k + 1); Apart(list, k, k + 1); NewApart(list, k, n, k + 1); }
    if j < |list| && j != k {
      LinkAt(headers, list, j);
      Apart(list, k, j);
      NewApart(list, k, n, j);
      if k + 1 < |list| { Apart(list, k + 1, j); }
    }
  }

  ghost predicate LinkOk(headers: map<nat, Header>, list: seq<nat>, i: nat) {
    i < |list| && list[i] > 0 && list[i] in headers && headers[list[i]].next == At(list, i + 1) &&
      headers[list[i]].prev == At(list, i - 1)
  }

  lemma LinksAre(headers: map<nat, Header>, list: seq<nat>)
    requires forall i: nat :: i < |list| ==> LinkOk(headers, list, i)
    ensures Linked(headers, list)
  {
    forall i | 0 <= i < |list|
      ensures list[i] > 0 && list[i] in headers && headers[list[i]].next == At(list, i + 1) &&
              headers[list[i]].prev == At(list, i - 1)
    {
      assert LinkOk(headers, list, i);
    }
  }

  lemma SplitLink(headers: map<nat, Header>, list: seq<nat>, k: nat, size: nat, i: nat)
    requires CanSplit(headers, list, k, size) && i < |list| + 1
    ensures LinkOk(SplitHeaders(headers, list[k], size), SplitList(list, k, list[k] + HEADER + size), i)
  {
    hide SplitHeaders, SplitList, Linked, Increasing;
    var n := list[k] + HEADER + size;
    SplitAt(list, k, n, i);
    var j := if i <= k then i else if i == k + 1 then k else i - 1;
    SplitOne(headers, list, k, size, j);
    LinkAt(headers, list, j);
  }

  lemma SplitLinked(headers: map<nat, Header>, list: seq<nat>, k: nat, size: nat)
    requires CanSplit(headers, list, k, size)
    ensures Linked(SplitHeaders(headers, list[k], size), SplitList(list, k, list[k] + HEADER + size))
  {
    var hs, ls := SplitHeaders(headers, list[k], size), SplitList(list, k, list[k] + HEADER + size);
    SplitAt(list, k, list[k] + HEADER + size, 0);
    forall i: nat | i < |ls|
      ensures LinkOk(hs, ls, i)
    {
      SplitLink(headers, list, k, size, i);
    }
    hide SplitHeaders, SplitList, CanSplit, Linked;
    LinksAre(hs, ls);
  }

  lemma SplitBlock(headers: map<nat, Header>, list: seq<nat>, k: nat, size: nat, i: nat)
    requires CanSplit(headers, list, k, size) && headers[list[k]].size >= size + HEADER + 4 && i < |list| + 1
    requires forall j :: 0 <= j < |list| ==> list[j] in headers
    ensures var hs, ls, bs := SplitHeaders(headers, list[k], size), SplitList(list, k, list[k] + HEADER + size),
            BlocksOf(headers, list);
            && |ls| == |list| + 1 == |Take(bs, k, size)| && ls[i] in hs
            && Take(bs, k, size)[i] == Block(ls[i], hs[ls[i]].size, hs[ls[i]].free)
  {
    hide Take, SplitHeaders, SplitList, Increasing, Linked;
    SplitAt(list, k, list[k] + HEADER + size, i);
    SplitOne(headers, list, k, size, if i <= k then i else if i == k + 1 then k else i - 1);
    TakeAt(BlocksOf(headers, list), k, size);
  }

  /** Splitting in place does to the list of blocks what Take says. */
  lemma SplitBlocks(headers: map<nat, Header>, list: seq<nat>, k: nat, size: nat)
    requires CanSplit(headers, list, k, size) && headers[list[k]].size >= size + HEADER + 4
    ensures Linked(SplitHeaders(headers, list[k], size), SplitList(list, k, list[k] + HEADER + size))
    ensures BlocksOf(SplitHeaders(headers, list[k], size), SplitList(list, k, list[k] + HEADER + size)) ==
            Take(BlocksOf(headers, list), k, size)
  {
    hide Take, SplitHeaders, SplitList, Increasing, Linked;
    SplitLinked(headers, list, k, size);
    var hs, ls := SplitHeaders(headers, list[k], size), SplitList(list, k, list[k] + HEADER + size);
    LinkedIn(headers, list);
    LinkedIn(hs, ls);
    var x, y := BlocksOf(hs, ls), Take(BlocksOf(headers, list), k, size);
    SplitBlock(headers, list, k, size, 0);
    forall i | 0 <= i < |ls|
      ensures x[i] == y[i]
    {
      SplitBlock(headers, list, k, size, i);
    }
  }

  // ---- joining --------------------------------------------------------------------------------------------------

  /** The headers after block a swallowed the next one. */
  function JoinHeaders(headers: map<nat, Header>, a: nat): map<nat, Header>
    requires a in headers && headers[a].next in headers
  {
    var h, m := headers[a], headers[headers[a].next];
    var hs1 := headers[a := h.(size := h.size + HEADER + m.size, next := m.next)];
    if m.next != 0 && m.next in hs1 then hs1[m.next := hs1[m.next].(prev := a)] else hs1
  }

  ghost function JoinList(list: seq<nat>, k: nat): seq<nat>
    requires k + 1 < |list|
  {
    list[..k + 1] + list[k + 2..]
  }

  lemma JoinListAt(list: seq<nat>, k: nat, i: nat)
    requires k + 1 < |list|
    ensures |JoinList(list, k)| == |list| - 1
    ensures i < |list| - 1 ==> JoinList(list, k)[i] == if i <= k then list[i] else list[i + 1]
    ensures At(JoinList(list, k), i + 1) == if i < k then At(list, i + 1) else At(list, i + 2)
    ensures At(JoinList(list, k), i - 1) == if i <= k + 1 then At(list, i - 1) else At(list, i)
  {
  }

  ghost predicate CanJoin(headers: map<nat, Header>, list: seq<nat>, k: nat) {
    Linked(headers, list) && Increasing(list) && k + 1 < |list|
  }

  lemma JoinOne(headers: map<nat, Header>, list: seq<nat>, k: nat, j: nat)
    requires CanJoin(headers, list, k) && j < |list| && j != k + 1
    ensures list[k] in headers && headers[list[k]].next in headers && list[k + 1] in headers && list[j] in headers
    ensures var hs := JoinHeaders(headers, list[k]);
            && list[j] in hs
            && (j == k ==> hs[list[j]] == Header(headers[list[k]].free,
                           headers[list[k]].size + HEADER + headers[list[k + 1]].size, At(list, k + 2),
                           At(list, k - 1)))
            && (j != k ==> hs[list[j]] == headers[list[j]].(prev := if j == k + 2 then list[k]
                           else headers[list[j]].prev))
  {
    hide Linked, Increasing;
    LinkAt(headers, list, k);
    LinkAt(headers, list, k + 1);
    LinkAt(headers, list, j);
    Apart(list, k, j);
    if k + 2 < |list| {
      LinkAt(headers, list, k + 2);
      Apart(list, k + 2, j);
      Apart(list, k + 2, k);
    }
  }

  lemma JoinLink(headers: map<nat, Header>, list: seq<nat>, k: nat, i: nat)
    requires CanJoin(headers, list, k) && i < |list| - 1
    ensures list[k] in headers && headers[list[k]].next in headers
    ensures var hs, ls := JoinHeaders(headers, list[k]), JoinList(list, k);
            i < |ls| && ls[i] > 0 && ls[i] in hs && hs[ls[i]].next == At(ls, i + 1) && hs[ls[i]].prev == At(ls, i - 1)
  {
    hide JoinHeaders, JoinList, Linked, Increasing;
    JoinListAt(list, k, i);
    var j := if i <= k then i else i + 1;
    JoinOne(headers, list, k, j);
    LinkAt(headers, list, j);
  }

  lemma JoinIncreasing(list: seq<nat>, k: nat)
    requires Increasing(list) && k + 1 < |list|
    ensures Increasing(JoinList(list, k))
  {
  }

  lemma JoinLinked(headers: map<nat, Header>, list: seq<nat>, k: nat)
    requires CanJoin(headers, list, k)
    ensures list[k] in headers && headers[list[k]].next in headers
    ensures Linked(JoinHeaders(headers, list[k]), JoinList(list, k)) && Increasing(JoinList(list, k))
  {
    JoinOne(headers, list, k, k);
    JoinIncreasing(list, k);
    var hs, ls := JoinHeaders(headers, list[k]), JoinList(list, k);
    JoinListAt(list, k, 0);
    forall i | 0 <= i < |ls|
      ensures ls[i] > 0 && ls[i] in hs && hs[ls[i]].next == At(ls, i + 1) && hs[ls[i]].prev == At(ls, i - 1)
    {
      JoinLink(headers, list, k, i);
    }
    hide JoinHeaders, JoinList, CanJoin, Increasing;
  }

  lemma JoinBlocks(headers: map<nat, Header>, list: seq<nat>, k: nat)
    requires CanJoin(headers, list, k)
    ensures list[k] in headers && headers[list[k]].next in headers
    ensures Linked(JoinHeaders(headers, list[k]), JoinList(list, k)) && Increasing(JoinList(list, k))
    ensures BlocksOf(JoinHeaders(headers, list[k]), JoinList(list, k)) == Join(BlocksOf(headers, list), k)
  {
    hide Join, JoinHeaders, JoinList;
    JoinLinked(headers, list, k);
    var hs, ls := JoinHeaders(headers, list[k]), JoinList(list, k);
    var bs := BlocksOf(headers, list);
    JoinAt(bs, k);
    JoinListAt(list, k, 0);
    var x, y := BlocksOf(hs, ls), Join(bs, k);
    hide CanJoin, Linked, Increasing;
    forall i | 0 <= i < |ls|
      ensures x[i] == y[i]
    {
      JoinListAt(list, k, i);
      JoinOne(headers, list, k, if i <= k then i else i + 1);
    }
  }

  // ---- growth ---------------------------------------------------------------------------------------------------

  /** How many of the n frames from f on are free without a break. */
  ghost function FreeRun(owner: seq<Owner>, f: nat, n: nat): (r: nat)
    requires |owner| == FRAMES
    ensures r <= n && (f <= FRAMES ==> f + r <= FRAMES)
    decreases n
  {
    if n == 0 || f >= FRAMES || owner[f] != NoOne then 0 else 1 + FreeRun(owner, f + 1, n - 1)
  }

  ghost function Claimed(owner: seq<Owner>, f: nat, m: nat): (r: seq<Owner>)
    requires |owner| == FRAMES
    ensures |r| == FRAMES
  {
    seq(FRAMES, g requires 0 <= g < FRAMES => if f <= g < f + m then Kernel else owner[g])
  }

  lemma ClaimedMore(owner: seq<Owner>, f: nat, m: nat)
    requires |owner| == FRAMES
    ensures f + m < FRAMES ==> Claimed(owner, f, m)[f + m := Kernel] == Claimed(owner, f, m + 1) &&
                               Claimed(owner, f, m)[f + m] == owner[f + m]
  {
  }

  lemma ClaimedNone(owner: seq<Owner>, f: nat)
    requires |owner| == FRAMES
    ensures Claimed(owner, f, 0) == owner
  {
  }

  function PagesFor(size: nat): nat { (size + PAGE_SIZE - 1) / PAGE_SIZE }

  function Align4(size: nat): (r: nat)
    ensures r % 4 == 0 && size <= r < size + 4
  {
    (size + 3) / 4 * 4
  }

  ghost predicate HeapFrames(owner: seq<Owner>, end: nat) {
    forall f: nat :: HEAP_START / PAGE_SIZE <= f < end / PAGE_SIZE && f < |owner| ==> owner[f] == Kernel
  }

  ghost predicate Shape(headers: map<nat, Header>, list: seq<nat>, start: nat, end: nat) {
    && HEAP_START <= end <= HEAP_MAX && end % PAGE_SIZE == 0 && start == At(list, 0)
    && Linked(headers, list)
    && HeapOk(BlocksOf(headers, list), HEAP_START, end) && Aligned(BlocksOf(headers, list))
  }

  /** Headers that are no longer linked say that they are free. */
  ghost predicate StaleFree(headers: map<nat, Header>, list: seq<nat>) {
    forall a :: a in headers && a !in list ==> headers[a].free
  }

  lemma StaleTakes(headers: map<nat, Header>, list: seq<nat>, k: nat, size: nat)
    requires StaleFree(headers, list) && k < |list| && list[k] in headers && Linked(headers, list)
    ensures StaleFree(TakenHeaders(headers, list[k], size), TakenList(headers, list, k, size))
  {
    var ls := TakenList(headers, list, k, size);
    forall a | a in list
      ensures a in ls
    {
      var i: nat :| i < |list| && list[i] == a;
      SplitAt(list, k, list[k] + HEADER + size, i);
      SplitAt(list, k, list[k] + HEADER + size, i + 1);
    }
    SplitAt(list, k, list[k] + HEADER + size, k + 1);
    LinkAt(headers, list, k);
    hide SplitList, Linked;
    assert At(list, k + 1) != 0 ==> list[k + 1] in list;
  }

  lemma StaleJoins(headers: map<nat, Header>, list: seq<nat>, k: nat)
    requires StaleFree(headers, list) && CanJoin(headers, list, k) && list[k] in headers &&
             headers[list[k]].next in headers
    requires list[k + 1] in headers && headers[list[k + 1]].free
    ensures StaleFree(JoinHeaders(headers, list[k]), JoinList(list, k))
  {
    hide JoinList, Linked, Increasing;
    JoinKeepsIn(list, k);
    LinkAt(headers, list, k);
    LinkAt(headers, list, k + 1);
    if k + 2 < |list| {
      LinkAt(headers, list, k + 2);
      Apart(list, k + 1, k + 2);
      assert list[k + 2] in list;
    }
  }

  lemma JoinKeepsIn(list: seq<nat>, k: nat)
    requires k + 1 < |list|
    ensures forall a :: a in list && a != list[k + 1] ==> a in JoinList(list, k)
  {
    forall a | a in list && a != list[k + 1]
      ensures a in JoinList(list, k)
    {
      var i: nat :| i < |list| && list[i] == a;
      JoinListAt(list, k, if i <= k then i else i - 1);
    }
  }

  lemma StaleAppends(headers: map<nat, Header>, list: seq<nat>, from: nat, to: nat)
    requires StaleFree(headers, list) && Linked(headers, list) && from + HEADER <= to
    ensures At(list, |list| - 1) != 0 ==> At(list, |list| - 1) in headers
    ensures StaleFree(AppendHeaders(headers, At(list, |list| - 1), from, to), AppendList(headers, list, from))
  {
    if list != [] { LinkAt(headers, list, |list| - 1); assert list[|list| - 1] in list; }
  }

  lemma ShapeGrows(headers: map<nat, Header>, list: seq<nat>, start: nat, end: nat)
    requires Shape(headers, list, start, end) && end + PAGE_SIZE <= HEAP_MAX
    ensures Shape(headers, list, start, end + PAGE_SIZE)
  {
  }

  lemma ShapeEnd(headers: map<nat, Header>, list: seq<nat>, start: nat, end: nat)
    requires Shape(headers, list, start, end)
    ensures HEAP_START <= end <= HEAP_MAX && end == PAGE_SIZE * (end / PAGE_SIZE) && LOW <= end / PAGE_SIZE <= FRAMES
  {
  }

  // ---- what the edits do to the shape ---------------------------------------------------------------------------

  lemma MarkBlocks(headers: map<nat, Header>, list: seq<nat>, k: nat, free: bool)
    requires Linked(headers, list) && Increasing(list) && k < |list|
    ensures list[k] in headers
    ensures var hs := headers[list[k] := headers[list[k]].(free := free)];
            && Linked(hs, list)
            && BlocksOf(hs, list) == BlocksOf(headers, list)[k := BlocksOf(headers, list)[k].(free := free)]
  {
    hide Increasing;
    LinkAt(headers, list, k);
    var hs := headers[list[k] := headers[list[k]].(free := free)];
    forall i: nat | i < |list|
      ensures LinkOk(hs, list, i) && list[i] in headers &&
              hs[list[i]] == if i == k then headers[list[k]].(free := free) else headers[list[i]]
    {
      LinkAt(headers, list, i);
      Apart(list, i, k);
    }
    LinksAre(hs, list);
    hide Linked, LinkOk;
    var x, y := BlocksOf(hs, list), BlocksOf(headers, list)[k := BlocksOf(headers, list)[k].(free := free)];
    assert forall i :: 0 <= i < |list| ==> x[i] == y[i];
  }

  ghost predicate Fits(headers: map<nat, Header>, list: seq<nat>, k: int, size: nat) {
    0 <= k < |list| && list[k] in headers && headers[list[k]].free && headers[list[k]].size >= size && size % 4 == 0
  }

  ghost function TakenList(headers: map<nat, Header>, list: seq<nat>, k: nat, size: nat): seq<nat>
    requires k < |list| && list[k] in headers
  {
    if headers[list[k]].size >= size + HEADER + 4 then SplitList(list, k, list[k] + HEADER + size) else list
  }

  function TakenHeaders(headers: map<nat, Header>, a: nat, size: nat): map<nat, Header>
    requires a in headers
  {
    if headers[a].size >= size + HEADER + 4 then SplitHeaders(headers, a, size)
      else headers[a := headers[a].(free := false)]
  }

  lemma ShapeFacts(headers: map<nat, Header>, list: seq<nat>, start: nat, end: nat)
    requires Shape(headers, list, start, end)
    ensures Linked(headers, list) && Increasing(list) && start == At(list, 0)
    ensures HeapOk(BlocksOf(headers, list), HEAP_START, end) && Aligned(BlocksOf(headers, list))
  {
    IncreasingList(headers, list, HEAP_START, end);
  }

  lemma GapBehind(headers: map<nat, Header>, list: seq<nat>, end: nat, k: nat)
    requires Linked(headers, list) && HeapOk(BlocksOf(headers, list), HEAP_START, end) && k + 1 < |list|
    ensures list[k] + HEADER + headers[list[k]].size <= list[k + 1]
  {
    var bs := BlocksOf(headers, list);
    assert bs[k].End() <= bs[k + 1].addr;
  }

  /** Taking block k in place keeps the shape and does to the blocks what Take says. */
  lemma ShapeTakes(headers: map<nat, Header>, list: seq<nat>, start: nat, end: nat, k: nat, size: nat)
    requires Shape(headers, list, start, end) && Fits(headers, list, k, size)
    ensures var hs, ls := TakenHeaders(headers, list[k], size), TakenList(headers, list, k, size);
            Linked(headers, list) && Shape(hs, ls, start, end) &&
              BlocksOf(hs, ls) == Take(BlocksOf(headers, list), k, size)
  {
    hide HeapOk, Aligned, Increasing, SplitHeaders, SplitList, Linked;
    ShapeFacts(headers, list, start, end);
    var bs := BlocksOf(headers, list);
    HeapBlocks.TakeOk(bs, HEAP_START, end, k, size);
    TakeAligned(bs, k, size);
    if headers[list[k]].size >= size + HEADER + 4 {
      if k + 1 < |list| { GapBehind(headers, list, end, k); }
      SplitBlocks(headers, list, k, size);
      SplitAt(list, k, list[k] + HEADER + size, 0);
    } else {
      MarkBlocks(headers, list, k, false);
    }
  }

  // ---- appending ------------------------------------------------------------------------------------------------

  function AppendHeaders(headers: map<nat, Header>, tail: nat, from: nat, to: nat): map<nat, Header>
    requires from + HEADER <= to && (tail != 0 ==> tail in headers)
  {
    var b := Header(true, to - from - HEADER, 0, tail);
    if tail == 0 then headers[from := b]
    else if headers[tail].free
         then headers[from := b][tail := headers[tail].(size := headers[tail].size + HEADER + b.size, next := 0)]
    else headers[from := b][tail := headers[tail].(next := from)]
  }

  ghost function AppendList(headers: map<nat, Header>, list: seq<nat>, from: nat): seq<nat> {
    if list != [] && list[|list| - 1] in headers && headers[list[|list| - 1]].free then list else list + [from]
  }

  lemma AppendBlocks(headers: map<nat, Header>, list: seq<nat>, from: nat, to: nat)
    requires Linked(headers, list) && Increasing(list) && 0 < from && from + HEADER <= to
    requires list != [] ==> list[|list| - 1] < from
    ensures At(list, |list| - 1) != 0 ==> At(list, |list| - 1) in headers
    ensures var hs, ls := AppendHeaders(headers, At(list, |list| - 1), from, to), AppendList(headers, list, from);
            Linked(hs, ls) && BlocksOf(hs, ls) == Append(BlocksOf(headers, list), from, to)
  {
    hide Increasing;
    var t := |list| - 1;
    if list != [] { LinkAt(headers, list, t); }
    var hs, ls := AppendHeaders(headers, At(list, t), from, to), AppendList(headers, list, from);
    forall i: nat | i < |list|
      ensures list[i] in headers && list[i] > 0 && list[i] in hs
      ensures hs[list[i]] == if i != t then headers[list[i]]
                             else if headers[list[t]].free
                                  then headers[list[t]].(size := headers[list[t]].size + HEADER + (to - from - HEADER),
                                  next := 0)
                             else headers[list[t]].(next := from)
      ensures headers[list[i]].next == At(list, i + 1) && headers[list[i]].prev == At(list, i - 1)
    {
      LinkAt(headers, list, i);
      Apart(list, i, t);
    }
    assert ls != list ==> from in hs && hs[from] == Header(true, to - from - HEADER, 0, At(list, t));
    hide AppendHeaders;
    forall i: nat | i < |ls|
      ensures LinkOk(hs, ls, i)
    {
    }
    hide LinkOk;
    LinksAre(hs, ls);
    AppendSame(headers, list, from, to, hs, ls);
  }

  lemma AppendSame(headers: map<nat, Header>, list: seq<nat>, from: nat, to: nat, hs: map<nat, Header>, ls: seq<nat>)
    requires from + HEADER <= to && ls == AppendList(headers, list, from)
    requires forall i: nat :: i < |list| ==> list[i] in headers && list[i] in hs
    requires forall i: nat :: i < |ls| ==> ls[i] in hs
    requires forall i: nat :: i < |list| ==>
               hs[list[i]].free == headers[list[i]].free &&
               hs[list[i]].size == headers[list[i]].size + if i == |list| - 1 &&
                 headers[list[i]].free then HEADER + (to - from - HEADER) else 0
    requires ls == list || (from in hs && hs[from].free && hs[from].size == to - from - HEADER)
    ensures BlocksOf(hs, ls) == Append(BlocksOf(headers, list), from, to)
  {
    var x, y := BlocksOf(hs, ls), Append(BlocksOf(headers, list), from, to);
    assert |x| == |y|;
    assert forall i :: 0 <= i < |x| ==> x[i] == y[i];
  }

  lemma PageAligned(q: nat)
    ensures PAGE_SIZE * q % 4 == 0
  {
    assert PAGE_SIZE * q == 4 * (1024 * q);
  }

  lemma TailBelow(headers: map<nat, Header>, list: seq<nat>, start: nat, from: nat)
    requires Shape(headers, list, start, from)
    ensures list != [] ==> list[|list| - 1] < from
    ensures 0 < from && from % 4 == 0
  {
    hide Shape;
    ShapeEnd(headers, list, start, from);
    PageAligned(from / PAGE_SIZE);
    if list != [] { LinkBelow(headers, list, start, from, |list| - 1); }
  }

  /** New space behind the list keeps the shape and does to the blocks what Append says. */
  lemma ShapeAppends(headers: map<nat, Header>, list: seq<nat>, start: nat, from: nat, to: nat)
    requires Shape(headers, list, start, from) && from + HEADER <= to <= HEAP_MAX && to % PAGE_SIZE == 0
    ensures At(list, |list| - 1) != 0 ==> At(list, |list| - 1) in headers
    ensures var hs, ls := AppendHeaders(headers, At(list, |list| - 1), from, to), AppendList(headers, list, from);
            && Linked(headers, list) && Shape(hs, ls, At(ls, 0), to) &&
               BlocksOf(hs, ls) == Append(BlocksOf(headers, list), from, to)
            && At(ls, 0) == if list == [] then from else start
  {
    hide HeapOk, Aligned, Increasing, AppendHeaders, Linked;
    ShapeFacts(headers, list, start, from);
    TailBelow(headers, list, start, from);
    AppendBlocks(headers, list, from, to);
    PageAligned(to / PAGE_SIZE);
    AppendOk(BlocksOf(headers, list), HEAP_START, from, from, to);
    AppendAligned(BlocksOf(headers, list), from, to);
  }

  lemma ShapeEmpty(headers: map<nat, Header>, start: nat, end: nat)
    requires start == 0 && HEAP_START <= end <= HEAP_MAX && end % PAGE_SIZE == 0
    ensures Shape(headers, [], start, end)
  {
  }

  lemma LinkedIn(headers: map<nat, Header>, list: seq<nat>)
    requires Linked(headers, list)
    ensures forall i :: 0 <= i < |list| ==> list[i] in headers
  {
  }

  lemma NullIsEnd(headers: map<nat, Header>, list: seq<nat>, k: nat)
    requires Linked(headers, list)
    ensures At(list, k) == 0 <==> k >= |list|
  {
  }

  lemma OnlyAt(list: seq<nat>, k: nat)
    requires Increasing(list) && k < |list|
    ensures forall j: nat :: j < |list| && list[j] == list[k] ==> j == k
  {
  }

  lemma GrownEnough(from: nat, n: nat)
    ensures from + HEADER + n <= from + PAGE_SIZE * PagesFor(n + HEADER)
  {
  }

  lemma LinkBelow(headers: map<nat, Header>, list: seq<nat>, start: nat, from: nat, k: nat)
    requires Shape(headers, list, start, from) && k < |list|
    ensures list[k] < from
  {
    var bs := BlocksOf(headers, list);
    assert bs[k].End() <= from;
  }

  /** What kmalloc(size) does to the blocks bs and the end of the heap, and what it returns. */
  ghost predicate Allocated(bs: seq<Block>, end: nat, owner: seq<Owner>, size: nat, bs': seq<Block>, end': nat,
      ptr: nat)
    requires |owner| == FRAMES
  {
    if size == 0 || size > HEAP_MAX - HEAP_START then ptr == 0 && bs' == bs && end' == end
    else
      var n := Align4(size);
      var k := FirstFit(bs, n, 0);
      if k != -1 then ptr == bs[k].addr + HEADER && bs' == Take(bs, k, n) && end' == end
      else
        var pages := PagesFor(n + HEADER);
        var got := FreeRun(owner, end / PAGE_SIZE, pages);
        && end' == end + PAGE_SIZE * got
        && (got < pages ==> ptr == 0 && bs' == bs)
        && (got == pages ==> end + HEADER <= end' && AllocatedIn(Append(bs, end, end'), n, bs', ptr))
  }

  ghost predicate AllocatedIn(bs: seq<Block>, n: nat, bs': seq<Block>, ptr: nat) {
    var k := FirstFit(bs, n, 0);
    k != -1 && ptr == bs[k].addr + HEADER && bs' == Take(bs, k, n)
  }

  ghost predicate BlockAt(bs: seq<Block>, k: nat, ptr: nat, size: nat) {
    k < |bs| && bs[k].addr + HEADER == ptr && !bs[k].free && bs[k].size >= size && ptr % 4 == 0
  }

  lemma AllocatedInMeans(bs: seq<Block>, lo: nat, hi: nat, n: nat, bs': seq<Block>, ptr: nat)
    requires HeapOk(bs, lo, hi) && Aligned(bs) && n % 4 == 0 && AllocatedIn(bs, n, bs', ptr)
    ensures exists k: nat :: BlockAt(bs', k, ptr, n) && Used(bs') == Used(bs) + {bs'[k]} && Release(bs', k) == bs
  {
    hide HeapOk, Take, Release, Used;
    var k := FirstFit(bs, n, 0);
    TakeUsed(bs, k, n);
    TakeRelease(bs, lo, hi, k, n);
    TakenBlock(bs, k, n);
    assert BlockAt(bs', k, ptr, n);
  }

  lemma {:induction false} AllFree(owner: seq<Owner>, f: nat, n: nat)
    requires |owner| == FRAMES
    ensures FreeRun(owner, f, n) == n <==> forall h: nat :: f <= h < f + n ==> FrameIsFree(owner, h)
    decreases n
  {
    if n > 0 {
      AllFree(owner, f + 1, n - 1);
      assert f <= f < f + n;
      assert FreeRun(owner, f, n) == n <==> FrameIsFree(owner, f) && FreeRun(owner, f + 1, n - 1) == n - 1;
    }
  }

  ghost predicate FrameIsFree(owner: seq<Owner>, f: nat) { f < |owner| && owner[f] == NoOne }

  /** The bytes kmalloc looks for, and the pages it would grow the heap by. */
  ghost predicate Asks(size: nat, n: nat, pages: nat) {
    && n % 4 == 0 && size <= n < size + 4
    && n + 16 <= 4096 * pages < n + 16 + 4096
  }

  /** kmalloc fails exactly for nothing, for more than 4 MB, or when no free block is large enough and one of the frames
      behind the heap that it would take to grow is not free; otherwise it takes the lowest free block that is large
      enough, if there is one. */
  lemma KmallocFails(bs: seq<Block>, end: nat, owner: seq<Owner>, size: nat, bs': seq<Block>, end': nat, ptr: nat,
      n: nat, pages: nat)
    requires |owner| == FRAMES && Allocated(bs, end, owner, size, bs', end', ptr) && Asks(size, n, pages)
    ensures ptr == 0 <==>
            || size == 0 || size > 0x40_0000
            || ((forall b :: b in bs && b.free ==> b.size < n) &&
                exists h: nat :: end / 4096 <= h < end / 4096 + pages && !FrameIsFree(owner, h))
    ensures ptr == 0 ==> bs' == bs
    ensures ptr != 0 ==> forall i :: 0 <= i < |bs| && bs[i].free && bs[i].size >= n ==>
              exists j :: 0 <= j <= i && bs[j].free && bs[j].size >= n && ptr == bs[j].addr + 16
  {
    hide Take, Append, FreeRun;
    if 0 < size <= HEAP_MAX - HEAP_START {
      assert n == Align4(size) && pages == PagesFor(n + HEADER);
      AllFree(owner, end / PAGE_SIZE, pages);
      var k := FirstFit(bs, n, 0);
      if k == -1 {
        assert forall b :: b in bs && b.free ==> b.size < n;
      } else {
        assert bs[k] in bs;
      }
    }
  }

  lemma TakenBlock(bs: seq<Block>, k: nat, n: nat)
    requires k < |bs| && bs[k].size >= n
    ensures k < |Take(bs, k, n)| && !Take(bs, k, n)[k].free
  {
  }

  /**
   * A pointer from kmalloc names a block in use that no one had before and that holds what was asked for; the other
   * blocks in use are as they were; and freeing it gives back the blocks there were (with the new space, if any).
   */
  lemma KmallocMeans(bs: seq<Block>, end: nat, owner: seq<Owner>, size: nat, bs': seq<Block>, end': nat, ptr: nat)
    requires |owner| == FRAMES && Allocated(bs, end, owner, size, bs', end', ptr) && ptr != 0
    requires HeapOk(bs, HEAP_START, end) && Aligned(bs) && HEAP_START <= end && end == PAGE_SIZE * (end / PAGE_SIZE)
    ensures exists k: nat ::
              && BlockAt(bs', k, ptr, size) && Used(bs') == Used(bs) + {bs'[k]}
              && (end' == end ==> Release(bs', k) == bs)
              && (end' != end ==> end + HEADER <= end' && Release(bs', k) == Append(bs, end, end'))
  {
    hide HeapOk, Take, Release, Used, Append, Aligned, PagesFor, FirstFit, FreeRun;
    var n := Align4(size);
    if FirstFit(bs, n, 0) != -1 {
      assert AllocatedIn(bs, n, bs', ptr);
      hide AllocatedIn;
      AllocatedInMeans(bs, HEAP_START, end, n, bs', ptr);
    } else {
      hide AllocatedIn;
      AppendOk(bs, HEAP_START, end, end, end');
      var q, got := end / PAGE_SIZE, FreeRun(owner, end / PAGE_SIZE, PagesFor(n + HEADER));
      PageAligned(q);
      PageAligned(q + got);
      assert end' == PAGE_SIZE * (q + got);
      AppendAligned(bs, end, end');
      AppendUsed(bs, end, end');
      AllocatedInMeans(Append(bs, end, end'), HEAP_START, end', n, bs', ptr);
    }
  }

  class KernelHeap {
    const vm: AddressSpaces
    /** The block headers in the heap's memory, by address. */
    var headers: map<nat, Header>
    var start: nat
    var end: nat
    /** The addresses of the linked headers, in order. */
    ghost var list: seq<nat>

    ghost predicate Valid()
      reads this, vm, vm.mem, vm.pmm, vm.pmm.bitmap
    {
      vm.Valid() && HeapFrames(vm.owner, end) && Shape(headers, list, start, end) && StaleFree(headers, list)
    }

    ghost function Blocks(): seq<Block>
      reads this
      requires Linked(headers, list)
    {
      BlocksOf(headers, list)
    }

    constructor (vm: AddressSpaces)
      requires vm.Valid()
      ensures Valid() && this.vm == vm && end == HEAP_START && list == []
    {
      this.vm := vm;
      headers, start, end, list := map[], 0, HEAP_START, [];
    }

    /** One page more at the end of the heap, mapped to the frame of the same address. */
    method GrowPage() returns (ok: bool)
      requires Valid()
      modifies vm.mem, vm.pmm.bitmap, vm.pmm`used, vm`owner, this`end
      ensures Valid() && vm.mem[..] == old(vm.mem[..])
      ensures var f := old(end) / PAGE_SIZE;
              && |old(vm.owner)| == FRAMES && ok == (f < FRAMES && old(vm.owner)[f] == NoOne)
              && end == (if ok then old(end) + PAGE_SIZE else old(end))
              && vm.owner == (if ok then old(vm.owner)[f := Kernel] else old(vm.owner))
    {
      hide Shape, VmOk, FrameAllocator.Valid, StaleFree;
      ShapeEnd(headers, list, start, end);
      if end + PAGE_SIZE > HEAP_MAX { return false; }
      ok := vm.ClaimKernelPage(end / PAGE_SIZE);
      if !ok { return; }
      ShapeGrows(headers, list, start, end);
      end := end + PAGE_SIZE;
    }

    /** heap_expand: page by page until one is missing. */
    method Expand(size: nat) returns (ok: bool)
      requires Valid()
      modifies vm.mem, vm.pmm.bitmap, vm.pmm`used, vm`owner, this`end
      ensures Valid() && vm.mem[..] == old(vm.mem[..])
      ensures var n, f := PagesFor(size), old(end) / PAGE_SIZE;
              && |old(vm.owner)| == FRAMES
              && ok == (FreeRun(old(vm.owner), f, n) == n)
              && end == old(end) + PAGE_SIZE * FreeRun(old(vm.owner), f, n)
              && vm.owner == Claimed(old(vm.owner), f, FreeRun(old(vm.owner), f, n))
    {
      hide Shape, VmOk, FrameAllocator.Valid, HeapFrames, Claimed, PagesFor, StaleFree;
      ShapeEnd(headers, list, start, end);
      var n, i := PagesFor(size), 0;
      ghost var owner0, f := vm.owner, end / PAGE_SIZE;
      ClaimedNone(owner0, f);
      while i < n
        invariant i <= n && Valid() && vm.mem[..] == old(vm.mem[..])
        invariant end == PAGE_SIZE * (f + i) && vm.owner == Claimed(owner0, f, i)
        invariant FreeRun(owner0, f, n) == i + FreeRun(owner0, f + i, n - i)
      {
        ghost var p := f + i;
        assert end / PAGE_SIZE == p;
        ShapeEnd(headers, list, start, end);
        ClaimedMore(owner0, f, i);
        ok := GrowPage();
        if !ok { return; }
        i := i + 1;
      }
      ok := true;
    }

    /** heap_init: the first 256 KB as one free block, or an empty heap when they cannot be had. */
    method Init()
      requires Valid() && list == [] && end == HEAP_START
      modifies vm.mem, vm.pmm.bitmap, vm.pmm`used, vm`owner, this
      ensures Valid() && vm.mem[..] == old(vm.mem[..])
      ensures |old(vm.owner)| == FRAMES
      ensures if FreeRun(old(vm.owner), LOW, 64) == 64 then Blocks() == [Block(HEAP_START, 0x4_0000 - HEADER, true)] &&
              end == HEAP_START + 0x4_0000
              else list == []
    {
      hide VmOk, FrameAllocator.Valid, HeapFrames, Claimed, Linked, HeapOk, Aligned, StaleFree;
      ghost var hs := headers;
      var ok := Expand(0x4_0000);
      if !ok { return; }
      ShapeEmpty(headers, start, HEAP_START);
      ShapeAppends(headers, list, start, HEAP_START, end);
      StaleAppends(headers, list, HEAP_START, end);
      start := HEAP_START;
      headers := headers[start := Header(true, end - HEAP_START - HEADER, 0, 0)];
      list := [HEAP_START];
      assert headers == AppendHeaders(hs, 0, HEAP_START, end) && list == AppendList(hs, [], HEAP_START);
    }

    /** The walk of kmalloc: takes the first block that fits, cut to size when the rest can be a block. */
    method TakeFirst(size: nat) returns (ptr: nat)
      requires Valid() && size % 4 == 0
      modifies this`headers, this`list
      ensures Valid()
      ensures var k := FirstFit(old(Blocks()), size, 0);
              if k == -1 then ptr == 0 && headers == old(headers) && list == old(list)
              else ptr == old(Blocks())[k].addr + HEADER && Blocks() == Take(old(Blocks()), k, size)
    {
      hide VmOk, FrameAllocator.Valid, HeapFrames, Linked, HeapOk, Aligned, Take, SplitHeaders, SplitList, Increasing,
        StaleFree;
      ShapeFacts(headers, list, start, end);
      ghost var bs, k := Blocks(), 0;
      var cur := start;
      NullIsEnd(headers, list, 0);
      while cur != 0
        invariant 0 <= k <= |list| && cur == At(list, k) && FirstFit(bs, size, 0) == FirstFit(bs, size, k)
        invariant headers == old(headers) && list == old(list)
        decreases |list| - k
      {
        LinkAt(headers, list, k);
        if headers[cur].free && headers[cur].size >= size {
          ShapeTakes(headers, list, start, end, k, size);
          StaleTakes(headers, list, k, size);
          TakeBlock(cur, k, size);
          return cur + HEADER;
        }
        NullIsEnd(headers, list, k + 1);
        cur, k := headers[cur].next, k + 1;
      }
      NullIsEnd(headers, list, k);
      ptr := 0;
    }

    method TakeBlock(cur: nat, ghost k: nat, size: nat)
      requires Linked(headers, list) && Increasing(list) && k < |list| && cur == list[k] && cur in headers &&
               headers[cur].size >= size
      modifies this`headers, this`list
      ensures headers == TakenHeaders(old(headers), cur, size) && list == TakenList(old(headers), old(list), k, size)
    {
      hide Linked, Increasing, SplitList;
      LinkAt(headers, list, k);
      if k + 1 < |list| { LinkAt(headers, list, k + 1); Apart(list, k, k + 1); }
      if headers[cur].size >= size + HEADER + 4 {
        var b := cur + HEADER + size;
        headers := headers[b := Header(true, headers[cur].size - size - HEADER, headers[cur].next, cur)];
        if headers[cur].next != 0 { headers := headers[headers[cur].next := headers[headers[cur].next].(prev := b)]; }
        headers := headers[cur := headers[cur].(next := b, size := size)];
        list := SplitList(list, k, b);
      }
      headers := headers[cur := headers[cur].(free := false)];
    }

    /** The last header of the list, or 0. */
    method FindTail() returns (tail: nat)
      requires Linked(headers, list) && start == At(list, 0)
      ensures tail == At(list, |list| - 1)
    {
      hide Linked;
      ghost var k := 0;
      tail := start;
      NullIsEnd(headers, list, 0);
      if tail != 0 { LinkAt(headers, list, 0); }
      while tail != 0 && headers[tail].next != 0
        invariant (list == [] && tail == 0) ||
                  (0 <= k < |list| && tail == list[k] && tail in headers && headers[tail].next == At(list, k + 1))
        decreases |list| - k
      {
        NullIsEnd(headers, list, k + 1);
        LinkAt(headers, list, k + 1);
        tail, k := headers[tail].next, k + 1;
      }
      NullIsEnd(headers, list, k + 1);
      NullIsEnd(headers, list, k);
    }

    /** The new space [from, end) linked in behind the last block, or added to it when it is free. */
    method AppendSpace(from: nat)
      requires vm.Valid() && HeapFrames(vm.owner, end) && StaleFree(headers, list)
      requires Shape(headers, list, start, from) && from + HEADER <= end <= HEAP_MAX && end % PAGE_SIZE == 0
      modifies this`headers, this`list, this`start
      ensures Valid() && Linked(old(headers), old(list)) && Blocks() == Append(old(Blocks()), from, end)
    {
      hide VmOk, FrameAllocator.Valid, HeapFrames, Linked, HeapOk, Aligned, Append, Shape, BlocksOf, Agrees,
        AddressSpaces.Valid, StaleFree;
      ShapeFacts(headers, list, start, from);
      ShapeAppends(headers, list, start, from, end);
      StaleAppends(headers, list, from, end);
      TailBelow(headers, list, start, from);
      ghost var hs := headers;
      var tail := FindTail();
      if list != [] { NullIsEnd(headers, list, |list| - 1); }
      headers := headers[from := Header(true, end - from - HEADER, 0, 0)];
      if tail == 0 {
        start := from;
      } else {
        headers := headers[tail := headers[tail].(next := from)];
        headers := headers[from := headers[from].(prev := tail)];
        if headers[tail].free {
          headers := headers[tail := headers[tail].(size := headers[tail].size + HEADER + headers[from].size,
            next := 0)];
        }
      }
      assert headers == AppendHeaders(hs, tail, from, end);
      list := AppendList(hs, list, from);
    }

    /** kmalloc. */
    method Kmalloc(size: nat) returns (ptr: nat)
      requires Valid()
      modifies vm.mem, vm.pmm.bitmap, vm.pmm`used, vm`owner, this
      ensures Valid() && vm.mem[..] == old(vm.mem[..]) && |old(vm.owner)| == FRAMES
      ensures Allocated(old(Blocks()), old(end), old(vm.owner), size, Blocks(), end, ptr)
      decreases if FirstFit(Blocks(), Align4(size), 0) == -1 then 1 else 0
    {
      hide VmOk, FrameAllocator.Valid, HeapFrames, Linked, HeapOk, Aligned, Append, Take, Shape, BlocksOf, PagesFor,
        StaleFree;
      ShapeFacts(headers, list, start, end);
      if size == 0 { return 0; }
      if size > HEAP_MAX - HEAP_START { return 0; }
      var n := Align4(size);
      ghost var bs := Blocks();
      ptr := TakeFirst(n);
      if ptr != 0 { return; }
      var from := end;
      var ok := Expand(n + HEADER);
      if !ok { return 0; }
      GrownEnough(from, n);
      ShapeEnd(headers, list, start, end);
      AppendSpace(from);
      AppendFits(bs, from, end, n);
      ptr := Kmalloc(n);
    }

    /** The block behind a merged into it; k is the place of a in the list. */
    method Merge(a: nat, ghost k: nat)
      requires CanJoin(headers, list, k) && a == list[k]
      modifies this`headers, this`list
      ensures CanJoin(old(headers), old(list), k)
      ensures Linked(headers, list) && Increasing(list) &&
              BlocksOf(headers, list) == Join(BlocksOf(old(headers), old(list)), k)
      ensures list == JoinList(old(list), k)
      ensures StaleFree(old(headers), old(list)) && old(headers[list[k + 1]].free) ==> StaleFree(headers, list)
    {
      hide Linked, Increasing, JoinList, Join;
      LinkAt(headers, list, k);
      LinkAt(headers, list, k + 1);
      if k + 2 < |list| { LinkAt(headers, list, k + 2); }
      JoinBlocks(headers, list, k);
      if StaleFree(headers, list) && headers[list[k + 1]].free { StaleJoins(headers, list, k); }
      hide StaleFree;
      ghost var hs := headers;
      hide BlocksOf;
      var b := headers[a].next;
      headers := headers[a := headers[a].(size := headers[a].size + HEADER + headers[b].size)];
      headers := headers[a := headers[a].(next := headers[b].next)];
      if headers[a].next != 0 { headers := headers[headers[a].next := headers[headers[a].next].(prev := a)]; }
      assert headers == JoinHeaders(hs, a);
      list := JoinList(list, k);
    }

    /** kfree, for the null pointer and whatever kmalloc once returned. The null pointer, blocks already free and
        blocks that have become part of another are ignored. */
    method Kfree(ptr: nat)
      requires Valid() && (ptr == 0 || (ptr >= HEADER && ptr - HEADER in headers))
      modifies this`headers, this`list
      ensures Valid()
      ensures ptr == 0 || ptr - HEADER !in old(list) ==> headers == old(headers) && list == old(list)
      ensures forall k: nat :: k < |old(list)| && old(list)[k] + HEADER == ptr ==>
                Blocks() == if old(Blocks())[k].free then old(Blocks()) else Release(old(Blocks()), k)
    {
      hide VmOk, FrameAllocator.Valid, HeapFrames, Linked, HeapOk, Aligned, Join, Increasing, JoinList;
      ShapeFacts(headers, list, start, end);
      if ptr == 0 { return; }
      var a := ptr - HEADER;
      if headers[a].free { FreeStays(a); return; }
      ghost var k: nat :| k < |list| && list[k] == a;
      OnlyAt(list, k);
      LinkAt(headers, list, k);
      ghost var bs := Blocks();
      MarkBlocks(headers, list, k, true);
      ReleaseOk(bs, HEAP_START, end, k);
      ReleaseAligned(bs, k);
      headers := headers[a := headers[a].(free := true)];
      MergeBoth(a, k);
    }

    lemma FreeStays(a: nat)
      requires Linked(headers, list) && Increasing(list) && a in headers && headers[a].free
      ensures forall k: nat :: k < |list| && list[k] == a ==> Blocks()[k].free
    {
    }

    /** The two merges of kfree around block k. */
    method MergeBoth(a: nat, ghost k: nat)
      requires Linked(headers, list) && Increasing(list) && k < |list| && a == list[k] && headers[a].free &&
               StaleFree(headers, list)
      modifies this`headers, this`list
      ensures Linked(headers, list) && Linked(old(headers), old(list)) && k < |old(list)| &&
              At(list, 0) == At(old(list), 0)
      ensures BlocksOf(headers, list) == JoinPrev(JoinNext(BlocksOf(old(headers), old(list)), k), k) &&
              StaleFree(headers, list)
    {
      hide Linked, Increasing, Join, JoinList, StaleFree;
      LinkAt(headers, list, k);
      LinkedIn(headers, list);
      if k + 1 < |list| { LinkAt(headers, list,
        k + 1); JoinAt(BlocksOf(headers, list), k); JoinListAt(list, k, 0); JoinListAt(list, k, k); }
      if headers[a].next != 0 && headers[headers[a].next].free { Merge(a, k); }
      LinkAt(headers, list, k);
      if k > 0 { LinkAt(headers, list, k - 1); JoinListAt(list, k - 1, 0); }
      LinkedIn(headers, list);
      assert BlocksOf(headers, list)[k].free;
      if headers[a].prev != 0 && headers[headers[a].prev].free { Merge(headers[a].prev, k - 1); }
    }

    /** heap_free_bytes. */
    method CountFree() returns (n: nat)
      requires Valid()
      ensures n == FreeBytes(Blocks())
    {
      hide VmOk, AddressSpaces.Valid, HeapFrames, Linked, HeapOk, Aligned, Increasing, StaleFree, FreeBytes;
      ShapeFacts(headers, list, start, end);
      ghost var bs, k := Blocks(), 0;
      var cur := start;
      n := 0;
      NoBytes(bs);
      NullIsEnd(headers, list, 0);
      while cur != 0
        invariant 0 <= k <= |list| && cur == At(list, k) && n == FreeBytes(bs[..k])
        decreases |list| - k
      {
        LinkAt(headers, list, k);
        MoreBytes(bs, k);
        if headers[cur].free { n := n + headers[cur].size; }
        NullIsEnd(headers, list, k + 1);
        cur, k := headers[cur].next, k + 1;
      }
      NullIsEnd(headers, list, k);
      assert bs[..k] == bs;
    }
  }
}
