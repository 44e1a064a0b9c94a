/** The kernel's tables, changed in place: the process table, the fd table, the pipe pool with its ring
    buffers and the disk gate. Each method is one step of the protocol. */
module Kernel {
  import opened Bytes
  import opened Protocol
  import opened ProtocolSteps
  import opened ProtocolInv
  import opened ProtocolRuns
  import opened ProtocolEffects

  /** pipe_t without its buffer. */
  datatype PipeSlot = PipeSlot(head: nat, tail: nat, count: nat, used: bool, readRefs: nat, writeRefs: nat,
    readWaiter: int, writeWaiter: int)

  /** What a ring holds, oldest byte first: count bytes from tail on, wrapping at the end. */
  function Ring(b: seq<byte>, tail: nat, count: nat): (q: seq<byte>)
    requires |b| == PIPE_BUF_SIZE
    ensures |q| == count
  {
    seq(count, i requires 0 <= i < count => b[(tail + i) % PIPE_BUF_SIZE])
  }

  lemma RingTake(b: seq<byte>, tail: nat, count: nat)
    requires |b| == PIPE_BUF_SIZE && 0 < count <= PIPE_BUF_SIZE && tail < PIPE_BUF_SIZE
    ensures Ring(b, (tail + 1) % PIPE_BUF_SIZE, count - 1) == Ring(b, tail, count)[1..]
    ensures Ring(b, tail, count)[0] == b[tail]
    ensures ((tail + 1) % PIPE_BUF_SIZE + (count - 1)) % PIPE_BUF_SIZE == (tail + count) % PIPE_BUF_SIZE
  {
    var x, y := Ring(b, (tail + 1) % PIPE_BUF_SIZE, count - 1), Ring(b, tail, count)[1..];
    forall i | 0 <= i < count - 1
      ensures x[i] == y[i]
    {
      assert ((tail + 1) % PIPE_BUF_SIZE + i) % PIPE_BUF_SIZE == (tail + 1 + i) % PIPE_BUF_SIZE;
    }
  }

  lemma RingPut(b: seq<byte>, tail: nat, count: nat, x: byte)
    requires |b| == PIPE_BUF_SIZE && count < PIPE_BUF_SIZE && tail < PIPE_BUF_SIZE
    ensures Ring(b[(tail + count) % PIPE_BUF_SIZE := x], tail, count + 1) == Ring(b, tail, count) + [x]
    ensures ((tail + count) % PIPE_BUF_SIZE + 1) % PIPE_BUF_SIZE == (tail + (count + 1)) % PIPE_BUF_SIZE
  {
    var h := (tail + count) % PIPE_BUF_SIZE;
    var y, z := Ring(b[h := x], tail, count + 1), Ring(b, tail, count) + [x];
    forall i | 0 <= i <= count
      ensures y[i] == z[i]
    {
      if i < count { assert (tail + i) % PIPE_BUF_SIZE != h; }
    }
  }

  /** The buffer of pipe p in the pool. */
  function BufOf(bufs: seq<byte>, p: nat): (b: seq<byte>)
    requires |bufs| == PIPE_MAX * PIPE_BUF_SIZE && p < PIPE_MAX
    ensures |b| == PIPE_BUF_SIZE
  {
    bufs[PIPE_BUF_SIZE * p..PIPE_BUF_SIZE * p + PIPE_BUF_SIZE]
  }

  lemma BufAt(bufs: seq<byte>, p: nat, i: nat)
    requires |bufs| == PIPE_MAX * PIPE_BUF_SIZE && p < PIPE_MAX && i < PIPE_BUF_SIZE
    ensures bufs[PIPE_BUF_SIZE * p + i] == BufOf(bufs, p)[i]
  {
  }

  lemma BufSet(bufs: seq<byte>, p: nat, i: nat, x: byte)
    requires |bufs| == PIPE_MAX * PIPE_BUF_SIZE && p < PIPE_MAX && i < PIPE_BUF_SIZE
    ensures BufOf(bufs[PIPE_BUF_SIZE * p + i := x], p) == BufOf(bufs, p)[i := x]
    ensures forall p': nat :: p' < PIPE_MAX && p' != p ==>
            BufOf(bufs[PIPE_BUF_SIZE * p + i := x], p') == BufOf(bufs, p')
  {
  }

  /** The ring in slot and buffer holds q. */
  ghost predicate RingOk(slot: PipeSlot, b: seq<byte>, q: seq<byte>)
    requires |b| == PIPE_BUF_SIZE
  {
    && slot.tail < PIPE_BUF_SIZE && slot.count <= PIPE_BUF_SIZE && slot.head == (slot.tail + slot.count) % PIPE_BUF_SIZE
    && |q| == slot.count && q == Ring(b, slot.tail, slot.count)
  }

  lemma NothingTaken(buf: seq<byte>, q: seq<byte>)
    ensures Patch(buf, 0, q[0..0]) == buf && q[0..] == q
  {
  }

  lemma RingSize(slot: PipeSlot, b: seq<byte>, q: seq<byte>)
    requires |b| == PIPE_BUF_SIZE && RingOk(slot, b, q)
    ensures slot.count == |q| <= PIPE_BUF_SIZE && slot.tail < PIPE_BUF_SIZE && slot.head < PIPE_BUF_SIZE
  {
  }

  lemma TakeStep(slot: PipeSlot, b: seq<byte>, q: seq<byte>, n: nat)
    requires |b| == PIPE_BUF_SIZE && n <= |q| && RingOk(slot, b, q[n..]) && slot.count > 0
    ensures slot.tail < PIPE_BUF_SIZE && n < |q| && b[slot.tail] == q[n]
    ensures RingOk(slot.(tail := (slot.tail + 1) % PIPE_BUF_SIZE, count := slot.count - 1), b, q[n + 1..])
  {
    hide Ring;
    RingTake(b, slot.tail, slot.count);
    assert q[n..][1..] == q[n + 1..];
  }

  lemma PutStep(slot: PipeSlot, b: seq<byte>, q: seq<byte>, x: byte)
    requires |b| == PIPE_BUF_SIZE && RingOk(slot, b, q) && |q| < PIPE_BUF_SIZE
    ensures slot.head < PIPE_BUF_SIZE
    ensures RingOk(slot.(head := (slot.head + 1) % PIPE_BUF_SIZE, count := slot.count + 1), b[slot.head := x], q + [x])
  {
    hide Ring;
    RingPut(b, slot.tail, slot.count, x);
  }

  /** A slot and its buffer hold what the protocol's pipe says. */
  ghost predicate SlotHolds(slot: PipeSlot, b: seq<byte>, q: Pipe)
    requires |b| == PIPE_BUF_SIZE
  {
    && RingOk(slot, b, q.queue)
    && q.used == slot.used && q.readRefs == slot.readRefs && q.writeRefs == slot.writeRefs
    && q.readWaiter == slot.readWaiter && q.writeWaiter == slot.writeWaiter
  }

  ghost predicate PoolOk(slots: seq<PipeSlot>, bufs: seq<byte>, qs: seq<Pipe>) {
    && |slots| == PIPE_MAX && |bufs| == PIPE_MAX * PIPE_BUF_SIZE && |qs| == PIPE_MAX
    && forall p: nat :: p < PIPE_MAX ==> SlotHolds(slots[p], BufOf(bufs, p), qs[p])
  }

  lemma PoolAt(slots: seq<PipeSlot>, bufs: seq<byte>, qs: seq<Pipe>, p: nat)
    requires PoolOk(slots, bufs, qs) && p < PIPE_MAX
    ensures SlotHolds(slots[p], BufOf(bufs, p), qs[p]) && slots[p].count == |qs[p].queue|
  {
  }

  /** One slot of the pool changes, with its buffer. */
  lemma PoolSet(slots: seq<PipeSlot>, bufs: seq<byte>, qs: seq<Pipe>, p: nat, slot: PipeSlot, bufs': seq<byte>, q: Pipe)
    requires PoolOk(slots, bufs, qs) && p < PIPE_MAX && |bufs'| == |bufs| && SlotHolds(slot, BufOf(bufs', p), q)
    requires forall p': nat :: p' < PIPE_MAX && p' != p ==> BufOf(bufs', p') == BufOf(bufs, p')
    ensures PoolOk(slots[p := slot], bufs', qs[p := q])
  {
    hide SlotHolds, BufOf;
    assert forall p': nat :: p' < PIPE_MAX && p' != p ==> SlotHolds(slots[p'], BufOf(bufs, p'), qs[p']);
  }

  lemma PoolWaiters(slots: seq<PipeSlot>, bufs: seq<byte>, qs: seq<Pipe>, p: nat, r: int, w: int)
    requires PoolOk(slots, bufs, qs) && p < PIPE_MAX
    ensures slots[p].readWaiter == qs[p].readWaiter && slots[p].writeWaiter == qs[p].writeWaiter
    ensures PoolOk(slots[p := slots[p].(readWaiter := r, writeWaiter := w)], bufs,
            qs[p := qs[p].(readWaiter := r, writeWaiter := w)])
  {
    PoolAt(slots, bufs, qs, p);
    hide BufOf, PoolOk, RingOk;
    PoolSet(slots, bufs, qs, p, slots[p].(readWaiter := r, writeWaiter := w), bufs,
      qs[p].(readWaiter := r, writeWaiter := w));
  }

  /** Who is inside a pipe and what has gone through it is not part of the tables. */
  lemma PoolModel(slots: seq<PipeSlot>, bufs: seq<byte>, qs: seq<Pipe>, p: nat, q: Pipe)
    requires PoolOk(slots, bufs, qs) && p < PIPE_MAX
    requires q == qs[p].(reader := q.reader, writer := q.writer, accepted := q.accepted, consumed := q.consumed)
    ensures PoolOk(slots, bufs, qs[p := q])
  {
    PoolAt(slots, bufs, qs, p);
    hide BufOf, PoolOk, RingOk;
    PoolSet(slots, bufs, qs, p, slots[p], bufs, q);
    assert slots[p := slots[p]] == slots;
  }

  lemma PoolRefs(slots: seq<PipeSlot>, bufs: seq<byte>, qs: seq<Pipe>, p: nat)
    requires PoolOk(slots, bufs, qs) && p < PIPE_MAX
    ensures |slots| == PIPE_MAX && |qs| == PIPE_MAX
    ensures slots[p].readRefs == qs[p].readRefs && slots[p].writeRefs == qs[p].writeRefs && slots[p].used == qs[p].used
  {
    PoolAt(slots, bufs, qs, p);
  }

  lemma PoolCounts(slots: seq<PipeSlot>, bufs: seq<byte>, qs: seq<Pipe>, p: nat, r: nat, w: nat)
    requires PoolOk(slots, bufs, qs) && p < PIPE_MAX
    ensures var u := qs[p].used && r + w > 0;
            slots[p].used == qs[p].used && PoolOk(slots[p := slots[p].(readRefs := r, writeRefs := w, used := u)], bufs,
              qs[p := qs[p].(readRefs := r, writeRefs := w, used := u)])
  {
    PoolAt(slots, bufs, qs, p);
    hide BufOf, PoolOk, RingOk;
    var u := qs[p].used && r + w > 0;
    PoolSet(slots, bufs, qs, p, slots[p].(readRefs := r, writeRefs := w, used := u), bufs,
      qs[p].(readRefs := r, writeRefs := w, used := u));
  }

  lemma PoolRead(slots: seq<PipeSlot>, bufs: seq<byte>, qs: seq<Pipe>, p: nat)
    requires PoolOk(slots, bufs, qs) && p < PIPE_MAX
    ensures PoolOk(slots[p := slots[p].(readRefs := slots[p].readRefs + 1)], bufs,
            qs[p := qs[p].(readRefs := qs[p].readRefs + 1)])
  {
    PoolAt(slots, bufs, qs, p);
    hide BufOf, PoolOk, RingOk;
    PoolSet(slots, bufs, qs, p, slots[p].(readRefs := slots[p].readRefs + 1), bufs,
      qs[p].(readRefs := qs[p].readRefs + 1));
  }

  lemma PoolWrite(slots: seq<PipeSlot>, bufs: seq<byte>, qs: seq<Pipe>, p: nat)
    requires PoolOk(slots, bufs, qs) && p < PIPE_MAX
    ensures PoolOk(slots[p := slots[p].(writeRefs := slots[p].writeRefs + 1)], bufs,
            qs[p := qs[p].(writeRefs := qs[p].writeRefs + 1)])
  {
    PoolAt(slots, bufs, qs, p);
    hide BufOf, PoolOk, RingOk;
    PoolSet(slots, bufs, qs, p, slots[p].(writeRefs := slots[p].writeRefs + 1), bufs,
      qs[p].(writeRefs := qs[p].writeRefs + 1));
  }

  lemma EntryIs(fds: seq<Fd>, s: nat, j: nat)
    requires |fds| == PROCESS_MAX * FD_PER_PROC && s < PROCESS_MAX && j < FD_PER_PROC
    ensures FdAt(fds, s, j) == fds[FD_PER_PROC * s + j]
  {
  }

  ghost function WithPipe(S: Sys, p: nat): Sys
    requires p < |S.pipes|
  {
    S.(pipes := S.pipes[p := NEW_PIPE.(readRefs := 1, writeRefs := 1)])
  }

  ghost function WithoutPipe(S: Sys, p: nat): Sys
    requires p < |S.pipes|
  {
    S.(pipes := S.pipes[p := NEW_PIPE.(used := false)])
  }

  /** Giving both ends of a fresh pipe back leaves its slot empty and unused. */
  lemma UndoNone(S: Sys, p: nat)
    requires Shape(S) && p < PIPE_MAX
    ensures WithoutPipe(S, p) == ReleaseWrite(ReleaseRead(WithPipe(S, p), p), p)
    ensures ReleaseRead(WithPipe(S, p), p).pipes[p].readWaiter == -1
    ensures WithoutPipe(S, p) == ReleaseRead(WithPipe(S, p), p).(pipes := S.pipes[p := NEW_PIPE.(used := false)])
  {
  }

  lemma SetBack(fds: seq<Fd>, s: nat, j: nat, x: Fd)
    requires |fds| == PROCESS_MAX * FD_PER_PROC && s < PROCESS_MAX && j < FD_PER_PROC && FdAt(fds, s, j) == Free
    ensures SetFd(SetFd(fds, s, j, x), s, j, Free) == fds
  {
  }

  lemma SetSwap(fds: seq<Fd>, s: nat, j: nat, x: Fd, k: nat, y: Fd)
    requires |fds| == PROCESS_MAX * FD_PER_PROC && s < PROCESS_MAX && j < FD_PER_PROC && k < FD_PER_PROC && j != k
    ensures SetFd(SetFd(fds, s, j, x), s, k, y) == SetFd(SetFd(fds, s, k, y), s, j, x)
  {
  }

  lemma UndoRead(S: Sys, s: nat, p: nat, r: nat)
    requires Shape(S) && p < PIPE_MAX && s < PROCESS_MAX && r < FD_PER_PROC && FdAt(S.fds, s, r) == Free
    ensures var S2 := WithPipe(S, p).(fds := SetFd(S.fds, s, r, ReadEnd(p)));
            && WithoutPipe(S, p) == ReleaseWrite(CloseFd(S2, s, r), p)
            && CloseFd(S2, s, r).pipes[p].readWaiter == -1
  {
    SetFdAt(S.fds, s, r, ReadEnd(p));
    SetBack(S.fds, s, r, ReadEnd(p));
    hide FdAt, SetFd;
    UndoNone(S, p);
  }

  lemma UndoBoth(S: Sys, s: nat, p: nat, r: nat, w: nat)
    requires Shape(S) && p < PIPE_MAX && s < PROCESS_MAX && r < FD_PER_PROC && w < FD_PER_PROC && r != w
    requires FdAt(S.fds, s, r) == Free && FdAt(S.fds, s, w) == Free
    ensures var S3 := WithPipe(S, p).(fds := SetFd(SetFd(S.fds, s, r, ReadEnd(p)), s, w, WriteEnd(p)));
            && WithoutPipe(S, p) == CloseFd(CloseFd(S3, s, r), s, w)
            && (forall p': nat :: p' < PIPE_MAX ==>
               CloseFd(S3, s, r).pipes[p'].readWaiter == WithPipe(S, p).pipes[p'].readWaiter)
            && (forall p': nat :: p' < PIPE_MAX ==>
               CloseFd(S3, s, r).pipes[p'].writeWaiter == WithPipe(S, p).pipes[p'].writeWaiter)
  {
    var f1 := SetFd(S.fds, s, r, ReadEnd(p));
    SetFdAt(S.fds, s, r, ReadEnd(p));
    SetFdAt(f1, s, w, WriteEnd(p));
    SetSwap(S.fds, s, r, ReadEnd(p), w, WriteEnd(p));
    SetFdAt(S.fds, s, w, WriteEnd(p));
    SetBack(SetFd(S.fds, s, w, WriteEnd(p)), s, r, ReadEnd(p));
    SetBack(S.fds, s, w, WriteEnd(p));
    hide FdAt, SetFd;
    UndoNone(S, p);
  }

  lemma {:induction false} SkipSame(fds: seq<Fd>, s: nat, r: nat, x: Fd, j: nat)
    requires |fds| == PROCESS_MAX * FD_PER_PROC && s < PROCESS_MAX && r < FD_PER_PROC
    ensures FirstFree(SetFd(fds, s, r, x), s, j, r) == FirstFree(fds, s, j, r)
    decreases FD_PER_PROC - j
  {
    if j < FD_PER_PROC {
      SetFdAt(fds, s, r, x);
      SkipSame(fds, s, r, x, j + 1);
    }
  }

  lemma WakeMore(procs: seq<Proc>, ws: seq<nat>, i: nat)
    requires i < |ws| && ws[i] < |procs|
    ensures WakeAll(procs, ws[..i + 1]) == Wake(WakeAll(procs, ws[..i]), ws[i])
  {
    assert ws[..i + 1] == ws[..i] + [ws[i]];
    var x, y := WakeAll(procs, ws[..i + 1]), Wake(WakeAll(procs, ws[..i]), ws[i]);
    assert |x| == |y| && forall k :: 0 <= k < |x| ==> x[k] == y[k];
  }

  lemma PipeRange(S: Sys)
    requires Inv(S)
    ensures Shape(S)
    ensures forall p: nat :: p < PIPE_MAX ==> S.pipes[p].readWaiter < PROCESS_MAX
    ensures forall p: nat :: p < PIPE_MAX ==> S.pipes[p].writeWaiter < PROCESS_MAX
    ensures forall p: nat :: p < PIPE_MAX ==> |S.pipes[p].queue| <= PIPE_BUF_SIZE
  {
    forall p: nat | p < PIPE_MAX
      ensures S.pipes[p].readWaiter < PROCESS_MAX && S.pipes[p].writeWaiter < PROCESS_MAX &&
              |S.pipes[p].queue| <= PIPE_BUF_SIZE
    {
      assert PipeOk(S, p);
    }
  }

  lemma GateRange(S: Sys)
    requires Inv(S)
    ensures S.gate.irqWaiter < PROCESS_MAX && forall k :: 0 <= k < |S.gate.waiters| ==> S.gate.waiters[k] < PROCESS_MAX
  {
    assert GateOk(S);
  }

  lemma FreeEntry(fds: seq<Fd>, c: nat)
    requires FirstFree(fds, c, 0, -1) >= 0
    ensures FirstFree(fds, c, 0, -1) < FD_PER_PROC && FdAt(fds, c, FirstFree(fds, c, 0, -1)) == Free
  {
  }

  class Tables {
    const procs: array<Proc>
    const fds: array<Fd>
    const pipes: array<PipeSlot>
    const bufs: array<byte>
    const gateWaiters: array<nat>
    var gateCount: nat
    var ataBusy: bool
    var irqFired: bool
    var irqWaiter: int
    var current: int
    var currentIndex: nat
    var nextPid: nat

    /** The protocol state the tables stand for. */
    ghost var S: Sys

    ghost predicate GateMatches()
      reads this, gateWaiters
    {
      && gateWaiters.Length == PROCESS_MAX && gateCount <= PROCESS_MAX
      && ataBusy == S.gate.busy && gateWaiters[..gateCount] == S.gate.waiters
      && irqFired == S.gate.irqFired && irqWaiter == S.gate.irqWaiter
    }

    /** The tables hold exactly the protocol state S. */
    ghost predicate Valid()
      reads this, procs, fds, pipes, bufs, gateWaiters
    {
      && Shape(S) && procs[..] == S.procs && fds[..] == S.fds && PoolOk(pipes[..], bufs[..], S.pipes) && GateMatches()
      && current == S.current && currentIndex == S.last && nextPid == S.nextPid
    }

    /** The tables of a system that has just booted. */
    constructor ()
      ensures Valid() && S == Initial() && Inv(S)
      ensures fresh(procs) && fresh(fds) && fresh(pipes) && fresh(bufs) && fresh(gateWaiters)
    {
      procs := new Proc[PROCESS_MAX](i => Proc(0, Unused, 0));
      fds := new Fd[PROCESS_MAX * FD_PER_PROC](i => Free);
      pipes := new PipeSlot[PIPE_MAX](i => PipeSlot(0, 0, 0, false, 0, 0, -1, -1));
      bufs := new byte[PIPE_MAX * PIPE_BUF_SIZE](i => 0);
      gateWaiters := new nat[PROCESS_MAX](i => 0);
      gateCount, ataBusy, irqFired, irqWaiter := 0, false, false, -1;
      current, currentIndex, nextPid := -1, PROCESS_MAX - 1, 1;
      S := Initial();
      new;
      InitialInv();
      assert procs[..] == S.procs && fds[..] == S.fds;
    }

    // ---- pipes ------------------------------------------------------------------------------------------------

    /** The copy loop of pipe_read: takes up to len bytes out of the ring of pipe p. */
    method TakeFromRing(p: nat, buf: array<byte>, len: nat, ghost q: seq<byte>) returns (read: nat)
      requires pipes.Length == PIPE_MAX && bufs.Length == PIPE_MAX * PIPE_BUF_SIZE && p < PIPE_MAX &&
               len <= buf.Length && buf != bufs
      requires RingOk(pipes[p], BufOf(bufs[..], p), q)
      modifies pipes, buf
      ensures read == (if len < |q| then len else |q|)
      ensures buf[..] == Patch(old(buf[..]), 0, q[0..read])
      ensures pipes[..] == old(pipes[..])[p := old(pipes[p]).(tail := pipes[p].tail, count := pipes[p].count)]
      ensures RingOk(pipes[p], BufOf(bufs[..], p), q[read..])
    {
      hide RingOk, BufOf, Patch;
      ghost var b, buf0 := BufOf(bufs[..], p), buf[..];
      var slot := pipes[p];
      read := 0;
      NothingTaken(buf0, q);
      RingSize(slot, b, q);
      while read < len && slot.count > 0
        invariant 0 <= read <= len && read <= |q| && buf[..] == Patch(buf0, 0, q[0..read])
        invariant slot == pipes[p].(tail := slot.tail, count := slot.count) && slot.count == |q| - read &&
                  RingOk(slot, b, q[read..])
        invariant pipes[..] == old(pipes[..])
        decreases len - read
      {
        TakeStep(slot, b, q, read);
        BufAt(bufs[..], p, slot.tail);
        PatchNext(buf0, 0, q, 0, read);
        buf[read] := bufs[PIPE_BUF_SIZE * p + slot.tail];
        slot := slot.(tail := (slot.tail + 1) % PIPE_BUF_SIZE, count := slot.count - 1);
        read := read + 1;
      }
      pipes[p] := slot;
    }

    /** The copy loop of pipe_write: appends n bytes of buf, from written on, to the ring of pipe p. */
    method PutIntoRing(p: nat, buf: seq<byte>, written: nat, n: nat, ghost q: seq<byte>)
      requires pipes.Length == PIPE_MAX && bufs.Length == PIPE_MAX * PIPE_BUF_SIZE && p < PIPE_MAX &&
               written + n <= |buf|
      requires RingOk(pipes[p], BufOf(bufs[..], p), q) && |q| + n <= PIPE_BUF_SIZE
      modifies pipes, bufs
      ensures pipes[..] == old(pipes[..])[p := old(pipes[p]).(head := pipes[p].head, count := pipes[p].count)]
      ensures RingOk(pipes[p], BufOf(bufs[..], p), q + buf[written..written + n])
      ensures forall p': nat :: p' < PIPE_MAX && p' != p ==> BufOf(bufs[..], p') == BufOf(old(bufs[..]), p')
    {
      ghost var bufs0 := bufs[..];
      var slot := pipes[p];
      var i := 0;
      assert q + buf[written..written + 0] == q;
      hide RingOk, BufOf;
      while i < n
        invariant 0 <= i <= n
        invariant pipes[..] == old(pipes[..]) && slot == pipes[p].(head := slot.head, count := slot.count)
        invariant RingOk(slot, BufOf(bufs[..], p), q + buf[written..written + i])
        invariant forall p': nat :: p' < PIPE_MAX && p' != p ==> BufOf(bufs[..], p') == BufOf(bufs0, p')
      {
        ghost var x, bs := buf[written + i], bufs[..];
        PutStep(slot, BufOf(bs, p), q + buf[written..written + i], x);
        BufSet(bs, p, slot.head, x);
        assert (q + buf[written..written + i]) + [x] == q + buf[written..written + (i + 1)];
        bufs[PIPE_BUF_SIZE * p + slot.head] := buf[written + i];
        slot := slot.(head := (slot.head + 1) % PIPE_BUF_SIZE, count := slot.count + 1);
        i := i + 1;
      }
      pipes[p] := slot;
    }

    /** The guarded wake-up every waker uses. */
    method WakeSlot(w: int)
      requires procs.Length == PROCESS_MAX && w < PROCESS_MAX
      modifies procs
      ensures procs[..] == Wake(old(procs[..]), w)
    {
      if w >= 0 && procs[w].state == Blocked { procs[w] := procs[w].(state := Ready); }
    }

    /** Wakes and unregisters the writer, or the reader, blocked on pipe p. */
    method WakeBlockedWriter(p: nat)
      requires Valid() && p < PIPE_MAX && S.pipes[p].writeWaiter < PROCESS_MAX
      modifies procs, pipes, this`S
      ensures Valid() && S == WakeWriter(old(S), p)
    {
      hide SlotHolds, BufOf;
      PoolWaiters(pipes[..], bufs[..], S.pipes, p, S.pipes[p].readWaiter, -1);
      var w := pipes[p].writeWaiter;
      pipes[p] := pipes[p].(writeWaiter := -1);
      WakeSlot(w);
      S := WakeWriter(S, p);
    }

    method WakeBlockedReader(p: nat)
      requires Valid() && p < PIPE_MAX && S.pipes[p].readWaiter < PROCESS_MAX
      modifies procs, pipes, this`S
      ensures Valid() && S == WakeReader(old(S), p)
    {
      hide SlotHolds, BufOf;
      PoolWaiters(pipes[..], bufs[..], S.pipes, p, -1, S.pipes[p].writeWaiter);
      var w := pipes[p].readWaiter;
      pipes[p] := pipes[p].(readWaiter := -1);
      WakeSlot(w);
      S := WakeReader(S, p);
    }

    method TakeBytesOut(p: nat, buf: array<byte>, len: nat) returns (read: nat)
      requires Valid() && Runs(S) && CallNow(S).InRead? && CallNow(S).pipe == p < PIPE_MAX && CallNow(S).want == len
      requires len <= buf.Length && buf != bufs
      modifies pipes, buf, this`S
      ensures Valid() && S == TakeBytes(old(S))
      ensures var q := old(S).pipes[p].queue;
              read == (if len < |q| then len else |q|) && buf[..] == Patch(old(buf[..]), 0, q[..read])
    {
      hide BufOf, Patch, RingOk;
      ghost var slots0, q := pipes[..], S.pipes[p];
      PoolAt(slots0, bufs[..], S.pipes, p);
      read := TakeFromRing(p, buf, len, q.queue);
      assert q.queue[0..read] == Taken(q, len);
      S := TakeBytes(S);
      hide PoolOk;
      PoolSet(slots0, bufs[..], old(S.pipes), p, pipes[p], bufs[..], S.pipes[p]);
    }

    /** One pass of the loop of pipe_read: takes bytes, sees end of file, or blocks. */
    method ReadPass(p: nat, buf: array<byte>, len: nat) returns (done: bool, read: nat)
      requires Valid() && Runs(S) && CallNow(S).InRead? && CallNow(S).pipe == p < PIPE_MAX && CallNow(S).want == len
      requires len <= buf.Length && buf != bufs && Inv(S)
      modifies procs, pipes, buf, this`S
      ensures Valid() && S == ReadSection(old(S)) && Inv(S)
      ensures done <==> S.calls[S.current] == NoCall
      ensures done ==>
                var q := old(S).pipes[p].queue;
                read == (if len < |q| then len else |q|) && buf[..] == Patch(old(buf[..]), 0, q[..read])
      ensures !done ==> buf[..] == old(buf[..])
    {
      hide SlotHolds, BufOf, Patch, Wake, Inv;
      ghost var S0 := S;
      PipeRange(S);
      ReadKeeps(S);
      PoolAt(pipes[..], bufs[..], S.pipes, p);
      if pipes[p].count > 0 {
        WakeBlockedWriter(p);
        read := TakeBytesOut(p, buf, len);
        return true, read;
      }
      if pipes[p].writeRefs == 0 {
        S := ReadSection(S);
        PoolModel(pipes[..], bufs[..], S0.pipes, p, S0.pipes[p].(reader := -1));
        PatchNothing(buf[..], 0, [], 0);
        return true, 0;
      }
      PoolWaiters(pipes[..], bufs[..], S.pipes, p, S.current, S.pipes[p].writeWaiter);
      pipes[p] := pipes[p].(readWaiter := current);
      procs[current] := procs[current].(state := Blocked);
      S := ReadSection(S);
      return false, 0;
    }

    method PutBytesIn(p: nat, data: seq<byte>, written: nat, n: nat)
      requires Valid() && Runs(S) && CallNow(S).InWrite? && CallNow(S).pipe == p < PIPE_MAX
      requires CallNow(S).data == data && CallNow(S).written == written <= |data|
      requires |S.pipes[p].queue| <= PIPE_BUF_SIZE && n == |Put(S.pipes[p], data, written)|
      modifies pipes, bufs, this`S
      ensures Valid() && S == PutBytes(old(S))
    {
      hide BufOf, RingOk;
      ghost var slots0, bufs0, q := pipes[..], bufs[..], S.pipes[p];
      PoolAt(slots0, bufs0, S.pipes, p);
      PutIntoRing(p, data, written, n, q.queue);
      assert data[written..written + n] == Put(q, data, written);
      S := PutBytes(S);
      hide PoolOk;
      PoolSet(slots0, bufs0, old(S.pipes), p, pipes[p], bufs[..], S.pipes[p]);
    }

    /** One pass of the loop of pipe_write: puts bytes, finds the pipe broken, or blocks. */
    method WritePass(p: nat, data: seq<byte>, written: nat) returns (done: bool, ok: bool, written': nat)
      requires Valid() && Runs(S) && CallNow(S).InWrite? && CallNow(S).pipe == p < PIPE_MAX
      requires CallNow(S).data == data && CallNow(S).written == written && Inv(S)
      modifies procs, pipes, bufs, this`S
      ensures |old(S).pipes[p].queue| <= PIPE_BUF_SIZE && written <= |data|
      ensures Valid() && S == WriteSection(old(S)) && Inv(S)
      ensures done <==> S.calls[S.current] == NoCall
      ensures done && ok ==> written' == |data|
      ensures !done && S.procs[S.current].state == Running ==>
              S.calls[S.current].InWrite? && S.calls[S.current].written == written'
      ensures done && !ok <==> old(S.pipes[p].readRefs) == 0
      ensures var left, room := |data| - written, PIPE_BUF_SIZE - |old(S).pipes[p].queue|;
              written' == written + if old(S.pipes[p].readRefs) == 0 then 0 else if left < room then left else room
    {
      hide SlotHolds, BufOf, Wake, RingOk, Inv;
      ghost var S0 := S;
      PipeRange(S);
      WriteKeeps(S);
      written' := written;
      PoolAt(pipes[..], bufs[..], S.pipes, p);
      PoolRefs(pipes[..], bufs[..], S.pipes, p);
      if pipes[p].readRefs == 0 {
        S := WriteSection(S);
        PoolModel(pipes[..], bufs[..], S0.pipes, p, S0.pipes[p].(writer := -1));
        return true, false, written;
      }
      var room := PIPE_BUF_SIZE - pipes[p].count;
      if room > 0 {
        var n := if |data| - written < room then |data| - written else room;
        WakeBlockedReader(p);
        PutBytesIn(p, data, written, n);
        written' := written + n;
        return written' == |data|, true, written';
      }
      PoolWaiters(pipes[..], bufs[..], S.pipes, p, S.pipes[p].readWaiter, S.current);
      pipes[p] := pipes[p].(writeWaiter := current);
      procs[current] := procs[current].(state := Blocked);
      S := WriteSection(S);
      return false, true, written;
    }

    // ---- references and the fd table ----------------------------------------------------------------------------

    method StoreRefs(p: nat, r: nat, w: nat)
      requires Valid() && p < PIPE_MAX
      modifies pipes, this`S
      ensures Valid() && S == SetRefs(old(S), p, r, w)
    {
      hide SlotHolds, BufOf;
      PoolCounts(pipes[..], bufs[..], S.pipes, p, r, w);
      pipes[p] := pipes[p].(readRefs := r, writeRefs := w, used := pipes[p].used && r + w > 0);
      S := SetRefs(S, p, r, w);
    }

    /** pipe_release_read. */
    method ReleaseReadEnd(p: nat)
      requires Valid() && p < PIPE_MAX && S.pipes[p].writeWaiter < PROCESS_MAX
      modifies procs, pipes, this`S
      ensures Valid() && S == ReleaseRead(old(S), p)
    {
      hide SlotHolds, BufOf, PoolOk, Wake;
      PoolRefs(pipes[..], bufs[..], S.pipes, p);
      var r, w := pipes[p].readRefs, pipes[p].writeRefs;
      if r > 0 { r := r - 1; }
      if r == 0 { WakeBlockedWriter(p); }
      StoreRefs(p, r, w);
    }

    /** pipe_release_write. */
    method ReleaseWriteEnd(p: nat)
      requires Valid() && p < PIPE_MAX && S.pipes[p].readWaiter < PROCESS_MAX
      modifies procs, pipes, this`S
      ensures Valid() && S == ReleaseWrite(old(S), p)
    {
      hide SlotHolds, BufOf, PoolOk, Wake;
      PoolRefs(pipes[..], bufs[..], S.pipes, p);
      var r, w := pipes[p].readRefs, pipes[p].writeRefs;
      if w > 0 { w := w - 1; }
      if w == 0 { WakeBlockedReader(p); }
      StoreRefs(p, r, w);
    }

    /** vfs_close: releases a pipe end and frees the entry. */
    method Close(s: nat, j: nat)
      requires Valid() && s < PROCESS_MAX && j < FD_PER_PROC
      requires forall p: nat :: p < PIPE_MAX ==>
               S.pipes[p].readWaiter < PROCESS_MAX && S.pipes[p].writeWaiter < PROCESS_MAX
      modifies procs, pipes, fds, this`S
      ensures Valid() && S == CloseFd(old(S), s, j)
    {
      hide SlotHolds, BufOf, PoolOk, Wake;
      ghost var S0 := S;
      var x := fds[FD_PER_PROC * s + j];
      if x.ReadEnd? && x.pipe < PIPE_MAX {
        ReleaseReadEnd(x.pipe);
      } else if x.WriteEnd? && x.pipe < PIPE_MAX {
        ReleaseWriteEnd(x.pipe);
      }
      fds[FD_PER_PROC * s + j] := Free;
      S := S.(fds := SetFd(S.fds, s, j, Free));
    }

    /** sys_close on the caller's own entry. */
    method CloseOwn(j: nat) returns (ok: bool)
      requires Valid() && Idle(S) && Inv(S)
      modifies procs, pipes, fds, this`S
      ensures Valid() && Inv(S) && (ok <==> j < FD_PER_PROC && FdAt(old(S).fds, S.current, j) != Free)
      ensures S == if ok then CloseFd(old(S), S.current, j) else old(S)
    {
      hide PoolOk, FdAt, CloseFd, Inv;
      if j >= FD_PER_PROC { return false; }
      EntryIs(fds[..], current, j);
      if fds[FD_PER_PROC * current + j] == Free { return false; }
      PipeRange(S);
      CloseHeldKeeps(S, j);
      Close(current, j);
      ok := true;
    }

    /** Copies an fd into a free entry and counts the copy (vfs_dup). */
    method Place(s: nat, j: nat, x: Fd)
      requires Valid() && s < PROCESS_MAX && j < FD_PER_PROC
      modifies pipes, fds, this`S
      ensures Valid() && S == PlaceFd(old(S), s, j, x)
    {
      hide SlotHolds, BufOf;
      fds[FD_PER_PROC * s + j] := x;
      if x.ReadEnd? && x.pipe < PIPE_MAX {
        PoolRead(pipes[..], bufs[..], S.pipes, x.pipe);
        pipes[x.pipe] := pipes[x.pipe].(readRefs := pipes[x.pipe].readRefs + 1);
      } else if x.WriteEnd? && x.pipe < PIPE_MAX {
        PoolWrite(pipes[..], bufs[..], S.pipes, x.pipe);
        pipes[x.pipe] := pipes[x.pipe].(writeRefs := pipes[x.pipe].writeRefs + 1);
      }
      S := PlaceFd(S, s, j, x);
    }

    /** The row copy of sys_fork. */
    method CopyFds(s: nat, c: nat)
      requires Valid() && s < PROCESS_MAX && c < PROCESS_MAX
      modifies pipes, fds, this`S
      ensures Valid() && S == CopyRow(old(S), s, c, 0)
      ensures s != c ==> RowCopied(old(S).fds, s, c, 0, S.fds)
    {
      hide SlotHolds, BufOf, PoolOk, PlaceFd, FdAt;
      if s != c { CopyRowIs(S, s, c, 0); }
      var j := 0;
      while j < FD_PER_PROC
        invariant 0 <= j <= FD_PER_PROC && Valid() && CopyRow(S, s, c, j) == CopyRow(old(S), s, c, 0)
      {
        EntryIs(fds[..], s, j);
        Place(c, j, fds[FD_PER_PROC * s + j]);
        j := j + 1;
      }
    }

    /** The first free entry of process s other than skip, or -1. */
    method FindFreeFd(s: nat, skip: int) returns (r: int)
      requires Valid() && s < PROCESS_MAX
      ensures r == FirstFree(S.fds, s, 0, skip)
    {
      hide FdAt, PoolOk;
      r := 0;
      while r < FD_PER_PROC
        invariant 0 <= r <= FD_PER_PROC && FirstFree(S.fds, s, r, skip) == FirstFree(S.fds, s, 0, skip)
      {
        EntryIs(fds[..], s, r);
        if r != skip && fds[FD_PER_PROC * s + r] == Free { return r; }
        r := r + 1;
      }
      r := -1;
    }

    /** The first unused pipe slot, or -1. */
    method FindPipe() returns (p: int)
      requires Valid()
      ensures p == FirstPipe(S.pipes, 0)
    {
      hide SlotHolds, BufOf;
      p := 0;
      while p < PIPE_MAX
        invariant 0 <= p <= PIPE_MAX && FirstPipe(S.pipes, p) == FirstPipe(S.pipes, 0)
      {
        PoolRefs(pipes[..], bufs[..], S.pipes, p);
        if !pipes[p].used { return p; }
        p := p + 1;
      }
      p := -1;
    }

    /** pipe_create on slot p. */
    method ResetPipe(p: nat)
      requires Valid() && p < PIPE_MAX
      modifies pipes, this`S
      ensures Valid() && S == WithPipe(old(S), p)
    {
      hide BufOf;
      PoolSet(pipes[..], bufs[..], S.pipes, p, PipeSlot(0, 0, 0, true, 1, 1, -1, -1), bufs[..],
        NEW_PIPE.(readRefs := 1, writeRefs := 1));
      pipes[p] := PipeSlot(0, 0, 0, true, 1, 1, -1, -1);
      S := WithPipe(S, p);
    }

    method StoreFd(s: nat, j: nat, x: Fd)
      requires Valid() && s < PROCESS_MAX && j < FD_PER_PROC
      modifies fds, this`S
      ensures Valid() && S == old(S).(fds := SetFd(old(S).fds, s, j, x))
    {
      hide PoolOk;
      fds[FD_PER_PROC * s + j] := x;
      S := S.(fds := SetFd(S.fds, s, j, x));
    }

    /** sys_pipe; copied says whether the caller's buffer could take the two fds. */
    method NewPipe(copied: bool) returns (ok: bool, r: int, w: int)
      requires Valid() && Idle(S) && Inv(S)
      modifies procs, pipes, fds, this`S
      ensures Valid() && S == MakePipe(old(S), copied) && Inv(S)
      ensures var p, r0 := FirstPipe(old(S).pipes, 0), FirstFree(old(S).fds, S.current, 0, -1);
              var w0 := FirstFree(old(S).fds, S.current, 0, r0);
              && (ok <==> copied && p >= 0 && r0 >= 0 && w0 >= 0)
              && (ok ==>
                    && r == r0 && w == w0 && r != w
                    && FdAt(S.fds, S.current, r) == ReadEnd(p) && FdAt(S.fds, S.current, w) == WriteEnd(p))
              && if ok then PipeMade(old(S), p, r, w, S) else NoPipe(old(S), S)
    {
      hide SlotHolds, BufOf, PoolOk, FdAt, SetFd, FirstFree, FirstPipe, CloseFd, ReleaseRead, ReleaseWrite, Inv,
        PipeMade, NoPipe;
      ghost var S0 := S;
      PipeRange(S);
      MakePipeKeeps(S, copied);
      MakesPipe(S, copied);
      var s: nat := current;
      r, w := -1, -1;
      var p := FindPipe();
      if p < 0 { return false, r, w; }
      ResetPipe(p);
      r := FindFreeFd(s, -1);
      if r < 0 {
        UndoNone(S0, p);
        ReleaseReadEnd(p);
        ReleaseWriteEnd(p);
        return false, r, w;
      }
      StoreFd(s, r, ReadEnd(p));
      w := FindSecondFd(s, r, S0.fds);
      if w < 0 {
        UndoRead(S0, s, p, r);
        Close(s, r);
        ReleaseWriteEnd(p);
        return false, r, w;
      }
      StoreFd(s, w, WriteEnd(p));
      if !copied {
        UndoBoth(S0, s, p, r, w);
        Close(s, r);
        Close(s, w);
        return false, r, w;
      }
      SetFdAt(S0.fds, s, r, ReadEnd(p));
      SetFdAt(SetFd(S0.fds, s, r, ReadEnd(p)), s, w, WriteEnd(p));
      ok := true;
    }

    /** The scan for the write end skips the entry just taken for the read end. */
    method FindSecondFd(s: nat, r: nat, ghost fds0: seq<Fd>) returns (w: int)
      requires Valid() && s < PROCESS_MAX && r < FD_PER_PROC && |fds0| == PROCESS_MAX * FD_PER_PROC
      requires exists x :: S.fds == SetFd(fds0, s, r, x)
      ensures w == FirstFree(fds0, s, 0, r)
    {
      hide PoolOk, FdAt, SetFd, FirstFree;
      w := FindFreeFd(s, r);
      ghost var x :| S.fds == SetFd(fds0, s, r, x);
      SkipSame(fds0, s, r, x, 0);
    }

    // ---- processes ----------------------------------------------------------------------------------------------

    /** The first unused process slot, or -1. */
    method FindSlot() returns (c: int)
      requires Valid()
      ensures c == FirstUnused(S.procs, 0)
    {
      c := 0;
      while c < PROCESS_MAX
        invariant 0 <= c <= PROCESS_MAX && FirstUnused(S.procs, c) == FirstUnused(S.procs, 0)
      {
        if procs[c].state == Unused { return c; }
        c := c + 1;
      }
      c := -1;
    }

    /** Claims slot c and the next pid in one interrupts-off section. */
    method ClaimSlot(c: nat, x: PState)
      requires Valid() && c < PROCESS_MAX
      modifies procs, this`nextPid, this`S
      ensures Valid() && S == Claim(old(S), c, x)
    {
      hide PoolOk;
      procs[c] := Proc(nextPid, x, 0);
      nextPid := nextPid + 1;
      S := Claim(S, c, x);
    }

    /** sys_fork, with memory standing for the success of the address-space copy. */
    method ForkProcess(memory: bool) returns (pid: int)
      requires Valid() && Idle(S) && Inv(S)
      modifies procs, pipes, fds, this`nextPid, this`S
      ensures Valid() && S == Fork(old(S), memory) && Inv(S)
      ensures if memory && exists i: nat :: i < PROCESS_MAX && old(S).procs[i].state == Unused
              then exists c: nat :: ChildMade(old(S), c, pid, S)
              else pid == -1 && NoChild(old(S), S)
      ensures pid == if memory && FirstUnused(old(S.procs), 0) >= 0 then old(S.nextPid) else -1
    {
      hide PoolOk, CopyRow, Inv, ChildMade, NoChild;
      ForkKeeps(S, memory);
      ForkMakes(S, memory);
      var c := FindSlot();
      if c < 0 { return -1; }
      if !memory {
        nextPid := nextPid + 1;
        S := S.(nextPid := S.nextPid + 1);
        return -1;
      }
      pid := nextPid;
      ClaimSlot(c, Ready);
      CopyFds(current, c);
    }

    /** process_exit: frees the slot, unless it is free, and wakes everyone who waits for its pid. */
    method ExitProcess(s: nat)
      requires procs.Length == PROCESS_MAX && s < PROCESS_MAX
      modifies procs
      ensures procs[..] == if old(procs[s].state) == Unused then old(procs[..]) else ExitProcs(old(procs[..]), s)
      ensures old(procs[s].state) != Unused ==>
                && procs[s].state == Unused && procs[s].pid == 0
                && forall i :: 0 <= i < PROCESS_MAX && i != s ==>
                     if old(procs[i].state) == Blocked && old(procs[i].waitingFor) == old(procs[s].pid) then
                       procs[i].state == Ready && procs[i].waitingFor == 0 && procs[i].pid == old(procs[i].pid)
                     else procs[i] == old(procs[i])
    {
      if procs[s].state == Unused { return; }
      ghost var procs0 := procs[..];
      var pid := procs[s].pid;
      procs[s] := procs[s].(state := Unused, pid := 0);
      var i := 0;
      while i < PROCESS_MAX
        invariant 0 <= i <= PROCESS_MAX
        invariant forall k :: 0 <= k < i ==> procs[k] == ExitProcs(procs0, s)[k]
        invariant forall k :: i <= k < PROCESS_MAX ==>
                  procs[k] == if k == s then Proc(0, Unused, procs0[s].waitingFor) else procs0[k]
      {
        if procs[i].state == Blocked && procs[i].waitingFor == pid {
          procs[i] := procs[i].(waitingFor := 0, state := Ready);
        }
        i := i + 1;
      }
    }

    /** One step of sys_exit: closes entry j of the caller, or frees its slot when all are closed. */
    method ExitPass(j: nat)
      requires Valid() && Runs(S) && CallNow(S) == InExit(j) && Inv(S)
      modifies procs, pipes, fds, this`S
      ensures j <= FD_PER_PROC
      ensures Valid() && S == ExitStep(old(S)) && Inv(S)
      ensures j == FD_PER_PROC ==> ProcessEnded(old(S), S.current, S)
    {
      hide PoolOk, FdAt, SetFd, Inv, ProcessEnded;
      PipeRange(S);
      ExitKeeps(S);
      if j == FD_PER_PROC { ExitEnds(S); }
      ghost var S0 := S;
      if j < FD_PER_PROC {
        EntryIs(fds[..], current, j);
        if fds[FD_PER_PROC * current + j] != Free { Close(current, j); }
        S := S.(calls := S0.calls[S0.current := InExit(j + 1)]);
      } else {
        ExitProcess(current);
        S := ExitStep(S);
      }
    }

    /** process_spawn_user with start_blocked: a claimed slot that cannot run yet. */
    method BeginExec(ghost input: int, ghost output: int) returns (c: int)
      requires Valid() && Idle(S) && Inv(S) && input < FD_PER_PROC && output < FD_PER_PROC
      modifies procs, this`nextPid, this`S
      ensures Valid() && S == StartExec(old(S), input, output) && Inv(S)
      ensures c == FirstUnused(old(S.procs), 0)
    {
      hide PoolOk, FirstUnused, Inv;
      ghost var S0 := S;
      StartExecKeeps(S, input, output);
      c := FindSlot();
      if c >= 0 {
        ClaimSlot(c, Blocked);
        S := StartExec(S0, input, output);
      }
    }

    /** sys_exec_pipe gives the new process c a copy of its maker's entry for standard input, and then
        for standard output. There is always a free entry for it. */
    method SeedFd(c: nat, from: nat, isInput: bool) returns (placed: nat)
      requires Valid() && Runs(S) && Inv(S) && CallNow(S).Building? && CallNow(S).child == c
      requires if isInput then CallNow(S).input == from else CallNow(S).input < 0 && CallNow(S).output == from
      modifies pipes, fds, this`S
      ensures c < PROCESS_MAX && from < FD_PER_PROC && Valid() && Inv(S)
      ensures S == Seed(old(S), from, if isInput then CallNow(old(S)).(input := -1) else CallNow(old(S)).(output := -1))
      ensures placed <= 1 && FdAt(old(S).fds, c, placed) == Free &&
              FdAt(S.fds, c, placed) == FdAt(old(S).fds, S.current, from)
    {
      hide PoolOk, FdAt, PlaceFd, FirstFree, SetFd, Inv;
      SeedHasRoom(S);
      SeedRange(S);
      if isInput { SeedInputKeeps(S); } else { SeedOutputKeeps(S); }
      placed := FindFreeFd(c, -1);
      FreeEntry(S.fds, c);
      EntryIs(fds[..], current, from);
      PlaceFrame(S, c, placed, FdAt(S.fds, current, from));
      SetFdAt(S.fds, c, placed, FdAt(S.fds, current, from));
      ghost var S1 := SetCall(S, if isInput then CallNow(S).(input := -1) else CallNow(S).(output := -1));
      PlaceFrame(S1, c, placed, FdAt(S.fds, current, from));
      S := S1;
      Place(c, placed, fds[FD_PER_PROC * current + from]);
    }

    /** process_make_ready, the end of an exec. */
    method MakeReady(c: nat)
      requires Valid() && Runs(S) && CallNow(S).Building? && CallNow(S).child == c && Inv(S)
      modifies procs, this`S
      ensures c < PROCESS_MAX && Valid() && S == Publish(old(S)) && Inv(S)
    {
      hide PoolOk, Inv;
      PublishKeeps(S);
      WakeSlot(c);
      S := Publish(S);
    }

    /** One pass of the loop of sys_wait: gone when no live process has the pid, otherwise blocks. */
    method WaitPass(pid: nat) returns (gone: bool)
      requires Valid() && Runs(S) && CallNow(S).InWait? && CallNow(S).pid == pid && Inv(S)
      modifies procs, this`S
      ensures Valid() && S == WaitSection(old(S)) && Inv(S)
      ensures gone <==> forall i :: 0 <= i < PROCESS_MAX ==>
                        old(S.procs[i].pid) != pid || old(S.procs[i].state) == Unused
    {
      hide PoolOk, Inv;
      WaitKeeps(S);
      var i := 0;
      while i < PROCESS_MAX && !(procs[i].pid == pid && procs[i].state != Unused)
        invariant 0 <= i <= PROCESS_MAX && FindPid(S.procs, pid, i) == FindPid(S.procs, pid, 0)
        invariant forall k :: 0 <= k < i ==> procs[k].pid != pid || procs[k].state == Unused
      {
        i := i + 1;
      }
      if i == PROCESS_MAX {
        S := WaitSection(S);
        return true;
      }
      procs[current] := procs[current].(state := Blocked, waitingFor := pid);
      S := WaitSection(S);
      gone := false;
    }

    // ---- the disk gate ------------------------------------------------------------------------------------------

    /** One pass of the loop of ata_gate_acquire. */
    method GatePass() returns (acquired: bool)
      requires Valid() && Runs(S) && CallNow(S).InGate? && Inv(S)
      modifies procs, gateWaiters, this`gateCount, this`ataBusy, this`S
      ensures Valid() && S == GateSection(old(S)) && acquired == !old(S.gate.busy) && Inv(S)
    {
      hide PoolOk, Inv;
      GateHasRoom(S);
      GateKeeps(S);
      if !ataBusy {
        ataBusy := true;
        S := GateSection(S);
        return true;
      }
      if gateCount < PROCESS_MAX {
        gateWaiters[gateCount] := current;
        gateCount := gateCount + 1;
      }
      procs[current] := procs[current].(state := Blocked);
      S := GateSection(S);
      acquired := false;
    }

    /** ata_gate_release: everyone in the list becomes ready and will try again. */
    method OpenGate()
      requires Valid() && Runs(S) && CallNow(S).InDisk? && Inv(S)
      modifies procs, this`gateCount, this`ataBusy, this`S
      ensures Valid() && S == GateRelease(old(S)) && Inv(S)
    {
      hide PoolOk, Inv;
      GateRange(S);
      ReleaseKeeps(S);
      ghost var procs0, ws := procs[..], S.gate.waiters;
      ataBusy := false;
      var i := 0;
      while i < gateCount
        invariant 0 <= i <= gateCount == |ws| && gateWaiters[..gateCount] == ws && S == old(S) && !ataBusy
        invariant procs[..] == WakeAll(procs0, ws[..i])
      {
        WakeMore(procs0, ws, i);
        WakeSlot(gateWaiters[i]);
        i := i + 1;
      }
      assert ws[..|ws|] == ws;
      gateCount := 0;
      S := GateRelease(S);
    }

    /** ata_irq_handler. */
    method IrqHandler()
      requires Valid() && Inv(S)
      modifies procs, this`irqFired, this`irqWaiter, this`S
      ensures Valid() && S == DiskIrq(old(S)) && Inv(S)
    {
      hide PoolOk, Inv;
      GateRange(S);
      IrqKeeps(S);
      irqFired := true;
      WakeSlot(irqWaiter);
      irqWaiter := -1;
      S := DiskIrq(S);
    }

    /** ata_wait_irq: up to the point where it sleeps and, when waited is set, from there on. */
    method DiskPass(waited: bool) returns (fired: bool)
      requires Valid() && Runs(S) && CallNow(S) == InDisk(waited) && Inv(S)
      modifies procs, this`irqFired, this`irqWaiter, this`S
      ensures Valid() && S == DiskSection(old(S)) && fired == (waited || old(S.gate.irqFired)) && Inv(S)
    {
      hide PoolOk, Inv;
      DiskKeeps(S);
      if waited || irqFired {
        irqFired := false;
        S := DiskSection(S);
        return true;
      }
      irqWaiter := current;
      procs[current] := procs[current].(state := Blocked);
      S := DiskSection(S);
      fired := false;
    }

    // ---- the scheduler ------------------------------------------------------------------------------------------

    /** The scan of scheduler_run_once. */
    method RunOnce()
      requires Valid() && S.current == -1 && Inv(S)
      modifies procs, this`current, this`currentIndex, this`S
      ensures Valid() && S == Dispatch(old(S)) && Inv(S)
    {
      hide PoolOk, ScanAt, Inv;
      DispatchKeeps(S);
      var scanned := 0;
      while scanned < PROCESS_MAX
        invariant 0 <= scanned <= PROCESS_MAX
        invariant Valid() && S == old(S) && NextReady(S.procs, S.last, scanned) == NextReady(S.procs, S.last, 0)
      {
        var index := ScanAt(currentIndex, scanned);
        if procs[index].state == Ready {
          currentIndex := index;
          current := index;
          procs[index] := procs[index].(state := Running);
          S := Dispatch(S);
          return;
        }
        scanned := scanned + 1;
      }
    }

    /** scheduler_yield and the return to the scheduler. */
    method YieldNow()
      requires Valid() && S.current >= 0 && Inv(S)
      modifies procs, this`current, this`S
      ensures Valid() && S == Yield(old(S)) && Inv(S)
    {
      hide PoolOk, Inv;
      YieldKeeps(S);
      if procs[current].state == Running { procs[current] := procs[current].(state := Ready); }
      current := -1;
      S := Yield(S);
    }
  }
}
