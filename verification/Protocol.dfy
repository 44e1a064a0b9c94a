/** Processes, pipes, the fd table and the disk gate as one state machine. A step is one section that
    runs with interrupts off, or one fd-table update; between steps any other process may run. */
module Protocol {
  import opened Bytes

  const PROCESS_MAX: nat := 16
  const FD_PER_PROC: nat := 8
  const PIPE_MAX: nat := 8
  const PIPE_BUF_SIZE: nat := 512

  datatype PState = Unused | Ready | Running | Sleeping | Blocked

  datatype Proc = Proc(pid: nat, state: PState, waitingFor: nat)

  datatype Fd = Free | File(id: nat) | ReadEnd(pipe: nat) | WriteEnd(pipe: nat)

  /** Where a process is inside the kernel.
      InRead/InWrite: the loop of pipe_read or pipe_write, entered through one of its own fds; start is
      how much the pipe had accepted when the write began.
      InWait: sys_wait; at is the slot where the scan found the pid.
      InGate: the loop of ata_gate_acquire; place is its index in the waiter list, or -1.
      InDisk: between acquire and release of the gate; waited says that it slept for the disk.
      Building: sys_exec or sys_exec_pipe, filling the slot of the new process child, which is Newborn.
      InExit: sys_exit, with the fds below next closed. */
  datatype Call =
    | NoCall
    | InRead(fd: nat, pipe: nat, want: nat)
    | InWrite(fd: nat, pipe: nat, data: seq<byte>, written: nat, start: nat)
    | InWait(pid: nat, at: nat)
    | InGate(place: int)
    | InDisk(waited: bool)
    | Building(child: nat, input: int, output: int)
    | Newborn(parent: nat)
    | InExit(next: nat)

  /** A pipe slot. queue is what the ring holds, oldest byte first. reader and writer are the processes
      inside a read or a write; accepted and consumed are all bytes since the pipe was made. */
  datatype Pipe = Pipe(used: bool, readRefs: nat, writeRefs: nat, readWaiter: int, writeWaiter: int,
                       queue: seq<byte>, reader: int, writer: int, accepted: seq<byte>, consumed: seq<byte>)

  datatype Gate = Gate(busy: bool, waiters: seq<nat>, holder: int, irqFired: bool, irqWaiter: int)

  datatype Sys = Sys(procs: seq<Proc>, calls: seq<Call>, fds: seq<Fd>, pipes: seq<Pipe>, gate: Gate,
                     current: int, last: nat, nextPid: nat)

  predicate Shape(S: Sys) {
    && |S.procs| == PROCESS_MAX && |S.calls| == PROCESS_MAX && |S.fds| == PROCESS_MAX * FD_PER_PROC
    && |S.pipes| == PIPE_MAX && |S.gate.waiters| <= PROCESS_MAX
    && -1 <= S.current < PROCESS_MAX && S.last < PROCESS_MAX && S.nextPid > 0
  }

  /** Entry j of process s in the flat fd table. */
  function FdAt(fds: seq<Fd>, s: nat, j: nat): Fd {
    if s < PROCESS_MAX && j < FD_PER_PROC && |fds| == PROCESS_MAX * FD_PER_PROC then fds[FD_PER_PROC * s + j] else Free
  }

  function SetFd(fds: seq<Fd>, s: nat, j: nat, x: Fd): seq<Fd>
    requires |fds| == PROCESS_MAX * FD_PER_PROC && s < PROCESS_MAX && j < FD_PER_PROC
  {
    fds[FD_PER_PROC * s + j := x]
  }

  lemma SetFdAt(fds: seq<Fd>, s: nat, j: nat, x: Fd)
    requires |fds| == PROCESS_MAX * FD_PER_PROC && s < PROCESS_MAX && j < FD_PER_PROC
    ensures |SetFd(fds, s, j, x)| == |fds|
    ensures forall s': nat, j': nat :: s' < PROCESS_MAX && j' < FD_PER_PROC ==>
              FdAt(SetFd(fds, s, j, x), s', j') == if s' == s && j' == j then x else FdAt(fds, s', j')
    ensures multiset(SetFd(fds, s, j, x)) ==
            multiset(fds)[FdAt(fds, s, j) := multiset(fds)[FdAt(fds, s, j)] - 1] + multiset{x}
  {
    var i := FD_PER_PROC * s + j;
    assert fds == fds[..i] + [fds[i]] + fds[i + 1..];
    assert SetFd(fds, s, j, x) == fds[..i] + [x] + fds[i + 1..];
  }

  /** Used fd entries that name x, over all processes. */
  function Holders(fds: seq<Fd>, x: Fd): nat { multiset(fds)[x] }

  lemma SetFdHolders(fds: seq<Fd>, s: nat, j: nat, x: Fd, y: Fd)
    requires |fds| == PROCESS_MAX * FD_PER_PROC && s < PROCESS_MAX && j < FD_PER_PROC
    ensures Holders(SetFd(fds, s, j, x), y) == Holders(fds, y) - (if FdAt(fds, s, j) == y then 1 else 0) + (if x == y
            then 1 else 0)
    ensures FdAt(fds, s, j) == y ==> Holders(fds, y) > 0
  {
    SetFdAt(fds, s, j, x);
    assert fds[FD_PER_PROC * s + j] in multiset(fds);
  }

  // ---- the invariant ------------------------------------------------------------------------------------

  ghost predicate Live(S: Sys, s: int) { 0 <= s < |S.procs| && S.procs[s].state != Unused }

  /** Process s is blocked and registered with whoever will wake it, whose condition does not hold yet. */
  ghost predicate Waits(S: Sys, s: nat)
    requires Shape(S) && s < PROCESS_MAX
  {
    match S.calls[s]
    case InRead(_, p, _) => p < PIPE_MAX && S.pipes[p].readWaiter == s && S.pipes[p].queue == [] &&
      S.pipes[p].writeRefs > 0
    case InWrite(_, p, _, _, _) => p < PIPE_MAX && S.pipes[p].writeWaiter == s && |S.pipes[p].queue| == PIPE_BUF_SIZE &&
      S.pipes[p].readRefs > 0
    case InWait(pid, at) => S.procs[s].waitingFor == pid && Live(S, at) && S.procs[at].pid == pid
    case InGate(k) => S.gate.busy && 0 <= k < |S.gate.waiters| && S.gate.waiters[k] == s
    case InDisk(_) => S.gate.irqWaiter == s
    case Newborn(b) => b < PROCESS_MAX && S.calls[b].Building? && S.calls[b].child == s
    case NoCall => false
    case Building(_, _, _) => false
    case InExit(_) => false
  }

  predicate EndOk(x: Fd) { x.ReadEnd? || x.WriteEnd? ==> x.pipe < PIPE_MAX }

  ghost predicate StateOk(S: Sys, s: nat)
    requires Shape(S) && s < PROCESS_MAX
  {
    var p := S.procs[s];
    && (p.state == Unused ==> S.calls[s] == NoCall && p.pid == 0 && p.waitingFor == 0 &&
                              forall j: nat :: j < FD_PER_PROC ==> FdAt(S.fds, s, j) == Free)
    && (p.state != Unused ==> 0 < p.pid < S.nextPid)
    && (p.state == Running ==> s == S.current)
    && (p.state == Sleeping ==> S.calls[s] == NoCall)
    && (p.state == Blocked ==> Waits(S, s))
    && (p.waitingFor != 0 ==> p.state == Blocked && S.calls[s].InWait?)
    && (forall j: nat :: j < FD_PER_PROC ==> EndOk(FdAt(S.fds, s, j)))
  }

  ghost predicate CallOk(S: Sys, s: nat)
    requires Shape(S) && s < PROCESS_MAX
  {
    match S.calls[s]
    case NoCall => true
    case InRead(j, p, _) => j < FD_PER_PROC && p < PIPE_MAX && FdAt(S.fds, s, j) == ReadEnd(p) && S.pipes[p].reader == s
    case InWrite(j, p, data, w, start) =>
      && j < FD_PER_PROC && p < PIPE_MAX && FdAt(S.fds, s, j) == WriteEnd(p) && S.pipes[p].writer == s
      && w <= |data| && |S.pipes[p].accepted| == start + w && S.pipes[p].accepted[start..] == data[..w]
    case InWait(pid, at) => true
    case InGate(k) => k < 0 || S.procs[s].state == Blocked
    case InDisk(_) => S.gate.holder == s
    case Building(c, i, o) =>
      && c < PROCESS_MAX && S.calls[c] == Newborn(s) && i < FD_PER_PROC && o < FD_PER_PROC
      && (i >= 0 ==> FdAt(S.fds, c, 0) == Free)
      && (i >= 0 || o >= 0 ==> forall j: nat :: 1 <= j < FD_PER_PROC ==> FdAt(S.fds, c, j) == Free)
    case Newborn(b) => S.procs[s].state == Blocked
    case InExit(n) => n <= FD_PER_PROC && forall j: nat :: j < n ==> FdAt(S.fds, s, j) == Free
  }

  ghost predicate PipeOk(S: Sys, p: nat)
    requires Shape(S) && p < PIPE_MAX
  {
    var q := S.pipes[p];
    && q.readRefs == Holders(S.fds, ReadEnd(p)) && q.writeRefs == Holders(S.fds, WriteEnd(p))
    && (q.used <==> q.readRefs + q.writeRefs > 0)
    && |q.queue| <= PIPE_BUF_SIZE && q.accepted == q.consumed + q.queue
    && (q.readWaiter >= 0 ==> q.readWaiter < PROCESS_MAX && S.procs[q.readWaiter].state == Blocked
                              && S.calls[q.readWaiter].InRead? && S.calls[q.readWaiter].pipe == p)
    && (q.writeWaiter >= 0 ==> q.writeWaiter < PROCESS_MAX && S.procs[q.writeWaiter].state == Blocked
                               && S.calls[q.writeWaiter].InWrite? && S.calls[q.writeWaiter].pipe == p)
    && (q.reader >= 0 ==> q.reader < PROCESS_MAX && S.calls[q.reader].InRead? && S.calls[q.reader].pipe == p)
    && (q.writer >= 0 ==> q.writer < PROCESS_MAX && S.calls[q.writer].InWrite? && S.calls[q.writer].pipe == p)
  }

  ghost predicate GateOk(S: Sys)
    requires Shape(S)
  {
    var g := S.gate;
    && (g.busy <==> g.holder >= 0)
    && (g.holder >= 0 ==> g.holder < PROCESS_MAX && S.calls[g.holder].InDisk?)
    && (!g.busy ==> g.waiters == [])
    && (forall k :: 0 <= k < |g.waiters| ==>
       g.waiters[k] < PROCESS_MAX && S.calls[g.waiters[k]] == InGate(k) && S.procs[g.waiters[k]].state == Blocked)
    && (g.irqWaiter >= 0 ==>
       g.irqWaiter < PROCESS_MAX && S.calls[g.irqWaiter].InDisk? && S.procs[g.irqWaiter].state == Blocked)
  }

  ghost predicate Inv(S: Sys) {
    && Shape(S)
    && (forall s: nat :: s < PROCESS_MAX ==> StateOk(S, s) && CallOk(S, s))
    && (forall p: nat :: p < PIPE_MAX ==> PipeOk(S, p))
    && GateOk(S)
  }
}
