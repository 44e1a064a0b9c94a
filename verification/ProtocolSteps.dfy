/** The steps of the protocol, each a function of the whole state. */
module ProtocolSteps {
  import opened Bytes
  import opened Protocol

  function SetState(procs: seq<Proc>, s: nat, x: PState): seq<Proc>
    requires s < |procs|
  {
    procs[s := procs[s].(state := x)]
  }

  /** Makes the process in slot w, if any, ready if it is blocked. */
  function Wake(procs: seq<Proc>, w: int): seq<Proc> {
    if 0 <= w < |procs| && procs[w].state == Blocked then SetState(procs, w, Ready) else procs
  }

  /** The process in slot S.current executes kernel code. */
  predicate Runs(S: Sys) { Shape(S) && S.current >= 0 && S.procs[S.current].state == Running }

  function CallNow(S: Sys): Call
    requires Runs(S)
  {
    S.calls[S.current]
  }

  function SetCall(S: Sys, c: Call): Sys
    requires Runs(S)
  {
    S.(calls := S.calls[S.current := c])
  }

  // ---- scheduling -----------------------------------------------------------------------------------------

  /** The slot scheduler_run_once picks: the first ready one behind last, cyclically, or -1. */
  function NextReady(procs: seq<Proc>, last: nat, scanned: nat): (r: int)
    requires |procs| == PROCESS_MAX && scanned <= PROCESS_MAX
    ensures r == -1 || (0 <= r < PROCESS_MAX && procs[r].state == Ready)
    decreases PROCESS_MAX - scanned
  {
    if scanned == PROCESS_MAX then -1
    else
      var i := ScanAt(last, scanned);
      if procs[i].state == Ready then i else NextReady(procs, last, scanned + 1)
  }

  /** The slot looked at after scanned others. */
  function ScanAt(last: nat, scanned: nat): (i: nat)
    ensures i < PROCESS_MAX
  {
    (last + 1 + scanned) % PROCESS_MAX
  }

  function Dispatch(S: Sys): Sys
    requires Shape(S)
  {
    var i := NextReady(S.procs, S.last, 0);
    if i < 0 then S else S.(current := i, last := i, procs := SetState(S.procs, i, Running))
  }

  /** scheduler_yield, called by the process itself or by the timer. */
  function Yield(S: Sys): Sys
    requires Shape(S) && S.current >= 0
  {
    S.(current := -1, procs := if S.procs[S.current].state == Running then SetState(S.procs, S.current, Ready)
      else S.procs)
  }

  function Sleep(S: Sys): Sys
    requires Runs(S)
  {
    S.(procs := SetState(S.procs, S.current, Sleeping))
  }

  function WakeSleeper(S: Sys, i: nat): Sys
    requires Shape(S) && i < PROCESS_MAX
  {
    if S.procs[i].state == Sleeping then S.(procs := SetState(S.procs, i, Ready)) else S
  }

  // ---- pipes ------------------------------------------------------------------------------------------------

  function StartRead(S: Sys, j: nat, want: nat): Sys
    requires Runs(S) && j < FD_PER_PROC && FdAt(S.fds, S.current, j).ReadEnd?
  {
    var p := FdAt(S.fds, S.current, j).pipe;
    if p >= PIPE_MAX then S
    else SetCall(S, InRead(j, p, want)).(pipes := S.pipes[p := S.pipes[p].(reader := S.current)])
  }

  /** Wakes the process blocked on a full, or an empty, pipe. */
  function WakeWriter(S: Sys, p: nat): (S': Sys)
    requires Shape(S) && p < PIPE_MAX
    ensures Shape(S') && (Runs(S) ==> Runs(S') && CallNow(S') == CallNow(S))
  {
    S.(pipes := S.pipes[p := S.pipes[p].(writeWaiter := -1)], procs := Wake(S.procs, S.pipes[p].writeWaiter))
  }

  function WakeReader(S: Sys, p: nat): (S': Sys)
    requires Shape(S) && p < PIPE_MAX
    ensures Shape(S') && (Runs(S) ==> Runs(S') && CallNow(S') == CallNow(S))
  {
    S.(pipes := S.pipes[p := S.pipes[p].(readWaiter := -1)], procs := Wake(S.procs, S.pipes[p].readWaiter))
  }

  /** Bytes a read of want takes. */
  function Taken(q: Pipe, want: nat): seq<byte> { if want < |q.queue| then q.queue[..want] else q.queue }

  function TakeBytes(S: Sys): Sys
    requires Runs(S) && CallNow(S).InRead? && CallNow(S).pipe < PIPE_MAX
  {
    var p := CallNow(S).pipe;
    var q := S.pipes[p];
    var got := Taken(q, CallNow(S).want);
    SetCall(S, NoCall).(
      pipes := S.pipes[p := q.(queue := q.queue[|got|..], consumed := q.consumed + got, reader := -1)])
  }

  /** The interrupts-off section of pipe_read. */
  function ReadSection(S: Sys): Sys
    requires Runs(S) && CallNow(S).InRead? && CallNow(S).pipe < PIPE_MAX
  {
    var p := CallNow(S).pipe;
    var q := S.pipes[p];
    if q.queue != [] then
      TakeBytes(WakeWriter(S, p))
    else if q.writeRefs == 0 then
      SetCall(S, NoCall).(pipes := S.pipes[p := q.(reader := -1)])
    else
      S.(pipes := S.pipes[p := q.(readWaiter := S.current)], procs := SetState(S.procs, S.current, Blocked))
  }

  function StartWrite(S: Sys, j: nat, data: seq<byte>): Sys
    requires Runs(S) && j < FD_PER_PROC && FdAt(S.fds, S.current, j).WriteEnd?
  {
    var p := FdAt(S.fds, S.current, j).pipe;
    if p >= PIPE_MAX then S
    else
      SetCall(S, InWrite(j, p, data, 0, |S.pipes[p].accepted|)).(
        pipes := S.pipes[p := S.pipes[p].(writer := S.current)])
  }

  /** Bytes the next section of a write puts into the ring. */
  function Put(q: Pipe, data: seq<byte>, written: nat): seq<byte>
    requires |q.queue| <= PIPE_BUF_SIZE && written <= |data|
  {
    var room := PIPE_BUF_SIZE - |q.queue|;
    if |data| - written < room then data[written..] else data[written..written + room]
  }

  function PutBytes(S: Sys): Sys
    requires Runs(S) && CallNow(S).InWrite? && CallNow(S).pipe < PIPE_MAX
    requires |S.pipes[CallNow(S).pipe].queue| <= PIPE_BUF_SIZE && CallNow(S).written <= |CallNow(S).data|
  {
    var c := CallNow(S);
    var q := S.pipes[c.pipe];
    var put := Put(q, c.data, c.written);
    var done := c.written + |put| == |c.data|;
    SetCall(S, if done then NoCall else c.(written := c.written + |put|)).(
      pipes := S.pipes[c.pipe := q.(queue := q.queue + put, accepted := q.accepted + put,
        writer := if done then -1 else q.writer)])
  }

  /** The interrupts-off section of pipe_write. */
  function WriteSection(S: Sys): Sys
    requires Runs(S) && CallNow(S).InWrite? && CallNow(S).pipe < PIPE_MAX
    requires |S.pipes[CallNow(S).pipe].queue| <= PIPE_BUF_SIZE && CallNow(S).written <= |CallNow(S).data|
  {
    var c := CallNow(S);
    var q := S.pipes[c.pipe];
    if q.readRefs == 0 then
      SetCall(S, NoCall).(pipes := S.pipes[c.pipe := q.(writer := -1)])
    else if |q.queue| < PIPE_BUF_SIZE then
      PutBytes(WakeReader(S, c.pipe))
    else
      S.(pipes := S.pipes[c.pipe := q.(writeWaiter := S.current)], procs := SetState(S.procs, S.current, Blocked))
  }

  /** The references of pipe p set to r and w; without any the slot is free. */
  function SetRefs(S: Sys, p: nat, r: nat, w: nat): Sys
    requires Shape(S) && p < PIPE_MAX
  {
    S.(pipes := S.pipes[p := S.pipes[p].(readRefs := r, writeRefs := w, used := S.pipes[p].used && r + w > 0)])
  }

  /** pipe_release_read and pipe_release_write. */
  function ReleaseRead(S: Sys, p: nat): (S': Sys)
    requires Shape(S) && p < PIPE_MAX
    ensures Shape(S') && S'.fds == S.fds
  {
    var q := S.pipes[p];
    var refs := if q.readRefs > 0 then q.readRefs - 1 else 0;
    SetRefs(if refs == 0 then WakeWriter(S, p) else S, p, refs, q.writeRefs)
  }

  function ReleaseWrite(S: Sys, p: nat): (S': Sys)
    requires Shape(S) && p < PIPE_MAX
    ensures Shape(S') && S'.fds == S.fds
  {
    var q := S.pipes[p];
    var refs := if q.writeRefs > 0 then q.writeRefs - 1 else 0;
    SetRefs(if refs == 0 then WakeReader(S, p) else S, p, q.readRefs, refs)
  }

  /** vfs_close on entry j of process s. */
  function CloseFd(S: Sys, s: nat, j: nat): (S': Sys)
    requires Shape(S) && s < PROCESS_MAX && j < FD_PER_PROC
  {
    var x := FdAt(S.fds, s, j);
    var S1 := if x.ReadEnd? && x.pipe < PIPE_MAX then ReleaseRead(S, x.pipe)
              else if x.WriteEnd? && x.pipe < PIPE_MAX then ReleaseWrite(S, x.pipe) else S;
    S1.(fds := SetFd(S.fds, s, j, Free))
  }

  /** Copies x into entry j of process s and counts the copy (vfs_dup). */
  function PlaceFd(S: Sys, s: nat, j: nat, x: Fd): Sys
    requires Shape(S) && s < PROCESS_MAX && j < FD_PER_PROC
  {
    var S1 := S.(fds := SetFd(S.fds, s, j, x));
    match x
    case ReadEnd(p) => if p < PIPE_MAX then S1.(pipes := S.pipes[p := S.pipes[p].(readRefs := S.pipes[p].readRefs + 1)])
      else S1
    case WriteEnd(p) => if p < PIPE_MAX
      then S1.(pipes := S.pipes[p := S.pipes[p].(writeRefs := S.pipes[p].writeRefs + 1)]) else S1
    case Free => S1
    case File(_) => S1
  }

  /** The first free entry of process s from j on, other than skip, or -1. */
  function FirstFree(fds: seq<Fd>, s: nat, j: nat, skip: int): (r: int)
    ensures r == -1 || (j <= r < FD_PER_PROC && FdAt(fds, s, r) == Free && r != skip)
    ensures forall i: nat :: j <= i < (if r < 0 then FD_PER_PROC else r) && i != skip ==> FdAt(fds, s, i) != Free
    decreases FD_PER_PROC - j
  {
    if j >= FD_PER_PROC then -1
    else if j != skip && FdAt(fds, s, j) == Free then j
    else FirstFree(fds, s, j + 1, skip)
  }

  function FirstPipe(pipes: seq<Pipe>, i: nat): (r: int)
    ensures r == -1 || (i <= r < |pipes| && !pipes[r].used)
    ensures forall k :: i <= k < (if r < 0 then |pipes| else r) ==> pipes[k].used
    decreases |pipes| - i
  {
    if i >= |pipes| then -1 else if !pipes[i].used then i else FirstPipe(pipes, i + 1)
  }

  const NEW_PIPE: Pipe := Pipe(true, 0, 0, -1, -1, [], -1, -1, [], [])

  /** sys_pipe: a free pipe slot and two free fds; without all three, or when the fds cannot be handed
      to the caller, nothing is left behind but an emptied unused slot. */
  function MakePipe(S: Sys, copied: bool): Sys
    requires Runs(S)
  {
    var s := S.current;
    var p := FirstPipe(S.pipes, 0);
    if p < 0 then S
    else
      var r := FirstFree(S.fds, s, 0, -1);
      var w := FirstFree(S.fds, s, 0, r);
      if r < 0 || w < 0 || !copied then S.(pipes := S.pipes[p := NEW_PIPE.(used := false)])
      else
        S.(pipes := S.pipes[p := NEW_PIPE.(readRefs := 1, writeRefs := 1)],
           fds := SetFd(SetFd(S.fds, s, r, ReadEnd(p)), s, w, WriteEnd(p)))
  }

  /** sys_open and sys_create of a file: the first free fd. */
  function OpenFile(S: Sys, id: nat): Sys
    requires Runs(S)
  {
    var j := FirstFree(S.fds, S.current, 0, -1);
    if j < 0 then S else S.(fds := SetFd(S.fds, S.current, j, File(id)))
  }

  // ---- new processes --------------------------------------------------------------------------------------------

  function FirstUnused(procs: seq<Proc>, i: nat): (r: int)
    ensures r == -1 || (i <= r < |procs| && procs[r].state == Unused)
    ensures forall k :: i <= k < (if r < 0 then |procs| else r) ==> procs[k].state != Unused
    decreases |procs| - i
  {
    if i >= |procs| then -1 else if procs[i].state == Unused then i else FirstUnused(procs, i + 1)
  }

  /** Claims slot c for a new process. */
  function Claim(S: Sys, c: nat, x: PState): Sys
    requires Shape(S) && c < PROCESS_MAX
  {
    S.(procs := S.procs[c := Proc(S.nextPid, x, 0)], nextPid := S.nextPid + 1)
  }

  /** Copies entries j and up of process s to process c. */
  function CopyRow(S: Sys, s: nat, c: nat, j: nat): (S': Sys)
    requires Shape(S) && s < PROCESS_MAX && c < PROCESS_MAX && j <= FD_PER_PROC
    decreases FD_PER_PROC - j
  {
    if j == FD_PER_PROC then S else CopyRow(PlaceFd(S, c, j, FdAt(S.fds, s, j)), s, c, j + 1)
  }

  /** sys_fork as a whole; without memory only a pid is used up. */
  function Fork(S: Sys, memory: bool): Sys
    requires Runs(S)
  {
    var c := FirstUnused(S.procs, 0);
    if c < 0 then S
    else if !memory then S.(nextPid := S.nextPid + 1)
    else CopyRow(Claim(S, c, Ready), S.current, c, 0)
  }

  /** The kernel starts the first process. */
  function Boot(S: Sys): Sys
    requires Shape(S)
  {
    var c := FirstUnused(S.procs, 0);
    if c < 0 then S else Claim(S, c, Ready)
  }

  /** sys_exec and sys_exec_pipe claim a slot that stays blocked while it is being filled. */
  function StartExec(S: Sys, input: int, output: int): Sys
    requires Runs(S)
  {
    var c := FirstUnused(S.procs, 0);
    if c < 0 then S
    else
      var S1 := Claim(S, c, Blocked);
      S1.(calls := S.calls[c := Newborn(S.current)][S.current := Building(c, input, output)])
  }

  /** process_exit: frees slot s and wakes whoever waits for its pid. */
  function ExitProcs(procs: seq<Proc>, s: nat): (r: seq<Proc>)
    requires s < |procs|
    ensures |r| == |procs|
  {
    seq(|procs|, i requires 0 <= i < |procs| =>
      if i == s then Proc(0, Unused, procs[s].waitingFor)
      else if procs[i].state == Blocked && procs[i].waitingFor == procs[s].pid then Proc(procs[i].pid, Ready, 0)
      else procs[i])
  }

  /** Gives the new process a copy of entry from of its maker; with no free entry it is dropped again. */
  function Seed(S: Sys, from: nat, after: Call): Sys
    requires Runs(S) && CallNow(S).Building? && CallNow(S).child < PROCESS_MAX && from < FD_PER_PROC
  {
    var c := CallNow(S).child;
    var j := FirstFree(S.fds, c, 0, -1);
    if j < 0 then SetCall(S, NoCall).(procs := ExitProcs(S.procs, c))
    else PlaceFd(SetCall(S, after), c, j, FdAt(S.fds, S.current, from))
  }

  /** The last step of an exec: the new process becomes ready. */
  function Publish(S: Sys): Sys
    requires Runs(S) && CallNow(S).Building? && CallNow(S).child < PROCESS_MAX
  {
    var c := CallNow(S).child;
    S.(calls := S.calls[c := NoCall][S.current := NoCall], procs := Wake(S.procs, c))
  }

  // ---- waiting for a process ------------------------------------------------------------------------------------

  /** The first live slot from i on with this pid, or -1. */
  function FindPid(procs: seq<Proc>, pid: nat, i: nat): (r: int)
    ensures r == -1 || (i <= r < |procs| && procs[r].pid == pid && procs[r].state != Unused)
    ensures r == -1 ==> forall k :: i <= k < |procs| ==> procs[k].pid != pid || procs[k].state == Unused
    decreases |procs| - i
  {
    if i >= |procs| then -1 else if procs[i].pid == pid &&
                                 procs[i].state != Unused then i else FindPid(procs, pid, i + 1)
  }

  /** The interrupts-off section of sys_wait. */
  function WaitSection(S: Sys): Sys
    requires Runs(S) && CallNow(S).InWait?
  {
    var pid, s := CallNow(S).pid, S.current;
    var at := FindPid(S.procs, pid, 0);
    if at < 0 then SetCall(S, NoCall)
    else SetCall(S, InWait(pid, at)).(procs := S.procs[s := S.procs[s].(state := Blocked, waitingFor := pid)])
  }

  // ---- the disk gate --------------------------------------------------------------------------------------------

  /** The interrupts-off section of ata_gate_acquire. */
  function GateSection(S: Sys): Sys
    requires Runs(S) && CallNow(S).InGate?
  {
    var g, s := S.gate, S.current;
    if !g.busy then SetCall(S, InDisk(false)).(gate := g.(busy := true, holder := s))
    else
      var listed := |g.waiters| < PROCESS_MAX;
      SetCall(S, InGate(if listed then |g.waiters| else -1)).(
        gate := if listed then g.(waiters := g.waiters + [s]) else g,
        procs := SetState(S.procs, s, Blocked))
  }

  function WakeAll(procs: seq<Proc>, ws: seq<nat>): (r: seq<Proc>)
    ensures |r| == |procs|
  {
    seq(|procs|, i requires 0 <= i < |procs| => if i in ws &&
      procs[i].state == Blocked then procs[i].(state := Ready) else procs[i])
  }

  function UnlistAll(calls: seq<Call>, ws: seq<nat>): (r: seq<Call>)
    ensures |r| == |calls|
  {
    seq(|calls|, i requires 0 <= i < |calls| => if i in ws then InGate(-1) else calls[i])
  }

  /** ata_gate_release. */
  function GateRelease(S: Sys): Sys
    requires Runs(S) && CallNow(S).InDisk?
  {
    var g := S.gate;
    S.(gate := g.(busy := false, holder := -1, waiters := []),
       procs := WakeAll(S.procs, g.waiters),
       calls := UnlistAll(S.calls, g.waiters)[S.current := NoCall])
  }

  /** ata_wait_irq: either the interrupt came already, or sleep until it does. */
  function DiskSection(S: Sys): Sys
    requires Runs(S) && CallNow(S).InDisk?
  {
    var g := S.gate;
    if CallNow(S).waited then SetCall(S, InDisk(false)).(gate := g.(irqFired := false))
    else if g.irqFired then S.(gate := g.(irqFired := false))
    else SetCall(S, InDisk(true)).(gate := g.(irqWaiter := S.current), procs := SetState(S.procs, S.current, Blocked))
  }

  /** ata_irq_handler, at any time. */
  function DiskIrq(S: Sys): Sys
    requires Shape(S)
  {
    S.(gate := S.gate.(irqFired := true, irqWaiter := -1), procs := Wake(S.procs, S.gate.irqWaiter))
  }

  // ---- exit -----------------------------------------------------------------------------------------------------

  /** sys_exit closes one fd after the other and then frees the slot. */
  function ExitStep(S: Sys): Sys
    requires Runs(S) && CallNow(S).InExit? && CallNow(S).next <= FD_PER_PROC
  {
    var n, s := CallNow(S).next, S.current;
    if n < FD_PER_PROC then
      var S1 := if FdAt(S.fds, s, n) == Free then S else CloseFd(S, s, n);
      S1.(calls := S.calls[s := InExit(n + 1)])
    else SetCall(S, NoCall).(procs := ExitProcs(S.procs, s))
  }
}
