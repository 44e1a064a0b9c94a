/** Runs of the protocol: any interleaving of steps, without kills and with at most one process inside
    a read and one inside a write of each pipe. */
module ProtocolRuns {
  import opened Bytes
  import opened Protocol
  import opened ProtocolSteps
  import opened ProtocolInv

  datatype Step =
    | DoDispatch | DoYield | DoSleep | DoWakeSleeper(slot: nat)
    | DoStartRead(fd: nat, want: nat) | DoRead
    | DoStartWrite(fd: nat, data: seq<byte>) | DoWrite
    | DoMakePipe(copied: bool) | DoOpen(id: nat) | DoClose(fd: nat)
    | DoFork(memory: bool) | DoBoot
    | DoStartExec(input: int, output: int) | DoSeedInput | DoSeedOutput | DoPublish
    | DoStartWait(pid: nat) | DoWait
    | DoStartDisk | DoGate | DoDisk | DoIssue | DoIrq | DoRelease
    | DoStartExit | DoExit

  ghost predicate Idle(S: Sys) { Runs(S) && CallNow(S) == NoCall }

  /** Entry j of the running process is in use. */
  ghost predicate Holds(S: Sys, j: int)
    requires Runs(S)
  {
    0 <= j < FD_PER_PROC && FdAt(S.fds, S.current, j) != Free
  }

  /** When the running process, or the hardware, can take a step. */
  ghost predicate Guard(S: Sys, e: Step) {
    Shape(S) &&
    match e
    case DoDispatch => S.current == -1
    case DoYield => S.current >= 0
    case DoSleep => Idle(S)
    case DoWakeSleeper(i) => i < PROCESS_MAX
    case DoStartRead(j, _) => Idle(S) && Holds(S, j) && FdAt(S.fds, S.current, j).ReadEnd?
                              && FdAt(S.fds, S.current, j).pipe < PIPE_MAX &&
                                 S.pipes[FdAt(S.fds, S.current, j).pipe].reader < 0
    case DoRead => Runs(S) && CallNow(S).InRead?
    case DoStartWrite(j, _) => Idle(S) && Holds(S, j) && FdAt(S.fds, S.current, j).WriteEnd?
                               && FdAt(S.fds, S.current, j).pipe < PIPE_MAX &&
                                  S.pipes[FdAt(S.fds, S.current, j).pipe].writer < 0
    case DoWrite => Runs(S) && CallNow(S).InWrite?
    case DoMakePipe(_) => Idle(S)
    case DoOpen(_) => Idle(S)
    case DoClose(j) => Idle(S) && Holds(S, j)
    case DoFork(_) => Idle(S)
    case DoBoot => S.current == -1
    case DoStartExec(i, o) => Idle(S) && (i == -1 || Holds(S, i)) && (o == -1 || Holds(S, o))
    case DoSeedInput => Runs(S) && CallNow(S).Building? && CallNow(S).input >= 0
    case DoSeedOutput => Runs(S) && CallNow(S).Building? && CallNow(S).input < 0 && CallNow(S).output >= 0
    case DoPublish => Runs(S) && CallNow(S).Building? && CallNow(S).input < 0 && CallNow(S).output < 0
    case DoStartWait(_) => Idle(S)
    case DoWait => Runs(S) && CallNow(S).InWait?
    case DoStartDisk => Idle(S)
    case DoGate => Runs(S) && CallNow(S).InGate?
    case DoDisk => Runs(S) && CallNow(S).InDisk?
    case DoIssue => Runs(S) && CallNow(S).InDisk? && !CallNow(S).waited
    case DoIrq => true
    case DoRelease => Runs(S) && CallNow(S).InDisk? && !CallNow(S).waited
    case DoStartExit => Idle(S)
    case DoExit => Runs(S) && CallNow(S).InExit?
  }

  /** The places a call refers to exist. */
  ghost predicate Defined(S: Sys, e: Step)
    requires Guard(S, e)
  {
    match e
    case DoRead => CallNow(S).pipe < PIPE_MAX
    case DoWrite => CallNow(S).pipe < PIPE_MAX && |S.pipes[CallNow(S).pipe].queue| <= PIPE_BUF_SIZE &&
      CallNow(S).written <= |CallNow(S).data|
    case DoSeedInput => CallNow(S).child < PROCESS_MAX && CallNow(S).input < FD_PER_PROC
    case DoSeedOutput => CallNow(S).child < PROCESS_MAX && CallNow(S).output < FD_PER_PROC
    case DoPublish => CallNow(S).child < PROCESS_MAX
    case DoExit => CallNow(S).next <= FD_PER_PROC
    case _ => true
  }

  ghost predicate Can(S: Sys, e: Step) { Guard(S, e) && Defined(S, e) }

  ghost function Next(S: Sys, e: Step): Sys
    requires Can(S, e)
  {
    match e
    case DoDispatch => Dispatch(S)
    case DoYield => Yield(S)
    case DoSleep => Sleep(S)
    case DoWakeSleeper(i) => WakeSleeper(S, i)
    case DoStartRead(j, want) => StartRead(S, j, want)
    case DoRead => ReadSection(S)
    case DoStartWrite(j, data) => StartWrite(S, j, data)
    case DoWrite => WriteSection(S)
    case DoMakePipe(copied) => MakePipe(S, copied)
    case DoOpen(id) => OpenFile(S, id)
    case DoClose(j) => CloseFd(S, S.current, j)
    case DoFork(memory) => Fork(S, memory)
    case DoBoot => Boot(S)
    case DoStartExec(i, o) => StartExec(S, i, o)
    case DoSeedInput => Seed(S, CallNow(S).input, CallNow(S).(input := -1))
    case DoSeedOutput => Seed(S, CallNow(S).output, CallNow(S).(output := -1))
    case DoPublish => Publish(S)
    case DoStartWait(pid) => SetCall(S, InWait(pid, 0))
    case DoWait => WaitSection(S)
    case DoStartDisk => SetCall(S, InGate(-1))
    case DoGate => GateSection(S)
    case DoDisk => DiskSection(S)
    case DoIssue => S.(gate := S.gate.(irqFired := false))
    case DoIrq => DiskIrq(S)
    case DoRelease => GateRelease(S)
    case DoStartExit => SetCall(S, InExit(0))
    case DoExit => ExitStep(S)
  }

  lemma SeedRange(S: Sys)
    requires Inv(S) && Runs(S) && CallNow(S).Building?
    ensures CallNow(S).child < PROCESS_MAX && CallNow(S).input < FD_PER_PROC && CallNow(S).output < FD_PER_PROC
  {
    assert CallOk(S, S.current);
  }

  lemma ReadKeeps(S: Sys)
    requires Inv(S) && Runs(S) && CallNow(S).InRead?
    ensures CallNow(S).pipe < PIPE_MAX && Inv(ReadSection(S))
  {
    assert CallOk(S, S.current);
    var p := CallNow(S).pipe;
    hide Inv;
    if S.pipes[p].queue != [] {
      WakeWriterKeeps(S, p);
      TakeKeeps(WakeWriter(S, p));
    } else if S.pipes[p].writeRefs == 0 {
      LeaveReadKeeps(S, p);
    } else {
      BlockReaderKeeps(S, p);
    }
  }

  lemma WriteKeeps(S: Sys)
    requires Inv(S) && Runs(S) && CallNow(S).InWrite?
    ensures CallNow(S).pipe < PIPE_MAX && |S.pipes[CallNow(S).pipe].queue| <= PIPE_BUF_SIZE &&
            CallNow(S).written <= |CallNow(S).data|
    ensures Inv(WriteSection(S))
  {
    assert CallOk(S, S.current) && PipeOk(S, CallNow(S).pipe);
    var p := CallNow(S).pipe;
    hide Inv;
    if S.pipes[p].readRefs == 0 {
      LeaveWriteKeeps(S, p);
    } else if |S.pipes[p].queue| < PIPE_BUF_SIZE {
      WakeReaderKeeps(S, p);
      PutKeeps(WakeReader(S, p));
    } else {
      BlockWriterKeeps(S, p);
    }
  }

  // ---- the gate's waiter list ---------------------------------------------------------------------------------

  ghost function Slots(n: nat): (r: set<nat>)
    ensures forall i: nat :: i in r <==> i < n
    ensures |r| == n
  {
    if n == 0 then {} else Slots(n - 1) + {n - 1}
  }

  lemma {:induction false} DistinctBound(ws: seq<nat>, bound: set<nat>)
    requires forall i, j :: 0 <= i < j < |ws| ==> ws[i] != ws[j]
    requires forall i :: 0 <= i < |ws| ==> ws[i] in bound
    ensures |ws| <= |bound|
  {
    if ws != [] {
      var n := |ws| - 1;
      assert forall i :: 0 <= i < n ==> ws[i] in bound - {ws[n]};
      DistinctBound(ws[..n], bound - {ws[n]});
    }
  }

  /** The waiter list has room for every process that can come to wait: it never overflows. */
  lemma GateHasRoom(S: Sys)
    requires Inv(S) && Runs(S)
    ensures |S.gate.waiters| < PROCESS_MAX
  {
    var ws := S.gate.waiters;
    WaitersApart(S);
    hide Inv;
    DistinctBound(ws, Slots(PROCESS_MAX) - {S.current});
  }

  lemma WaitersApart(S: Sys)
    requires Inv(S) && Runs(S)
    ensures var ws := S.gate.waiters;
            && (forall i, j :: 0 <= i < j < |ws| ==> ws[i] != ws[j])
            && (forall i :: 0 <= i < |ws| ==> ws[i] < PROCESS_MAX && ws[i] != S.current)
  {
    hide StateOk, CallOk, PipeOk;
    var ws := S.gate.waiters;
    forall i | 0 <= i < |ws|
      ensures ws[i] < PROCESS_MAX && ws[i] != S.current && S.calls[ws[i]] == InGate(i)
    {
    }
  }

  lemma CloseHeldKeeps(S: Sys, j: nat)
    requires Inv(S) && Idle(S) && j < FD_PER_PROC
    ensures Inv(CloseFd(S, S.current, j))
  {
    hide Inv, CloseFd;
    CloseKeeps(S, S.current, j);
  }

  lemma BootKeeps(S: Sys)
    requires Inv(S) && Shape(S)
    ensures Inv(Boot(S))
  {
    var c := FirstUnused(S.procs, 0);
    hide Inv;
    if c >= 0 { ClaimKeeps(S, c); }
  }

  lemma IssueKeeps(S: Sys)
    requires Inv(S)
    ensures Inv(S.(gate := S.gate.(irqFired := false)))
  {
    var S' := S.(gate := S.gate.(irqFired := false));
    forall s: nat | s < PROCESS_MAX
      ensures StateOk(S', s) && CallOk(S', s)
    {
      assert StateOk(S, s) && CallOk(S, s);
    }
    forall p: nat | p < PIPE_MAX
      ensures PipeOk(S', p)
    {
      assert PipeOk(S, p);
    }
  }

  /** The invariant makes every step that has its turn well defined: no run gets stuck half way. */
  lemma AlwaysDefined(S: Sys, e: Step)
    requires Inv(S) && Guard(S, e)
    ensures Defined(S, e)
  {
    if Runs(S) {
      assert CallOk(S, S.current);
      if CallNow(S).InWrite? { assert PipeOk(S, CallNow(S).pipe); }
    }
  }

  /** Every step keeps the invariant. */
  lemma StepKeeps(S: Sys, e: Step)
    requires Inv(S) && Can(S, e)
    ensures Inv(Next(S, e))
  {
    hide Inv;
    match e
    case DoDispatch => DispatchKeeps(S);
    case DoYield => YieldKeeps(S);
    case DoSleep => SleepKeeps(S);
    case DoWakeSleeper(i) => WakeSleeperKeeps(S, i);
    case DoStartRead(j, want) => StartReadKeeps(S, j, want, FdAt(S.fds, S.current, j).pipe);
    case DoRead => ReadKeeps(S);
    case DoStartWrite(j, data) => StartWriteKeeps(S, j, data, FdAt(S.fds, S.current, j).pipe);
    case DoWrite => WriteKeeps(S);
    case DoMakePipe(copied) => MakePipeKeeps(S, copied);
    case DoOpen(id) => OpenKeeps(S, id);
    case DoClose(j) => CloseHeldKeeps(S, j);
    case DoFork(memory) => ForkKeeps(S, memory);
    case DoBoot => BootKeeps(S);
    case DoStartExec(i, o) => StartExecKeeps(S, i, o);
    case DoSeedInput => SeedRange(S); SeedInputKeeps(S);
    case DoSeedOutput => SeedRange(S); SeedOutputKeeps(S);
    case DoPublish => PublishKeeps(S);
    case DoStartWait(pid) => StartWaitKeeps(S, pid);
    case DoWait => WaitKeeps(S);
    case DoStartDisk => StartDiskKeeps(S);
    case DoGate => GateHasRoom(S); GateKeeps(S);
    case DoDisk => DiskKeeps(S);
    case DoIssue => IssueKeeps(S);
    case DoIrq => IrqKeeps(S);
    case DoRelease => ReleaseKeeps(S);
    case DoStartExit => StartExitKeeps(S);
    case DoExit => ExitKeeps(S);
  }

  // ---- runs --------------------------------------------------------------------------------------------------

  function Initial(): (S: Sys) {
    Sys(seq(PROCESS_MAX, i => Proc(0, Unused, 0)), seq(PROCESS_MAX, i => NoCall),
      seq(PROCESS_MAX * FD_PER_PROC, i => Free),
        seq(PIPE_MAX, i => NEW_PIPE.(used := false)), Gate(false, [], -1, false, -1), -1, PROCESS_MAX - 1, 1)
  }

  lemma InitialInv()
    ensures Inv(Initial())
  {
    var S := Initial();
    forall p: nat | p < PIPE_MAX
      ensures PipeOk(S, p)
    {
      assert forall i :: 0 <= i < |S.fds| ==> S.fds[i] == Free;
      assert ReadEnd(p) !in multiset(S.fds) && WriteEnd(p) !in multiset(S.fds);
    }
  }

  /** The states of a run: trace[0] is the booted system and each state follows from the one before. */
  ghost predicate IsRun(trace: seq<Sys>, steps: seq<Step>) {
    && |trace| == |steps| + 1 && trace[0] == Initial()
    && forall i :: 0 <= i < |steps| ==> Can(trace[i], steps[i]) && trace[i + 1] == Next(trace[i], steps[i])
  }

  /** In every run the invariant holds in every state. */
  lemma {:induction false} RunKeeps(trace: seq<Sys>, steps: seq<Step>, n: nat)
    requires IsRun(trace, steps) && n < |trace|
    ensures Inv(trace[n])
  {
    if n == 0 {
      InitialInv();
    } else {
      hide Inv, Can, Next;
      RunKeeps(trace, steps, n - 1);
      StepKeeps(trace[n - 1], steps[n - 1]);
    }
  }
}
