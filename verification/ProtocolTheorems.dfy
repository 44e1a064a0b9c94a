/** What the invariant means, for every state of every run. */
module ProtocolTheorems {
  import opened Bytes
  import opened Protocol
  import opened ProtocolSteps
  import opened ProtocolInv
  import opened ProtocolRuns

  // ---- blocking ---------------------------------------------------------------------------------------------

  /** A process is blocked exactly when it is still being built, waits for the disk, or is registered with a waker whose
      condition fails: its pipe is empty with a writer left, or full with a reader left, the process it
      waits for is alive, or the gate is busy. */
  lemma BlockedHasWaker(trace: seq<Sys>, steps: seq<Step>, n: nat)
    requires IsRun(trace, steps) && n < |trace|
    ensures Inv(trace[n]) && forall s: nat :: s < PROCESS_MAX ==>
            (trace[n].procs[s].state == Blocked <==> Waits(trace[n], s))
  {
    RunKeeps(trace, steps, n);
    hide Inv, Waits;
    forall s: nat | s < PROCESS_MAX
      ensures trace[n].procs[s].state == Blocked <==> Waits(trace[n], s)
    {
      ReadyIsOff(trace[n], s);
    }
  }

  /** No waker has process s on its list. */
  ghost predicate Unregistered(S: Sys, s: nat)
    requires Shape(S) && s < PROCESS_MAX
  {
    && (forall p: nat :: p < PIPE_MAX ==> S.pipes[p].readWaiter != s && S.pipes[p].writeWaiter != s)
    && S.procs[s].waitingFor == 0 && s !in S.gate.waiters && S.gate.irqWaiter != s
  }

  /** Slot s is still blocked or has become ready. */
  predicate Spared(S: Sys, s: nat) { s < |S.procs| && (S.procs[s].state == Blocked || S.procs[s].state == Ready) }

  lemma PipeSpares(S: Sys, s: nat)
    requires Runs(S) && s < PROCESS_MAX && S.procs[s].state == Blocked
    ensures CallNow(S).InRead? && CallNow(S).pipe < PIPE_MAX ==> Spared(ReadSection(S), s)
    ensures CallNow(S).InWrite? && CallNow(S).pipe < PIPE_MAX && |S.pipes[CallNow(S).pipe].queue| <= PIPE_BUF_SIZE &&
            CallNow(S).written <= |CallNow(S).data| ==>
              Spared(WriteSection(S), s)
  {
  }

  lemma CloseSpares(S: Sys, c: nat, j: nat, s: nat)
    requires Shape(S) && c < PROCESS_MAX && j < FD_PER_PROC && s < PROCESS_MAX && S.procs[s].state == Blocked
    ensures Spared(CloseFd(S, c, j), s)
  {
    hide FdAt;
  }

  lemma ExitSpares(S: Sys, s: nat)
    requires Runs(S) && CallNow(S).InExit? && CallNow(S).next <= FD_PER_PROC
    requires s < PROCESS_MAX && S.procs[s].state == Blocked
    ensures Spared(ExitStep(S), s)
  {
    hide FdAt, CloseFd;
    if CallNow(S).next < FD_PER_PROC { CloseSpares(S, S.current, CallNow(S).next, s); }
  }

  lemma SchedulerSpares(S: Sys, i: nat, s: nat)
    requires Shape(S) && i < PROCESS_MAX && s < PROCESS_MAX && S.procs[s].state == Blocked
    ensures Spared(Dispatch(S), s) && Spared(WakeSleeper(S, i), s) && Spared(DiskIrq(S), s) && Spared(Boot(S), s)
    ensures S.current >= 0 ==> Spared(Yield(S), s)
    ensures Runs(S) ==> Spared(Sleep(S), s)
  {
  }

  lemma NewSpares(S: Sys, memory: bool, i: int, o: int, s: nat)
    requires Runs(S) && s < PROCESS_MAX && S.procs[s].state == Blocked
    ensures Spared(Fork(S, memory), s) && Spared(StartExec(S, i, o), s)
  {
    hide FdAt;
    var c := FirstUnused(S.procs, 0);
    if c >= 0 { CopyKeeps(Claim(S, c, Ready), S.current, c, 0); }
  }

  lemma WaitSpares(S: Sys, s: nat)
    requires Runs(S) && s < PROCESS_MAX && S.procs[s].state == Blocked
    ensures CallNow(S).InWait? ==> Spared(WaitSection(S), s)
    ensures CallNow(S).InGate? ==> Spared(GateSection(S), s)
    ensures CallNow(S).InDisk? ==> Spared(DiskSection(S), s) && Spared(GateRelease(S), s)
  {
  }

  lemma BuildSpares(S: Sys, from: nat, after: Call, s: nat)
    requires Inv(S) && Runs(S) && CallNow(S).Building? && CallNow(S).child < PROCESS_MAX
    requires s < PROCESS_MAX && S.procs[s].state == Blocked
    ensures Spared(Publish(S), s)
    ensures from < FD_PER_PROC && (CallNow(S).input >= 0 || CallNow(S).output >= 0) ==> Spared(Seed(S, from, after), s)
  {
    if CallNow(S).input >= 0 || CallNow(S).output >= 0 { SeedHasRoom(S); }
    hide FdAt, Inv;
  }

  /** No step does anything to a blocked process but make it ready. */
  lemma BlockedOrReady(S: Sys, e: Step, s: nat)
    requires Inv(S) && Can(S, e) && s < PROCESS_MAX && S.procs[s].state == Blocked
    ensures Spared(Next(S, e), s)
  {
    hide FdAt, Holders, StateOk, CallOk, PipeOk, GateOk, Dispatch, WakeSleeper, DiskIrq, Boot, Yield, Sleep, Fork,
      StartExec, ReadSection, WriteSection, CloseFd, ExitStep, WaitSection, GateSection, DiskSection, GateRelease, Seed,
      Publish, FirstFree;
    match e
    case DoDispatch => SchedulerSpares(S, 0, s);
    case DoYield => SchedulerSpares(S, 0, s);
    case DoSleep => SchedulerSpares(S, 0, s);
    case DoWakeSleeper(i) => SchedulerSpares(S, i, s);
    case DoIrq => SchedulerSpares(S, 0, s);
    case DoBoot => SchedulerSpares(S, 0, s);
    case DoRead => PipeSpares(S, s);
    case DoWrite => PipeSpares(S, s);
    case DoClose(j) => CloseSpares(S, S.current, j, s);
    case DoExit => ExitSpares(S, s);
    case DoFork(memory) => NewSpares(S, memory, 0, 0, s);
    case DoStartExec(i, o) => NewSpares(S, false, i, o, s);
    case DoSeedInput => BuildSpares(S, CallNow(S).input, CallNow(S).(input := -1), s);
    case DoSeedOutput => BuildSpares(S, CallNow(S).output, CallNow(S).(output := -1), s);
    case DoPublish => BuildSpares(S, 0, NoCall, s);
    case DoWait => WaitSpares(S, s);
    case DoGate => WaitSpares(S, s);
    case DoDisk => WaitSpares(S, s);
    case DoRelease => WaitSpares(S, s);
    case _ =>
  }

  /** After any step a blocked process is still blocked, registered with a waker whose condition fails; or the
      step has made it ready and it is on no list. So a step that makes its condition true wakes it. */
  lemma NoWakeupLost(S: Sys, e: Step, s: nat)
    requires Inv(S) && Can(S, e) && s < PROCESS_MAX && S.procs[s].state == Blocked
    ensures var S' := Next(S, e);
            && Inv(S') && (S'.procs[s].state == Blocked || S'.procs[s].state == Ready)
            && (S'.procs[s].state == Blocked <==> Waits(S', s))
            && (S'.procs[s].state == Ready ==> Unregistered(S', s))
  {
    StepKeeps(S, e);
    BlockedOrReady(S, e, s);
    hide Can, Next;
    ReadyIsOff(Next(S, e), s);
  }

  lemma ReadyIsOff(S: Sys, s: nat)
    requires Inv(S) && s < PROCESS_MAX
    ensures S.procs[s].state == Blocked <==> Waits(S, s)
    ensures S.procs[s].state != Blocked ==> Unregistered(S, s)
  {
    assert StateOk(S, s) && CallOk(S, s);
    if S.calls[s].InWait? && Live(S, S.calls[s].at) { assert StateOk(S, S.calls[s].at); }
    forall p: nat | p < PIPE_MAX
      ensures S.procs[s].state != Blocked ==> S.pipes[p].readWaiter != s && S.pipes[p].writeWaiter != s
    {
      assert PipeOk(S, p);
    }
  }

  /** The two ends of one pipe never wait for each other. */
  lemma NeverBothBlocked(S: Sys, p: nat, r: nat, w: nat)
    requires Inv(S) && p < PIPE_MAX && r < PROCESS_MAX && w < PROCESS_MAX
    requires S.procs[r].state == Blocked && S.calls[r].InRead? && S.calls[r].pipe == p
    ensures !(S.procs[w].state == Blocked && S.calls[w].InWrite? && S.calls[w].pipe == p)
  {
    assert StateOk(S, r) && StateOk(S, w);
  }

  /** One process holds the gate. */
  lemma OneHolder(S: Sys, s: nat, t: nat)
    requires Inv(S) && s < PROCESS_MAX && t < PROCESS_MAX && S.calls[s].InDisk? && S.calls[t].InDisk?
    ensures s == t && S.gate.busy
  {
    assert CallOk(S, s) && CallOk(S, t);
  }

  /** At most the current process is running. */
  lemma OnlyCurrentRuns(S: Sys, s: nat)
    requires Inv(S) && s < PROCESS_MAX && S.procs[s].state == Running
    ensures s == S.current
  {
    assert StateOk(S, s);
  }

  // ---- references ----------------------------------------------------------------------------------------------

  /** Reference counts are the numbers of fd entries, unused process slots have no entries, and a pipe
      slot is free for reuse exactly when no entry names it. */
  lemma CountsAreEntries(trace: seq<Sys>, steps: seq<Step>, n: nat, p: nat, s: nat)
    requires IsRun(trace, steps) && n < |trace| && p < PIPE_MAX && s < PROCESS_MAX
    ensures Inv(trace[n])
    ensures var S := trace[n];
            && S.pipes[p].readRefs == Holders(S.fds, ReadEnd(p)) && S.pipes[p].writeRefs == Holders(S.fds, WriteEnd(p))
            && (!S.pipes[p].used <==> Holders(S.fds, ReadEnd(p)) == 0 && Holders(S.fds, WriteEnd(p)) == 0)
            && (S.procs[s].state == Unused ==> forall j: nat :: j < FD_PER_PROC ==> FdAt(S.fds, s, j) == Free)
  {
    RunKeeps(trace, steps, n);
    assert StateOk(trace[n], s) && PipeOk(trace[n], p);
  }

  // ---- the order of bytes ------------------------------------------------------------------------------------

  /** What a section of pipe_read hands to its caller; nothing when it blocks. */
  ghost function Read(S: Sys): seq<byte>
    requires Can(S, DoRead)
  {
    Taken(S.pipes[CallNow(S).pipe], CallNow(S).want)
  }

  ghost function Wrote(S: Sys): seq<byte>
    requires Can(S, DoWrite)
  {
    var q := S.pipes[CallNow(S).pipe];
    if q.readRefs == 0 || |q.queue| == PIPE_BUF_SIZE then [] else Put(q, CallNow(S).data, CallNow(S).written)
  }

  /** The bytes read next are the bytes accepted next, whatever the ring looks like. */
  lemma ReadsInOrder(S: Sys)
    requires Inv(S) && Can(S, DoRead)
    ensures var q, q' := S.pipes[CallNow(S).pipe], ReadSection(S).pipes[CallNow(S).pipe];
            && q'.accepted == q.accepted && q'.consumed == q.consumed + Read(S)
            && q'.consumed <= q'.accepted
  {
    var p := CallNow(S).pipe;
    assert PipeOk(S, p);
    TakeFacts(S.pipes[p], CallNow(S).want);
    StepKeeps(S, DoRead);
    assert PipeOk(ReadSection(S), p);
  }

  /** A write that returns success has put all of its data, once and in order, behind what the pipe had
      accepted before; one that goes on has put the part it counts as written. */
  lemma WriteDelivers(S: Sys)
    requires Inv(S) && Can(S, DoWrite)
    ensures var c, S' := CallNow(S), WriteSection(S);
            var q, q' := S.pipes[c.pipe], S'.pipes[c.pipe];
            && q'.accepted == q.accepted + Wrote(S)
            && (q.readRefs > 0 && S'.calls[S.current] == NoCall ==>
               c.start <= |q'.accepted| && q'.accepted[c.start..] == c.data)
  {
    var c := CallNow(S);
    assert CallOk(S, S.current) && PipeOk(S, c.pipe);
    hide Inv, Holders, FdAt, StateOk, PipeOk, CallOk, WriteSection, Put;
    PutFacts(S.pipes[c.pipe], c.data, c.written, c.start);
    WriteEffect(S);
    assert c.data[..|c.data|] == c.data;
  }

  /** What a section of pipe_write adds, and when it is the last one. */
  lemma WriteEffect(S: Sys)
    requires Runs(S) && CallNow(S).InWrite? && CallNow(S).pipe < PIPE_MAX
    requires |S.pipes[CallNow(S).pipe].queue| <= PIPE_BUF_SIZE && CallNow(S).written <= |CallNow(S).data|
    ensures var c, S' := CallNow(S), WriteSection(S);
            var q := S.pipes[c.pipe];
            var goes := q.readRefs > 0 && |q.queue| < PIPE_BUF_SIZE;
            && c.pipe < |S'.pipes| && S.current < |S'.calls|
            && S'.pipes[c.pipe].accepted == q.accepted + (if goes then Put(q, c.data, c.written) else [])
            && (q.readRefs > 0 && S'.calls[S.current] == NoCall ==>
                  goes && c.written + |Put(q, c.data, c.written)| == |c.data|)
  {
    hide Wake, Put;
    var c := CallNow(S);
    PutSame(S.pipes[c.pipe], c.data, c.written);
  }

  lemma PutSame(q: Pipe, data: seq<byte>, written: nat)
    requires |q.queue| <= PIPE_BUF_SIZE && written <= |data|
    ensures Put(q.(readWaiter := -1), data, written) == Put(q, data, written)
  {
  }

  /** A reader that asked for something is told end of file only when it has everything that was ever
      accepted and no write end is left anywhere. */
  lemma EndOfFile(S: Sys)
    requires Inv(S) && Can(S, DoRead) && CallNow(S).want > 0
    requires Read(S) == [] && ReadSection(S).calls[S.current] == NoCall
    ensures var p := CallNow(S).pipe;
            && S.pipes[p].consumed == S.pipes[p].accepted && S.pipes[p].writeRefs == 0 &&
               Holders(S.fds, WriteEnd(p)) == 0
  {
    assert PipeOk(S, CallNow(S).pipe);
    assert S.pipes[CallNow(S).pipe].consumed + [] == S.pipes[CallNow(S).pipe].consumed;
  }

  /** A reader that is not told end of file and gets nothing is blocked. */
  lemma ReadBlocksOtherwise(S: Sys)
    requires Inv(S) && Can(S, DoRead) && CallNow(S).want > 0
    ensures Read(S) != [] ==> ReadSection(S).calls[S.current] == NoCall
    ensures Read(S) == [] && S.pipes[CallNow(S).pipe].writeRefs > 0 ==> ReadSection(S).procs[S.current].state == Blocked
  {
  }

  /** Neither closing nor copying fds touches what pipes have accepted and handed out. */
  ghost predicate SameHistory(S: Sys, S': Sys) {
    && |S'.pipes| == |S.pipes|
    && forall p :: 0 <= p < |S.pipes| ==>
       S'.pipes[p].accepted == S.pipes[p].accepted && S'.pipes[p].consumed == S.pipes[p].consumed
  }

  lemma {:induction false} CopyHistory(S: Sys, s: nat, c: nat, j: nat)
    requires Shape(S) && s < PROCESS_MAX && c < PROCESS_MAX && j <= FD_PER_PROC
    ensures SameHistory(S, CopyRow(S, s, c, j))
    decreases FD_PER_PROC - j
  {
    hide FdAt, SetFd;
    if j < FD_PER_PROC {
      PlaceFrame(S, c, j, FdAt(S.fds, s, j));
      assert SameHistory(S, PlaceFd(S, c, j, FdAt(S.fds, s, j)));
      hide PlaceFd;
      CopyHistory(PlaceFd(S, c, j, FdAt(S.fds, s, j)), s, c, j + 1);
    }
  }

  lemma CloseHistory(S: Sys, s: nat, j: nat)
    requires Shape(S) && s < PROCESS_MAX && j < FD_PER_PROC
    ensures SameHistory(S, CloseFd(S, s, j))
  {
    hide FdAt, SetFd, Wake;
  }

  lemma ExitHistory(S: Sys)
    requires Runs(S) && CallNow(S).InExit? && CallNow(S).next <= FD_PER_PROC
    ensures SameHistory(S, ExitStep(S))
  {
    hide FdAt, CloseFd, ExitProcs;
    if CallNow(S).next < FD_PER_PROC { CloseHistory(S, S.current, CallNow(S).next); }
  }

  lemma SeedHistory(S: Sys, from: nat, after: Call)
    requires Runs(S) && CallNow(S).Building? && CallNow(S).child < PROCESS_MAX && from < FD_PER_PROC
    ensures SameHistory(S, Seed(S, from, after))
  {
    hide FdAt, SetFd, FirstFree;
  }

  /** Steps other than reads and writes, and the making of a pipe in an unused slot, add nothing. */
  lemma HistoryKept(S: Sys, e: Step)
    requires Can(S, e) && e != DoRead && e != DoWrite && !e.DoMakePipe?
    ensures SameHistory(S, Next(S, e))
  {
    hide FdAt, SetFd, CopyRow, CloseFd, Seed, ExitStep, Wake;
    match e
    case DoFork(_) =>
      var c := FirstUnused(S.procs, 0);
      if c >= 0 { CopyHistory(Claim(S, c, Ready), S.current, c, 0); }
    case DoClose(j) => CloseHistory(S, S.current, j);
    case DoExit => ExitHistory(S);
    case DoSeedInput => SeedHistory(S, CallNow(S).input, CallNow(S).(input := -1));
    case DoSeedOutput => SeedHistory(S, CallNow(S).output, CallNow(S).(output := -1));
    case _ =>
  }

  /** No write end of pipe p is open, and what it has accepted is a. */
  ghost predicate Ended(S: Sys, p: nat, a: seq<byte>) {
    p < |S.pipes| && S.pipes[p].writeRefs == 0 && S.pipes[p].accepted == a
  }

  lemma NoWriteEntry(S: Sys, p: nat)
    requires Inv(S) && p < PIPE_MAX && S.pipes[p].writeRefs == 0
    ensures forall s: nat, j: nat :: s < PROCESS_MAX && j < FD_PER_PROC ==> FdAt(S.fds, s, j) != WriteEnd(p)
  {
    RefsAre(S, p);
    forall s: nat, j: nat | s < PROCESS_MAX && j < FD_PER_PROC
      ensures FdAt(S.fds, s, j) != WriteEnd(p)
    {
      HolderCounts(S.fds, s, j);
    }
  }

  lemma {:induction false} CopyEnded(S: Sys, s: nat, c: nat, j: nat, p: nat, a: seq<byte>)
    requires Shape(S) && s < PROCESS_MAX && c < PROCESS_MAX && s != c && j <= FD_PER_PROC && Ended(S, p, a)
    requires forall i: nat :: i < FD_PER_PROC ==> FdAt(S.fds, s, i) != WriteEnd(p)
    ensures Ended(CopyRow(S, s, c, j), p, a)
    decreases FD_PER_PROC - j
  {
    hide FdAt, SetFd;
    if j < FD_PER_PROC {
      var x := FdAt(S.fds, s, j);
      PlaceFrame(S, c, j, x);
      SetFdAt(S.fds, c, j, x);
      assert Ended(PlaceFd(S, c, j, x), p, a);
      hide PlaceFd;
      CopyEnded(PlaceFd(S, c, j, x), s, c, j + 1, p, a);
    }
  }

  lemma CloseEnded(S: Sys, s: nat, j: nat, p: nat, a: seq<byte>)
    requires Shape(S) && s < PROCESS_MAX && j < FD_PER_PROC && p < PIPE_MAX && Ended(S, p, a) &&
             FdAt(S.fds, s, j) != WriteEnd(p)
    ensures Ended(CloseFd(S, s, j), p, a)
  {
    hide FdAt, SetFd, Wake;
  }

  lemma ExitEnded(S: Sys, p: nat, a: seq<byte>)
    requires Runs(S) && CallNow(S).InExit? && CallNow(S).next <= FD_PER_PROC && p < PIPE_MAX && Ended(S, p, a)
    requires forall s: nat, j: nat :: s < PROCESS_MAX && j < FD_PER_PROC ==> FdAt(S.fds, s, j) != WriteEnd(p)
    ensures Ended(ExitStep(S), p, a)
  {
    hide FdAt, CloseFd, ExitProcs;
    if CallNow(S).next < FD_PER_PROC { CloseEnded(S, S.current, CallNow(S).next, p, a); }
  }

  /** Once a reader of a pipe could see end of file, nothing is added and no write end comes back, until
      the slot is free and made into another pipe. */
  lemma EndStays(S: Sys, e: Step, p: nat, a: seq<byte>)
    requires Inv(S) && Can(S, e) && p < PIPE_MAX && S.pipes[p].used && Ended(S, p, a)
    ensures Ended(Next(S, e), p, a)
  {
    hide FdAt, SetFd, Inv, FirstFree, Wake, CopyRow, CloseFd, Seed, ExitStep, Fork, ReadSection, WakeAll,
      UnlistAll, FirstUnused, FindPid, Holders;
    InvShape(S);
    NoWriter(S, p);
    NoWriteEntry(S, p);
    match e
    case DoRead => ReadEnded(S, p, a);
    case DoFork(memory) => ForkEnded(S, memory, p, a);
    case DoClose(j) => CloseEnded(S, S.current, j, p, a);
    case DoExit => ExitEnded(S, p, a);
    case DoSeedInput => SeedEnded(S, CallNow(S).input, CallNow(S).(input := -1), p, a);
    case DoSeedOutput => SeedEnded(S, CallNow(S).output, CallNow(S).(output := -1), p, a);
    case _ =>
  }

  lemma ReadEnded(S: Sys, p: nat, a: seq<byte>)
    requires Runs(S) && CallNow(S).InRead? && CallNow(S).pipe < PIPE_MAX && p < PIPE_MAX && Ended(S, p, a)
    ensures Ended(ReadSection(S), p, a)
  {
  }

  lemma ForkEnded(S: Sys, memory: bool, p: nat, a: seq<byte>)
    requires Runs(S) && p < PIPE_MAX && Ended(S, p, a)
    requires forall s: nat, j: nat :: s < PROCESS_MAX && j < FD_PER_PROC ==> FdAt(S.fds, s, j) != WriteEnd(p)
    ensures Ended(Fork(S, memory), p, a)
  {
    hide FdAt, CopyRow;
    var c := FirstUnused(S.procs, 0);
    if c >= 0 { CopyEnded(Claim(S, c, Ready), S.current, c, 0, p, a); }
  }

  lemma SeedEnded(S: Sys, from: nat, after: Call, p: nat, a: seq<byte>)
    requires Runs(S) && CallNow(S).Building? && CallNow(S).child < PROCESS_MAX && from < FD_PER_PROC && Ended(S, p, a)
    requires forall s: nat, j: nat :: s < PROCESS_MAX && j < FD_PER_PROC ==> FdAt(S.fds, s, j) != WriteEnd(p)
    ensures Ended(Seed(S, from, after), p, a)
  {
    hide FdAt, SetFd, FirstFree;
  }

  /** One step of a run keeps a pipe ended. */
  lemma EndStep(trace: seq<Sys>, steps: seq<Step>, k: nat, p: nat, a: seq<byte>)
    requires IsRun(trace, steps) && k + 1 < |trace| && p < PIPE_MAX && Ended(trace[k], p, a) && trace[k].pipes[p].used
    ensures Ended(trace[k + 1], p, a)
  {
    hide Can, Next, Inv, Initial;
    RunKeeps(trace, steps, k);
    assert Can(trace[k], steps[k]) && trace[k + 1] == Next(trace[k], steps[k]);
    hide IsRun, Ended;
    EndStays(trace[k], steps[k], p, a);
  }

  /** End of file is final: while the slot stays in use, what was accepted when the last write end
      closed is all there will ever be. */
  lemma {:induction false} EndIsFinal(trace: seq<Sys>, steps: seq<Step>, n: nat, m: nat, p: nat)
    requires IsRun(trace, steps) && n <= m < |trace| && p < PIPE_MAX
    requires forall k :: n <= k <= m ==> p < |trace[k].pipes| && trace[k].pipes[p].used
    requires trace[n].pipes[p].writeRefs == 0
    ensures Ended(trace[m], p, trace[n].pipes[p].accepted)
  {
    hide IsRun;
    if n < m {
      EndIsFinal(trace, steps, n, m - 1, p);
      EndStep(trace, steps, m - 1, p, trace[n].pipes[p].accepted);
    }
  }

  lemma NoWriter(S: Sys, p: nat)
    requires Inv(S) && p < PIPE_MAX && S.pipes[p].writeRefs == 0
    ensures forall s: nat :: s < PROCESS_MAX ==> !(S.calls[s].InWrite? && S.calls[s].pipe == p)
  {
    RefsAre(S, p);
    forall s: nat | s < PROCESS_MAX
      ensures !(S.calls[s].InWrite? && S.calls[s].pipe == p)
    {
      assert CallOk(S, s);
      if S.calls[s].InWrite? { HolderCounts(S.fds, s, S.calls[s].fd); }
    }
  }

  // ---- round robin ----------------------------------------------------------------------------------------------

  /** Slots the scan passes before it comes to slot i. */
  function Distance(last: nat, i: nat): int {
    if i > last then i - last - 1 else i + PROCESS_MAX - last - 1
  }

  lemma ScanDistance(last: nat, scanned: nat, i: nat)
    requires last < PROCESS_MAX && i < PROCESS_MAX && scanned <= Distance(last, i)
    ensures 0 <= scanned < PROCESS_MAX && 0 <= Distance(last, i) < PROCESS_MAX
    ensures Distance(last, ScanAt(last, scanned)) == scanned &&
            (scanned == Distance(last, i) ==> ScanAt(last, scanned) == i)
  {
    var k := last + 1 + scanned;
    assert k % PROCESS_MAX == if k < PROCESS_MAX then k else k - PROCESS_MAX;
  }

  lemma {:induction false} ScanFinds(procs: seq<Proc>, last: nat, scanned: nat, i: nat)
    requires |procs| == PROCESS_MAX && last < PROCESS_MAX && i < PROCESS_MAX && procs[i].state == Ready &&
             scanned <= Distance(last, i)
    ensures 0 <= NextReady(procs, last, scanned) < PROCESS_MAX
    ensures Distance(last, NextReady(procs, last, scanned)) <= Distance(last, i)
    ensures scanned <= Distance(last, NextReady(procs, last, scanned))
    decreases PROCESS_MAX - scanned
  {
    ScanDistance(last, scanned, i);
    hide ScanAt, Distance;
    if procs[ScanAt(last, scanned)].state != Ready {
      ScanFinds(procs, last, scanned + 1, i);
    }
  }

  /** Every dispatch either picks the ready slot i or brings the scan closer to it. */
  lemma DispatchCloser(S: Sys, i: nat)
    requires Shape(S) && i < PROCESS_MAX && S.procs[i].state == Ready
    ensures var S' := Dispatch(S);
            && S'.last < PROCESS_MAX
            && (S'.last == i || Distance(S'.last, i) < Distance(S.last, i))
            && (S'.last == i ==> S'.procs[i].state == Running)
  {
    ScanFinds(S.procs, S.last, 0, i);
  }

  lemma {:induction false} CopyKeeps(S: Sys, s: nat, c: nat, j: nat)
    requires Shape(S) && s < PROCESS_MAX && c < PROCESS_MAX && j <= FD_PER_PROC
    ensures var S' := CopyRow(S, s, c, j);
            Shape(S') && S'.last == S.last && S'.procs == S.procs && S'.calls == S.calls
    decreases FD_PER_PROC - j
  {
    if j < FD_PER_PROC { CopyKeeps(PlaceFd(S, c, j, FdAt(S.fds, s, j)), s, c, j + 1); }
  }

  /** Only the scheduler moves its position. */
  lemma OnlyDispatchMoves(S: Sys, e: Step)
    requires Can(S, e) && e != DoDispatch
    ensures Next(S, e).last == S.last
  {
    hide FdAt, SetFd, FirstFree, FirstPipe, Wake, WakeAll, UnlistAll, ExitProcs, FindPid, CopyRow, FirstUnused;
    if e.DoFork? {
      var c := FirstUnused(S.procs, 0);
      if c >= 0 { CopyKeeps(Claim(S, c, Ready), S.current, c, 0); }
    }
  }

  ghost function Dispatches(steps: seq<Step>): nat {
    if steps == [] then 0 else Dispatches(steps[..|steps| - 1]) + if steps[|steps| - 1] == DoDispatch then 1 else 0
  }

  ghost predicate ReadyAt(S: Sys, i: nat) { Shape(S) && i < PROCESS_MAX && S.procs[i].state == Ready }

  ghost predicate Follows(S: Sys, e: Step, S': Sys) { Can(S, e) && S' == Next(S, e) }

  lemma {:induction false} ReadyBound(trace: seq<Sys>, steps: seq<Step>, i: nat, n: nat)
    requires |trace| == |steps| + 1 && n <= |steps|
    requires forall k :: 0 <= k < |trace| ==> ReadyAt(trace[k], i)
    requires forall k :: 0 <= k < |steps| ==> Follows(trace[k], steps[k], trace[k + 1])
    ensures Dispatches(steps[..n]) + Distance(trace[n].last, i) <= Distance(trace[0].last, i)
  {
    if n > 0 {
      hide Can, Next;
      ReadyBound(trace, steps, i, n - 1);
      assert steps[..n][..n - 1] == steps[..n - 1] && ReadyAt(trace[n - 1], i) && ReadyAt(trace[n], i);
      assert Follows(trace[n - 1], steps[n - 1], trace[n - 1 + 1]);
      if steps[n - 1] == DoDispatch {
        DispatchCloser(trace[n - 1], i);
        DispatchIs(trace[n - 1]);
      } else {
        OnlyDispatchMoves(trace[n - 1], steps[n - 1]);
      }
    }
  }

  lemma DispatchIs(S: Sys)
    requires Can(S, DoDispatch)
    ensures Next(S, DoDispatch) == Dispatch(S)
  {
  }

  /** From any state, a slot that stays ready sees fewer than sixteen dispatches of others. */
  lemma RoundRobin(trace: seq<Sys>, steps: seq<Step>, i: nat)
    requires |trace| == |steps| + 1
    requires forall k :: 0 <= k < |trace| ==> ReadyAt(trace[k], i)
    requires forall k :: 0 <= k < |steps| ==> Follows(trace[k], steps[k], trace[k + 1])
    ensures Dispatches(steps) < PROCESS_MAX
  {
    hide Follows;
    ReadyBound(trace, steps, i, |steps|);
    assert steps[..|steps|] == steps;
    assert ReadyAt(trace[0], i) && ReadyAt(trace[|steps|], i);
  }
}
