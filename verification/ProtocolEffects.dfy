/** What single calls do to the tables, field by field, and what that means for pids over whole runs. */
module ProtocolEffects {
  import opened Bytes
  import opened Protocol
  import opened ProtocolSteps
  import opened ProtocolInv
  import opened ProtocolRuns
  import opened ProtocolTheorems

  // ---- fork -----------------------------------------------------------------------------------------------------

  /** Nothing but fd entries, process slots, pipes and the pid counter differs. */
  predicate SameElsewhere(S: Sys, S': Sys) {
    S'.calls == S.calls && S'.gate == S.gate && S'.current == S.current && S'.last == S.last
  }

  /** Entries of process c from j on are those of process s; all others are as before. */
  ghost predicate RowCopied(fds: seq<Fd>, s: nat, c: nat, j: nat, fds': seq<Fd>) {
    forall t: nat, i: nat :: t < PROCESS_MAX && i < FD_PER_PROC ==>
      FdAt(fds', t, i) == if t == c && j <= i then FdAt(fds, s, i) else FdAt(fds, t, i)
  }

  lemma {:induction false} CopyRowIs(S: Sys, s: nat, c: nat, j: nat)
    requires Shape(S) && s < PROCESS_MAX && c < PROCESS_MAX && s != c && j <= FD_PER_PROC
    ensures var S' := CopyRow(S, s, c, j);
            && Shape(S') && RowCopied(S.fds, s, c, j, S'.fds)
            && S'.procs == S.procs && S'.nextPid == S.nextPid && SameElsewhere(S, S')
    decreases FD_PER_PROC - j
  {
    hide FdAt, SetFd;
    if j < FD_PER_PROC {
      var x := FdAt(S.fds, s, j);
      SetFdAt(S.fds, c, j, x);
      CopyRowIs(PlaceFd(S, c, j, x), s, c, j + 1);
    }
  }

  /** The child of a fork: the lowest unused slot, ready under the next pid, with every entry of its parent in the same
      place; nothing else of any process changes. */
  ghost predicate ChildMade(S: Sys, c: nat, pid: int, S': Sys) {
    && Shape(S) && Shape(S') && 0 <= S.current && c < PROCESS_MAX && S.procs[c].state == Unused
    && (forall i :: 0 <= i < c ==> S.procs[i].state != Unused)
    && pid == S.nextPid && S'.nextPid == pid + 1
    && S'.procs[c].pid == pid && S'.procs[c].state == Ready && S'.procs[c].waitingFor == 0
    && (forall i :: 0 <= i < PROCESS_MAX && i != c ==> S'.procs[i] == S.procs[i])
    && (forall j: nat :: j < FD_PER_PROC ==> FdAt(S'.fds, c, j) == FdAt(S.fds, S.current, j))
    && (forall t: nat, j: nat :: t < PROCESS_MAX && t != c && j < FD_PER_PROC ==>
       FdAt(S'.fds, t, j) == FdAt(S.fds, t, j))
    && SameElsewhere(S, S')
  }

  /** No child: at most a pid is used up. */
  ghost predicate NoChild(S: Sys, S': Sys) {
    && S'.procs == S.procs && S'.fds == S.fds && S'.pipes == S.pipes && SameElsewhere(S, S')
    && S'.nextPid == S.nextPid + if exists i: nat :: i < |S.procs| && S.procs[i].state == Unused then 1 else 0
  }

  lemma ForkMakes(S: Sys, memory: bool)
    requires Inv(S) && Idle(S)
    ensures var full := forall i :: 0 <= i < PROCESS_MAX ==> S.procs[i].state != Unused;
            var c := FirstUnused(S.procs, 0);
            && (c >= 0 <==> !full)
            && if memory && !full then ChildMade(S, c, S.nextPid, Fork(S, memory)) else NoChild(S, Fork(S, memory))
  {
    hide Inv, CopyRow;
    InvShape(S);
    var c := FirstUnused(S.procs, 0);
    if c >= 0 {
      assert S.procs[c].state == Unused && c < |S.procs|;
      if memory {
        CopyRowIs(Claim(S, c, Ready), S.current, c, 0);
        ChildIs(S, c);
        assert ChildMade(S, c, S.nextPid, Fork(S, memory));
      }
    }
  }

  lemma ChildIs(S: Sys, c: nat)
    requires Runs(S) && c == FirstUnused(S.procs, 0) && c < PROCESS_MAX
    requires var S1, S' := Claim(S, c, Ready), CopyRow(Claim(S, c, Ready), S.current, c, 0);
             && Shape(S') && RowCopied(S1.fds, S.current, c, 0, S'.fds)
             && S'.procs == S1.procs && S'.nextPid == S1.nextPid && SameElsewhere(S1, S')
    ensures ChildMade(S, c, S.nextPid, CopyRow(Claim(S, c, Ready), S.current, c, 0))
  {
    hide FdAt, CopyRow;
  }

  // ---- exit and wait --------------------------------------------------------------------------------------------

  /** Process s has ended: its slot is unused, whoever waited for its pid is ready and waits no more, and no other
      process is touched. */
  ghost predicate ProcessEnded(S: Sys, s: nat, S': Sys) {
    && Shape(S) && Shape(S') && s < PROCESS_MAX
    && S'.procs[s].state == Unused && S'.procs[s].pid == 0 && S'.calls[s] == NoCall
    && (forall i :: 0 <= i < PROCESS_MAX && i != s ==>
          var p, p' := S.procs[i], S'.procs[i];
          if p.state == Blocked && p.waitingFor == S.procs[s].pid then p'.pid == p.pid && p'.state == Ready &&
            p'.waitingFor == 0
          else p' == p)
    && (forall i :: 0 <= i < PROCESS_MAX && i != s ==> S'.calls[i] == S.calls[i])
    && S'.fds == S.fds && S'.pipes == S.pipes && S'.gate == S.gate && S'.nextPid == S.nextPid && S'.last == S.last
  }

  lemma ExitEnds(S: Sys)
    requires Runs(S) && CallNow(S) == InExit(FD_PER_PROC)
    ensures ProcessEnded(S, S.current, ExitStep(S))
  {
  }

  /** Each process that is alive has a pid of its own, below the counter. */
  ghost predicate PidsApart(S: Sys) {
    && S.nextPid > 0
    && (forall i :: 0 <= i < |S.procs| && S.procs[i].state != Unused ==> 0 < S.procs[i].pid < S.nextPid)
    && forall i, k :: 0 <= i < k < |S.procs| && S.procs[i].state != Unused && S.procs[k].state != Unused ==>
         S.procs[i].pid != S.procs[k].pid
  }

  /** Whoever is alive in S' was so in S under the same pid, but for slot c, which may have got the next pid. */
  ghost predicate Inherits(S: Sys, S': Sys, c: int) {
    && |S'.procs| == |S.procs| && S.nextPid <= S'.nextPid
    && forall i :: 0 <= i < |S.procs| && S'.procs[i].state != Unused ==>
         || (S.procs[i].state != Unused && S'.procs[i].pid == S.procs[i].pid)
         || (i == c && S'.procs[i].pid == S.nextPid < S'.nextPid)
  }

  /** The processes alive in S' are alive in S under the same pids, and no pid is used up. */
  ghost predicate SamePids(S: Sys, S': Sys) { S'.nextPid == S.nextPid && Inherits(S, S', -1) }

  lemma SchedulerPids(S: Sys, i: nat)
    requires Shape(S) && i < PROCESS_MAX
    ensures SamePids(S, Dispatch(S)) && SamePids(S, WakeSleeper(S, i)) && SamePids(S, DiskIrq(S))
    ensures S.current >= 0 ==> SamePids(S, Yield(S))
    ensures Runs(S) ==> SamePids(S, Sleep(S))
  {
    hide NextReady;
  }

  lemma PipePids(S: Sys)
    requires Runs(S)
    ensures CallNow(S).InRead? && CallNow(S).pipe < PIPE_MAX ==> SamePids(S, ReadSection(S))
    ensures CallNow(S).InWrite? && CallNow(S).pipe < PIPE_MAX && |S.pipes[CallNow(S).pipe].queue| <= PIPE_BUF_SIZE &&
            CallNow(S).written <= |CallNow(S).data| ==>
              SamePids(S, WriteSection(S))
  {
  }

  lemma ClosePids(S: Sys, s: nat, j: nat)
    requires Shape(S) && s < PROCESS_MAX && j < FD_PER_PROC
    ensures SamePids(S, CloseFd(S, s, j))
  {
    hide FdAt, SetFd;
  }

  lemma ExitPids(S: Sys)
    requires Runs(S) && CallNow(S).InExit? && CallNow(S).next <= FD_PER_PROC
    ensures SamePids(S, ExitStep(S))
  {
    hide FdAt, CloseFd;
    if CallNow(S).next < FD_PER_PROC { ClosePids(S, S.current, CallNow(S).next); }
  }

  lemma WaitPids(S: Sys)
    requires Runs(S)
    ensures CallNow(S).InWait? ==> SamePids(S, WaitSection(S))
    ensures CallNow(S).InGate? ==> SamePids(S, GateSection(S))
    ensures CallNow(S).InDisk? ==> SamePids(S, DiskSection(S)) && SamePids(S, GateRelease(S))
  {
    hide FindPid;
  }

  lemma BuildPids(S: Sys, from: nat, after: Call)
    requires Runs(S) && CallNow(S).Building? && CallNow(S).child < PROCESS_MAX
    ensures SamePids(S, Publish(S)) && (from < FD_PER_PROC ==> SamePids(S, Seed(S, from, after)))
  {
    hide FdAt, SetFd, FirstFree;
  }

  lemma NewPids(S: Sys, memory: bool, i: int, o: int)
    requires Shape(S)
    ensures Inherits(S, Boot(S), FirstUnused(S.procs, 0))
    ensures Runs(S) ==> Inherits(S, StartExec(S, i, o), FirstUnused(S.procs, 0))
    ensures Runs(S) ==> Inherits(S, Fork(S, memory), FirstUnused(S.procs, 0))
  {
    hide FdAt, CopyRow;
    var c := FirstUnused(S.procs, 0);
    if Runs(S) && c >= 0 { CopyRowIs(Claim(S, c, Ready), S.current, c, 0); }
  }

  /** No step gives a living process another pid, and the only pid it can hand out is the next one. */
  lemma StepInherits(S: Sys, e: Step)
    requires Can(S, e)
    ensures Inherits(S, Next(S, e), -1) || Inherits(S, Next(S, e), FirstUnused(S.procs, 0))
  {
    hide FdAt, SetFd, Inherits, Dispatch, WakeSleeper, DiskIrq, Boot, Yield, Sleep, Fork, StartExec, ReadSection,
      WriteSection, CloseFd, ExitStep, WaitSection, GateSection, DiskSection, GateRelease, Seed, Publish, FirstFree;
    match e
    case DoDispatch => SchedulerPids(S, 0);
    case DoYield => SchedulerPids(S, 0);
    case DoSleep => SchedulerPids(S, 0);
    case DoWakeSleeper(i) => SchedulerPids(S, i);
    case DoIrq => SchedulerPids(S, 0);
    case DoBoot => NewPids(S, false, 0, 0);
    case DoRead => PipePids(S);
    case DoWrite => PipePids(S);
    case DoClose(j) => ClosePids(S, S.current, j);
    case DoExit => ExitPids(S);
    case DoFork(memory) => NewPids(S, memory, 0, 0);
    case DoStartExec(i, o) => NewPids(S, false, i, o);
    case DoSeedInput => BuildPids(S, CallNow(S).input, CallNow(S).(input := -1));
    case DoSeedOutput => BuildPids(S, CallNow(S).output, CallNow(S).(output := -1));
    case DoPublish => BuildPids(S, 0, NoCall);
    case DoWait => WaitPids(S);
    case DoGate => WaitPids(S);
    case DoDisk => WaitPids(S);
    case DoRelease => WaitPids(S);
    case _ => ProcsSame(S, Next(S, e));
  }

  lemma ProcsSame(S: Sys, S': Sys)
    requires S'.procs == S.procs && S'.nextPid == S.nextPid
    ensures Inherits(S, S', -1)
  {
  }

  lemma PidsKept(S: Sys, e: Step)
    requires Can(S, e) && PidsApart(S)
    ensures PidsApart(Next(S, e))
  {
    hide Can, Next, FirstUnused;
    StepInherits(S, e);
    var c, S' := if Inherits(S, Next(S, e), -1) then -1 else FirstUnused(S.procs, 0), Next(S, e);
    forall i, k | 0 <= i < k < |S'.procs| && S'.procs[i].state != Unused && S'.procs[k].state != Unused
      ensures S'.procs[i].pid != S'.procs[k].pid
    {
      assert S.procs[i].state != Unused && S.procs[k].state != Unused ==> S.procs[i].pid != S.procs[k].pid;
      assert i == c ==> S.procs[k].state != Unused;
      assert k == c ==> S.procs[i].state != Unused;
    }
  }

  /** In every run the processes alive have distinct pids. */
  lemma {:induction false} LivePidsDiffer(trace: seq<Sys>, steps: seq<Step>, n: nat)
    requires IsRun(trace, steps) && n < |trace|
    ensures PidsApart(trace[n])
  {
    hide PidsApart, Can, Next;
    if n == 0 {
      NobodyYet();
    } else {
      LivePidsDiffer(trace, steps, n - 1);
      PidsKept(trace[n - 1], steps[n - 1]);
    }
  }

  lemma NobodyYet()
    ensures PidsApart(Initial())
  {
  }

  /** No living process has this pid, and none will get it. */
  ghost predicate Gone(S: Sys, pid: nat) {
    pid < S.nextPid && forall i :: 0 <= i < |S.procs| ==> S.procs[i].state == Unused || S.procs[i].pid != pid
  }

  lemma GoneStays(S: Sys, e: Step, pid: nat)
    requires Can(S, e) && Gone(S, pid)
    ensures Gone(Next(S, e), pid)
  {
    hide Can, Next, FirstUnused;
    StepInherits(S, e);
  }

  /** Once a process has ended, in every later state of the run no process has its pid: a wait for it returns. */
  lemma {:induction false} EndedIsGone(trace: seq<Sys>, steps: seq<Step>, m: nat, n: nat)
    requires IsRun(trace, steps) && m < n < |trace| && steps[m] == DoExit
    requires Runs(trace[m]) && CallNow(trace[m]) == InExit(FD_PER_PROC)
    ensures Gone(trace[n], trace[m].procs[trace[m].current].pid)
    decreases n
  {
    hide Can, Next, PidsApart, Gone;
    if n == m + 1 {
      LivePidsDiffer(trace, steps, m);
      ExitGone(trace[m]);
      ExitIs(trace[m]);
    } else {
      EndedIsGone(trace, steps, m, n - 1);
      GoneStays(trace[n - 1], steps[n - 1], trace[m].procs[trace[m].current].pid);
    }
  }

  lemma ExitIs(S: Sys)
    requires Can(S, DoExit)
    ensures Next(S, DoExit) == ExitStep(S)
  {
  }

  lemma ExitGone(S: Sys)
    requires Runs(S) && CallNow(S) == InExit(FD_PER_PROC) && PidsApart(S)
    ensures Gone(ExitStep(S), S.procs[S.current].pid)
  {
    hide ExitStep;
    ExitEnds(S);
    var S', s := ExitStep(S), S.current;
    forall i | 0 <= i < PROCESS_MAX && S'.procs[i].state != Unused
      ensures S'.procs[i].pid != S.procs[s].pid
    {
      assert i != s && S.procs[i].state != Unused && S'.procs[i].pid == S.procs[i].pid;
      assert if i < s then S.procs[i].pid != S.procs[s].pid else S.procs[s].pid != S.procs[i].pid;
    }
  }

  // ---- pipes ----------------------------------------------------------------------------------------------------

  /** Apart from process s, all that happens to a process is that w is woken; all pipes but p and everything outside
      pipes and processes is as before. */
  ghost predicate OnlyTouches(S: Sys, S': Sys, s: int, w: int, p: nat) {
    && Shape(S) && Shape(S') && S'.gate == S.gate && S'.current == S.current && S'.last == S.last &&
       S'.nextPid == S.nextPid
    && (forall i :: 0 <= i < PROCESS_MAX && i != s ==>
          && S'.calls[i] == S.calls[i]
          && (S'.procs[i] == S.procs[i] ||
              (i == w && S.procs[i].state == Blocked && S'.procs[i] == S.procs[i].(state := Ready))))
    && forall k :: 0 <= k < PIPE_MAX && k != p ==> S'.pipes[k] == S.pipes[k]
  }

  /** A read takes as many of the oldest bytes as there are and are wanted; without any it ends, when no write end
      is left, or blocks. */
  lemma ReadTakes(S: Sys)
    requires Can(S, DoRead)
    ensures var c, s, S' := CallNow(S), S.current, ReadSection(S);
            var q, q' := S.pipes[c.pipe], S'.pipes[c.pipe];
            && OnlyTouches(S, S', s, q.writeWaiter, c.pipe) && S'.fds == S.fds
            && q'.readRefs == q.readRefs && q'.writeRefs == q.writeRefs && q'.used == q.used
            && (q.queue != [] ==>
                  && S'.calls[s] == NoCall && S'.procs[s].state == Running
                  && var n := if c.want < |q.queue| then c.want else |q.queue|;
                     q'.queue == q.queue[n..] && q'.consumed == q.consumed + q.queue[..n])
            && (q.queue == [] ==>
                  && q'.queue == [] && q'.consumed == q.consumed
                  && if q.writeRefs == 0 then S'.calls[s] == NoCall && S'.procs == S.procs
                     else S'.calls[s] == c && S'.procs[s].state == Blocked && q'.readWaiter == s)
  {
    hide FdAt;
    var c := CallNow(S);
    var q := S.pipes[c.pipe];
    assert c.want >= |q.queue| ==> q.queue[..|q.queue|] == q.queue;
  }

  /** A write puts in as many bytes as there are and find room; it ends when all are in or no read end is left,
      and blocks on a full pipe. */
  lemma WritePuts(S: Sys)
    requires Can(S, DoWrite)
    ensures var c, s, S' := CallNow(S), S.current, WriteSection(S);
            var q, q' := S.pipes[c.pipe], S'.pipes[c.pipe];
            && OnlyTouches(S, S', s, q.readWaiter, c.pipe) && S'.fds == S.fds
            && q'.readRefs == q.readRefs && q'.writeRefs == q.writeRefs && q'.used == q.used
            && (q.readRefs == 0 ==> S'.calls[s] == NoCall && S'.procs == S.procs && q'.queue == q.queue)
            && (q.readRefs > 0 && |q.queue| < PIPE_BUF_SIZE ==>
                  && S'.procs[s].state == Running
                  && var left, room := |c.data| - c.written, PIPE_BUF_SIZE - |q.queue|;
                     var n := if left < room then left else room;
                     && q'.queue == q.queue + c.data[c.written..c.written + n]
                     && S'.calls[s] == if n == left then NoCall else c.(written := c.written + n))
            && (q.readRefs > 0 && |q.queue| == PIPE_BUF_SIZE ==>
                  && q'.queue == q.queue && S'.calls[s] == c && S'.procs[s].state == Blocked && q'.writeWaiter == s)
  {
    hide FdAt;
    var c := CallNow(S);
    var q := S.pipes[c.pipe];
    assert c.data[c.written..|c.data|] == c.data[c.written..];
  }

  /** Closing an entry frees it and no other, and takes one reference off the end it named; only a process that waited
      for that end can be woken. */
  lemma CloseFrees(S: Sys, s: nat, j: nat)
    requires Inv(S) && s < PROCESS_MAX && j < FD_PER_PROC
    ensures var x, S' := FdAt(S.fds, s, j), CloseFd(S, s, j);
            var p := if x.ReadEnd? || x.WriteEnd? then x.pipe else PIPE_MAX;
            && OnlyTouches(S, S', -1, if p >= PIPE_MAX then -1 else if x.ReadEnd? then S.pipes[p].writeWaiter
                 else S.pipes[p].readWaiter, p)
            && (forall t: nat, i: nat :: t < PROCESS_MAX && i < FD_PER_PROC ==>
                  FdAt(S'.fds, t, i) == if t == s && i == j then Free else FdAt(S.fds, t, i))
            && (p < PIPE_MAX ==>
                  && S'.pipes[p].readRefs == S.pipes[p].readRefs - (if x.ReadEnd? then 1 else 0)
                  && S'.pipes[p].writeRefs == S.pipes[p].writeRefs - (if x.WriteEnd? then 1 else 0)
                  && S'.pipes[p].queue == S.pipes[p].queue)
  {
    hide Inv;
    InvShape(S);
    SetFdAt(S.fds, s, j, Free);
    HolderCounts(S.fds, s, j);
    var x := FdAt(S.fds, s, j);
    if (x.ReadEnd? || x.WriteEnd?) && x.pipe < PIPE_MAX { RefsAre(S, x.pipe); }
    hide FdAt, SetFd;
  }

  /** A new pipe: the two lowest free entries of its maker are the ends of an empty pipe in a slot that was unused. */
  ghost predicate PipeMade(S: Sys, p: nat, r: nat, w: nat, S': Sys) {
    && OnlyTouches(S, S', -1, -1, p) && 0 <= S.current && p < PIPE_MAX && r < w < FD_PER_PROC
    && !S.pipes[p].used && S'.pipes[p] == Pipe(true, 1, 1, -1, -1, [], -1, -1, [], [])
    && FdAt(S.fds, S.current, r) == Free == FdAt(S.fds, S.current, w)
    && (forall i: nat :: i < w && i != r ==> FdAt(S.fds, S.current, i) != Free)
    && (forall t: nat, i: nat :: t < PROCESS_MAX && i < FD_PER_PROC ==>
          FdAt(S'.fds, t, i) == if t == S.current && i == r then ReadEnd(p)
                                else if t == S.current && i == w then WriteEnd(p) else FdAt(S.fds, t, i))
  }

  /** No pipe: every entry, every process and every pipe in use is as before. */
  ghost predicate NoPipe(S: Sys, S': Sys) {
    && Shape(S) && Shape(S') && S'.fds == S.fds && S'.procs == S.procs && SameElsewhere(S, S') &&
       S'.nextPid == S.nextPid
    && forall k :: 0 <= k < PIPE_MAX ==>
         S'.pipes[k].used == S.pipes[k].used && (S.pipes[k].used ==> S'.pipes[k] == S.pipes[k])
  }

  lemma MakesPipe(S: Sys, copied: bool)
    requires Idle(S)
    ensures var p, r := FirstPipe(S.pipes, 0), FirstFree(S.fds, S.current, 0, -1);
            var w := FirstFree(S.fds, S.current, 0, r);
            if copied && p >= 0 && r >= 0 && w >= 0 then PipeMade(S, p, r, w, MakePipe(S, copied))
            else NoPipe(S, MakePipe(S, copied))
  {
    hide FdAt, SetFd, FirstFree, FirstPipe;
    var p, r := FirstPipe(S.pipes, 0), FirstFree(S.fds, S.current, 0, -1);
    var w := FirstFree(S.fds, S.current, 0, r);
    if copied && p >= 0 && r >= 0 && w >= 0 { PipeIsMade(S, p, r, w); }
  }

  lemma PipeIsMade(S: Sys, p: nat, r: nat, w: nat)
    requires Idle(S) && p == FirstPipe(S.pipes, 0) && r == FirstFree(S.fds, S.current, 0, -1)
    requires w == FirstFree(S.fds, S.current, 0, r)
    ensures PipeMade(S, p, r, w, MakePipe(S, true))
  {
    hide FdAt, SetFd, FirstFree, FirstPipe;
    SetFdAt(S.fds, S.current, r, ReadEnd(p));
    SetFdAt(SetFd(S.fds, S.current, r, ReadEnd(p)), S.current, w, WriteEnd(p));
  }

  // ---- building a process ---------------------------------------------------------------------------------------

  /** sys_exec claims the lowest unused slot under the next pid; it stays blocked, its maker is building it. */
  lemma ExecClaims(S: Sys, input: int, output: int)
    requires Idle(S)
    ensures var c, S' := FirstUnused(S.procs, 0), StartExec(S, input, output);
            if c < 0 then S' == S
            else
              && S'.procs == S.procs[c := Proc(S.nextPid, Blocked, 0)] && S'.nextPid == S.nextPid + 1
              && S'.calls == S.calls[c := Newborn(S.current)][S.current := Building(c, input, output)]
              && S'.fds == S.fds && S'.pipes == S.pipes && S'.gate == S.gate
  {
  }

  /** The end of an exec: the new process is ready and neither it nor its maker is in a call; nothing else happens. */
  lemma PublishReleases(S: Sys)
    requires Inv(S) && Runs(S) && CallNow(S).Building?
    ensures CallNow(S).child < PROCESS_MAX
    ensures var c, S' := CallNow(S).child, Publish(S);
            && S'.procs == S.procs[c := S.procs[c].(state := Ready)]
            && S'.calls == S.calls[c := NoCall][S.current := NoCall]
            && S'.fds == S.fds && S'.pipes == S.pipes && S'.gate == S.gate && S'.nextPid == S.nextPid
  {
    assert CallOk(S, S.current);
    assert CallOk(S, CallNow(S).child);
    hide Inv;
  }

  // ---- waiting, the gate and the disk ---------------------------------------------------------------------------

  /** A wait returns exactly when no living process has the pid, and otherwise blocks the caller on it. */
  lemma WaitReturns(S: Sys)
    requires Runs(S) && CallNow(S).InWait?
    ensures var pid, s, S' := CallNow(S).pid, S.current, WaitSection(S);
            && S'.fds == S.fds && S'.pipes == S.pipes && S'.gate == S.gate
            && (forall i :: 0 <= i < PROCESS_MAX && i != s ==> S'.procs[i] == S.procs[i] && S'.calls[i] == S.calls[i])
            && if forall i :: 0 <= i < PROCESS_MAX ==> S.procs[i].state == Unused || S.procs[i].pid != pid
               then S'.calls[s] == NoCall && S'.procs[s] == S.procs[s]
               else S'.calls[s].InWait? && S'.calls[s].pid == pid && S'.procs[s] == Proc(S.procs[s].pid, Blocked, pid)
  {
  }

  /** Whoever waits for a process that has ended returns from the wait at its next turn. */
  lemma WaitAfterExit(trace: seq<Sys>, steps: seq<Step>, m: nat, n: nat)
    requires IsRun(trace, steps) && m < n < |trace| && steps[m] == DoExit
    requires Runs(trace[m]) && CallNow(trace[m]) == InExit(FD_PER_PROC)
    requires Runs(trace[n]) && CallNow(trace[n]).InWait?
    requires CallNow(trace[n]).pid == trace[m].procs[trace[m].current].pid
    ensures WaitSection(trace[n]).calls[trace[n].current] == NoCall
  {
    hide IsRun, WaitSection;
    EndedIsGone(trace, steps, m, n);
    WaitReturns(trace[n]);
  }

  /** The gate lets one process in when it is open; otherwise the caller is put behind the others and blocks. */
  lemma GateTurn(S: Sys)
    requires Inv(S) && Runs(S) && CallNow(S).InGate?
    ensures var s, S' := S.current, GateSection(S);
            && S'.fds == S.fds && S'.pipes == S.pipes
            && (forall i :: 0 <= i < PROCESS_MAX && i != s ==> S'.procs[i] == S.procs[i] && S'.calls[i] == S.calls[i])
            && if !S.gate.busy then S'.gate.busy && S'.gate.holder == s && S'.calls[s] == InDisk(false) &&
                                    S'.procs[s] == S.procs[s]
               else S'.gate.holder == S.gate.holder && S'.gate.waiters == S.gate.waiters + [s] &&
                    S'.calls[s].InGate? && S'.procs[s].state == Blocked
  {
    hide Inv;
    GateHasRoom(S);
  }

  /** Leaving the gate opens it; everyone who waited is ready and tries again. */
  lemma GateOpens(S: Sys)
    requires Inv(S) && Runs(S) && CallNow(S).InDisk?
    ensures var s, S' := S.current, GateRelease(S);
            && !S'.gate.busy && S'.gate.waiters == [] && S'.calls[s] == NoCall && S'.fds == S.fds && S'.pipes == S.pipes
            && forall i: nat :: i < PROCESS_MAX && i != s ==>
                 if i in S.gate.waiters then S'.procs[i] == S.procs[i].(state := Ready) && S'.calls[i] == InGate(-1)
                 else S'.procs[i] == S.procs[i] && S'.calls[i] == S.calls[i]
  {
    assert GateOk(S);
    hide Inv;
  }

  /** Waiting for the disk: with the interrupt there the caller goes on and uses it up, otherwise it blocks. */
  lemma DiskWaits(S: Sys)
    requires Runs(S) && CallNow(S).InDisk?
    ensures var s, S' := S.current, DiskSection(S);
            && S'.fds == S.fds && S'.pipes == S.pipes
            && (forall i :: 0 <= i < PROCESS_MAX && i != s ==> S'.procs[i] == S.procs[i] && S'.calls[i] == S.calls[i])
            && if CallNow(S).waited || S.gate.irqFired
               then !S'.gate.irqFired && S'.calls[s] == InDisk(false) && S'.procs[s] == S.procs[s]
               else S'.gate.irqWaiter == s && S'.calls[s] == InDisk(true) && S'.procs[s].state == Blocked
  {
  }

  /** A process that waits for the disk waits for an interrupt that has not come. */
  ghost predicate IrqAwaited(S: Sys) { S.gate.irqWaiter >= 0 ==> !S.gate.irqFired }

  lemma IrqStep(S: Sys, e: Step)
    requires Can(S, e) && IrqAwaited(S)
    ensures IrqAwaited(Next(S, e))
  {
    hide FdAt, SetFd, FirstFree, FirstPipe, Wake, WakeAll, UnlistAll, ExitProcs, FindPid, CopyRow, FirstUnused;
    if e.DoFork? {
      var c := FirstUnused(S.procs, 0);
      if c >= 0 { CopyRowIs(Claim(S, c, Ready), S.current, c, 0); }
    }
  }

  /** In every run the interrupt that comes while a process waits for the disk makes it ready, and it is never lost
      before. */
  lemma {:induction false} DiskWakes(trace: seq<Sys>, steps: seq<Step>, n: nat)
    requires IsRun(trace, steps) && n < |trace|
    ensures Shape(trace[n]) && IrqAwaited(trace[n])
    ensures var w := trace[n].gate.irqWaiter;
            w >= 0 ==> w < PROCESS_MAX && trace[n].procs[w].state == Blocked &&
                       DiskIrq(trace[n]).procs == trace[n].procs[w := trace[n].procs[w].(state := Ready)]
  {
    RunKeeps(trace, steps, n);
    assert GateOk(trace[n]);
    hide Inv, Can, Next;
    if n > 0 {
      DiskWakes(trace, steps, n - 1);
      IrqStep(trace[n - 1], steps[n - 1]);
    }
  }

  // ---- turns ----------------------------------------------------------------------------------------------------

  /** A dispatch runs a process that was ready, unless none is; a yield takes the processor from it and leaves it ready.
      No other process is touched. */
  lemma Turns(S: Sys)
    requires Shape(S)
    ensures var S' := Dispatch(S);
            if exists i: nat :: i < PROCESS_MAX && S.procs[i].state == Ready then
              && Runs(S') && S'.last == S'.current && S.procs[S'.current].state == Ready
              && S'.procs == S.procs[S'.current := S.procs[S'.current].(state := Running)]
              && S'.(procs := S.procs, current := S.current, last := S.last) == S
            else S' == S
    ensures S.current >= 0 && S.procs[S.current].state == Running ==>
              Yield(S) == S.(current := -1, procs := S.procs[S.current := S.procs[S.current].(state := Ready)])
  {
    if i: nat :| i < PROCESS_MAX && S.procs[i].state == Ready { ScanFinds(S.procs, S.last, 0, i); }
  }

  /** Sleeping takes a process out of the scan until the timer puts it back. */
  lemma SleepAndWake(S: Sys, i: nat)
    requires Shape(S) && i < PROCESS_MAX
    ensures Runs(S) ==> Sleep(S) == S.(procs := S.procs[S.current := S.procs[S.current].(state := Sleeping)])
    ensures WakeSleeper(S, i) ==
            if S.procs[i].state == Sleeping then S.(procs := S.procs[i := S.procs[i].(state := Ready)]) else S
  {
  }

  /** Opening a file takes the lowest free entry of the caller, when there is one. */
  lemma OpenTakes(S: Sys, id: nat, j: nat)
    requires Runs(S) && j < FD_PER_PROC && FdAt(S.fds, S.current, j) == Free
    requires forall i: nat :: i < j ==> FdAt(S.fds, S.current, i) != Free
    ensures var S' := OpenFile(S, id);
            && S'.(fds := S.fds) == S
            && forall t: nat, i: nat :: t < PROCESS_MAX && i < FD_PER_PROC ==>
                 FdAt(S'.fds, t, i) == if t == S.current && i == j then File(id) else FdAt(S.fds, t, i)
  {
    hide FdAt, SetFd;
    assert FirstFree(S.fds, S.current, 0, -1) == j;
    SetFdAt(S.fds, S.current, j, File(id));
  }

  /** A process being built gets a copy of the entry its maker chose, in its lowest free entry; a pipe end is counted,
      and nothing else happens to it. */
  lemma SeedCopies(S: Sys, from: nat, after: Call, j: nat)
    requires Runs(S) && CallNow(S).Building? && CallNow(S).child < PROCESS_MAX && from < FD_PER_PROC && j < FD_PER_PROC
    requires FdAt(S.fds, CallNow(S).child, j) == Free
    requires forall i: nat :: i < j ==> FdAt(S.fds, CallNow(S).child, i) != Free
    ensures var S', x := Seed(S, from, after), FdAt(S.fds, S.current, from);
            && S'.(fds := S.fds, pipes := S.pipes, calls := S.calls) == S && S'.calls == S.calls[S.current := after]
            && (forall t: nat, i: nat :: t < PROCESS_MAX && i < FD_PER_PROC ==>
                  FdAt(S'.fds, t, i) == if t == CallNow(S).child && i == j then x else FdAt(S.fds, t, i))
            && |S'.pipes| == PIPE_MAX
            && forall p: nat :: p < PIPE_MAX ==>
                 S'.pipes[p] == if x == ReadEnd(p) then S.pipes[p].(readRefs := S.pipes[p].readRefs + 1)
                                else if x == WriteEnd(p) then S.pipes[p].(writeRefs := S.pipes[p].writeRefs + 1)
                                else S.pipes[p]
  {
    hide FdAt, SetFd;
    assert FirstFree(S.fds, CallNow(S).child, 0, -1) == j;
    SetFdAt(S.fds, CallNow(S).child, j, FdAt(S.fds, S.current, from));
  }

  /** The first process gets the lowest unused slot and the next pid, and is ready. */
  lemma BootMakes(S: Sys, c: nat)
    requires Shape(S) && c < PROCESS_MAX && S.procs[c].state == Unused
    requires forall i :: 0 <= i < c ==> S.procs[i].state != Unused
    ensures Boot(S) == S.(procs := S.procs[c := Proc(S.nextPid, Ready, 0)], nextPid := S.nextPid + 1)
  {
    assert FirstUnused(S.procs, 0) == c;
  }

  /** Reads and writes of an end begin with what their caller asked for, on the pipe the entry names. */
  lemma CallsBegin(S: Sys, j: nat, want: nat, data: seq<byte>)
    requires Runs(S) && j < FD_PER_PROC
    ensures var x := FdAt(S.fds, S.current, j);
            && (x.ReadEnd? && x.pipe < PIPE_MAX ==>
                  var S' := StartRead(S, j, want);
                  S'.calls == S.calls[S.current := InRead(j, x.pipe, want)] && S'.procs == S.procs && S'.fds == S.fds &&
                    S'.pipes == S.pipes[x.pipe := S.pipes[x.pipe].(reader := S.current)])
            && (x.WriteEnd? && x.pipe < PIPE_MAX ==>
                  var S', start := StartWrite(S, j, data), |S.pipes[x.pipe].accepted|;
                  S'.calls == S.calls[S.current := InWrite(j, x.pipe, data, 0, start)] && S'.procs == S.procs &&
                    S'.fds == S.fds && S'.pipes == S.pipes[x.pipe := S.pipes[x.pipe].(writer := S.current)])
  {
    hide FdAt;
  }
}
