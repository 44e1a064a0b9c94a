/** Every step keeps the invariant. */
module ProtocolInv {
  import opened Bytes
  import opened Protocol
  import opened ProtocolSteps

  // ---- scheduling ----

  lemma DispatchKeeps(S: Sys)
    requires Inv(S) && S.current == -1
    ensures Inv(Dispatch(S))
  {
    hide Holders, FdAt;
    var S' := Dispatch(S);
    forall s: nat | s < PROCESS_MAX
      ensures StateOk(S', s) && CallOk(S', s)
    {
      assert StateOk(S, s) && CallOk(S, s);
    }
    forall p: nat | p < PIPE_MAX
      ensures PipeOk(S', p)
    {
      assert PipeOk(S, p);
    }
  }

  lemma YieldKeeps(S: Sys)
    requires Inv(S) && S.current >= 0
    ensures Inv(Yield(S))
  {
    hide Holders, FdAt;
    var S' := Yield(S);
    forall s: nat | s < PROCESS_MAX
      ensures StateOk(S', s) && CallOk(S', s)
    {
      assert StateOk(S, s) && CallOk(S, s);
    }
    forall p: nat | p < PIPE_MAX
      ensures PipeOk(S', p)
    {
      assert PipeOk(S, p);
    }
  }

  lemma SleepKeeps(S: Sys)
    requires Inv(S) && Runs(S) && CallNow(S) == NoCall
    ensures Inv(Sleep(S))
  {
    hide Holders, FdAt;
    var S' := Sleep(S);
    forall s: nat | s < PROCESS_MAX
      ensures StateOk(S', s) && CallOk(S', s)
    {
      assert StateOk(S, s) && CallOk(S, s);
    }
    forall p: nat | p < PIPE_MAX
      ensures PipeOk(S', p)
    {
      assert PipeOk(S, p);
    }
  }

  lemma WakeSleeperKeeps(S: Sys, i: nat)
    requires Inv(S) && i < PROCESS_MAX
    ensures Inv(WakeSleeper(S, i))
  {
    hide Holders, FdAt;
    var S' := WakeSleeper(S, i);
    forall s: nat | s < PROCESS_MAX
      ensures StateOk(S', s) && CallOk(S', s)
    {
      assert StateOk(S, s) && CallOk(S, s);
    }
    forall p: nat | p < PIPE_MAX
      ensures PipeOk(S', p)
    {
      assert PipeOk(S, p);
    }
  }

  // ---- pipes ----

  lemma WakeWriterKeeps(S: Sys, x: nat)
    requires Inv(S) && x < PIPE_MAX
    ensures Inv(WakeWriter(S, x))
  {
    hide Holders, FdAt;
    assert PipeOk(S, x);
    var S' := WakeWriter(S, x);
    forall s: nat | s < PROCESS_MAX
      ensures StateOk(S', s) && CallOk(S', s)
    {
      assert StateOk(S, s) && CallOk(S, s);
    }
    forall p: nat | p < PIPE_MAX
      ensures PipeOk(S', p)
    {
      assert PipeOk(S, p);
    }
  }

  lemma WakeReaderKeeps(S: Sys, x: nat)
    requires Inv(S) && x < PIPE_MAX
    ensures Inv(WakeReader(S, x))
  {
    hide Holders, FdAt;
    assert PipeOk(S, x);
    var S' := WakeReader(S, x);
    forall s: nat | s < PROCESS_MAX
      ensures StateOk(S', s) && CallOk(S', s)
    {
      assert StateOk(S, s) && CallOk(S, s);
    }
    forall p: nat | p < PIPE_MAX
      ensures PipeOk(S', p)
    {
      assert PipeOk(S, p);
    }
  }

  lemma TakeFacts(q: Pipe, want: nat)
    ensures |Taken(q, want)| <= |q.queue| && q.queue == Taken(q, want) + q.queue[|Taken(q, want)|..]
    ensures forall c: seq<byte> :: c + q.queue == (c + Taken(q, want)) + q.queue[|Taken(q, want)|..]
  {
  }

  lemma PutFacts(q: Pipe, data: seq<byte>, w: nat, start: nat)
    requires |q.queue| <= PIPE_BUF_SIZE && w <= |data| && |q.accepted| == start + w && q.accepted[start..] == data[..w]
    requires q.accepted == q.consumed + q.queue
    ensures var put := Put(q, data, w);
            && |q.queue + put| <= PIPE_BUF_SIZE && w + |put| <= |data|
            && |q.accepted + put| == start + (w + |put|) && (q.accepted + put)[start..] == data[..w + |put|]
            && q.accepted + put == q.consumed + (q.queue + put)
  {
    var put := Put(q, data, w);
    assert data[..w + |put|] == data[..w] + put;
    assert (q.accepted + put)[start..] == q.accepted[start..] + put;
  }

  lemma TakeKeeps(S: Sys)
    requires Inv(S) && Runs(S) && CallNow(S).InRead? && CallNow(S).pipe < PIPE_MAX &&
             S.pipes[CallNow(S).pipe].writeWaiter < 0
    ensures Inv(TakeBytes(S))
  {
    hide Holders, FdAt;
    assert CallOk(S, S.current) && PipeOk(S, CallNow(S).pipe);
    TakeFacts(S.pipes[CallNow(S).pipe], CallNow(S).want);
    hide Taken;
    var S' := TakeBytes(S);
    forall s: nat | s < PROCESS_MAX
      ensures StateOk(S', s) && CallOk(S', s)
    {
      assert StateOk(S, s) && CallOk(S, s);
    }
    forall p: nat | p < PIPE_MAX
      ensures PipeOk(S', p)
    {
      assert PipeOk(S, p);
    }
  }

  lemma PutKeeps(S: Sys)
    requires Inv(S) && Runs(S) && CallNow(S).InWrite? && CallNow(S).pipe < PIPE_MAX &&
             S.pipes[CallNow(S).pipe].readWaiter < 0
    requires |S.pipes[CallNow(S).pipe].queue| <= PIPE_BUF_SIZE && CallNow(S).written <= |CallNow(S).data|
    ensures Inv(PutBytes(S))
  {
    hide Holders, FdAt;
    assert CallOk(S, S.current) && PipeOk(S, CallNow(S).pipe);
    PutFacts(S.pipes[CallNow(S).pipe], CallNow(S).data, CallNow(S).written, CallNow(S).start);
    hide Put;
    var S' := PutBytes(S);
    forall s: nat | s < PROCESS_MAX
      ensures StateOk(S', s) && CallOk(S', s)
    {
      assert StateOk(S, s) && CallOk(S, s);
    }
    forall p: nat | p < PIPE_MAX
      ensures PipeOk(S', p)
    {
      assert PipeOk(S, p);
    }
  }

  lemma LeaveReadKeeps(S: Sys, x: nat)
    requires Inv(S) && Runs(S) && CallNow(S).InRead? && x == CallNow(S).pipe && x < PIPE_MAX
    ensures Inv(SetCall(S, NoCall).(pipes := S.pipes[x := S.pipes[x].(reader := -1)]))
  {
    hide Holders, FdAt;
    assert CallOk(S, S.current) && PipeOk(S, x);
    var S' := SetCall(S, NoCall).(pipes := S.pipes[x := S.pipes[x].(reader := -1)]);
    forall s: nat | s < PROCESS_MAX
      ensures StateOk(S', s) && CallOk(S', s)
    {
      assert StateOk(S, s) && CallOk(S, s);
    }
    forall p: nat | p < PIPE_MAX
      ensures PipeOk(S', p)
    {
      assert PipeOk(S, p);
    }
  }

  lemma LeaveWriteKeeps(S: Sys, x: nat)
    requires Inv(S) && Runs(S) && CallNow(S).InWrite? && x == CallNow(S).pipe && x < PIPE_MAX
    ensures Inv(SetCall(S, NoCall).(pipes := S.pipes[x := S.pipes[x].(writer := -1)]))
  {
    hide Holders, FdAt;
    assert CallOk(S, S.current) && PipeOk(S, x);
    var S' := SetCall(S, NoCall).(pipes := S.pipes[x := S.pipes[x].(writer := -1)]);
    forall s: nat | s < PROCESS_MAX
      ensures StateOk(S', s) && CallOk(S', s)
    {
      assert StateOk(S, s) && CallOk(S, s);
    }
    forall p: nat | p < PIPE_MAX
      ensures PipeOk(S', p)
    {
      assert PipeOk(S, p);
    }
  }

  lemma BlockReaderKeeps(S: Sys, x: nat)
    requires Inv(S) && Runs(S) && CallNow(S).InRead? && x == CallNow(S).pipe && x < PIPE_MAX &&
             S.pipes[x].queue == [] && S.pipes[x].writeRefs > 0
    ensures Inv(S.(pipes := S.pipes[x := S.pipes[x].(readWaiter := S.current)],
            procs := SetState(S.procs, S.current, Blocked)))
  {
    hide Holders, FdAt;
    assert CallOk(S, S.current) && PipeOk(S, x) && StateOk(S, S.current);
    var S' := S.(pipes := S.pipes[x := S.pipes[x].(readWaiter := S.current)],
      procs := SetState(S.procs, S.current, Blocked));
    forall s: nat | s < PROCESS_MAX
      ensures StateOk(S', s) && CallOk(S', s)
    {
      assert StateOk(S, s) && CallOk(S, s);
    }
    forall p: nat | p < PIPE_MAX
      ensures PipeOk(S', p)
    {
      assert PipeOk(S, p);
    }
  }

  lemma BlockWriterKeeps(S: Sys, x: nat)
    requires Inv(S) && Runs(S) && CallNow(S).InWrite? && x == CallNow(S).pipe && x < PIPE_MAX &&
             |S.pipes[x].queue| == PIPE_BUF_SIZE && S.pipes[x].readRefs > 0
    ensures Inv(S.(pipes := S.pipes[x := S.pipes[x].(writeWaiter := S.current)],
            procs := SetState(S.procs, S.current, Blocked)))
  {
    hide Holders, FdAt;
    assert CallOk(S, S.current) && PipeOk(S, x) && StateOk(S, S.current);
    var S' := S.(pipes := S.pipes[x := S.pipes[x].(writeWaiter := S.current)],
      procs := SetState(S.procs, S.current, Blocked));
    forall s: nat | s < PROCESS_MAX
      ensures StateOk(S', s) && CallOk(S', s)
    {
      assert StateOk(S, s) && CallOk(S, s);
    }
    forall p: nat | p < PIPE_MAX
      ensures PipeOk(S', p)
    {
      assert PipeOk(S, p);
    }
  }

  lemma StartReadKeeps(S: Sys, j: nat, want: nat, x: nat)
    requires Inv(S) && Runs(S) && CallNow(S) == NoCall && j < FD_PER_PROC && FdAt(S.fds, S.current, j) == ReadEnd(x) &&
             x < PIPE_MAX && S.pipes[x].reader < 0
    ensures Inv(StartRead(S, j, want))
  {
    hide Holders, FdAt;
    assert StateOk(S, S.current);
    var S' := StartRead(S, j, want);
    forall s: nat | s < PROCESS_MAX
      ensures StateOk(S', s) && CallOk(S', s)
    {
      assert StateOk(S, s) && CallOk(S, s);
    }
    forall p: nat | p < PIPE_MAX
      ensures PipeOk(S', p)
    {
      assert PipeOk(S, p);
    }
  }

  lemma StartWriteKeeps(S: Sys, j: nat, data: seq<byte>, x: nat)
    requires Inv(S) && Runs(S) && CallNow(S) == NoCall && j < FD_PER_PROC && FdAt(S.fds, S.current, j) == WriteEnd(x) &&
             x < PIPE_MAX && S.pipes[x].writer < 0
    ensures Inv(StartWrite(S, j, data))
  {
    hide Holders, FdAt;
    assert StateOk(S, S.current);
    var S' := StartWrite(S, j, data);
    forall s: nat | s < PROCESS_MAX
      ensures StateOk(S', s) && CallOk(S', s)
    {
      assert StateOk(S, s) && CallOk(S, s);
    }
    forall p: nat | p < PIPE_MAX
      ensures PipeOk(S', p)
    {
      assert PipeOk(S, p);
    }
  }

  lemma DropReadKeeps(S: Sys, t: nat, j: nat, x: nat)
    requires Inv(S) && t < PROCESS_MAX && j < FD_PER_PROC && x < PIPE_MAX && FdAt(S.fds, t, j) == ReadEnd(x)
    requires !S.calls[t].InRead? && S.pipes[x].readRefs > 0 && (S.pipes[x].readRefs == 1 ==> S.pipes[x].writeWaiter < 0)
    ensures Inv(SetRefs(S, x, S.pipes[x].readRefs - 1, S.pipes[x].writeRefs).(fds := SetFd(S.fds, t, j, Free)))
  {
    hide Holders, FdAt, SetFd;
    SetFdAt(S.fds, t, j, Free);
    assert PipeOk(S, x);
    var S' := SetRefs(S, x, S.pipes[x].readRefs - 1, S.pipes[x].writeRefs).(fds := SetFd(S.fds, t, j, Free));
    forall s: nat | s < PROCESS_MAX
      ensures StateOk(S', s) && CallOk(S', s)
    {
      assert StateOk(S, s) && CallOk(S, s);
    }
    forall p: nat | p < PIPE_MAX
      ensures PipeOk(S', p)
    {
      assert PipeOk(S, p);
      SetFdHolders(S.fds, t, j, Free, ReadEnd(p));
      SetFdHolders(S.fds, t, j, Free, WriteEnd(p));
    }
  }

  lemma DropWriteKeeps(S: Sys, t: nat, j: nat, x: nat)
    requires Inv(S) && t < PROCESS_MAX && j < FD_PER_PROC && x < PIPE_MAX && FdAt(S.fds, t, j) == WriteEnd(x)
    requires !S.calls[t].InWrite? && S.pipes[x].writeRefs > 0 &&
             (S.pipes[x].writeRefs == 1 ==> S.pipes[x].readWaiter < 0)
    ensures Inv(SetRefs(S, x, S.pipes[x].readRefs, S.pipes[x].writeRefs - 1).(fds := SetFd(S.fds, t, j, Free)))
  {
    hide Holders, FdAt, SetFd;
    SetFdAt(S.fds, t, j, Free);
    assert PipeOk(S, x);
    var S' := SetRefs(S, x, S.pipes[x].readRefs, S.pipes[x].writeRefs - 1).(fds := SetFd(S.fds, t, j, Free));
    forall s: nat | s < PROCESS_MAX
      ensures StateOk(S', s) && CallOk(S', s)
    {
      assert StateOk(S, s) && CallOk(S, s);
    }
    forall p: nat | p < PIPE_MAX
      ensures PipeOk(S', p)
    {
      assert PipeOk(S, p);
      SetFdHolders(S.fds, t, j, Free, ReadEnd(p));
      SetFdHolders(S.fds, t, j, Free, WriteEnd(p));
    }
  }

  lemma SetPlainKeeps(S: Sys, t: nat, j: nat, x: Fd)
    requires Inv(S) && t < PROCESS_MAX && j < FD_PER_PROC && (x.Free? || (x.File? && Live(S, t) && !S.calls[t].InExit?))
    requires FdAt(S.fds, t, j).Free? || FdAt(S.fds, t, j).File?
    requires !x.Free? && S.calls[t].Newborn? ==>
               && S.calls[t].parent < PROCESS_MAX && S.calls[S.calls[t].parent].Building?
               && S.calls[S.calls[t].parent].input < 0 && (S.calls[S.calls[t].parent].output >= 0 ==> j == 0)
    ensures Inv(S.(fds := SetFd(S.fds, t, j, x)))
  {
    hide Holders, FdAt, SetFd;
    SetFdAt(S.fds, t, j, x);
    var S' := S.(fds := SetFd(S.fds, t, j, x));
    forall s: nat | s < PROCESS_MAX
      ensures StateOk(S', s) && CallOk(S', s)
    {
      assert StateOk(S, s) && CallOk(S, s);
    }
    forall p: nat | p < PIPE_MAX
      ensures PipeOk(S', p)
    {
      assert PipeOk(S, p);
      SetFdHolders(S.fds, t, j, x, ReadEnd(p));
      SetFdHolders(S.fds, t, j, x, WriteEnd(p));
    }
  }

  lemma PlaceReadKeeps(S: Sys, t: nat, j: nat, x: nat)
    requires Inv(S) && Live(S, t) && !S.calls[t].InExit? && j < FD_PER_PROC && FdAt(S.fds, t, j) == Free
    requires x < PIPE_MAX && S.pipes[x].used
    requires S.calls[t].Newborn? ==>
               && S.calls[t].parent < PROCESS_MAX && S.calls[S.calls[t].parent].Building?
               && S.calls[S.calls[t].parent].input < 0 && (S.calls[S.calls[t].parent].output >= 0 ==> j == 0)
    ensures Inv(PlaceFd(S, t, j, ReadEnd(x)))
  {
    hide Holders, FdAt, SetFd;
    SetFdAt(S.fds, t, j, ReadEnd(x));
    var S' := PlaceFd(S, t, j, ReadEnd(x));
    forall s: nat | s < PROCESS_MAX
      ensures StateOk(S', s) && CallOk(S', s)
    {
      assert StateOk(S, s) && CallOk(S, s);
    }
    forall p: nat | p < PIPE_MAX
      ensures PipeOk(S', p)
    {
      assert PipeOk(S, p);
      SetFdHolders(S.fds, t, j, ReadEnd(x), ReadEnd(p));
      SetFdHolders(S.fds, t, j, ReadEnd(x), WriteEnd(p));
    }
  }

  lemma PlaceWriteKeeps(S: Sys, t: nat, j: nat, x: nat)
    requires Inv(S) && Live(S, t) && !S.calls[t].InExit? && j < FD_PER_PROC && FdAt(S.fds, t, j) == Free
    requires x < PIPE_MAX && S.pipes[x].used
    requires S.calls[t].Newborn? ==>
               && S.calls[t].parent < PROCESS_MAX && S.calls[S.calls[t].parent].Building?
               && S.calls[S.calls[t].parent].input < 0 && (S.calls[S.calls[t].parent].output >= 0 ==> j == 0)
    ensures Inv(PlaceFd(S, t, j, WriteEnd(x)))
  {
    hide Holders, FdAt, SetFd;
    SetFdAt(S.fds, t, j, WriteEnd(x));
    var S' := PlaceFd(S, t, j, WriteEnd(x));
    forall s: nat | s < PROCESS_MAX
      ensures StateOk(S', s) && CallOk(S', s)
    {
      assert StateOk(S, s) && CallOk(S, s);
    }
    forall p: nat | p < PIPE_MAX
      ensures PipeOk(S', p)
    {
      assert PipeOk(S, p);
      SetFdHolders(S.fds, t, j, WriteEnd(x), ReadEnd(p));
      SetFdHolders(S.fds, t, j, WriteEnd(x), WriteEnd(p));
    }
  }

  lemma PlaceKeeps(S: Sys, t: nat, j: nat, x: Fd)
    requires Inv(S) && Live(S, t) && !S.calls[t].InExit? && j < FD_PER_PROC && FdAt(S.fds, t, j) == Free
    requires x.Free? || x.File? || (x.pipe < PIPE_MAX && S.pipes[x.pipe].used)
    requires S.calls[t].Newborn? ==>
               && S.calls[t].parent < PROCESS_MAX && S.calls[S.calls[t].parent].Building?
               && S.calls[S.calls[t].parent].input < 0 && (S.calls[S.calls[t].parent].output >= 0 ==> j == 0)
    ensures Inv(PlaceFd(S, t, j, x))
  {
    assert t < PROCESS_MAX;
    hide Inv, Holders, FdAt, SetFd;
    match x
    case Free => SetPlainKeeps(S, t, j, x);
    case File(_) => SetPlainKeeps(S, t, j, x);
    case ReadEnd(p) => PlaceReadKeeps(S, t, j, p);
    case WriteEnd(p) => PlaceWriteKeeps(S, t, j, p);
  }

  /** A process that holds x is counted. */
  lemma HolderCounts(fds: seq<Fd>, s: nat, j: nat)
    requires |fds| == PROCESS_MAX * FD_PER_PROC && s < PROCESS_MAX && j < FD_PER_PROC
    ensures Holders(fds, FdAt(fds, s, j)) > 0
  {
    SetFdHolders(fds, s, j, Free, FdAt(fds, s, j));
  }

  /** Closing an entry that its process is not reading or writing through. */
  lemma CloseKeeps(S: Sys, t: nat, j: nat)
    requires Inv(S) && t < PROCESS_MAX && j < FD_PER_PROC && !S.calls[t].InRead? && !S.calls[t].InWrite?
    ensures Inv(CloseFd(S, t, j)) && CloseFd(S, t, j).calls == S.calls &&
            CloseFd(S, t, j).fds == SetFd(S.fds, t, j, Free)
    ensures CloseFd(S, t, j).current == S.current && (Runs(S) ==> Runs(CloseFd(S, t, j)))
  {
    assert StateOk(S, t);
    var x := FdAt(S.fds, t, j);
    assert EndOk(x);
    HolderCounts(S.fds, t, j);
    hide Inv, Holders, FdAt, SetFd, Wake;
    match x
    case Free => SetPlainKeeps(S, t, j, Free);
    case File(_) => SetPlainKeeps(S, t, j, Free);
    case ReadEnd(p) =>
      RefsAre(S, p);
      if S.pipes[p].readRefs == 1 {
        WakeWriterKeeps(S, p);
        DropReadKeeps(WakeWriter(S, p), t, j, p);
      } else {
        DropReadKeeps(S, t, j, p);
      }
    case WriteEnd(p) =>
      RefsAre(S, p);
      if S.pipes[p].writeRefs == 1 {
        WakeReaderKeeps(S, p);
        DropWriteKeeps(WakeReader(S, p), t, j, p);
      } else {
        DropWriteKeeps(S, t, j, p);
      }
  }

  lemma RefsAre(S: Sys, p: nat)
    requires Inv(S) && p < PIPE_MAX
    ensures S.pipes[p].readRefs == Holders(S.fds, ReadEnd(p)) && S.pipes[p].writeRefs == Holders(S.fds, WriteEnd(p))
    ensures S.pipes[p].used <==> S.pipes[p].readRefs + S.pipes[p].writeRefs > 0
  {
    assert PipeOk(S, p);
  }

  /** No process is inside a pipe slot that is not in use. */
  lemma UnusedIsQuiet(S: Sys, x: nat, s: nat)
    requires Inv(S) && x < PIPE_MAX && !S.pipes[x].used && s < PROCESS_MAX
    ensures !(S.calls[s].InRead? && S.calls[s].pipe == x) && !(S.calls[s].InWrite? && S.calls[s].pipe == x)
  {
    assert CallOk(S, s);
    RefsAre(S, x);
    if S.calls[s].InRead? || S.calls[s].InWrite? { HolderCounts(S.fds, s, S.calls[s].fd); }
  }

  /** pipe_create clears the slot it takes. */
  lemma ResetKeeps(S: Sys, x: nat)
    requires Inv(S) && x < PIPE_MAX && !S.pipes[x].used
    ensures Inv(S.(pipes := S.pipes[x := NEW_PIPE.(used := false)]))
  {
    hide Holders, FdAt;
    RefsAre(S, x);
    var S' := S.(pipes := S.pipes[x := NEW_PIPE.(used := false)]);
    forall s: nat | s < PROCESS_MAX
      ensures StateOk(S', s) && CallOk(S', s)
    {
      assert StateOk(S, s) && CallOk(S, s);
      UnusedIsQuiet(S, x, s);
    }
    forall p: nat | p < PIPE_MAX
      ensures PipeOk(S', p)
    {
      assert PipeOk(S, p);
    }
  }

  lemma FirstEndKeeps(S: Sys, t: nat, j: nat, x: nat)
    requires Inv(S) && Live(S, t) && S.calls[t] == NoCall && j < FD_PER_PROC && FdAt(S.fds, t, j) == Free
    requires x < PIPE_MAX && S.pipes[x] == NEW_PIPE.(used := false)
    ensures Inv(S.(pipes := S.pipes[x := NEW_PIPE.(readRefs := 1)], fds := SetFd(S.fds, t, j, ReadEnd(x))))
  {
    hide Holders, FdAt, SetFd;
    SetFdAt(S.fds, t, j, ReadEnd(x));
    RefsAre(S, x);
    var S' := S.(pipes := S.pipes[x := NEW_PIPE.(readRefs := 1)], fds := SetFd(S.fds, t, j, ReadEnd(x)));
    forall s: nat | s < PROCESS_MAX
      ensures StateOk(S', s) && CallOk(S', s)
    {
      assert StateOk(S, s) && CallOk(S, s);
      UnusedIsQuiet(S, x, s);
    }
    forall p: nat | p < PIPE_MAX
      ensures PipeOk(S', p)
    {
      assert PipeOk(S, p);
      SetFdHolders(S.fds, t, j, ReadEnd(x), ReadEnd(p));
      SetFdHolders(S.fds, t, j, ReadEnd(x), WriteEnd(p));
    }
  }

  lemma MakePipeKeeps(S: Sys, copied: bool)
    requires Inv(S) && Runs(S) && CallNow(S) == NoCall
    ensures Inv(MakePipe(S, copied))
  {
    hide Inv, Holders, FdAt, SetFd;
    var s, x := S.current, FirstPipe(S.pipes, 0);
    if x >= 0 {
      ResetKeeps(S, x);
      var S1 := S.(pipes := S.pipes[x := NEW_PIPE.(used := false)]);
      var r := FirstFree(S.fds, s, 0, -1);
      var w := FirstFree(S.fds, s, 0, r);
      if r >= 0 && w >= 0 && copied {
        FirstEndKeeps(S1, s, r, x);
        var S2 := S1.(pipes := S1.pipes[x := NEW_PIPE.(readRefs := 1)], fds := SetFd(S.fds, s, r, ReadEnd(x)));
        SetFdAt(S.fds, s, r, ReadEnd(x));
        PlaceKeeps(S2, s, w, WriteEnd(x));
        assert PlaceFd(S2, s, w, WriteEnd(x)).pipes == S.pipes[x := NEW_PIPE.(readRefs := 1, writeRefs := 1)];
        assert PlaceFd(S2, s, w, WriteEnd(x)) == MakePipe(S, copied);
      } else {
        assert MakePipe(S, copied) == S1;
      }
    }
  }

  lemma OpenKeeps(S: Sys, id: nat)
    requires Inv(S) && Runs(S) && CallNow(S) == NoCall
    ensures Inv(OpenFile(S, id))
  {
    hide Inv, Holders, FdAt, SetFd;
    var j := FirstFree(S.fds, S.current, 0, -1);
    if j >= 0 { SetPlainKeeps(S, S.current, j, File(id)); }
  }

  // ---- new processes ----

  lemma ClaimKeeps(S: Sys, c: nat)
    requires Inv(S) && c < PROCESS_MAX && S.procs[c].state == Unused
    ensures Inv(Claim(S, c, Ready))
  {
    hide Holders, FdAt;
    assert StateOk(S, c);
    var S' := Claim(S, c, Ready);
    forall s: nat | s < PROCESS_MAX
      ensures StateOk(S', s) && CallOk(S', s)
    {
      assert StateOk(S, s) && CallOk(S, s);
    }
    forall p: nat | p < PIPE_MAX
      ensures PipeOk(S', p)
    {
      assert PipeOk(S, p);
    }
  }

  /** The entry of a live process names a pipe in use. */
  lemma HeldIsUsed(S: Sys, s: nat, j: nat)
    requires Inv(S) && s < PROCESS_MAX && j < FD_PER_PROC
    ensures var x := FdAt(S.fds, s, j); x.Free? || x.File? || (x.pipe < PIPE_MAX && S.pipes[x.pipe].used)
  {
    assert StateOk(S, s);
    var x := FdAt(S.fds, s, j);
    assert EndOk(x);
    HolderCounts(S.fds, s, j);
    if x.ReadEnd? || x.WriteEnd? { RefsAre(S, x.pipe); }
  }

  lemma PlaceFrame(S: Sys, t: nat, j: nat, x: Fd)
    requires Shape(S) && t < PROCESS_MAX && j < FD_PER_PROC
    ensures var S' := PlaceFd(S, t, j, x); Shape(S') && S'.calls == S.calls && S'.procs == S.procs &&
                                           S'.current == S.current && S'.fds == SetFd(S.fds, t, j, x)
  {
  }

  lemma InvShape(S: Sys)
    requires Inv(S)
    ensures Shape(S)
  {
  }

  lemma {:induction false} CopyRowKeeps(S: Sys, s: nat, c: nat, j: nat)
    requires Inv(S) && s < PROCESS_MAX && Live(S, c) && S.calls[c] == NoCall && s != c && j <= FD_PER_PROC
    requires forall i: nat :: j <= i < FD_PER_PROC ==> FdAt(S.fds, c, i) == Free
    ensures Inv(CopyRow(S, s, c, j))
    decreases FD_PER_PROC - j
  {
    hide Inv, Holders, FdAt, SetFd, PlaceFd;
    if j < FD_PER_PROC {
      var x := FdAt(S.fds, s, j);
      HeldIsUsed(S, s, j);
      PlaceKeeps(S, c, j, x);
      InvShape(S);
      PlaceFrame(S, c, j, x);
      SetFdAt(S.fds, c, j, x);
      CopyRowKeeps(PlaceFd(S, c, j, x), s, c, j + 1);
    }
  }

  lemma UnusedRow(S: Sys, c: nat)
    requires Inv(S) && c < PROCESS_MAX && S.procs[c].state == Unused
    ensures S.calls[c] == NoCall && forall i: nat :: i < FD_PER_PROC ==> FdAt(S.fds, c, i) == Free
  {
    assert StateOk(S, c);
  }

  lemma ForkKeeps(S: Sys, memory: bool)
    requires Inv(S) && Runs(S) && CallNow(S) == NoCall
    ensures Inv(Fork(S, memory))
  {
    var c := FirstUnused(S.procs, 0);
    if c >= 0 {
      if memory {
        hide Inv, Holders, FdAt, SetFd, CopyRow;
        UnusedRow(S, c);
        ClaimKeeps(S, c);
        CopyRowKeeps(Claim(S, c, Ready), S.current, c, 0);
      } else {
        BurnPidKeeps(S);
      }
    }
  }

  lemma BurnPidKeeps(S: Sys)
    requires Inv(S)
    ensures Inv(S.(nextPid := S.nextPid + 1))
  {
    hide Holders, FdAt;
    var S' := S.(nextPid := S.nextPid + 1);
    forall s: nat | s < PROCESS_MAX
      ensures StateOk(S', s) && CallOk(S', s)
    {
      assert StateOk(S, s) && CallOk(S, s);
    }
    forall p: nat | p < PIPE_MAX
      ensures PipeOk(S', p)
    {
      assert PipeOk(S, p);
    }
  }

  lemma StartExecKeeps(S: Sys, i: int, o: int)
    requires Inv(S) && Runs(S) && CallNow(S) == NoCall && i < FD_PER_PROC && o < FD_PER_PROC
    ensures Inv(StartExec(S, i, o))
  {
    hide Holders, FdAt, FirstUnused;
    var c := FirstUnused(S.procs, 0);
    if c >= 0 {
      UnusedRow(S, c);
      var S' := StartExec(S, i, o);
      forall s: nat | s < PROCESS_MAX
        ensures StateOk(S', s) && CallOk(S', s)
      {
        StartExecSlot(S, i, o, c, s);
      }
      forall p: nat | p < PIPE_MAX
        ensures PipeOk(S', p)
      {
        assert PipeOk(S, p);
      }
    }
  }

  lemma StartExecSlot(S: Sys, i: int, o: int, c: nat, s: nat)
    requires Inv(S) && Runs(S) && CallNow(S) == NoCall && i < FD_PER_PROC && o < FD_PER_PROC && s < PROCESS_MAX
    requires c == FirstUnused(S.procs, 0) && S.calls[c] == NoCall
    requires forall j: nat :: j < FD_PER_PROC ==> FdAt(S.fds, c, j) == Free
    ensures StateOk(StartExec(S, i, o), s) && CallOk(StartExec(S, i, o), s)
  {
    hide Holders, FdAt, FirstUnused, PipeOk;
    assert StateOk(S, s) && CallOk(S, s);
  }

  /** A new process always has room for its standard input and output: the branches of sys_exec_pipe
      for a full fd row are never taken. */
  lemma SeedHasRoom(S: Sys)
    requires Inv(S) && Runs(S) && CallNow(S).Building? && (CallNow(S).input >= 0 || CallNow(S).output >= 0)
    ensures CallNow(S).child < PROCESS_MAX && S.calls[CallNow(S).child] == Newborn(S.current) &&
            Live(S, CallNow(S).child)
    ensures 0 <= FirstFree(S.fds, CallNow(S).child, 0, -1) <= 1
    ensures CallNow(S).input >= 0 ==> FirstFree(S.fds, CallNow(S).child, 0, -1) == 0
  {
    assert CallOk(S, S.current);
    assert CallOk(S, CallNow(S).child);
    hide FdAt;
    assert FdAt(S.fds, CallNow(S).child, 1) == Free;
  }

  lemma MarkSeededKeeps(S: Sys, i: int, o: int)
    requires Inv(S) && Runs(S) && CallNow(S).Building? && i <= CallNow(S).input && o <= CallNow(S).output
    ensures Inv(SetCall(S, CallNow(S).(input := i, output := o)))
  {
    hide Holders, FdAt;
    assert CallOk(S, S.current);
    var S' := SetCall(S, CallNow(S).(input := i, output := o));
    forall s: nat | s < PROCESS_MAX
      ensures StateOk(S', s) && CallOk(S', s)
    {
      assert StateOk(S, s) && CallOk(S, s);
    }
    forall p: nat | p < PIPE_MAX
      ensures PipeOk(S', p)
    {
      assert PipeOk(S, p);
    }
  }

  lemma SeedInputKeeps(S: Sys)
    requires Inv(S) && Runs(S) && CallNow(S).Building? && 0 <= CallNow(S).input < FD_PER_PROC
    ensures CallNow(S).child < PROCESS_MAX && Inv(Seed(S, CallNow(S).input, CallNow(S).(input := -1)))
  {
    SeedHasRoom(S);
    HeldIsUsed(S, S.current, CallNow(S).input);
    hide Inv, Holders, FdAt, SetFd, PlaceFd, FirstFree;
    var c := CallNow(S).child;
    MarkSeededKeeps(S, -1, CallNow(S).output);
    PlaceKeeps(SetCall(S, CallNow(S).(input := -1)), c, 0, FdAt(S.fds, S.current, CallNow(S).input));
  }

  lemma SeedOutputKeeps(S: Sys)
    requires Inv(S) && Runs(S) && CallNow(S).Building? && CallNow(S).input < 0 && 0 <= CallNow(S).output < FD_PER_PROC
    ensures CallNow(S).child < PROCESS_MAX && Inv(Seed(S, CallNow(S).output, CallNow(S).(output := -1)))
  {
    SeedHasRoom(S);
    HeldIsUsed(S, S.current, CallNow(S).output);
    var j := FirstFree(S.fds, CallNow(S).child, 0, -1);
    hide Inv, Holders, FdAt, SetFd, PlaceFd, FirstFree;
    var c := CallNow(S).child;
    MarkSeededKeeps(S, CallNow(S).input, -1);
    PlaceKeeps(SetCall(S, CallNow(S).(output := -1)), c, j, FdAt(S.fds, S.current, CallNow(S).output));
  }

  lemma PublishKeeps(S: Sys)
    requires Inv(S) && Runs(S) && CallNow(S).Building?
    ensures CallNow(S).child < PROCESS_MAX
    ensures Inv(Publish(S))
  {
    hide Holders, FdAt;
    assert CallOk(S, S.current);
    assert CallOk(S, CallNow(S).child);
    var S' := Publish(S);
    forall s: nat | s < PROCESS_MAX
      ensures StateOk(S', s) && CallOk(S', s)
    {
      assert StateOk(S, s) && CallOk(S, s);
    }
    forall p: nat | p < PIPE_MAX
      ensures PipeOk(S', p)
    {
      assert PipeOk(S, p);
    }
  }

  // ---- waiting and exiting ----

  lemma StartWaitKeeps(S: Sys, pid: nat)
    requires Inv(S) && Runs(S) && CallNow(S) == NoCall
    ensures Inv(SetCall(S, InWait(pid, 0)))
  {
    hide Holders, FdAt;
    var S' := SetCall(S, InWait(pid, 0));
    forall s: nat | s < PROCESS_MAX
      ensures StateOk(S', s) && CallOk(S', s)
    {
      assert StateOk(S, s) && CallOk(S, s);
    }
    forall p: nat | p < PIPE_MAX
      ensures PipeOk(S', p)
    {
      assert PipeOk(S, p);
    }
  }

  lemma WaitKeeps(S: Sys)
    requires Inv(S) && Runs(S) && CallNow(S).InWait?
    ensures Inv(WaitSection(S))
  {
    hide Holders, FdAt;
    assert StateOk(S, S.current);
    var S' := WaitSection(S);
    forall s: nat | s < PROCESS_MAX
      ensures StateOk(S', s) && CallOk(S', s)
    {
      assert StateOk(S, s) && CallOk(S, s);
    }
    forall p: nat | p < PIPE_MAX
      ensures PipeOk(S', p)
    {
      assert PipeOk(S, p);
    }
  }

  lemma StartExitKeeps(S: Sys)
    requires Inv(S) && Runs(S) && CallNow(S) == NoCall
    ensures Inv(SetCall(S, InExit(0)))
  {
    hide Holders, FdAt;
    var S' := SetCall(S, InExit(0));
    forall s: nat | s < PROCESS_MAX
      ensures StateOk(S', s) && CallOk(S', s)
    {
      assert StateOk(S, s) && CallOk(S, s);
    }
    forall p: nat | p < PIPE_MAX
      ensures PipeOk(S', p)
    {
      assert PipeOk(S, p);
    }
  }

  lemma NextExitKeeps(S: Sys, n: nat)
    requires Inv(S) && Runs(S) && CallNow(S) == InExit(n) && n < FD_PER_PROC && FdAt(S.fds, S.current, n) == Free
    ensures Inv(SetCall(S, InExit(n + 1)))
  {
    hide Holders, FdAt;
    assert CallOk(S, S.current);
    var S' := SetCall(S, InExit(n + 1));
    forall s: nat | s < PROCESS_MAX
      ensures StateOk(S', s) && CallOk(S', s)
    {
      assert StateOk(S, s) && CallOk(S, s);
    }
    forall p: nat | p < PIPE_MAX
      ensures PipeOk(S', p)
    {
      assert PipeOk(S, p);
    }
  }

  lemma LeaveExitKeeps(S: Sys)
    requires Inv(S) && Runs(S) && CallNow(S) == InExit(FD_PER_PROC)
    ensures Inv(SetCall(S, NoCall).(procs := ExitProcs(S.procs, S.current)))
  {
    hide Holders, FdAt;
    assert CallOk(S, S.current) && StateOk(S, S.current);
    assert forall s: nat :: s < PROCESS_MAX && S.procs[s].waitingFor == S.procs[S.current].pid ==> StateOk(S, s);
    var S' := SetCall(S, NoCall).(procs := ExitProcs(S.procs, S.current));
    forall s: nat | s < PROCESS_MAX
      ensures StateOk(S', s) && CallOk(S', s)
    {
      assert StateOk(S, s) && CallOk(S, s);
    }
    forall p: nat | p < PIPE_MAX
      ensures PipeOk(S', p)
    {
      assert PipeOk(S, p);
    }
  }

  lemma ExitKeeps(S: Sys)
    requires Inv(S) && Runs(S) && CallNow(S).InExit?
    ensures CallNow(S).next <= FD_PER_PROC && Inv(ExitStep(S))
  {
    var s, n := S.current, CallNow(S).next;
    assert CallOk(S, s);
    hide Inv, Holders, FdAt, SetFd, CloseFd;
    if n < FD_PER_PROC {
      if FdAt(S.fds, s, n) == Free {
        NextExitKeeps(S, n);
      } else {
        CloseKeeps(S, s, n);
        SetFdAt(S.fds, s, n, Free);
        NextExitKeeps(CloseFd(S, s, n), n);
      }
    } else {
      LeaveExitKeeps(S);
    }
  }

  // ---- the disk gate ----

  lemma StartDiskKeeps(S: Sys)
    requires Inv(S) && Runs(S) && CallNow(S) == NoCall
    ensures Inv(SetCall(S, InGate(-1)))
  {
    hide Holders, FdAt;
    var S' := SetCall(S, InGate(-1));
    forall s: nat | s < PROCESS_MAX
      ensures StateOk(S', s) && CallOk(S', s)
    {
      assert StateOk(S, s) && CallOk(S, s);
    }
    forall p: nat | p < PIPE_MAX
      ensures PipeOk(S', p)
    {
      assert PipeOk(S, p);
    }
  }

  lemma GateKeeps(S: Sys)
    requires Inv(S) && Runs(S) && CallNow(S).InGate? && |S.gate.waiters| < PROCESS_MAX
    ensures Inv(GateSection(S))
  {
    hide Holders, FdAt;
    assert CallOk(S, S.current) && StateOk(S, S.current);
    var S' := GateSection(S);
    forall s: nat | s < PROCESS_MAX
      ensures StateOk(S', s) && CallOk(S', s)
    {
      assert StateOk(S, s) && CallOk(S, s);
    }
    forall p: nat | p < PIPE_MAX
      ensures PipeOk(S', p)
    {
      assert PipeOk(S, p);
    }
  }

  lemma ReleaseKeeps(S: Sys)
    requires Inv(S) && Runs(S) && CallNow(S).InDisk?
    ensures Inv(GateRelease(S))
  {
    hide Holders, FdAt;
    assert CallOk(S, S.current) && StateOk(S, S.current);
    var S' := GateRelease(S);
    forall s: nat | s < PROCESS_MAX
      ensures StateOk(S', s) && CallOk(S', s)
    {
      assert StateOk(S, s) && CallOk(S, s);
    }
    forall p: nat | p < PIPE_MAX
      ensures PipeOk(S', p)
    {
      assert PipeOk(S, p);
    }
  }

  lemma DiskKeeps(S: Sys)
    requires Inv(S) && Runs(S) && CallNow(S).InDisk?
    ensures Inv(DiskSection(S))
  {
    hide Holders, FdAt;
    assert CallOk(S, S.current) && StateOk(S, S.current);
    var S' := DiskSection(S);
    forall s: nat | s < PROCESS_MAX
      ensures StateOk(S', s) && CallOk(S', s)
    {
      assert StateOk(S, s) && CallOk(S, s);
    }
    forall p: nat | p < PIPE_MAX
      ensures PipeOk(S', p)
    {
      assert PipeOk(S, p);
    }
  }

  lemma IrqKeeps(S: Sys)
    requires Inv(S)
    ensures Inv(DiskIrq(S))
  {
    hide Holders, FdAt;
    var S' := DiskIrq(S);
    forall s: nat | s < PROCESS_MAX
      ensures StateOk(S', s) && CallOk(S', s)
    {
      assert StateOk(S, s) && CallOk(S, s);
    }
    forall p: nat | p < PIPE_MAX
      ensures PipeOk(S', p)
    {
      assert PipeOk(S, p);
    }
  }

}
