/** Boots, crashes, resets and Safe Mode exits: what any run of them does to the crash record and the failure count. */
module CrashRuns {
  import opened Bytes
  import opened ConfigText
  import opened ConfigStore
  import opened CrashRecord

  datatype Reason = Crashed | Requested | FailCount
  datatype Mode = Off | SafeMode(reason: Reason) | Running(up: bool)

  /** The configuration on disk and in memory, as lines, and what the machine is doing. */
  datatype Machine = Machine(disk: seq<string>, mem: seq<string>, mode: Mode)

  /** Writes of the sector may fail (wrote, read false); a reset asked of the hardware may fail as well (reset
      false). */
  datatype Event =
    | Boot(requested: bool, wrote: bool)
    | Crash(info: Info, read: bool, wrote: bool)
    | PowerOff
    | FirstRead(wrote: bool)
    | RebootNormally(wrote: bool, reset: bool)
    | RebootKeep

  predicate Can(m: Machine, e: Event) {
    match e
    case Boot(_, _) => m.mode == Off
    case Crash(_, _, _) => m.mode != Off
    case PowerOff => true
    case FirstRead(_) => m.mode == Running(false)
    case RebootNormally(_, _) => m.mode.SafeMode?
    case RebootKeep => m.mode.SafeMode?
  }

  ghost function BootStep(m: Machine, requested: bool, wrote: bool): Machine {
    var mem := m.disk;
    var fails, crashed := Num(mem, K_FAIL), Num(mem, K_PENDING) == 1;
    if crashed || fails >= FAIL_THRESHOLD || requested then
      Machine(m.disk, mem, SafeMode(if crashed then Crashed else if requested then Requested else FailCount))
    else
      var mem' := TryPut(mem, K_FAIL, fails + 1);
      Machine(if wrote then mem' else m.disk, mem', Running(false))
  }

  ghost function CrashStep(m: Machine, info: Info, read: bool, wrote: bool): Machine {
    var saved := Save(if read then m.disk else [], info);
    Machine(if saved.Some? && wrote then saved.value else m.disk, m.mem, Off)
  }

  ghost function ReadStep(m: Machine, wrote: bool): Machine {
    var mem := ClearIfAcknowledged(TryPut(m.mem, K_FAIL, 0));
    Machine(if wrote then mem else m.disk, mem, Running(true))
  }

  ghost function NormalStep(m: Machine, wrote: bool, reset: bool): Machine {
    var mem := Acknowledge(TryPut(m.mem, K_FAIL, 0));
    Machine(if wrote then mem else m.disk, mem, if reset then Off else m.mode)
  }

  ghost function Next(m: Machine, e: Event): Machine {
    match e
    case Boot(requested, wrote) => BootStep(m, requested, wrote)
    case Crash(info, read, wrote) => CrashStep(m, info, read, wrote)
    case PowerOff => m.(mode := Off)
    case FirstRead(wrote) => ReadStep(m, wrote)
    case RebootNormally(wrote, reset) => NormalStep(m, wrote, reset)
    case RebootKeep => m.(mode := Off)
  }

  // ---- the invariant --------------------------------------------------------------------------------------------

  ghost predicate ConfigOk(lines: seq<string>) {
    KernelLines(lines) && Num(lines, K_FAIL) <= FAIL_THRESHOLD && Num(lines, K_PENDING) <= 2
  }

  /** How memory and disk agree on the record. */
  ghost predicate Agree(disk: Summary, mem: Summary, mode: Mode) {
    match mode
    case Off => true
    case SafeMode(_) => mem.info == disk.info &&
      (mem.pending == disk.pending || (disk.pending == 1 && mem.pending == 2))
    case Running(up) => disk.pending != 1 && (!up ==> mem.info == disk.info && mem.pending == disk.pending)
  }

  ghost predicate Inv(m: Machine) {
    ConfigOk(m.disk) && ConfigOk(m.mem) && Agree(Summarize(m.disk), Summarize(m.mem), m.mode)
  }

  lemma EmptyConfig()
    ensures ConfigOk([]) && Summarize([]) == Summary(0, 0, Info(0, 0, 0, 0, 0))
  {
    assert forall key :: Find([], key, 0) == -1;
  }

  lemma TryPutOk(lines: seq<string>, value: u32)
    requires ConfigOk(lines) && value <= FAIL_THRESHOLD
    ensures ConfigOk(TryPut(lines, K_FAIL, value)) &&
            Summarize(TryPut(lines, K_FAIL, value)) == Summarize(lines).(fails := value)
  {
    hide KernelLines, Num, TryPut;
    PutSummary(lines, value);
    SameSummary(TryPut(lines, K_FAIL, value));
    SameSummary(lines);
  }

  lemma SameSummary(lines: seq<string>)
    ensures Num(lines, K_FAIL) == Summarize(lines).fails && Num(lines, K_PENDING) == Summarize(lines).pending &&
            Fields(lines) == Summarize(lines).info
  {
  }

  lemma AcknowledgeOk(lines: seq<string>)
    requires ConfigOk(lines)
    ensures ConfigOk(Acknowledge(lines))
    ensures Summarize(Acknowledge(lines)) == Summarize(lines).(pending := if Summarize(lines).pending == 1 then 2
            else Summarize(lines).pending)
  {
    hide KernelLines, Num, Put32;
    PutSummary(lines, 2);
  }

  lemma ClearOk(lines: seq<string>)
    requires ConfigOk(lines)
    ensures ConfigOk(ClearIfAcknowledged(lines))
    ensures Summarize(ClearIfAcknowledged(lines)) ==
            if Summarize(lines).pending == 2 then Summary(Summarize(lines).fails, 0, Info(0, 0, 0, 0, 0))
              else Summarize(lines)
  {
    hide KernelLines, Num, ClearIfAcknowledged;
    ClearMeans(lines);
    SameSummary(lines);
    SameSummary(ClearIfAcknowledged(lines));
  }

  lemma SaveOk(lines: seq<string>, info: Info)
    requires ConfigOk(lines)
    ensures Save(lines, info).Some? && ConfigOk(Save(lines, info).value)
    ensures Summarize(Save(lines, info).value) == Summary(Summarize(lines).fails, 1, info)
  {
    hide KernelLines, Num, Save;
    SaveMeans(lines, info);
    SameSummary(Save(lines, info).value);
    SameSummary(lines);
  }

  lemma StepKeeps(m: Machine, e: Event)
    requires Inv(m) && Can(m, e)
    ensures Inv(Next(m, e))
  {
    hide ConfigOk, Summarize, TryPut, Save, Acknowledge, ClearIfAcknowledged, Num;
    OkFacts(m.disk);
    match e
    case Boot(requested, wrote) =>
      if Num(m.disk, K_FAIL) < FAIL_THRESHOLD { TryPutOk(m.disk, Num(m.disk, K_FAIL) + 1); }
    case Crash(info, read, wrote) =>
      EmptyConfig();
      SaveOk(if read then m.disk else [], info);
    case PowerOff =>
    case FirstRead(wrote) =>
      TryPutOk(m.mem, 0);
      ClearOk(TryPut(m.mem, K_FAIL, 0));
    case RebootNormally(wrote, reset) =>
      TryPutOk(m.mem, 0);
      AcknowledgeOk(TryPut(m.mem, K_FAIL, 0));
    case RebootKeep =>
  }

  lemma OkFacts(lines: seq<string>)
    requires ConfigOk(lines)
    ensures KernelLines(lines) && Summarize(lines).fails == Num(lines, K_FAIL) <= FAIL_THRESHOLD &&
            Summarize(lines).pending == Num(lines, K_PENDING) <= 2
  {
  }

  // ---- runs -----------------------------------------------------------------------------------------------------

  ghost function Run(m: Machine, es: seq<Event>): Machine {
    if es == [] then m else Next(Run(m, es[..|es| - 1]), es[|es| - 1])
  }

  ghost predicate CanRun(m: Machine, es: seq<Event>) {
    es == [] || (CanRun(m, es[..|es| - 1]) && Can(Run(m, es[..|es| - 1]), es[|es| - 1]))
  }

  lemma {:induction false} RunKeeps(m: Machine, es: seq<Event>)
    requires Inv(m) && CanRun(m, es)
    ensures Inv(Run(m, es))
  {
    hide Inv, Next, Can;
    if es != [] {
      RunKeeps(m, es[..|es| - 1]);
      StepKeeps(Run(m, es[..|es| - 1]), es[|es| - 1]);
    }
  }

  /** From a disk that was never written, no run lifts the failure count above the threshold, and a crash record
      always fits. */
  lemma CountBounded(es: seq<Event>, info: Info)
    requires CanRun(Machine([], [], Off), es)
    ensures var m := Run(Machine([], [], Off), es); Num(m.disk, K_FAIL) <= FAIL_THRESHOLD && Save(m.disk, info).Some?
  {
    hide Run, CanRun, ConfigOk, Save;
    EmptyConfig();
    RunKeeps(Machine([], [], Off), es);
    OkFacts(Run(Machine([], [], Off), es).disk);
    SaveOk(Run(Machine([], [], Off), es).disk, info);
  }

  // ---- the record's life ----------------------------------------------------------------------------------------

  /** A saved crash is on disk field by field, whatever was there before. */
  lemma CrashRecorded(m: Machine, info: Info, read: bool)
    requires Inv(m) && m.mode != Off
    ensures var s := Summarize(Next(m, Crash(info, read, true)).disk);
            s.pending == 1 && s.info == info && s.fails == if read then Summarize(m.disk).fails else 0
  {
    hide ConfigOk, Summarize, Save;
    EmptyConfig();
    SaveOk(if read then m.disk else [], info);
  }

  /** An event that does not get to write the sector leaves it; and what the machine does afterwards. */
  lemma Afterwards(m: Machine, e: Event)
    requires Can(m, e)
    ensures e.PowerOff? || e.RebootKeep? || !e.wrote ==> Next(m, e).disk == m.disk
    ensures e.PowerOff? || e.RebootKeep? || e.Crash? ==> Next(m, e).mode == Off
    ensures e.FirstRead? ==> Next(m, e).mode == Running(true)
    ensures e.RebootNormally? ==> Next(m, e).mode == if e.reset then Off else m.mode
    ensures e.Boot? ==> Next(m, e).mode.SafeMode? || Next(m, e).mode == Running(false)
  {
    hide TryPut, Save, Acknowledge, ClearIfAcknowledged, Num;
  }

  /** With a pending record on disk, a boot goes to Safe Mode because of it and writes nothing. */
  lemma PendingBoots(m: Machine, requested: bool, wrote: bool)
    requires Summarize(m.disk).pending == 1
    ensures Next(m, Boot(requested, wrote)) == Machine(m.disk, m.disk, SafeMode(Crashed))
  {
  }

  // ---- boots that fail ------------------------------------------------------------------------------------------

  /** A boot without a pending record and without a request is counted on disk, and goes on, as long as fewer than three
      before it were; the fourth goes to Safe Mode because of the count. */
  lemma BootCounts(m: Machine, wrote: bool)
    requires Inv(m) && m.mode == Off && Summarize(m.disk).pending != 1
    ensures var n, m' := Summarize(m.disk).fails, Next(m, Boot(false, wrote));
            if n < 3 then
              && m'.mode == Running(false)
              && Summarize(m'.disk) == (if wrote then Summarize(m.disk).(fails := n + 1) else Summarize(m.disk))
            else n == 3 && m'.mode == SafeMode(FailCount) && m'.disk == m.disk
  {
    hide ConfigOk, Summarize, TryPut, Num;
    OkFacts(m.disk);
    if Num(m.disk, K_FAIL) < FAIL_THRESHOLD { TryPutOk(m.disk, Num(m.disk, K_FAIL) + 1); }
  }

  /** A boot that is asked to go to Safe Mode does, and is not counted. */
  lemma RequestedBoots(m: Machine, wrote: bool)
    requires Summarize(m.disk).pending != 1
    ensures Next(m, Boot(true, wrote)) == Machine(m.disk, m.disk, SafeMode(Requested))
  {
  }

  /** What a boot comes to: a pending record, a request and a count of three lead to Safe Mode, in this order; any other
      boot goes on and is counted. */
  ghost predicate Booted(s: Summary, requested: bool, wrote: bool, s': Summary, mode: Mode) {
    if s.pending == 1 then s' == s && mode == SafeMode(Crashed)
    else if requested then s' == s && mode == SafeMode(Requested)
    else if s.fails >= 3 then s' == s && mode == SafeMode(FailCount)
    else s' == (if wrote then s.(fails := s.fails + 1) else s) && mode == Running(false)
  }

  lemma BootIs(m: Machine, requested: bool, wrote: bool)
    requires Inv(m) && m.mode == Off
    ensures var m' := Next(m, Boot(requested, wrote));
            Booted(Summarize(m.disk), requested, wrote, Summarize(m'.disk), m'.mode)
  {
    hide Inv, Summarize, Next;
    if Summarize(m.disk).pending == 1 {
      PendingBoots(m, requested, wrote);
    } else if requested {
      RequestedBoots(m, wrote);
    } else {
      BootCounts(m, wrote);
    }
  }

  /** The events that clear the count, or add a record. */
  predicate Intervenes(e: Event) { e.FirstRead? || e.RebootNormally? || e.Crash? }

  /** Boots that are counted: not asked for Safe Mode, and written. */
  function Counted(es: seq<Event>): nat {
    if es == [] then 0
    else Counted(es[..|es| - 1]) + if es[|es| - 1].Boot? && !es[|es| - 1].requested && es[|es| - 1].wrote then 1 else 0
  }

  lemma CountStep(m: Machine, e: Event)
    requires Inv(m) && Can(m, e) && Summarize(m.disk).pending != 1 && !Intervenes(e)
    ensures var s, s' := Summarize(m.disk), Summarize(Next(m, e).disk);
            s' == if e.Boot? && !e.requested && e.wrote && s.fails < 3 then s.(fails := s.fails + 1) else s
  {
    hide ConfigOk, Summarize, TryPut, Num, Next;
    match e
    case Boot(requested, wrote) => if requested { RequestedBoots(m, wrote); } else { BootCounts(m, wrote); }
    case _ => PlainStep(m, e);
  }

  lemma PlainStep(m: Machine, e: Event)
    requires e.PowerOff? || e.RebootKeep?
    ensures Next(m, e).disk == m.disk
  {
  }

  /** Over any run without a keyboard read, a normal exit from Safe Mode or a crash, the count on disk goes up by
      one with each such boot until it is three, and the record stays as it is. */
  lemma {:induction false} BootsAddUp(m: Machine, es: seq<Event>)
    requires Inv(m) && CanRun(m, es) && Summarize(m.disk).pending != 1
    requires forall i :: 0 <= i < |es| ==> !Intervenes(es[i])
    ensures var n := Summarize(m.disk).fails + Counted(es);
            Summarize(Run(m, es).disk) == Summarize(m.disk).(fails := if n < 3 then n else 3)
  {
    hide Next, Can, Summarize, Inv;
    FailsBound(m);
    if es != [] {
      var front := es[..|es| - 1];
      BootsAddUp(m, front);
      RunKeeps(m, front);
      CountStep(Run(m, front), es[|es| - 1]);
    }
  }

  lemma FailsBound(m: Machine)
    requires Inv(m)
    ensures Summarize(m.disk).fails <= 3
  {
    hide Num;
  }

  /** So after three such boots, or as many as are missing to three, the next boot is in Safe Mode for that reason. */
  lemma FourthBootIsSafe(m: Machine, es: seq<Event>, wrote: bool)
    requires Inv(m) && CanRun(m, es) && Summarize(m.disk).pending != 1 && Run(m, es).mode == Off
    requires forall i :: 0 <= i < |es| ==> !Intervenes(es[i])
    ensures Next(Run(m, es), Boot(false, wrote)).mode ==
            if Summarize(m.disk).fails + Counted(es) >= 3 then SafeMode(FailCount) else Running(false)
  {
    hide Next, Can, Summarize, Inv, Run, CanRun;
    BootsAddUp(m, es);
    RunKeeps(m, es);
    BootCounts(Run(m, es), wrote);
  }

  /** The events that may end a pending record: it is acknowledged, or a newer crash takes its place. */
  predicate EndsPending(e: Event) { (e.RebootNormally? || e.Crash?) && e.wrote }

  /** The events that may end an acknowledged record: the first keyboard read of a boot, or a newer crash. */
  predicate EndsAcknowledged(e: Event) { (e.FirstRead? || e.Crash?) && e.wrote }

  lemma PendingStep(m: Machine, e: Event)
    requires Inv(m) && Can(m, e) && Summarize(m.disk).pending == 1 && !EndsPending(e)
    ensures Next(m, e).disk == m.disk
  {
    hide ConfigOk, TryPut, Save, Acknowledge, ClearIfAcknowledged, NumberOf;
  }

  lemma AcknowledgedStep(m: Machine, e: Event)
    requires Inv(m) && Can(m, e) && Summarize(m.disk).pending == 2 && !EndsAcknowledged(e)
    ensures Summarize(Next(m, e).disk).pending == 2 && Summarize(Next(m, e).disk).info == Summarize(m.disk).info
  {
    hide ConfigOk, Summarize, TryPut, Save, Acknowledge, ClearIfAcknowledged, Num;
    OkFacts(m.disk);
    match e
    case Boot(requested, wrote) =>
      if Num(m.disk, K_FAIL) < FAIL_THRESHOLD { TryPutOk(m.disk, Num(m.disk, K_FAIL) + 1); }
    case RebootNormally(wrote, reset) =>
      TryPutOk(m.mem, 0);
      AcknowledgeOk(TryPut(m.mem, K_FAIL, 0));
    case _ =>
  }

  /** A pending record outlasts every run without an acknowledgement or a newer crash: the sector does not change
      at all. */
  lemma {:induction false} PendingStays(m: Machine, es: seq<Event>)
    requires Inv(m) && CanRun(m, es) && Summarize(m.disk).pending == 1 && forall i :: 0 <= i < |es| ==>
             !EndsPending(es[i])
    ensures Run(m, es).disk == m.disk
  {
    hide Inv, Next, Can, Summarize;
    if es != [] {
      var front := es[..|es| - 1];
      PendingStays(m, front);
      RunKeeps(m, front);
      PendingStep(Run(m, front), es[|es| - 1]);
    }
  }

  lemma {:induction false} RunPrefix(m: Machine, es: seq<Event>, k: nat)
    requires CanRun(m, es) && k <= |es|
    ensures CanRun(m, es[..k]) && (k < |es| ==> Run(m, es[..k + 1]) == Next(Run(m, es[..k]), es[k]))
    decreases |es|
  {
    hide Next, Can;
    if k < |es| {
      var front := es[..|es| - 1];
      assert front[..k] == es[..k];
      RunPrefix(m, front, k);
      assert es[..k + 1][..k] == es[..k];
    } else {
      assert es[..k] == es;
    }
  }

  /** ... and every boot in such a run goes to Safe Mode with the crash as its reason. */
  lemma EveryBootIsSafe(m: Machine, es: seq<Event>, k: nat)
    requires Inv(m) && CanRun(m, es) && Summarize(m.disk).pending == 1 && forall i :: 0 <= i < |es| ==>
             !EndsPending(es[i])
    requires k < |es| && es[k].Boot?
    ensures Run(m, es[..k + 1]).mode == SafeMode(Crashed)
  {
    hide Inv, Next, Can, Summarize, Run, CanRun;
    RunPrefix(m, es, k);
    PendingStays(m, es[..k]);
    PendingBoots(Run(m, es[..k]), es[k].requested, es[k].wrote);
  }

  /** An acknowledged record keeps its fields until the first keyboard read or a newer crash. */
  lemma {:induction false} AcknowledgedStays(m: Machine, es: seq<Event>)
    requires Inv(m) && CanRun(m, es) && Summarize(m.disk).pending == 2 && forall i :: 0 <= i < |es| ==>
             !EndsAcknowledged(es[i])
    ensures Summarize(Run(m, es).disk).pending == 2 && Summarize(Run(m, es).disk).info == Summarize(m.disk).info
  {
    hide Inv, Next, Can, Summarize;
    if es != [] {
      var front := es[..|es| - 1];
      AcknowledgedStays(m, front);
      RunKeeps(m, front);
      AcknowledgedStep(Run(m, front), es[|es| - 1]);
    }
  }

  /** Leaving Safe Mode the normal way acknowledges a pending record, keeps its fields and clears the failure count. */
  lemma NormalExit(m: Machine, reset: bool)
    requires Inv(m) && m.mode.SafeMode?
    ensures var s, s' := Summarize(m.disk), Summarize(Next(m, RebootNormally(true, reset)).disk);
            s'.fails == 0 && s'.info == s.info && s'.pending == if s.pending == 1 then 2 else s.pending
  {
    hide ConfigOk, Summarize, TryPut, Acknowledge;
    TryPutOk(m.mem, 0);
    AcknowledgeOk(TryPut(m.mem, K_FAIL, 0));
  }

  /** The first keyboard read of a boot drops an acknowledged record and clears the failure count. */
  lemma FirstReadClears(m: Machine)
    requires Inv(m) && m.mode == Running(false)
    ensures var s := Summarize(Next(m, FirstRead(true)).disk);
            s.fails == 0 && s.pending == 0 && (Summarize(m.disk).pending == 2 ==> s.info == Info(0, 0, 0, 0, 0))
  {
    hide ConfigOk, Summarize, TryPut, ClearIfAcknowledged;
    TryPutOk(m.mem, 0);
    ClearOk(TryPut(m.mem, K_FAIL, 0));
    OkFacts(m.disk);
    OkFacts(m.mem);
  }
}
