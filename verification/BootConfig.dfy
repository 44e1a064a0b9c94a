/** The kernel's copy of the configuration sector and the crash path that edits it. */
module BootConfig {
  import opened Bytes
  import opened ConfigText
  import opened ConfigNumbers
  import opened ConfigStore
  import opened CrashRecord
  import opened CrashRuns

  predicate HasMagic(s: string) { |s| >= |MAGIC| && s[..|MAGIC|] == MAGIC }

  /** A sector without the magic line stands for an empty configuration. */
  ghost predicate SectorHolds(s: string, lines: seq<string>) {
    |s| == SIZE && if HasMagic(s) then Holds(s, lines) else lines == []
  }

  lemma HoldsMagic(s: string, lines: seq<string>)
    requires Holds(s, lines)
    ensures HasMagic(s) && SectorHolds(s, lines)
  {
    var t := MAGIC + Flat(lines);
    assert s[..|MAGIC|] == s[..|t|][..|MAGIC|] == MAGIC;
  }

  lemma HoldsCut(s: string, lines: seq<string>)
    requires Holds(s, lines)
    ensures Holds(s[SIZE - 1 := '\0'], lines)
  {
    var t, r := MAGIC + Flat(lines), s[SIZE - 1 := '\0'];
    assert r[..|t|] == s[..|t|];
  }

  lemma HoldsFresh(s: string)
    requires |s| == SIZE && HasMagic(s) && s[|MAGIC|] == '\0'
    ensures Holds(s, [])
  {
    assert MAGIC + Flat([]) == MAGIC;
  }

  class Config {
    /** Sector 1 of the disk, g_cfg, and the crash path's own g_sector. */
    const sector: array<char>
    const cfg: array<char>
    const scratch: array<char>
    var mode: Mode
    ghost var disk: seq<string>
    ghost var mem: seq<string>

    ghost predicate Valid()
      reads this, sector, cfg, scratch
    {
      && sector.Length == cfg.Length == scratch.Length == SIZE && sector != cfg && sector != scratch && cfg != scratch
      && SectorHolds(sector[..], disk) && Holds(cfg[..], mem) && Inv(State())
    }

    ghost function State(): Machine
      reads this
    {
      Machine(disk, mem, mode)
    }

    /** A machine that is off, with a configuration sector that was never written. */
    constructor (sector: array<char>)
      requires sector.Length == SIZE && !HasMagic(sector[..])
      ensures Valid() && State() == Machine([], [], Off) && this.sector == sector && fresh(cfg) && fresh(scratch)
    {
      this.sector, cfg, scratch := sector, new char[SIZE], new char[SIZE];
      mode, disk, mem := Off, [], [];
      new;
      Reset(cfg);
      EmptyConfig();
    }

    /** cfg_reset. */
    method Reset(buf: array<char>)
      requires buf.Length == SIZE
      modifies buf
      ensures Holds(buf[..], [])
    {
      var i := 0;
      while i < SIZE
        invariant 0 <= i <= SIZE && forall x :: 0 <= x < i ==> buf[x] == '\0'
      {
        buf[i] := '\0';
        i := i + 1;
      }
      i := 0;
      while i < |MAGIC|
        invariant 0 <= i <= |MAGIC| && buf[..i] == MAGIC[..i] && buf[|MAGIC|] == '\0'
      {
        buf[i] := MAGIC[i];
        i := i + 1;
      }
      HoldsFresh(buf[..]);
    }

    method CheckMagic(buf: array<char>) returns (ok: bool)
      requires buf.Length == SIZE
      ensures ok == HasMagic(buf[..])
    {
      var i := 0;
      while i < |MAGIC|
        invariant 0 <= i <= |MAGIC| && forall x :: 0 <= x < i ==> buf[x] == MAGIC[x]
      {
        if buf[i] != MAGIC[i] {
          assert buf[..][..|MAGIC|][i] != MAGIC[i];
          return false;
        }
        i := i + 1;
      }
      assert buf[..][..|MAGIC|] == MAGIC;
      ok := true;
    }

    method CopySector(from: array<char>, to: array<char>)
      requires from.Length == to.Length == SIZE && from != to
      modifies to
      ensures to[..] == from[..]
    {
      var i := 0;
      while i < SIZE
        invariant 0 <= i <= SIZE && forall x :: 0 <= x < i ==> to[x] == from[x]
      {
        to[i] := from[i];
        i := i + 1;
      }
    }

    /** The sector as it is on disk, or a fresh configuration when it cannot be read or lacks the magic line. */
    method LoadInto(buf: array<char>, read: bool)
      requires sector.Length == buf.Length == SIZE && sector != buf && SectorHolds(sector[..], disk)
      modifies buf
      ensures Holds(buf[..], if read then disk else [])
    {
      hide HoldsText;
      var ok := false;
      if read {
        CopySector(sector, buf);
        ok := CheckMagic(buf);
      }
      if !ok { Reset(buf); }
      HoldsCut(buf[..], if read then disk else []);
      ghost var s := buf[..];
      buf[SIZE - 1] := '\0';
      assert buf[..] == s[SIZE - 1 := '\0'];
    }

    /** bootcfg_write: the copy in memory onto the disk, when the disk takes it. */
    method Write(wrote: bool)
      requires sector.Length == cfg.Length == SIZE && sector != cfg && SectorHolds(sector[..], disk) &&
               Holds(cfg[..], mem)
      modifies sector, cfg, this`disk
      ensures SectorHolds(sector[..], disk) && Holds(cfg[..], mem) && disk == if wrote then mem else old(disk)
    {
      hide HoldsText, SectorHolds;
      ghost var s := cfg[..];
      HoldsCut(s, mem);
      cfg[SIZE - 1] := '\0';
      assert cfg[..] == s[SIZE - 1 := '\0'];
      if wrote {
        HoldsMagic(cfg[..], mem);
        CopySector(cfg, sector);
        disk := mem;
      }
    }

    /** One line of the crash record into the scratch sector. */
    method SaveOne(i: nat, info: Info, ghost lines: seq<string>) returns (ok: bool)
      requires i < 6 && scratch.Length == SIZE && Holds(scratch[..], lines)
      modifies scratch
      ensures !ok ==> SaveFrom(lines, info, i).None?
      ensures ok ==> Holds(scratch[..], Put32(lines, KeyAt(i + 1), SaveValue(info, i), 2 <= i <= 4))
      ensures ok ==> SaveFrom(lines, info, i) == SaveFrom(Put32(lines, KeyAt(i + 1), SaveValue(info, i), 2 <= i <= 4),
                     info, i + 1)
    {
      hide HoldsText, ValidKey, Format, Fits, SetLines;
      KeysDiffer();
      KeysValid(KeyAt(i + 1));
      var r := SetU32(scratch, KeyAt(i + 1), SaveValue(info, i), 2 <= i <= 4, lines, false);
      ok := r == 0;
    }

    /** crash_save: the record onto disk in one sector write, or nothing. */
    method CrashSave(info: Info, read: bool, wrote: bool) returns (saved: bool)
      requires Valid() && mode != Off
      modifies sector, scratch, this`disk, this`mode
      ensures Valid() && State() == Next(old(State()), Crash(info, read, wrote))
      ensures saved == wrote
    {
      hide HoldsText, SectorHolds, Inv, Save, SaveFrom, Put32, KeyAt, SaveValue;
      StepKeeps(State(), Crash(info, read, wrote));
      RecordFits(State(), info, read);
      ghost var base := if read then disk else [];
      ghost var ls := base;
      SaveIs(base, info);
      LoadInto(scratch, read);
      var i := 0;
      while i < 6
        invariant 0 <= i <= 6 && Holds(scratch[..], ls) && SaveFrom(ls, info, i) == Save(base, info)
        invariant sector[..] == old(sector[..]) && cfg[..] == old(cfg[..]) && State() == old(State())
      {
        var ok := SaveOne(i, info, ls);
        if !ok { return false; }
        ls := Put32(ls, KeyAt(i + 1), SaveValue(info, i), 2 <= i <= 4);
        i := i + 1;
      }
      SaveEnds(ls, info);
      if wrote {
        HoldsMagic(scratch[..], ls);
        CopySector(scratch, sector);
        disk := ls;
      }
      mode := Off;
      saved := wrote;
    }

    /** crash_record_load. */
    method LoadRecord() returns (state: u32, info: Info)
      requires cfg.Length == SIZE && Holds(cfg[..], mem)
      ensures state == if Num(mem, K_PENDING) == 1 || Num(mem, K_PENDING) == 2 then Num(mem, K_PENDING) else 0
      ensures state != 0 ==> info == Fields(mem)
    {
      hide HoldsText, NumberOf;
      info := Info(0, 0, 0, 0, 0);
      state := GetU32(cfg, K_PENDING, 0, mem, false);
      if state != 1 && state != 2 { return 0, info; }
      var intNo := GetU32(cfg, K_TYPE, 0, mem, false);
      var eip := GetU32(cfg, K_EIP, 0, mem, false);
      var err := GetU32(cfg, K_ERR, 0, mem, false);
      var cr2 := GetU32(cfg, K_CR2, 0, mem, false);
      var ticks := GetU32(cfg, K_TICKS, 0, mem, false);
      info := Info(intNo, eip, err, cr2, ticks);
    }

    method SetFails(value: u32)
      requires cfg.Length == SIZE && Holds(cfg[..], mem)
      modifies cfg, this`mem
      ensures Holds(cfg[..], mem) && mem == TryPut(old(mem), K_FAIL, value)
    {
      hide HoldsText, ValidKey, Format, Fits, SetLines;
      KeysValid(K_FAIL);
      var r := SetU32(cfg, K_FAIL, value, false, mem, false);
      if r == 0 { mem := Put32(mem, K_FAIL, value, false); }
    }

    /** crash_record_acknowledge. */
    method AcknowledgeRecord()
      requires cfg.Length == SIZE && Holds(cfg[..], mem) && KernelLines(mem)
      modifies cfg, this`mem
      ensures Holds(cfg[..], mem) && mem == Acknowledge(old(mem))
    {
      hide HoldsText, ValidKey, Format, Fits, SetLines, KernelLines, NumberOf;
      KeysValid(K_PENDING);
      var pending := GetU32(cfg, K_PENDING, 0, mem, false);
      if pending == 1 {
        PutKeeps(mem, K_PENDING, 2, false);
        var r := SetU32(cfg, K_PENDING, 2, false, mem, false);
        mem := Put32(mem, K_PENDING, 2, false);
      }
    }

    method RemoveKey(i: nat)
      requires i < 7 && cfg.Length == SIZE && Holds(cfg[..], mem)
      modifies cfg, this`mem
      ensures Holds(cfg[..], mem) && mem == RemoveLines(old(mem), KeyAt(i))
    {
      hide HoldsText, ValidKey;
      KeysDiffer();
      KeysValid(KeyAt(i));
      var r := Remove(cfg, KeyAt(i), mem, false);
      mem := RemoveLines(mem, KeyAt(i));
    }

    /** crash_record_clear_if_acknowledged. */
    method ClearRecord()
      requires cfg.Length == SIZE && Holds(cfg[..], mem)
      modifies cfg, this`mem
      ensures Holds(cfg[..], mem) && mem == ClearIfAcknowledged(old(mem))
    {
      hide HoldsText, NumberOf, RemoveLines, KeyAt;
      var pending := GetU32(cfg, K_PENDING, 0, mem, false);
      if pending != 2 { return; }
      var i := 1;
      while i < 7
        invariant 1 <= i <= 7 && Holds(cfg[..], mem) && ClearFrom(mem, i) == ClearFrom(old(mem), 1)
      {
        RemoveKey(i);
        i := i + 1;
      }
    }

    /** The boot decision of kernel_main, taken before anything that could fail. */
    method BootDecision(requested: bool, wrote: bool)
      requires Valid() && mode == Off
      modifies sector, cfg, this
      ensures Valid() && State() == Next(old(State()), Boot(requested, wrote))
      ensures Booted(old(Summarize(disk)), requested, wrote, Summarize(disk), mode)
    {
      hide HoldsText, SectorHolds, Inv, NumberOf, TryPut, Fields, Booted;
      StepKeeps(State(), Boot(requested, wrote));
      BootIs(State(), requested, wrote);
      CountFits(State());
      LoadInto(cfg, true);
      mem := disk;
      var fails := GetU32(cfg, K_FAIL, 0, mem, false);
      var state, info := LoadRecord();
      var crashed := state == 1;
      if crashed || fails >= FAIL_THRESHOLD || requested {
        mode := SafeMode(if crashed then Crashed else if requested then Requested else FailCount);
      } else {
        SetFails(fails + 1);
        Write(wrote);
        mode := Running(false);
      }
    }

    /** The first keyboard read of a boot in sys_read. */
    method FirstKeyRead(wrote: bool)
      requires Valid() && mode == Running(false)
      modifies sector, cfg, this
      ensures Valid() && State() == Next(old(State()), FirstRead(wrote))
    {
      hide HoldsText, SectorHolds, Inv, NumberOf, TryPut, ClearIfAcknowledged;
      StepKeeps(State(), FirstRead(wrote));
      SetFails(0);
      ClearRecord();
      Write(wrote);
      mode := Running(true);
    }

    /** reboot_normally in Safe Mode. */
    method LeaveSafeMode(wrote: bool, reset: bool)
      requires Valid() && mode.SafeMode?
      modifies sector, cfg, this
      ensures Valid() && State() == Next(old(State()), RebootNormally(wrote, reset))
    {
      hide HoldsText, SectorHolds, Inv, NumberOf, TryPut, Acknowledge, KernelLines;
      StepKeeps(State(), RebootNormally(wrote, reset));
      MemStaysKernel(State());
      SetFails(0);
      AcknowledgeRecord();
      Write(wrote);
      if reset { mode := Off; }
    }
  }

  lemma SaveIs(lines: seq<string>, info: Info)
    ensures SaveFrom(lines, info, 0) == Save(lines, info)
  {
  }

  lemma SaveEnds(lines: seq<string>, info: Info)
    ensures SaveFrom(lines, info, 6) == Some(lines)
  {
  }

  lemma RecordFits(m: Machine, info: Info, read: bool)
    requires Inv(m)
    ensures Save(if read then m.disk else [], info).Some?
  {
    hide ConfigOk, Save;
    EmptyConfig();
    SaveOk(if read then m.disk else [], info);
  }

  lemma CountFits(m: Machine)
    requires Inv(m)
    ensures Num(m.disk, K_FAIL) <= FAIL_THRESHOLD
  {
    hide NumberOf;
  }

  lemma MemStaysKernel(m: Machine)
    requires Inv(m)
    ensures KernelLines(TryPut(m.mem, K_FAIL, 0))
  {
    hide KernelLines, NumberOf, TryPut;
    TryPutOk(m.mem, 0);
  }
}
