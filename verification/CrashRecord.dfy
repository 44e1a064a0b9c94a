/** The crash record over reboots (kernel/crashdump.c, main.c, safemode.c, syscall.c) as a state machine on the
    configuration. */
module CrashRecord {
  import opened Bytes
  import opened ConfigText
  import opened ConfigNumbers
  import opened ConfigStore

  const K_FAIL: string := "boot_fail_count"
  const K_PENDING: string := "crash_pending"
  const K_TYPE: string := "crash_type"
  const K_EIP: string := "crash_eip"
  const K_ERR: string := "crash_err"
  const K_CR2: string := "crash_cr2"
  const K_TICKS: string := "crash_ticks"
  const FAIL_THRESHOLD: nat := 3

  datatype Info = Info(intNo: u32, eip: u32, err: u32, cr2: u32, ticks: u32)

  /** What the kernel reads out of a configuration. */
  datatype Summary = Summary(fails: u32, pending: u32, info: Info)

  function Num(lines: seq<string>, key: string): u32 { NumberOf(lines, key, 0) }

  function Fields(lines: seq<string>): Info {
    Info(Num(lines, K_TYPE), Num(lines, K_EIP), Num(lines, K_ERR), Num(lines, K_CR2), Num(lines, K_TICKS))
  }

  function Summarize(lines: seq<string>): Summary { Summary(Num(lines, K_FAIL), Num(lines, K_PENDING), Fields(lines)) }

  // ---- configurations the kernel writes -------------------------------------------------------------------------

  predicate IsKey(key: string) { Index(key) < 7 }

  function Index(key: string): nat {
    if key == K_FAIL then 0 else if key == K_PENDING then 1 else if key == K_TYPE then 2 else if key == K_EIP then 3
    else if key == K_ERR then 4 else if key == K_CR2 then 5 else if key == K_TICKS then 6 else 7
  }

  function KeyAt(i: nat): string {
    if i == 0 then K_FAIL else if i == 1 then K_PENDING else if i == 2 then K_TYPE else if i == 3 then K_EIP
    else if i == 4 then K_ERR else if i == 5 then K_CR2 else K_TICKS
  }

  lemma KeysValid(key: string)
    requires IsKey(key)
    ensures ValidKey(key) && |key| <= 15
  {
  }

  lemma KeysDiffer()
    ensures forall i: nat, j: nat :: i < j < 7 ==> KeyAt(i) != KeyAt(j)
    ensures forall i: nat :: i < 7 ==> Index(KeyAt(i)) == i
  {
    assert K_EIP[6] == 'e' && K_ERR[6] == 'e' && K_EIP[7] == 'i' && K_ERR[7] == 'r' && K_CR2[6] == 'c';
  }

  ghost predicate KernelLine(line: string) {
    Plain(line) && |line| <= 26 && exists i: nat :: i < 7 && HasKey(line, KeyAt(i))
  }

  ghost predicate KernelLines(lines: seq<string>) {
    NoRepeat(lines) && forall i :: 0 <= i < |lines| ==> KernelLine(lines[i])
  }

  ghost function LineKey(line: string): (i: nat)
    requires KernelLine(line)
    ensures i < 7 && HasKey(line, KeyAt(i))
  {
    var i: nat :| i < 7 && HasKey(line, KeyAt(i)); i
  }

  lemma {:induction false} Pigeons(s: seq<nat>, n: nat)
    requires (forall i :: 0 <= i < |s| ==> s[i] < n) && forall i, j :: 0 <= i < j < |s| ==> s[i] != s[j]
    ensures |s| <= n
  {
    if s != [] {
      assert s[0] < n;
      if n - 1 in s {
        var k :| 0 <= k < |s| && s[k] == n - 1;
        var t := s[..k] + s[k + 1..];
        assert forall i :: 0 <= i < |t| ==> t[i] == s[if i < k then i else i + 1];
        Pigeons(t, n - 1);
      } else {
        Pigeons(s, n - 1);
      }
    }
  }

  lemma SevenLines(lines: seq<string>)
    requires KernelLines(lines)
    ensures |lines| <= 7
  {
    var keys := seq(|lines|, i requires 0 <= i < |lines| => LineKey(lines[i]));
    forall i, j | 0 <= i < j < |keys|
      ensures keys[i] != keys[j]
    {
      KeysDiffer();
      KeysValid(KeyAt(keys[i]));
    }
    Pigeons(keys, 7);
  }

  lemma {:induction false} FlatBound(lines: seq<string>)
    requires forall i :: 0 <= i < |lines| ==> |lines[i]| <= 26
    ensures |Flat(lines)| <= 27 * |lines|
  {
    if lines != [] { FlatBound(lines[1..]); }
  }

  lemma KernelRoom(lines: seq<string>)
    requires KernelLines(lines)
    ensures |MAGIC + Flat(lines)| < SIZE
  {
    SevenLines(lines);
    FlatBound(lines);
  }

  // ---- what the kernel's edits do to what it reads --------------------------------------------------------------

  function Put32(lines: seq<string>, key: string, value: u32, hex: bool): seq<string> {
    SetLines(lines, key, Format(value, hex))
  }

  lemma EntryKernel(key: string, value: u32, hex: bool)
    requires IsKey(key)
    ensures KernelLine(Entry(key, Format(value, hex)))
  {
    hide HasKey, Format, Plain, Entry;
    KeysValid(key);
    TenDigits(value, hex);
    FormatPlain(value, hex);
    EntryPlain(key, Format(value, hex));
    EntryLength(key, Format(value, hex));
    EntryKey(key, Format(value, hex), key);
    assert KeyAt(Index(key)) == key;
  }

  lemma PutKeeps(lines: seq<string>, key: string, value: u32, hex: bool)
    requires KernelLines(lines) && IsKey(key)
    ensures KernelLines(Put32(lines, key, value, hex)) && Fits(lines, key, Format(value, hex))
  {
    hide HasKey, Format, KernelLine, Without, Entry, NoRepeat, Flat;
    KeysValid(key);
    SetLaw(lines, key, Format(value, hex), key);
    WithoutAt(lines, Find(lines, key, 0));
    EntryKernel(key, value, hex);
    KernelRoom(Put32(lines, key, value, hex));
  }

  lemma PutNum(lines: seq<string>, key: string, value: u32, hex: bool)
    requires KernelLines(lines) && IsKey(key)
    ensures forall i: nat :: i < 7 ==>
            Num(Put32(lines, key, value, hex), KeyAt(i)) == if KeyAt(i) == key then value else Num(lines, KeyAt(i))
  {
    hide NumberOf, SetLines, Format, KeyAt;
    KeysValid(key);
    forall i: nat | i < 7
      ensures Num(Put32(lines, key, value, hex), KeyAt(i)) == if KeyAt(i) == key then value else Num(lines, KeyAt(i))
    {
      NumberLaw(lines, key, value, hex, KeyAt(i), 0);
    }
  }

  lemma RemoveNum(lines: seq<string>, key: string)
    requires KernelLines(lines) && IsKey(key)
    ensures KernelLines(RemoveLines(lines, key))
    ensures forall i: nat :: i < 7 ==>
            Num(RemoveLines(lines, key), KeyAt(i)) == if KeyAt(i) == key then 0 else Num(lines, KeyAt(i))
  {
    hide RemoveLines, KeyAt, Lookup, Parse;
    RemoveKeeps(lines, key);
    KeysDiffer();
    KeysValid(key);
    forall i: nat | i < 7
      ensures Num(RemoveLines(lines, key), KeyAt(i)) == if KeyAt(i) == key then 0 else Num(lines, KeyAt(i))
    {
      KeysValid(KeyAt(i));
      RemoveLaw(lines, key, KeyAt(i));
    }
  }

  lemma RemoveKeeps(lines: seq<string>, key: string)
    requires KernelLines(lines) && IsKey(key)
    ensures KernelLines(RemoveLines(lines, key))
  {
    hide HasKey, KernelLine, Without;
    KeysValid(key);
    RemoveLaw(lines, key, key);
    WithoutAt(lines, Find(lines, key, 0));
  }

  // ---- the operations -------------------------------------------------------------------------------------------

  /** A set that is refused for lack of room changes nothing. */
  ghost function TryPut(lines: seq<string>, key: string, value: u32): seq<string> {
    if Fits(lines, key, Format(value, false)) then Put32(lines, key, value, false) else lines
  }

  /** The crash record written into a configuration, or None when it does not fit. */
  ghost function Save(lines: seq<string>, info: Info): Option<seq<string>> {
    SaveFrom(lines, info, 0)
  }

  function SaveValue(info: Info, i: nat): u32 {
    if i == 0 then 1 else if i == 1 then info.intNo else if i == 2 then info.eip else if i == 3 then info.err
    else if i == 4 then info.cr2 else info.ticks
  }

  ghost function SaveFrom(lines: seq<string>, info: Info, i: nat): Option<seq<string>>
    decreases 6 - i
  {
    if i >= 6 then Some(lines)
    else
      var hex := 2 <= i <= 4;
      if !Fits(lines, KeyAt(i + 1), Format(SaveValue(info, i), hex)) then None
      else SaveFrom(Put32(lines, KeyAt(i + 1), SaveValue(info, i), hex), info, i + 1)
  }

  function Acknowledge(lines: seq<string>): seq<string> {
    if Num(lines, K_PENDING) == 1 then Put32(lines, K_PENDING, 2, false) else lines
  }

  function ClearFrom(lines: seq<string>, i: nat): seq<string>
    decreases 7 - i
  {
    if i >= 7 then lines else ClearFrom(RemoveLines(lines, KeyAt(i)), i + 1)
  }

  function ClearIfAcknowledged(lines: seq<string>): seq<string> {
    if Num(lines, K_PENDING) != 2 then lines else ClearFrom(lines, 1)
  }

  // ---- their meaning --------------------------------------------------------------------------------------------

  lemma {:induction false} SaveFromMeans(lines: seq<string>, info: Info, i: nat)
    requires KernelLines(lines) && i <= 6
    ensures var r := SaveFrom(lines, info, i);
            && r.Some? && KernelLines(r.value)
            && forall j: nat :: j < 7 ==>
               Num(r.value, KeyAt(j)) == if j > i then SaveValue(info, j - 1) else Num(lines, KeyAt(j))
    decreases 6 - i
  {
    hide KernelLines, Num, SaveValue, Put32, Fits, KeyAt;
    if i < 6 {
      KeysDiffer();
      PutKeeps(lines, KeyAt(i + 1), SaveValue(info, i), 2 <= i <= 4);
      PutNum(lines, KeyAt(i + 1), SaveValue(info, i), 2 <= i <= 4);
      SaveFromMeans(Put32(lines, KeyAt(i + 1), SaveValue(info, i), 2 <= i <= 4), info, i + 1);
    }
  }

  /** On a configuration the kernel wrote a crash record always fits, is read back field by field, and keeps the
      failure count. */
  lemma SaveMeans(lines: seq<string>, info: Info)
    requires KernelLines(lines)
    ensures Save(lines, info).Some? && KernelLines(Save(lines, info).value)
    ensures Summarize(Save(lines, info).value) == Summary(Num(lines, K_FAIL), 1, info)
  {
    hide KernelLines, Num, SaveFrom;
    SaveFromMeans(lines, info, 0);
    var ls := Save(lines, info).value;
    assert Num(ls, KeyAt(0)) == Num(lines, KeyAt(0));
    assert Num(ls, KeyAt(1)) == 1 && Num(ls, KeyAt(2)) == info.intNo && Num(ls, KeyAt(3)) == info.eip;
    assert Num(ls, KeyAt(4)) == info.err && Num(ls, KeyAt(5)) == info.cr2 && Num(ls, KeyAt(6)) == info.ticks;
  }

  /** A crash record as it stands in the sector. */
  function Record(info: Info): (r: seq<string>)
    ensures |r| == 6
  {
    ["crash_pending=1", "crash_type=" + Format(info.intNo, false), "crash_eip=" + Format(info.eip, true),
     "crash_err=" + Format(info.err, true), "crash_cr2=" + Format(info.cr2, true),
     "crash_ticks=" + Format(info.ticks, false)]
  }

  lemma RecordLine(info: Info, i: nat)
    requires i < 6
    ensures Record(info)[i] == Entry(KeyAt(i + 1), Format(SaveValue(info, i), 2 <= i <= 4))
  {
    hide Digits;
    assert Format(1, false) == "1" by { OneDigit(); }
  }

  lemma OneDigit()
    ensures Format(1, false) == "1"
  {
    assert Digits(1, false) == Digits(0, false) + [DigitChar(1)];
  }

  lemma {:induction false} SaveFromText(lines: seq<string>, info: Info, i: nat)
    requires KernelLines(lines) && i <= 6 && forall j: nat :: i < j < 7 ==> NoKey(lines, KeyAt(j))
    ensures SaveFrom(lines, info, i) == Some(lines + Record(info)[i..])
    decreases 6 - i
  {
    hide KernelLines, SaveValue, Fits, KeyAt, Record, Format, NoKey, SaveFrom, Put32, Entry;
    SaveStep(lines, info, i);
    if i == 6 {
      assert lines + Record(info)[6..] == lines;
    } else {
      var key, value, hex := KeyAt(i + 1), SaveValue(info, i), 2 <= i <= 4;
      KeysDiffer();
      IsOurKey(i + 1);
      PutKeeps(lines, key, value, hex);
      RecordLine(info, i);
      PutNew(lines, key, value, hex);
      forall j: nat | i + 1 < j < 7
        ensures NoKey(Put32(lines, key, value, hex), KeyAt(j))
      {
        IsOurKey(j);
        StillNoKey(lines, key, value, hex, KeyAt(j));
      }
      SaveFromText(Put32(lines, key, value, hex), info, i + 1);
      assert Record(info)[i..] == [Record(info)[i]] + Record(info)[i + 1..];
      assert lines + [Record(info)[i]] + Record(info)[i + 1..] == lines + Record(info)[i..];
    }
  }

  lemma SaveStep(lines: seq<string>, info: Info, i: nat)
    requires i <= 6
    ensures SaveFrom(lines, info, i) ==
            if i == 6 then Some(lines)
            else if !Fits(lines, KeyAt(i + 1), Format(SaveValue(info, i), 2 <= i <= 4)) then None
            else SaveFrom(Put32(lines, KeyAt(i + 1), SaveValue(info, i), 2 <= i <= 4), info, i + 1)
  {
    hide Fits, KeyAt, Format, SaveValue, Put32;
  }

  ghost predicate NoKey(lines: seq<string>, key: string) { forall i :: 0 <= i < |lines| ==> !HasKey(lines[i], key) }

  lemma IsOurKey(i: nat)
    requires i < 7
    ensures IsKey(KeyAt(i)) && ValidKey(KeyAt(i))
  {
    KeysDiffer();
    KeysValid(KeyAt(i));
  }

  lemma PutNew(lines: seq<string>, key: string, value: u32, hex: bool)
    requires NoKey(lines, key)
    ensures Put32(lines, key, value, hex) == lines + [Entry(key, Format(value, hex))]
  {
    hide Format, Entry;
    FindNone(lines, key, 0);
  }

  lemma StillNoKey(lines: seq<string>, key: string, value: u32, hex: bool, key': string)
    requires NoKey(lines, key) && NoKey(lines, key') && ValidKey(key) && ValidKey(key') && key != key'
    ensures NoKey(Put32(lines, key, value, hex), key')
  {
    hide Format, Entry, Put32, HasKey;
    PutNew(lines, key, value, hex);
    EntryKey(key, Format(value, hex), key');
  }

  /** A crash on a configuration without a record adds these six lines behind the ones there are. */
  lemma RecordText(lines: seq<string>, info: Info)
    requires KernelLines(lines) && forall j: nat :: 1 <= j < 7 ==> NoKey(lines, KeyAt(j))
    ensures Save(lines, info) == Some(lines + Record(info))
  {
    hide KernelLines, Record, SaveFrom, NoKey;
    SaveFromText(lines, info, 0);
    assert Record(info)[0..] == Record(info);
  }

  lemma {:induction false} ClearFromMeans(lines: seq<string>, i: nat)
    requires KernelLines(lines) && i <= 7
    ensures KernelLines(ClearFrom(lines, i))
    ensures forall j: nat :: j < 7 ==> Num(ClearFrom(lines, i), KeyAt(j)) == if j >= i then 0 else Num(lines, KeyAt(j))
    decreases 7 - i
  {
    hide KernelLines, Num, RemoveLines, KeyAt;
    if i < 7 {
      KeysDiffer();
      RemoveNum(lines, KeyAt(i));
      ClearFromMeans(RemoveLines(lines, KeyAt(i)), i + 1);
    }
  }

  lemma ClearMeans(lines: seq<string>)
    requires KernelLines(lines)
    ensures KernelLines(ClearIfAcknowledged(lines))
    ensures Summarize(ClearIfAcknowledged(lines)) ==
            if Num(lines, K_PENDING) == 2 then Summary(Num(lines, K_FAIL), 0, Info(0, 0, 0, 0, 0)) else Summarize(lines)
  {
    hide KernelLines, Num, ClearFrom;
    ClearFromMeans(lines, 1);
    var ls := ClearFrom(lines, 1);
    assert Num(ls, KeyAt(0)) == Num(lines, KeyAt(0)) && Num(ls, KeyAt(1)) == 0 && Num(ls, KeyAt(2)) == 0 &&
      Num(ls, KeyAt(3)) == 0;
    assert Num(ls, KeyAt(4)) == 0 && Num(ls, KeyAt(5)) == 0 && Num(ls, KeyAt(6)) == 0;
  }

  lemma PutSummary(lines: seq<string>, value: u32)
    requires KernelLines(lines)
    ensures KernelLines(TryPut(lines, K_FAIL, value)) &&
            Summarize(TryPut(lines, K_FAIL, value)) == Summarize(lines).(fails := value)
    ensures KernelLines(Put32(lines, K_PENDING, value, false)) &&
            Summarize(Put32(lines, K_PENDING, value, false)) == Summarize(lines).(pending := value)
  {
    hide KernelLines, Num, Put32, Fits;
    PutKeeps(lines, KeyAt(0), value, false);
    PutKeeps(lines, KeyAt(1), value, false);
    PutNum(lines, KeyAt(0), value, false);
    PutNum(lines, KeyAt(1), value, false);
    var a, b := Put32(lines, K_FAIL, value, false), Put32(lines, K_PENDING, value, false);
    assert Num(a, KeyAt(0)) == value && Num(b, KeyAt(0)) == Num(lines, KeyAt(0));
    assert Num(a, KeyAt(1)) == Num(lines, KeyAt(1)) && Num(b, KeyAt(1)) == value;
    assert Num(a, KeyAt(2)) == Num(lines, KeyAt(2)) == Num(b, KeyAt(2));
    assert Num(a, KeyAt(3)) == Num(lines, KeyAt(3)) == Num(b, KeyAt(3));
    assert Num(a, KeyAt(4)) == Num(lines, KeyAt(4)) == Num(b, KeyAt(4));
    assert Num(a, KeyAt(5)) == Num(lines, KeyAt(5)) == Num(b, KeyAt(5));
    assert Num(a, KeyAt(6)) == Num(lines, KeyAt(6)) == Num(b, KeyAt(6));
  }
}
