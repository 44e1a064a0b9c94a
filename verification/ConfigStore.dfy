/** The configuration text edited in place in a 512-byte buffer (kernel/bootcfg.c). */
module ConfigStore {
  import opened Bytes
  import opened ConfigText
  import opened ConfigNumbers

  /** key_valid. */
  method CheckKey(key: string) returns (ok: bool)
    ensures ok == ValidKey(key)
  {
    if |key| == 0 || |key| > KEY_MAX { return false; }
    var i := 0;
    while i < |key|
      invariant 0 <= i <= |key| && forall j :: 0 <= j < i ==> KeyChar(key[j])
    {
      if !KeyChar(key[i]) { return false; }
      i := i + 1;
    }
    ok := true;
  }

  /** The index of the newline or NUL that ends the line at ls. */
  method LineEnd(cfg: array<char>, ls: nat, ghost line: string) returns (i: nat)
    requires ls + |line| < cfg.Length == SIZE && cfg[ls..ls + |line|] == line && Plain(line)
    requires cfg[ls + |line|] == '\n' || cfg[ls + |line|] == '\0'
    ensures i == ls + |line|
  {
    i := ls;
    while i < SIZE && cfg[i] != '\0' && cfg[i] != '\n'
      invariant ls <= i <= ls + |line|
      decreases SIZE - i
    {
      assert i < ls + |line|;
      i := i + 1;
    }
  }

  method Matches(cfg: array<char>, ls: nat, le: nat, key: string) returns (ok: bool)
    requires ls <= le < cfg.Length
    ensures ok == HasKey(cfg[ls..le], key)
  {
    if le - ls <= |key| || cfg[ls + |key|] != '=' { return false; }
    var j := 0;
    while j < |key| && cfg[ls + j] == key[j]
      invariant 0 <= j <= |key| && forall x :: 0 <= x < j ==> cfg[ls + x] == key[x]
    {
      j := j + 1;
    }
    ok := j == |key|;
    ghost var pre := cfg[ls..le][..|key|];
    assert forall x :: 0 <= x < |key| ==> pre[x] == cfg[ls + x];
    assert ok ==> pre == key;
    assert !ok ==> pre[j] != key[j];
  }

  /** find_key. */
  method FindKey(cfg: array<char>, key: string, ghost lines: seq<string>, ghost open: bool) returns (found: bool,
      ls: nat, vs: nat, le: nat)
    requires cfg.Length == SIZE && HoldsText(cfg[..], lines, open)
    ensures found == (Find(lines, key, 0) != -1)
    ensures found ==> ls == Off(lines, Find(lines, key, 0)) && vs == ls + |key| + 1 &&
                      le == ls + |lines[Find(lines, key, 0)]|
  {
    hide HoldsText, HasKey, Off, Plain, End;
    ghost var s, k := cfg[..], 0;
    var i := |MAGIC|;
    StartAt(lines);
    EndAt(s, lines, open);
    OpenHasLine(s, lines, open);
    while i < SIZE && cfg[i] != '\0'
      invariant 0 <= k <= |lines| && i < SIZE && Find(lines, key, 0) == Find(lines, key, k)
      invariant i == if open && k == |lines| then End(lines, open) else Off(lines, k)
      decreases |lines| - k
    {
      TextGoesOn(s, lines, open, k);
      LineAt(s, lines, open, k);
      ls := i;
      i := LineEnd(cfg, ls, lines[k]);
      var hit := Matches(cfg, ls, i, key);
      assert cfg[ls..i] == lines[k];
      if hit { return true, ls, ls + |key| + 1, i; }
      if i < SIZE && cfg[i] == '\n' { i := i + 1; }
      k := k + 1;
    }
    TextGoesOn(s, lines, open, k);
    found, ls, vs, le := false, 0, 0, 0;
  }

  lemma StartAt(lines: seq<string>)
    ensures Off(lines, 0) == |MAGIC|
  {
  }

  /** A line starts with a NUL only behind the last. */
  lemma TextGoesOn(s: string, lines: seq<string>, open: bool, k: nat)
    requires HoldsText(s, lines, open) && k <= |lines|
    ensures k < |lines| ==> Off(lines, k) < End(lines, open) < |s| && s[Off(lines, k)] != '\0'
    ensures k == |lines| && !open ==> Off(lines, k) == End(lines, open) < |s| && s[Off(lines, k)] == '\0'
  {
    hide Plain, Flat, Text;
    EndAt(s, lines, open);
    if k < |lines| {
      LineAt(s, lines, open, k);
      NoNulBefore(s, lines, open, Off(lines, k));
    }
  }

  /** cfg_used. */
  method Used(cfg: array<char>, ghost lines: seq<string>, ghost open: bool) returns (n: nat)
    requires cfg.Length == SIZE && HoldsText(cfg[..], lines, open)
    ensures n == End(lines, open)
  {
    hide HoldsText, End;
    ghost var s := cfg[..];
    EndAt(s, lines, open);
    n := |MAGIC|;
    while n < SIZE && cfg[n] != '\0'
      invariant |MAGIC| <= n <= End(lines, open)
    {
      n := n + 1;
    }
    if n < End(lines, open) { NoNulBefore(s, lines, open, n); }
  }

  /** Shifts what stands from tail on down to ls and clears the end. */
  method ShiftDown(buf: array<char>, ls: nat, tail: nat)
    requires ls <= tail <= buf.Length == SIZE
    modifies buf
    ensures buf[..] == Shifted(old(buf[..]), ls, tail)
  {
    hide Shifted;
    ghost var s := buf[..];
    MoveDown(buf, ls, tail);
    ghost var t := buf[..];
    var i := ls + SIZE - tail;
    while i < SIZE
      invariant ls + SIZE - tail <= i <= SIZE
      invariant forall x :: 0 <= x < ls + SIZE - tail ==> buf[x] == t[x]
      invariant forall x :: ls + SIZE - tail <= x < i ==> buf[x] == '\0'
    {
      buf[i] := '\0';
      i := i + 1;
    }
    ShiftedParts(s, t, buf[..], ls, tail);
  }

  lemma ShiftedParts(s: string, t: string, r: string, ls: nat, tail: nat)
    requires |s| == |t| == |r| == SIZE && ls <= tail <= SIZE && t == Moved(s, ls, tail, SIZE - tail)
    requires forall x :: 0 <= x < ls + SIZE - tail ==> r[x] == t[x]
    requires forall x :: ls + SIZE - tail <= x < SIZE ==> r[x] == '\0'
    ensures r == Shifted(s, ls, tail)
  {
    var n := ls + SIZE - tail;
    assert r[..n] == t[..n] == s[..ls] + s[tail..];
    assert r[n..] == seq(tail - ls, i => '\0');
    assert r == r[..n] + r[n..];
  }

  /** s with i characters from tail on moved down to ls. */
  ghost function Moved(s: string, ls: nat, tail: nat, i: nat): string
    requires ls <= tail && tail + i <= |s|
  {
    s[..ls] + s[tail..tail + i] + s[ls + i..]
  }

  lemma MovedMore(s: string, ls: nat, tail: nat, i: nat)
    requires ls <= tail && tail + i < |s|
    ensures |Moved(s, ls, tail, i)| == |s| && Moved(s, ls, tail, i)[tail + i] == s[tail + i]
    ensures Moved(s, ls, tail, i)[ls + i := s[tail + i]] == Moved(s, ls, tail, i + 1)
  {
    assert s[tail..tail + i + 1] == s[tail..tail + i] + [s[tail + i]];
    assert s[ls + i..] == [s[ls + i]] + s[ls + i + 1..];
  }

  method MoveDown(buf: array<char>, ls: nat, tail: nat)
    requires ls <= tail <= buf.Length == SIZE
    modifies buf
    ensures buf[..] == Moved(old(buf[..]), ls, tail, SIZE - tail)
  {
    ghost var s := buf[..];
    var i := 0;
    assert Moved(s, ls, tail, 0) == s;
    hide Moved;
    while tail + i < SIZE
      invariant 0 <= i <= SIZE - tail && buf[..] == Moved(s, ls, tail, i)
    {
      MovedMore(s, ls, tail, i);
      buf[ls + i] := buf[tail + i];
      i := i + 1;
    }
  }

  method Copy(buf: array<char>, at: nat, t: string)
    requires at + |t| <= buf.Length
    modifies buf
    ensures buf[..] == Put(old(buf[..]), at, t)
  {
    var i := 0;
    while i < |t|
      invariant 0 <= i <= |t|
      invariant forall x :: 0 <= x < buf.Length ==> buf[x] == if at <= x < at + i then t[x - at] else old(buf[x])
    {
      buf[at + i] := t[i];
      i := i + 1;
    }
    ghost var r := Put(old(buf[..]), at, t);
    assert forall x :: 0 <= x < buf.Length ==> buf[x] == r[x];
  }

  lemma PutTwice(s: string, at: nat, t: string, u: string)
    requires at + |t| + |u| <= |s|
    ensures Put(Put(s, at, t), at + |t|, u) == Put(s, at, t + u)
  {
  }

  /** key=value, a newline and the NUL written at index at. */
  method WriteEntry(buf: array<char>, at: nat, key: string, value: string)
    requires buf.Length == SIZE && at + |key| + |value| + 3 <= SIZE
    modifies buf
    ensures buf[..] == Put(old(buf[..]), at, Entry(key, value) + "\n" + "\0")
  {
    hide Put;
    ghost var s := buf[..];
    Copy(buf, at, key);
    Copy(buf, at + |key|, "=");
    PutTwice(s, at, key, "=");
    Copy(buf, at + |key| + 1, value);
    PutTwice(s, at, key + "=", value);
    Copy(buf, at + |key| + 1 + |value|, "\n");
    PutTwice(s, at, key + "=" + value, "\n");
    Copy(buf, at + |key| + 1 + |value| + 1, "\0");
    PutTwice(s, at, key + "=" + value + "\n", "\0");
  }

  /** Room for one more line of this length after the key's own line is gone. */
  ghost predicate FitsText(lines: seq<string>, open: bool, key: string, value: string) {
    |MAGIC + Flat(SetText(lines, open, key, value))| < SIZE
  }

  ghost predicate Fits(lines: seq<string>, key: string, value: string) {
    |MAGIC + Flat(SetLines(lines, key, value))| < SIZE
  }

  lemma SetSize(lines: seq<string>, open: bool, key: string, value: string)
    ensures var k := Find(lines, key, 0);
            |MAGIC + Flat(SetText(lines, open, key, value))| == End(Without(lines, k),
              StaysOpen(lines, open, k)) + |key| + 1 + |value| + 1
  {
    hide Flat, Text, Find, Without;
    var k := Find(lines, key, 0);
    TextAppended(Without(lines, k), StaysOpen(lines, open, k), Entry(key, value));
  }

  lemma ClosedIsOpen(lines: seq<string>, open: bool, k: int)
    requires -1 <= k < |lines| && (open ==> lines != [])
    ensures k == -1 ==> Without(lines, k) == lines && StaysOpen(lines, open, k) == open
    ensures k >= 0 ==> StaysOpen(lines, open, k) == (open && !IsOpen(lines, open, k))
  {
  }

  /** bootcfg_buf_set: refused exactly for a bad key, a newline in the value or too little room, and then without
      a trace. */
  method Set(buf: array<char>, key: string, value: string, ghost lines: seq<string>, ghost open: bool) returns (r: int)
    requires buf.Length == SIZE && HoldsText(buf[..], lines, open) && '\0' !in value
    modifies buf
    ensures r == if ValidKey(key) && '\n' !in value && FitsText(lines, open, key, value) then 0 else -1
    ensures r == 0 ==> Holds(buf[..], SetText(lines, open, key, value))
    ensures r == -1 ==> buf[..] == old(buf[..])
  {
    hide HoldsText, Off, Find, Without, Entry, HasKey, End, Appended, Shifted, Put, Flat, Text, StaysOpen;
    OpenHasLine(buf[..], lines, open);
    var ok := CheckKey(key);
    if !ok { return -1; }
    var i := 0;
    while i < |value|
      invariant 0 <= i <= |value| && '\n' !in value[..i]
    {
      if value[i] == '\n' { return -1; }
      i := i + 1;
    }
    assert value[..i] == value;
    var have, ls, vs, le := FindKey(buf, key, lines, open);
    var used := Used(buf, lines, open);
    ghost var k := Find(lines, key, 0);
    ClosedIsOpen(lines, open, k);
    if have { LineAt(buf[..], lines, open, k); HoldsWithout(buf[..], lines, open, k); }
    SetSize(lines, open, key, value);
    var oldLen := if have then le - ls + (if buf[le] == '\n' then 1 else 0) else 0;
    var newLen := |key| + 1 + |value| + 1;
    if used - oldLen + newLen > SIZE - 1 { return -1; }
    ghost var rest, still := Without(lines, k), StaysOpen(lines, open, k);
    if have { ShiftDown(buf, ls, ls + oldLen); }
    var at := Used(buf, rest, still);
    EntryPlain(key, value);
    EntryLength(key, value);
    HoldsAppended(buf[..], rest, still, Entry(key, value));
    WriteEntry(buf, at, key, value);
    r := 0;
  }

  lemma OpenHasLine(s: string, lines: seq<string>, open: bool)
    requires HoldsText(s, lines, open)
    ensures open ==> lines != []
  {
  }

  lemma EntryLength(key: string, value: string)
    ensures |Entry(key, value)| == |key| + 1 + |value|
  {
  }

  /** bootcfg_buf_get: the value, cut to the room of the caller, or -1. */
  method Get(buf: array<char>, key: string, max: int, ghost lines: seq<string>, ghost open: bool) returns (n: int,
      out: string)
    requires buf.Length == SIZE && HoldsText(buf[..], lines, open)
    ensures var v := Lookup(lines, key);
            if max <= 0 || !ValidKey(key) || v.None? then n == -1 && out == ""
            else n == |out| && out == if |v.value| < max then v.value else v.value[..max - 1]
  {
    hide HoldsText, Off, End;
    out := "";
    var ok := CheckKey(key);
    if max <= 0 || !ok { return -1, ""; }
    var have, ls, vs, le := FindKey(buf, key, lines, open);
    if !have { return -1, ""; }
    ghost var k := Find(lines, key, 0);
    LineAt(buf[..], lines, open, k);
    ghost var v := lines[k][|key| + 1..];
    assert forall x :: 0 <= x < |v| ==> v[x] == buf[ls..le][|key| + 1 + x] == buf[vs + x];
    n := 0;
    while vs + n < le && n < max - 1
      invariant 0 <= n <= le - vs && n <= max - 1 && n == |out| && out == v[..n]
    {
      out := out + [buf[vs + n]];
      n := n + 1;
    }
  }

  /** bootcfg_buf_remove. */
  method Remove(buf: array<char>, key: string, ghost lines: seq<string>, ghost open: bool) returns (r: int)
    requires buf.Length == SIZE && HoldsText(buf[..], lines, open)
    modifies buf
    ensures r == if !ValidKey(key) then -1 else if Find(lines, key, 0) == -1 then 0 else 1
    ensures r == 1 ==> HoldsText(buf[..], RemoveLines(lines, key), StaysOpen(lines, open, Find(lines, key, 0)))
    ensures r != 1 ==> buf[..] == old(buf[..])
  {
    hide HoldsText, Off, Find, Without, HasKey, End, Shifted, StaysOpen;
    OpenHasLine(buf[..], lines, open);
    var ok := CheckKey(key);
    if !ok { return -1; }
    var have, ls, vs, le := FindKey(buf, key, lines, open);
    if !have { return 0; }
    ghost var k := Find(lines, key, 0);
    ClosedIsOpen(lines, open, k);
    LineAt(buf[..], lines, open, k);
    HoldsWithout(buf[..], lines, open, k);
    var oldLen := le - ls + if buf[le] == '\n' then 1 else 0;
    ShiftDown(buf, ls, ls + oldLen);
    r := 1;
  }

  // ---- numbers in the store -------------------------------------------------------------------------------------

  /** The number a key has, as the getter sees it: at most 15 characters of it. */
  function NumberOf(lines: seq<string>, key: string, def: nat): (r: nat)
    ensures def <= MAX_U32 ==> r <= MAX_U32
  {
    var v := Lookup(lines, key);
    if !ValidKey(key) || v.None? || v.value == "" then def
    else Parse(if |v.value| < 16 then v.value else v.value[..15], def)
  }

  /** A key without a value has the default; of a longer value the first 15 characters are read. */
  lemma NumberOfIs(lines: seq<string>, key: string, def: nat, value: string)
    requires ValidKey(key)
    ensures Lookup(lines, key) == None || Lookup(lines, key) == Some("") ==> NumberOf(lines, key, def) == def
    ensures Lookup(lines, key) == Some(value) && 0 < |value| <= 15 ==> NumberOf(lines, key, def) == Parse(value, def)
    ensures Lookup(lines, key) == Some(value) && |value| > 15 ==> NumberOf(lines, key, def) == Parse(value[..15], def)
  {
    hide Parse, Lookup;
  }

  /** bootcfg_buf_get_u32. */
  method GetU32(buf: array<char>, key: string, def: u32, ghost lines: seq<string>, ghost open: bool) returns (r: u32)
    requires buf.Length == SIZE && HoldsText(buf[..], lines, open)
    ensures r == NumberOf(lines, key, def)
  {
    var n, v := Get(buf, key, 16, lines, open);
    if n <= 0 { return def; }
    r := ParseU32(v, def);
  }

  /** bootcfg_buf_set_u32 and bootcfg_buf_set_hex32. */
  method SetU32(buf: array<char>, key: string, value: u32, hex: bool, ghost lines: seq<string>, ghost open: bool)
      returns (r: int)
    requires buf.Length == SIZE && HoldsText(buf[..], lines, open)
    modifies buf
    ensures r == if ValidKey(key) && FitsText(lines, open, key, Format(value, hex)) then 0 else -1
    ensures !open ==> r == if ValidKey(key) && Fits(lines, key, Format(value, hex)) then 0 else -1
    ensures r == 0 ==> Holds(buf[..], SetText(lines, open, key, Format(value, hex)))
    ensures r == 0 && !open ==> Holds(buf[..], SetLines(lines, key, Format(value, hex)))
    ensures r == -1 ==> buf[..] == old(buf[..])
  {
    SetClosed(lines, key, Format(value, hex));
    hide HoldsText, Format, SetLines, SetText;
    FormatPlain(value, hex);
    var v := FormatU32(value, hex);
    r := Set(buf, key, v, lines, open);
  }

  /** A number set is the number got, for its key; the numbers of all other keys are as they were. */
  lemma NumberLaw(lines: seq<string>, key: string, value: u32, hex: bool, key': string, def: nat)
    requires ValidKey(key) && NoRepeat(lines)
    ensures NumberOf(SetLines(lines, key, Format(value, hex)), key', def) == if key' == key then value
            else NumberOf(lines, key', def)
    ensures NoRepeat(SetLines(lines, key, Format(value, hex)))
  {
    hide SetLines, Lookup, Format, Parse;
    SetLaw(lines, key, Format(value, hex), key);
    if ValidKey(key') { SetLaw(lines, key, Format(value, hex), key'); }
    TenDigits(value, hex);
    FormatParses(value, hex, def);
  }
}
