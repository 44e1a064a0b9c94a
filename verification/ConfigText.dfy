/** The boot configuration sector (kernel/bootcfg.c): a magic line, then key=value lines, then a NUL. */
module ConfigText {
  import Bytes

  const SIZE: nat := 512
  const MAGIC: string := "# nullos-config v1\n"
  const KEY_MAX: nat := 31

  datatype Option<T> = None | Some(value: T)

  predicate KeyChar(c: char) { 'a' <= c <= 'z' || '0' <= c <= '9' || c == '_' }

  predicate ValidKey(key: string) { 0 < |key| <= KEY_MAX && forall i :: 0 <= i < |key| ==> KeyChar(key[i]) }

  predicate Plain(line: string) { forall i :: 0 <= i < |line| ==> line[i] != '\n' && line[i] != '\0' }

  function Flat(lines: seq<string>): string {
    if lines == [] then "" else lines[0] + "\n" + Flat(lines[1..])
  }

  /** The text of some lines; the last one may be open, that is, end at the NUL without a newline. */
  ghost function Text(lines: seq<string>, open: bool): string {
    if open && lines != [] then Flat(lines[..|lines| - 1]) + lines[|lines| - 1] else Flat(lines)
  }

  /** Sector s holds exactly these lines; what follows the NUL does not matter. */
  ghost predicate HoldsText(s: string, lines: seq<string>, open: bool) {
    && |s| == SIZE && (forall i :: 0 <= i < |lines| ==> Plain(lines[i])) &&
       (open ==> lines != [] && lines[|lines| - 1] != "")
    && var t := MAGIC + Text(lines, open);
    |t| < SIZE && s[..|t|] == t && s[|t|] == '\0'
  }

  /** The same where every line has its newline. */
  ghost predicate Holds(s: string, lines: seq<string>) { HoldsText(s, lines, false) }

  predicate HasKey(line: string, key: string) { |line| > |key| && line[|key|] == '=' && line[..|key|] == key }

  /** The first line from i on that has the key, or -1. */
  function Find(lines: seq<string>, key: string, i: nat): (r: int)
    ensures r == -1 || (i <= r < |lines| && HasKey(lines[r], key))
    ensures r == -1 ==> forall j :: i <= j < |lines| ==> !HasKey(lines[j], key)
    ensures r != -1 ==> forall j :: i <= j < r ==> !HasKey(lines[j], key)
    decreases |lines| - i
  {
    if i >= |lines| then -1 else if HasKey(lines[i], key) then i else Find(lines, key, i + 1)
  }

  function Lookup(lines: seq<string>, key: string): Option<string> {
    var k := Find(lines, key, 0);
    if k == -1 then None else Some(lines[k][|key| + 1..])
  }

  function Without(lines: seq<string>, k: int): seq<string>
    requires -1 <= k < |lines|
  {
    if k == -1 then lines else lines[..k] + lines[k + 1..]
  }

  function Entry(key: string, value: string): string { key + "=" + value }

  function SetLines(lines: seq<string>, key: string, value: string): seq<string> {
    Without(lines, Find(lines, key, 0)) + [Entry(key, value)]
  }

  function RemoveLines(lines: seq<string>, key: string): seq<string> { Without(lines, Find(lines, key, 0)) }

  /** No key stands on two lines. */
  ghost predicate NoRepeat(lines: seq<string>) {
    forall i, j, key :: 0 <= i < j < |lines| && ValidKey(key) && HasKey(lines[i], key) ==> !HasKey(lines[j], key)
  }

  // ---- a line has at most one key -------------------------------------------------------------------------------

  lemma ShorterKey(line: string, key: string, key': string)
    requires ValidKey(key') && HasKey(line, key) && HasKey(line, key')
    ensures |key| >= |key'|
  {
    assert forall i :: 0 <= i < |key'| ==> KeyChar(line[..|key'|][i]);
    assert forall i :: 0 <= i < |key'| ==> line[i] == line[..|key'|][i] != '=';
  }

  lemma OneKey(line: string, key: string, key': string)
    requires ValidKey(key) && ValidKey(key') && HasKey(line, key) && HasKey(line, key')
    ensures key == key'
  {
    ShorterKey(line, key, key');
    ShorterKey(line, key', key);
  }

  lemma EntryKey(key: string, value: string, key': string)
    requires ValidKey(key) && ValidKey(key')
    ensures HasKey(Entry(key, value), key') <==> key == key'
    ensures Entry(key, value)[|key| + 1..] == value
  {
    assert Entry(key, value)[..|key|] == key;
    if HasKey(Entry(key, value), key') { OneKey(Entry(key, value), key, key'); }
  }

  lemma EntryPlain(key: string, value: string)
    requires ValidKey(key) && Plain(value)
    ensures Plain(Entry(key, value))
  {
    assert forall i :: 0 <= i < |key| ==> KeyChar(key[i]);
  }

  // ---- the store's laws -----------------------------------------------------------------------------------------

  lemma {:induction false} FindIs(lines: seq<string>, key: string, i: nat, k: int)
    requires i <= k < |lines| && HasKey(lines[k], key) && forall j :: i <= j < k ==> !HasKey(lines[j], key)
    ensures Find(lines, key, i) == k
    decreases k - i
  {
    if i < k { FindIs(lines, key, i + 1, k); }
  }

  lemma {:induction false} FindNone(lines: seq<string>, key: string, i: nat)
    requires forall j :: i <= j < |lines| ==> !HasKey(lines[j], key)
    ensures Find(lines, key, i) == -1
    decreases |lines| - i
  {
    if i < |lines| { FindNone(lines, key, i + 1); }
  }

  /** A key has a value exactly when a line reads key=value and no line before it starts with key= . */
  lemma LookupIs(lines: seq<string>, key: string, value: string)
    ensures Lookup(lines, key) == Some(value) <==>
            exists k :: 0 <= k < |lines| && lines[k] == key + "=" + value &&
                        forall i :: 0 <= i < k ==> !(key + "=" <= lines[i])
  {
    var f := Find(lines, key, 0);
    forall i | 0 <= i < |lines|
      ensures HasKey(lines[i], key) <==> key + "=" <= lines[i]
    {
      KeyPrefix(lines[i], key);
    }
    if f >= 0 { assert lines[f] == key + "=" + lines[f][|key| + 1..]; }
    if k :| 0 <= k < |lines| && lines[k] == key + "=" + value && forall i :: 0 <= i < k ==> !(key + "=" <= lines[i]) {
      assert key + "=" <= lines[k];
      FindIs(lines, key, 0, k);
      assert lines[k][|key| + 1..] == value;
    }
  }

  lemma KeyPrefix(line: string, key: string)
    ensures HasKey(line, key) <==> key + "=" <= line
  {
    var t := key + "=";
    if t <= line {
      assert line[..|t|] == t;
      assert line[|key|] == line[..|t|][|key|] && line[..|key|] == line[..|t|][..|key|];
    }
    if HasKey(line, key) {
      assert line[..|t|] == line[..|key|] + [line[|key|]];
    }
  }

  /** Set leaves the other lines in their order and puts the line key=value behind them. */
  lemma SetAddsLine(lines: seq<string>, key: string, value: string)
    ensures var f, r := Find(lines, key, 0), SetLines(lines, key, value);
            r == (if f < 0 then lines else lines[..f] + lines[f + 1..]) + [key + "=" + value]
  {
  }

  lemma WithoutAt(lines: seq<string>, k: int)
    requires -1 <= k < |lines|
    ensures |Without(lines, k)| == if k == -1 then |lines| else |lines| - 1
    ensures forall i :: 0 <= i < |Without(lines, k)| && (k == -1 || i < k) ==> Without(lines, k)[i] == lines[i]
    ensures forall i :: 0 <= k <= i < |Without(lines, k)| ==> Without(lines, k)[i] == lines[i + 1]
  {
  }

  /** Taking a key's line out leaves every other key's value. */
  lemma WithoutOthers(lines: seq<string>, k: int, key: string)
    requires -1 <= k < |lines| && (k != -1 ==> !HasKey(lines[k], key))
    ensures Lookup(Without(lines, k), key) == Lookup(lines, key)
  {
    hide Without;
    WithoutAt(lines, k);
    var ls, f := Without(lines, k), Find(lines, key, 0);
    if f == -1 {
      FindNone(ls, key, 0);
    } else {
      FindIs(ls, key, 0, if k == -1 || f < k then f else f - 1);
    }
  }

  lemma WithoutGone(lines: seq<string>, key: string)
    requires ValidKey(key) && NoRepeat(lines)
    ensures forall i :: 0 <= i < |RemoveLines(lines, key)| ==> !HasKey(RemoveLines(lines, key)[i], key)
  {
    hide Without;
    WithoutAt(lines, Find(lines, key, 0));
  }

  lemma WithoutNoRepeat(lines: seq<string>, k: int)
    requires -1 <= k < |lines| && NoRepeat(lines)
    ensures NoRepeat(Without(lines, k))
  {
    hide Without;
    WithoutAt(lines, k);
    var ls := Without(lines, k);
    forall i, j, key | 0 <= i < j < |ls| && ValidKey(key) && HasKey(ls[i], key)
      ensures !HasKey(ls[j], key)
    {
      var i', j' := if k == -1 || i < k then i else i + 1, if k == -1 || j < k then j else j + 1;
      assert ls[i] == lines[i'] && ls[j] == lines[j'];
    }
  }

  lemma AppendedLookup(lines: seq<string>, key: string, value: string, key': string)
    requires ValidKey(key) && ValidKey(key') && forall i :: 0 <= i < |lines| ==> !HasKey(lines[i], key)
    ensures Lookup(lines + [Entry(key, value)], key') == if key' == key then Some(value) else Lookup(lines, key')
  {
    EntryKey(key, value, key');
    hide Entry;
    var ls, f := lines + [Entry(key, value)], Find(lines, key', 0);
    if key' == key {
      FindIs(ls, key, 0, |lines|);
    } else if f == -1 {
      FindNone(ls, key', 0);
    } else {
      FindIs(ls, key', 0, f);
    }
  }

  /** After set the key has the value, every other key has what it had, and no key stands twice. */
  lemma SetLaw(lines: seq<string>, key: string, value: string, key': string)
    requires ValidKey(key) && ValidKey(key') && NoRepeat(lines)
    ensures Lookup(SetLines(lines, key, value), key') == if key' == key then Some(value) else Lookup(lines, key')
    ensures NoRepeat(SetLines(lines, key, value))
  {
    hide Lookup, Entry, Without, HasKey;
    WithoutGone(lines, key);
    var rest := RemoveLines(lines, key);
    AppendedLookup(rest, key, value, key');
    RemoveOther(lines, key, key');
    WithoutNoRepeat(lines, Find(lines, key, 0));
    AppendNoRepeat(rest, key, value);
  }

  lemma AppendNoRepeat(lines: seq<string>, key: string, value: string)
    requires ValidKey(key) && NoRepeat(lines) && forall i :: 0 <= i < |lines| ==> !HasKey(lines[i], key)
    ensures NoRepeat(lines + [Entry(key, value)])
  {
    hide Entry, HasKey;
    var ls := lines + [Entry(key, value)];
    forall i, j, key' | 0 <= i < j < |ls| && ValidKey(key') && HasKey(ls[i], key')
      ensures !HasKey(ls[j], key')
    {
      EntryKey(key, value, key');
      assert ls[i] == lines[i];
    }
  }

  lemma RemoveOther(lines: seq<string>, key: string, key': string)
    requires ValidKey(key) && ValidKey(key')
    ensures key != key' ==> Lookup(RemoveLines(lines, key), key') == Lookup(lines, key')
  {
    hide Lookup, Without, HasKey;
    var k := Find(lines, key, 0);
    if key != key' {
      if k != -1 && HasKey(lines[k], key') { OneKey(lines[k], key, key'); }
      WithoutOthers(lines, k, key');
    }
  }

  /** After remove the key is gone and every other key has what it had. */
  lemma RemoveLaw(lines: seq<string>, key: string, key': string)
    requires ValidKey(key) && ValidKey(key') && NoRepeat(lines)
    ensures Lookup(RemoveLines(lines, key), key') == if key' == key then None else Lookup(lines, key')
    ensures NoRepeat(RemoveLines(lines, key))
  {
    hide Without, HasKey;
    WithoutGone(lines, key);
    RemoveOther(lines, key, key');
    WithoutNoRepeat(lines, Find(lines, key, 0));
    FindNone(RemoveLines(lines, key), key, 0);
  }

  /** Without the condition on repeated keys: other keys always keep their values; remove makes the key absent
      exactly when it stood on at most one line, and set makes it have the value exactly then, or when its second
      line had that value. */
  lemma RepeatedKey(lines: seq<string>, key: string, value: string, key': string)
    requires ValidKey(key) && ValidKey(key')
    ensures key' != key ==> Lookup(SetLines(lines, key, value), key') == Lookup(RemoveLines(lines, key), key') ==
                            Lookup(lines, key')
    ensures Lookup(RemoveLines(lines, key), key) == None <==>
            forall i, j :: 0 <= i < j < |lines| ==> !(HasKey(lines[i], key) && HasKey(lines[j], key))
    ensures var second := Lookup(RemoveLines(lines, key), key);
            Lookup(SetLines(lines, key, value), key) == if second == None then Some(value) else second
  {
    hide HasKey, Entry;
    var rest := RemoveLines(lines, key);
    WithoutAt(lines, Find(lines, key, 0));
    EntryKey(key, value, key');
    EntryKey(key, value, key);
    RemoveOther(lines, key, key');
    AppendedFind(rest, Entry(key, value), key');
    AppendedFind(rest, Entry(key, value), key);
    OnlyLine(lines, key);
  }

  lemma {:induction false} FindAppended(lines: seq<string>, line: string, key: string, i: nat)
    requires i <= |lines|
    ensures Find(lines + [line], key, i) ==
            if Find(lines, key, i) != -1 then Find(lines, key, i) else if HasKey(line, key) then |lines| else -1
    decreases |lines| - i
  {
    hide HasKey;
    if i < |lines| { FindAppended(lines, line, key, i + 1); }
  }

  lemma AppendedFind(lines: seq<string>, line: string, key: string)
    ensures Lookup(lines + [line], key) == if Lookup(lines, key) != None then Lookup(lines, key)
                                           else if HasKey(line, key) then Some(line[|key| + 1..]) else None
  {
    FindAppended(lines, line, key, 0);
  }

  lemma OnlyLine(lines: seq<string>, key: string)
    ensures Lookup(RemoveLines(lines, key), key) == None <==>
            forall i, j :: 0 <= i < j < |lines| ==> !(HasKey(lines[i], key) && HasKey(lines[j], key))
  {
    hide HasKey, Find, Without;
    var k, rest := Find(lines, key, 0), RemoveLines(lines, key);
    WithoutAt(lines, k);
    var m := Find(rest, key, 0);
    if m == -1 {
      forall i, j | 0 <= i < j < |lines|
        ensures !(HasKey(lines[i], key) && HasKey(lines[j], key))
      {
        NotBoth(lines, key, i, j);
      }
    } else {
      SecondLine(lines, key, m);
    }
  }

  /** Once the first line with the key is gone, a line that has it was behind that one. */
  lemma SecondLine(lines: seq<string>, key: string, m: nat)
    requires m < |RemoveLines(lines, key)| && HasKey(RemoveLines(lines, key)[m], key)
    ensures 0 <= Find(lines, key, 0) <= m < |lines| - 1
    ensures HasKey(lines[Find(lines, key, 0)], key) && HasKey(lines[m + 1], key)
  {
    hide HasKey, Find, Without;
    WithoutAt(lines, Find(lines, key, 0));
  }

  lemma NotBoth(lines: seq<string>, key: string, i: nat, j: nat)
    requires i < j < |lines| && Find(RemoveLines(lines, key), key, 0) == -1
    ensures !(HasKey(lines[i], key) && HasKey(lines[j], key))
  {
    hide HasKey, Find, Without;
    var k, rest := Find(lines, key, 0), RemoveLines(lines, key);
    WithoutAt(lines, k);
    if k != -1 && k < j { assert rest[j - 1] == lines[j]; }
  }

  // ---- a last line without a newline ----------------------------------------------------------------------------

  /** What set leaves of lines whose last one may be open. */
  ghost function SetText(lines: seq<string>, open: bool, key: string, value: string): seq<string> {
    var k := Find(lines, key, 0);
    Appended(Without(lines, k), StaysOpen(lines, open, k), Entry(key, value))
  }

  /** The last line has no newline and is not the one taken out. */
  predicate StaysOpen(lines: seq<string>, open: bool, k: int) { open && k + 1 != |lines| }

  lemma SetClosed(lines: seq<string>, key: string, value: string)
    ensures SetText(lines, false, key, value) == SetLines(lines, key, value)
  {
  }

  /** An entry behind other text is not found. */
  lemma HiddenEntry(before: string, key: string, value: string)
    requires ValidKey(key) && before != "" && !HasKey(before, key)
    ensures !HasKey(before + Entry(key, value), key)
  {
    var line := before + Entry(key, value);
    if |before| <= |key| {
      assert line[|key|] == key[|key| - |before|];
      assert KeyChar(key[|key| - |before|]);
    } else {
      assert line[..|key|] == before[..|key|] && line[|key|] == before[|key|];
    }
  }

  /** Set does what it promises exactly unless the last line has no newline and belongs to another key. */
  lemma SetTextLaw(lines: seq<string>, open: bool, key: string, value: string)
    requires ValidKey(key) && NoRepeat(lines) && (open ==> lines != [] && lines[|lines| - 1] != "")
    ensures Lookup(SetText(lines, open, key, value), key) == Some(value) <==>
            !StaysOpen(lines, open, Find(lines, key, 0))
    ensures !StaysOpen(lines, open, Find(lines, key, 0)) ==>
            SetText(lines, open, key, value) == SetLines(lines, key, value)
    ensures StaysOpen(lines, open, Find(lines, key, 0)) ==> Lookup(SetText(lines, open, key, value), key) == None
  {
    var k := Find(lines, key, 0);
    if !StaysOpen(lines, open, k) {
      SetLaw(lines, key, value, key);
    } else {
      WithoutGone(lines, key);
      var rest := Without(lines, k);
      var n := |rest| - 1;
      WithoutAt(lines, k);
      assert rest[n] == lines[|lines| - 1];
      HiddenEntry(rest[n], key, value);
      hide HasKey, Entry;
      FindNone(SetText(lines, open, key, value), key, 0);
    }
  }

  /** One such sector: after a=2 is set there is no a, and x has changed. */
  lemma SetRunsOn()
    ensures SetText(["x=1"], true, "a", "2") == ["x=1a=2"]
    ensures Lookup(["x=1a=2"], "a") == None && Lookup(["x=1a=2"], "x") == Some("1a=2") &&
            Lookup(["x=1"], "x") == Some("1")
  {
    assert "x=1"[..1] == "x" && "x=1a=2"[..1] == "x" && "a" != "x" by { assert "a"[0] != "x"[0]; }
    FindNone(["x=1"], "a", 0);
    FindNone(["x=1a=2"], "a", 0);
    FindIs(["x=1"], "x", 0, 0);
    FindIs(["x=1a=2"], "x", 0, 0);
    assert "x=1" + Entry("a", "2") == "x=1a=2";
    assert "x=1"[2..] == "1" && "x=1a=2"[2..] == "1a=2";
  }

  // ---- where the lines stand ------------------------------------------------------------------------------------

  /** The index in the sector where line k starts. */
  ghost function Off(lines: seq<string>, k: nat): nat
    requires k <= |lines|
  {
    |MAGIC| + |Flat(lines[..k])|
  }

  lemma {:induction false} FlatSplit(a: seq<string>, b: seq<string>)
    ensures Flat(a + b) == Flat(a) + Flat(b)
  {
    if a == [] {
      assert a + b == b;
    } else {
      assert (a + b)[1..] == a[1..] + b;
      FlatSplit(a[1..], b);
    }
  }

  lemma FlatOne(line: string)
    ensures Flat([line]) == line + "\n"
  {
    assert Flat([line]) == line + "\n" + Flat([]);
  }

  lemma FlatParts(lines: seq<string>, k: nat)
    requires k < |lines|
    ensures Flat(lines) == Flat(lines[..k]) + (lines[k] + "\n") + Flat(lines[k + 1..])
    ensures Flat(lines[..k + 1]) == Flat(lines[..k]) + (lines[k] + "\n")
    ensures Off(lines, k + 1) == Off(lines, k) + |lines[k]| + 1 <= |MAGIC + Flat(lines)|
  {
    assert lines[..k + 1] == lines[..k] + [lines[k]];
    FlatSplit(lines[..k], [lines[k]]);
    FlatOne(lines[k]);
    assert lines == lines[..k + 1] + lines[k + 1..];
    FlatSplit(lines[..k + 1], lines[k + 1..]);
  }

  /** The index of the NUL behind the text. */
  ghost function End(lines: seq<string>, open: bool): nat { |MAGIC + Text(lines, open)| }

  /** Line k is the last and has no newline. */
  predicate IsOpen(lines: seq<string>, open: bool, k: nat) { open && k + 1 == |lines| }

  lemma TextParts(lines: seq<string>, open: bool, k: nat)
    requires k < |lines|
    ensures var rest := if IsOpen(lines, open, k) then "" else "\n" + Text(lines[k + 1..], open);
            MAGIC + Text(lines, open) == (MAGIC + Flat(lines[..k])) + lines[k] + rest
  {
    hide Flat;
    var n := |lines| - 1;
    if !open {
      FlatParts(lines, k);
    } else if k < n {
      OpenParts(lines, k);
    }
  }

  lemma OpenParts(lines: seq<string>, k: nat)
    requires k + 1 < |lines|
    ensures Text(lines, true) == Flat(lines[..k]) + lines[k] + ("\n" + Text(lines[k + 1..], true))
  {
    hide Flat;
    var n, y := |lines| - 1, lines[k + 1..];
    FlatParts(lines[..n], k);
    assert lines[..n][..k] == lines[..k] && lines[..n][k + 1..] == y[..|y| - 1] && y[|y| - 1] == lines[n];
    var a, b, c, d := Flat(lines[..k]), lines[k], Flat(y[..|y| - 1]), lines[n];
    assert (a + (b + "\n") + c) + d == a + b + ("\n" + (c + d));
  }

  /** What the sector shows of line k. */
  lemma LineAt(s: string, lines: seq<string>, open: bool, k: nat)
    requires HoldsText(s, lines, open) && k < |lines|
    ensures var o := Off(lines, k);
            && Off(lines, k + 1) == o + |lines[k]| + 1 && o + |lines[k]| < SIZE && Plain(lines[k])
            && s[o..o + |lines[k]|] == lines[k] && s[o + |lines[k]|] == (if IsOpen(lines, open, k) then '\0' else '\n')
            && (IsOpen(lines, open, k) ==> o + |lines[k]| == End(lines, open))
            && (!IsOpen(lines, open, k) ==> o + |lines[k]| + 1 <= End(lines, open))
  {
    hide Flat, Plain, Text;
    FlatParts(lines, k);
    TextParts(lines, open, k);
    var o, t := Off(lines, k), MAGIC + Text(lines, open);
    assert t[o..o + |lines[k]|] == lines[k];
    Bytes.PrefixPart(s, |t|, o, o + |lines[k]|);
    if !IsOpen(lines, open, k) {
      assert t[o + |lines[k]|] == '\n';
      assert s[o + |lines[k]|] == s[..|t|][o + |lines[k]|];
    }
  }

  lemma EndAt(s: string, lines: seq<string>, open: bool)
    requires HoldsText(s, lines, open)
    ensures |MAGIC| <= End(lines, open) < SIZE && s[End(lines, open)] == '\0'
    ensures !open ==> End(lines, open) == Off(lines, |lines|)
  {
    assert lines[..|lines|] == lines;
  }

  /** Nothing before the end is a NUL. */
  lemma {:induction false} TextHasNoNul(lines: seq<string>, i: nat)
    requires (forall k :: 0 <= k < |lines| ==> Plain(lines[k])) && i < |Flat(lines)|
    ensures Flat(lines)[i] != '\0'
  {
    if i >= |lines[0]| + 1 {
      TextHasNoNul(lines[1..], i - |lines[0]| - 1);
      assert Flat(lines)[i] == Flat(lines[1..])[i - |lines[0]| - 1];
    } else {
      assert Flat(lines)[i] == (lines[0] + "\n")[i];
    }
  }

  lemma NoNulBefore(s: string, lines: seq<string>, open: bool, i: nat)
    requires HoldsText(s, lines, open) && |MAGIC| <= i < End(lines, open)
    ensures i < |s| && s[i] != '\0'
  {
    hide Flat;
    var t := MAGIC + Text(lines, open);
    assert s[i] == s[..|t|][i] == Text(lines, open)[i - |MAGIC|];
    var j, n := i - |MAGIC|, |lines| - 1;
    if !open {
      TextHasNoNul(lines, j);
    } else if j < |Flat(lines[..n])| {
      TextHasNoNul(lines[..n], j);
    }
  }

  // ---- edits of the sector --------------------------------------------------------------------------------------

  ghost function Shifted(s: string, from: nat, to: nat): string
    requires from <= to <= |s|
  {
    s[..from] + s[to..] + seq(to - from, i => '\0')
  }

  ghost function Put(s: string, at: nat, t: string): string
    requires at + |t| <= |s|
  {
    s[..at] + t + s[at + |t|..]
  }

  lemma PlainWithout(lines: seq<string>, k: nat)
    requires k < |lines| && forall i :: 0 <= i < |lines| ==> Plain(lines[i])
    ensures forall i :: 0 <= i < |Without(lines, k)| ==> Plain(Without(lines, k)[i])
  {
  }

  /** The sector after line k, with its newline if it has one, is shifted out. */
  lemma HoldsWithout(s: string, lines: seq<string>, open: bool, k: nat)
    requires HoldsText(s, lines, open) && k < |lines|
    ensures var to := Off(lines, k) + |lines[k]| + if IsOpen(lines, open, k) then 0 else 1;
            && Off(lines, k) <= to <= SIZE == |s|
            && HoldsText(Shifted(s, Off(lines, k), to), Without(lines, k), open && !IsOpen(lines, open, k))
            && End(Without(lines, k), open && !IsOpen(lines, open, k)) == End(lines, open) - (to - Off(lines, k))
  {
    hide Plain, Shifted, Flat, Text, Without;
    PlainWithout(lines, k);
    LastWithout(lines, open, k);
    TextParts(lines, open, k);
    var last := IsOpen(lines, open, k);
    var a, m, b := MAGIC + Flat(lines[..k]), lines[k] + (if last then "" else "\n"),
      if last then "" else Text(lines[k + 1..], open);
    assert MAGIC + Text(lines, open) == a + m + b;
    TextWithout(lines, open, k);
    assert MAGIC + Text(Without(lines, k), open && !last) == a + b;
    ShiftedText(s, a, m, b);
    assert |a| == Off(lines, k);
  }

  lemma LastWithout(lines: seq<string>, open: bool, k: nat)
    requires k < |lines| && (open ==> lines[|lines| - 1] != "")
    ensures var rest := Without(lines, k);
            open && !IsOpen(lines, open, k) ==> rest != [] && rest[|rest| - 1] != ""
  {
  }

  lemma TextWithout(lines: seq<string>, open: bool, k: nat)
    requires k < |lines|
    ensures var last := IsOpen(lines, open, k);
            Text(Without(lines, k), open && !last) == Flat(lines[..k]) + if last then "" else Text(lines[k + 1..], open)
  {
    hide Flat;
    var rest, n := Without(lines, k), |lines| - 1;
    FlatSplit(lines[..k], lines[k + 1..]);
    if open && k < n {
      var x, y := lines[..k], lines[k + 1..];
      assert rest[..n - 1] == x + y[..|y| - 1] && rest[n - 1] == y[|y| - 1];
      FlatSplit(x, y[..|y| - 1]);
    } else if IsOpen(lines, open, k) {
      assert rest == lines[..k];
    }
  }

  lemma ShiftedText(s: string, a: string, m: string, b: string)
    requires |s| == SIZE && |a + m + b| < SIZE && s[..|a + m + b|] == a + m + b && s[|a + m + b|] == '\0'
    ensures |a + m| <= |s| &&
            var r := Shifted(s, |a|, |a + m|); |r| == SIZE && r[..|a + b|] == a + b && r[|a + b|] == '\0'
  {
    var t, r := a + m + b, Shifted(s, |a|, |a + m|);
    assert s[..|a|] == s[..|t|][..|a|] == a;
    assert s[|a + m|..|t|] == s[..|t|][|a + m|..] == b;
    assert s[|a + m|..] == b + s[|t|..];
    assert r == a + (b + s[|t|..]) + seq(|m|, i => '\0');
  }

  /** The sector after a line is written over the NUL: it is a line of its own, unless there is an open line to
      run into. */
  ghost function Appended(lines: seq<string>, open: bool, line: string): seq<string> {
    if open && lines != [] then lines[|lines| - 1 := lines[|lines| - 1] + line] else lines + [line]
  }

  lemma HoldsAppended(s: string, lines: seq<string>, open: bool, line: string)
    requires HoldsText(s, lines, open) && Plain(line) && End(lines, open) + |line| + 1 < SIZE
    ensures Holds(Put(s, End(lines, open), line + "\n" + "\0"), Appended(lines, open, line))
    ensures |MAGIC + Flat(Appended(lines, open, line))| == End(lines, open) + |line| + 1
  {
    TextAppended(lines, open, line);
    var ls := Appended(lines, open, line);
    assert forall i :: 0 <= i < |ls| ==> Plain(ls[i]);
    hide Flat, Plain, Appended;
    var a, t := MAGIC + Text(lines, open), line + "\n";
    var r := Put(s, |a|, t + "\0");
    assert MAGIC + Flat(ls) == a + t;
    assert s[..|a|] == a;
    assert r[..|a + t|] == a + t && r[|a + t|] == '\0';
  }

  lemma TextAppended(lines: seq<string>, open: bool, line: string)
    ensures Flat(Appended(lines, open, line)) == Text(lines, open) + (line + "\n")
  {
    hide Flat;
    if open && lines != [] {
      var n := |lines| - 1;
      var x := lines[..n] + [lines[n] + line];
      assert Appended(lines, open, line) == x;
      FlatSplit(lines[..n], [lines[n] + line]);
      FlatOne(lines[n] + line);
    } else {
      FlatSplit(lines, [line]);
      FlatOne(line);
    }
  }
}
