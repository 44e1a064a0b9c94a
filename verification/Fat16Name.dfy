/** The 8.3 name codec: "name.ext" to eleven padded upper-case bytes and back. Strings are the bytes
    before the terminating NUL. */
module Fat16Name {
  import opened Bytes
  import opened Fat16Dir

  const SPACE: byte := 0x20
  const PERIOD: byte := 0x2E

  function Upper(c: byte): byte { if 0x61 <= c <= 0x7A then c - 32 else c }

  function UpperAll(s: seq<byte>): (r: seq<byte>)
    ensures |r| == |s|
  {
    seq(|s|, i requires 0 <= i < |s| => Upper(s[i]))
  }

  /** Position of the first c, or the length. */
  function IndexOf(s: seq<byte>, c: byte): (p: nat)
    ensures p <= |s| && c !in s[..p] && (p < |s| ==> s[p] == c)
  {
    if s == [] || s[0] == c then 0
    else
      assert forall p :: 0 <= p <= |s| - 1 ==> s[..p + 1] == [s[0]] + s[1..][..p];
      1 + IndexOf(s[1..], c)
  }

  function Before(s: seq<byte>, c: byte): seq<byte> { s[..IndexOf(s, c)] }

  function After(s: seq<byte>, c: byte): seq<byte> {
    if IndexOf(s, c) < |s| then s[IndexOf(s, c) + 1..] else []
  }

  function Take(s: seq<byte>, n: nat): (r: seq<byte>)
    ensures |r| <= n && r <= s
  {
    if |s| <= n then s else s[..n]
  }

  function Spaces(n: nat): (r: seq<byte>)
    ensures |r| == n
  {
    seq(n, i => SPACE)
  }

  function Pad(s: seq<byte>, n: nat): (r: seq<byte>)
    requires |s| <= n
    ensures |r| == n
  {
    s + Spaces(n - |s|)
  }

  /** The directory form of a path component: the first eight characters before the first period and
      the first three after it, in upper case and padded; "." and ".." stand for themselves. */
  function Name83(name: seq<byte>): (r: seq<byte>)
    ensures |r| == 11
  {
    if name == [PERIOD] then DOT
    else if name == [PERIOD, PERIOD] then DOTDOT
    else Pad(UpperAll(Take(Before(name, PERIOD), 8)), 8) + Pad(UpperAll(Take(After(name, PERIOD), 3)), 3)
  }

  /** The text form of a directory name. */
  function Display(n: seq<byte>): (r: seq<byte>)
    requires |n| == 11
    ensures |r| <= 12 && SPACE !in r
  {
    Before(n[..8], SPACE) + if n[8..] == Spaces(3) then [] else [PERIOD] + Before(n[8..], SPACE)
  }

  predicate Padded(s: seq<byte>) { s == Pad(Before(s, SPACE), |s|) }

  /** Names that survive the trip to text and back: spaces only as padding, no lower case, no period
      in the base, and not the entry that would display as "..". */
  predicate Canonical(n: seq<byte>)
    requires |n| == 11
  {
    && Padded(n[..8]) && Padded(n[8..])
    && (forall i :: 0 <= i < 11 ==> !(0x61 <= n[i] <= 0x7A))
    && PERIOD !in n[..8]
    && !(n[..8] == Spaces(8) && n[8..] == [PERIOD, SPACE, SPACE])
  }

  lemma IndexIs(s: seq<byte>, c: byte, p: nat)
    requires p <= |s| && c !in s[..p] && (p < |s| ==> s[p] == c)
    ensures IndexOf(s, c) == p
  {
    var q := IndexOf(s, c);
    assert forall i :: 0 <= i < p ==> s[..p][i] != c;
    assert forall i :: 0 <= i < q ==> s[..q][i] != c;
  }

  lemma BeforePadded(s: seq<byte>, n: nat)
    requires |s| <= n && SPACE !in s
    ensures Before(Pad(s, n), SPACE) == s && Padded(Pad(s, n))
  {
    assert Pad(s, n)[..|s|] == s;
    IndexIs(Pad(s, n), SPACE, |s|);
  }

  /** Splitting b.x at its first period, when b has none. */
  lemma SplitPeriod(b: seq<byte>, x: seq<byte>)
    requires PERIOD !in b
    ensures Before(b + [PERIOD] + x, PERIOD) == b && After(b + [PERIOD] + x, PERIOD) == x
    ensures Before(b, PERIOD) == b && After(b, PERIOD) == []
  {
    var s := b + [PERIOD] + x;
    assert s[..|b|] == b;
    IndexIs(s, PERIOD, |b|);
    assert s[|b| + 1..] == x;
    assert b[..|b|] == b;
    IndexIs(b, PERIOD, |b|);
  }

  lemma UpperSame(s: seq<byte>)
    requires forall i :: 0 <= i < |s| ==> Upper(s[i]) == s[i]
    ensures UpperAll(s) == s
  {
  }

  /** A padded name starting with text that is not a period cannot read as "." or "..". */
  lemma DisplayNotDots(b: seq<byte>, x: seq<byte>)
    requires PERIOD !in b
    ensures b != [PERIOD] && b != [PERIOD, PERIOD]
    ensures x != [] ==> b + [PERIOD] + x != [PERIOD]
    ensures !(b == [] && x == [PERIOD]) ==> b + [PERIOD] + x != [PERIOD, PERIOD]
  {
    var d := b + [PERIOD] + x;
    if |b| > 0 { assert d[0] == b[0] && b[0] != PERIOD; } else { assert d[1..] == x; }
    assert PERIOD in [PERIOD] && PERIOD in [PERIOD, PERIOD];
  }

  lemma PadFacts()
    ensures Pad([], 8) == Spaces(8) && Pad([], 3) == Spaces(3) && Pad([PERIOD], 3) == [PERIOD, SPACE, SPACE]
  {
  }

  /** Encoding base b and extension x. */
  lemma Encode(b: seq<byte>, x: seq<byte>)
    requires |b| <= 8 && |x| <= 3 && PERIOD !in b && UpperAll(b) == b && UpperAll(x) == x
    ensures Name83(b) == Pad(b, 8) + Spaces(3)
    ensures x != [] && !(b == [] && x == [PERIOD]) ==> Name83(b + [PERIOD] + x) == Pad(b, 8) + Pad(x, 3)
  {
    SplitPeriod(b, x);
    DisplayNotDots(b, x);
    PadFacts();
    assert UpperAll([]) == [];
    hide Before, After;
  }

  lemma CanonicalParts(n: seq<byte>)
    requires |n| == 11 && Canonical(n)
    ensures var b, x := Before(n[..8], SPACE), Before(n[8..], SPACE);
            && |b| <= 8 && |x| <= 3 && PERIOD !in b && UpperAll(b) == b && UpperAll(x) == x
            && n == Pad(b, 8) + Pad(x, 3)
            && !(b == [] && x == [PERIOD])
            && (n[8..] != Spaces(3) ==> x != [])
  {
    var b, x := Before(n[..8], SPACE), Before(n[8..], SPACE);
    assert n == n[..8] + n[8..];
    assert forall i :: 0 <= i < |b| ==> b[i] == n[i];
    assert forall i :: 0 <= i < |x| ==> x[i] == n[8 + i];
    UpperSame(b);
    UpperSame(x);
    PadFacts();
  }

  /** Display then encode gives back a canonical name. */
  lemma CanonicalRoundTrip(n: seq<byte>)
    requires |n| == 11 && Canonical(n)
    ensures Name83(Display(n)) == n
  {
    hide Before, Pad, Name83, Canonical, UpperAll;
    CanonicalParts(n);
    var b, x := Before(n[..8], SPACE), Before(n[8..], SPACE);
    Encode(b, x);
    PadFacts();
    EmptyBefore();
    if n[8..] == Spaces(3) {
      assert Display(n) == b;
    } else {
      assert Display(n) == b + [PERIOD] + x;
    }
  }

  lemma EmptyBefore()
    ensures Before(Spaces(3), SPACE) == []
  {
    IndexIs(Spaces(3), SPACE, 0);
  }

  lemma UpperSpace(s: seq<byte>)
    requires SPACE !in s
    ensures SPACE !in UpperAll(s)
    ensures forall i :: 0 <= i < |s| ==> Upper(UpperAll(s)[i]) == UpperAll(s)[i]
    ensures PERIOD !in s ==> PERIOD !in UpperAll(s)
    ensures UpperAll(s) == [PERIOD] ==> s == [PERIOD]
  {
  }

  lemma CanonicalMade(b: seq<byte>, x: seq<byte>)
    requires |b| <= 8 && |x| <= 3 && SPACE !in b && SPACE !in x && PERIOD !in b && !(b == [] && x == [PERIOD])
    requires (forall i :: 0 <= i < |b| ==> Upper(b[i]) == b[i]) && (forall i :: 0 <= i < |x| ==> Upper(x[i]) == x[i])
    ensures Canonical(Pad(b, 8) + Pad(x, 3))
  {
    var n := Pad(b, 8) + Pad(x, 3);
    assert n[..8] == Pad(b, 8) && n[8..] == Pad(x, 3);
    BeforePadded(b, 8);
    BeforePadded(x, 3);
    PadFacts();
    BeforePadded([], 8);
    BeforePadded([PERIOD], 3);
    hide Before;
    assert PERIOD !in n[..8] && forall i :: 0 <= i < 11 ==> Upper(n[i]) == n[i];
    assert forall i :: 0 <= i < 11 ==> !(0x61 <= n[i] <= 0x7A);
  }

  /** A component with nothing before its first period and "." after it is "..". */
  lemma OnlyDots(s: seq<byte>)
    requires s != [PERIOD, PERIOD]
    ensures !(Take(Before(s, PERIOD), 8) == [] && Take(After(s, PERIOD), 3) == [PERIOD])
  {
    var p := IndexOf(s, PERIOD);
    if p == 0 && |s| > 0 { assert s == [s[0]] + s[1..]; }
  }

  /** Every space-free component other than "." and ".." encodes to a canonical name. */
  lemma Name83Canonical(s: seq<byte>)
    requires SPACE !in s && s != [PERIOD] && s != [PERIOD, PERIOD]
    ensures Canonical(Name83(s))
  {
    var b, x := Take(Before(s, PERIOD), 8), Take(After(s, PERIOD), 3);
    UpperSpace(b);
    UpperSpace(x);
    OnlyDots(s);
    assert |UpperAll(b)| == |b|;
    hide Before, After, Canonical;
    CanonicalMade(UpperAll(b), UpperAll(x));
  }

  lemma DotNames()
    ensures Display(DOT) == [PERIOD] && Display(DOTDOT) == [PERIOD, PERIOD]
    ensures Name83([PERIOD]) == DOT && Name83([PERIOD, PERIOD]) == DOTDOT
  {
    IndexIs(DOT[..8], SPACE, 1);
    IndexIs(DOTDOT[..8], SPACE, 2);
    assert DOT[8..] == Spaces(3) && DOTDOT[8..] == Spaces(3);
  }

  /** The exact set of names that display and encode are inverse on. */
  lemma NameRoundTrip(n: seq<byte>)
    requires |n| == 11
    ensures Name83(Display(n)) == n <==> Canonical(n) || n == DOT || n == DOTDOT
  {
    DotNames();
    hide Name83, Display, Canonical;
    if Canonical(n) { CanonicalRoundTrip(n); }
    if Display(n) != [PERIOD] && Display(n) != [PERIOD, PERIOD] { Name83Canonical(Display(n)); }
  }

  // ---- the encoding, byte by byte --------------------------------------------------------------

  /** Byte r stands for byte c of a component: c itself, 32 less when it is a small letter. */
  predicate Stands(c: byte, r: byte) { r as int == if 0x61 <= c <= 0x7A then c as int - 32 else c as int }

  /** Every byte of the encoding, when p is the place of the first period or the end of the component. */
  lemma EncodedByte(name: seq<byte>, p: nat, i: nat)
    requires name != [PERIOD] && name != [PERIOD, PERIOD] && i < 11
    requires p <= |name| && (forall j :: 0 <= j < p ==> name[j] != PERIOD) && (p < |name| ==> name[p] == PERIOD)
    ensures i < 8 ==> if i < p then Stands(name[i], Name83(name)[i]) else Name83(name)[i] == SPACE
    ensures 8 <= i ==> if p + i - 7 < |name| then Stands(name[p + i - 7], Name83(name)[i]) else Name83(name)[i] == SPACE
  {
    IndexIs(name, PERIOD, p);
    hide IndexOf;
    var b, x := Take(Before(name, PERIOD), 8), Take(After(name, PERIOD), 3);
    if i < 8 {
      assert i < |b| <==> i < p;
      assert i < |b| ==> b[i] == name[i];
    } else {
      assert i - 8 < |x| <==> p + i - 7 < |name|;
      assert i - 8 < |x| ==> x[i - 8] == name[p + i - 7];
    }
  }

  /** The text of a name: its base up to the first space and, unless the extension is blank, a period and the
      extension up to its first space, with no letter changed. */
  lemma DisplayedText(n: seq<byte>, p: nat, q: nat)
    requires |n| == 11 && p <= 8 && q <= 3 && SPACE !in n[..p] && SPACE !in n[8..8 + q]
    requires (p < 8 ==> n[p] == SPACE) && (q < 3 ==> n[8 + q] == SPACE)
    ensures Display(n) == n[..p] + if forall i :: 8 <= i < 11 ==> n[i] == SPACE then [] else [PERIOD] + n[8..8 + q]
  {
    var b, x := n[..8], n[8..];
    assert b[..p] == n[..p] && x[..q] == n[8..8 + q];
    IndexIs(b, SPACE, p);
    IndexIs(x, SPACE, q);
    hide IndexOf;
    assert x == Spaces(3) <==> forall i :: 8 <= i < 11 ==> n[i] == SPACE;
  }

  /** Two bytes that are the same letter, in whatever case. */
  predicate SameLetter(c: byte, d: byte) {
    c == d || (0x61 <= c <= 0x7A && d as int == c as int - 32) || (0x61 <= d <= 0x7A && c as int == d as int - 32)
  }

  /** The encoding has no small letter, and components that differ only in the case of letters encode alike. */
  lemma CaseBlind(a: seq<byte>, b: seq<byte>)
    requires |a| == |b| && forall i :: 0 <= i < |a| ==> SameLetter(a[i], b[i])
    ensures Name83(a) == Name83(b) && forall i :: 0 <= i < 11 ==> !(0x61 <= Name83(a)[i] <= 0x7A)
  {
    hide Name83;
    DotNames();
    if a == [PERIOD] {
      assert b == [PERIOD];
    } else if a == [PERIOD, PERIOD] {
      assert b == [PERIOD, PERIOD];
    } else {
      var p := IndexOf(a, PERIOD);
      assert forall j :: 0 <= j < p ==> a[..p][j] != PERIOD;
      forall i: nat | i < 11
        ensures Name83(a)[i] == Name83(b)[i] && !(0x61 <= Name83(a)[i] <= 0x7A)
      {
        EncodedByte(a, p, i);
        EncodedByte(b, p, i);
      }
    }
  }

  // ---- the encoder as the driver runs it ------------------------------------------------------

  lemma UpperNext(s: seq<byte>, from: nat, p: nat)
    requires from <= p < |s|
    ensures UpperAll(s[from..p + 1]) == UpperAll(s[from..p]) + [Upper(s[p])]
  {
  }

  lemma PatchMore(s: seq<byte>, at: nat, d: seq<byte>, x: byte)
    requires at + |d| < |s|
    ensures Patch(s, at, d + [x]) == Patch(s, at, d)[at + |d| := x]
  {
  }

  /** Copies characters of s from p on, in upper case, into out: up to limit of them, to the end of s
      or, if asked, to the first period. */
  method CopyUpper(s: seq<byte>, from: nat, toPeriod: bool, out: array<byte>, at: nat, limit: nat) returns (p: nat)
    requires from <= |s| && at + limit <= out.Length
    modifies out
    ensures from <= p <= |s| && p - from <= limit
    ensures p == |s| || p - from == limit || (toPeriod && s[p] == PERIOD)
    ensures toPeriod ==> forall i :: from <= i < p ==> s[i] != PERIOD
    ensures out[..] == Patch(old(out[..]), at, UpperAll(s[from..p]))
  {
    ghost var out0, d: seq<byte> := out[..], [];
    p := from;
    assert UpperAll(s[from..from]) == d && Patch(out0, at, d) == out0;
    hide Patch, UpperAll;
    while p < |s| && !(toPeriod && s[p] == PERIOD) && p - from < limit
      invariant from <= p <= |s| && p - from <= limit && |d| == p - from
      invariant toPeriod ==> forall i :: from <= i < p ==> s[i] != PERIOD
      invariant out[..] == Patch(out0, at, d)
      invariant d == UpperAll(s[from..p])
    {
      UpperNext(s, from, p);
      PatchMore(out0, at, d, Upper(s[p]));
      out[at + p - from] := Upper(s[p]);
      d := d + [Upper(s[p])];
      p := p + 1;
    }
  }

  lemma TakeBefore(s: seq<byte>, p: nat)
    requires p <= |s| && p <= 8 && (forall i :: 0 <= i < p ==> s[i] != PERIOD) && (p == |s| || p == 8 || s[p] == PERIOD)
    ensures p <= IndexOf(s, PERIOD) && s[..p] == Take(Before(s, PERIOD), 8)
  {
    var q := IndexOf(s, PERIOD);
    assert forall i :: 0 <= i < q ==> s[..q][i] != PERIOD;
  }

  /** The base into the first eight bytes of a blank buffer, the extension into the last three. */
  method CopyParts(name: seq<byte>, out: array<byte>)
    requires out.Length == 11 && out[..] == Spaces(11)
    modifies out
    ensures out[..] == Pad(UpperAll(Take(Before(name, PERIOD), 8)), 8) + Pad(UpperAll(Take(After(name, PERIOD), 3)), 3)
  {
    var p := CopyUpper(name, 0, true, out, 0, 8);
    assert name[0..p] == name[..p];
    TakeBefore(name, p);
    ghost var b, x := UpperAll(Take(Before(name, PERIOD), 8)), UpperAll(Take(After(name, PERIOD), 3));
    assert out[..] == Patch(Spaces(11), 0, b);
    while p < |name| && name[p] != PERIOD
      invariant p <= IndexOf(name, PERIOD)
    {
      p := p + 1;
    }
    if p < |name| {
      var q := CopyUpper(name, p + 1, false, out, 8, 3);
      assert name[p + 1..q] == Take(After(name, PERIOD), 3);
    }
    hide Before, After, Take, UpperAll;
    EncodedBuffer(b, x);
  }

  /** to_8_3: blanks an eleven-byte buffer; "." and ".." go in as they are, other names by their
      parts. */
  method To83(name: seq<byte>) returns (r: seq<byte>)
    ensures r == Name83(name)
  {
    hide Before, After, Take, UpperAll, Pad;
    var out := new byte[11](i => SPACE);
    assert out[..] == Spaces(11);
    if |name| >= 1 && name[0] == PERIOD && (|name| == 1 || (name[1] == PERIOD && |name| == 2)) {
      out[0] := PERIOD;
      if |name| == 2 { out[1] := PERIOD; }
      return out[..];
    }
    CopyParts(name, out);
    r := out[..];
  }

  lemma EncodedBuffer(b: seq<byte>, x: seq<byte>)
    requires |b| <= 8 && |x| <= 3
    ensures Patch(Patch(Spaces(11), 0, b), 8, x) == Pad(b, 8) + Pad(x, 3)
    ensures Patch(Spaces(11), 0, b) == Pad(b, 8) + Pad([], 3)
  {
  }
}
