/** The numbers of the configuration: fmt_u32 and parse_u32 (kernel/bootcfg.c). */
module ConfigNumbers {
  import opened Bytes
  import opened ConfigText

  const MAX_U32: nat := 0xFFFF_FFFF

  // ---- printing -------------------------------------------------------------------------------------------------

  function DigitChar(d: nat): (c: char)
    requires d < 16
    ensures Digit(c, 16) == d && (d < 10 ==> Digit(c, 10) == d)
  {
    if d < 10 then '0' + d as char else 'a' + (d - 10) as char
  }

  function Base(hex: bool): nat { if hex then 16 else 10 }

  function Digits(value: nat, hex: bool): (s: string)
    ensures value > 0 ==> s != ""
  {
    if value == 0 then "" else Digits(value / Base(hex), hex) + [DigitChar(value % Base(hex))]
  }

  function Format(value: nat, hex: bool): string {
    (if hex then "0x" else "") + (if value == 0 then "0" else Digits(value, hex))
  }

  function Pow(b: nat, n: nat): nat { if n == 0 then 1 else b * Pow(b, n - 1) }

  lemma {:induction false} DigitsFit(value: nat, hex: bool, n: nat)
    requires value < Pow(Base(hex), n)
    ensures |Digits(value, hex)| <= n
  {
    if value > 0 {
      DivBelow(value, Base(hex), Pow(Base(hex), n - 1));
      DigitsFit(value / Base(hex), hex, n - 1);
    }
  }

  lemma DivBelow(a: nat, b: nat, c: nat)
    requires 0 < b && a < b * c
    ensures a / b < c
  {
    var q := a / b;
    assert b * q <= a;
    assert q >= c ==> b * q >= b * c;
  }

  lemma TenDigits(value: u32, hex: bool)
    ensures |Digits(value, hex)| <= 10 && (hex ==> |Digits(value, hex)| <= 8) && 0 < |Format(value, hex)| <= 10
  {
    if hex {
      assert Pow(16, 4) == 0x1_0000 && Pow(16, 8) == 0x1_0000_0000 by { PowSum(16, 4, 4); }
      DigitsFit(value, true, 8);
    } else {
      assert Pow(10, 5) == 100_000 && Pow(10, 10) == 10_000_000_000 by { PowSum(10, 5, 5); }
      DigitsFit(value, false, 10);
    }
  }

  lemma {:induction false} PowSum(b: nat, m: nat, n: nat)
    ensures Pow(b, m + n) == Pow(b, m) * Pow(b, n)
  {
    if m > 0 {
      PowSum(b, m - 1, n);
      MulThree(b, Pow(b, m - 1), Pow(b, n));
    }
  }

  lemma MulThree(x: nat, y: nat, z: nat)
    ensures x * (y * z) == (x * y) * z
  {
  }

  /** fmt_u32: the digits from the last one back into a small buffer, then copied out. */
  method FormatU32(value: u32, hex: bool) returns (out: string)
    ensures out == Format(value, hex)
  {
    hide DigitChar;
    TenDigits(value, hex);
    var tmp := new char[11];
    var i := 10;
    tmp[i] := '\0';
    if value == 0 { i := i - 1; tmp[i] := '0'; }
    var v: nat := value;
    while v != 0
      invariant 0 <= i <= 10 && |Digits(v, hex)| <= i
      invariant if value == 0 then v == 0 && tmp[i..10] == "0" else Digits(value, hex) == Digits(v, hex) + tmp[i..10]
    {
      ghost var before := tmp[i..10];
      var d := if hex then v % 16 else v % 10;
      i := i - 1;
      tmp[i] := DigitChar(d);
      assert tmp[i..10] == [DigitChar(d)] + before;
      v := if hex then v / 16 else v / 10;
    }
    out := if hex then "0x" else "";
    out := out + tmp[i..10];
  }

  // ---- parsing --------------------------------------------------------------------------------------------------

  /** The value of a digit, or -1. */
  function Digit(c: char, base: nat): int {
    if '0' <= c <= '9' then c as int - '0' as int
    else if base == 16 && 'a' <= c <= 'f' then c as int - 'a' as int + 10
    else if base == 16 && 'A' <= c <= 'F' then c as int - 'A' as int + 10
    else -1
  }

  function Start(v: string): nat { if |v| > 2 && v[0] == '0' && (v[1] == 'x' || v[1] == 'X') then 2 else 0 }

  /** The number in v[from..n], or None for a bad digit or a number that needs more than 32 bits. */
  function Number(v: string, from: nat, n: nat, base: nat): (r: Option<nat>)
    requires from <= n <= |v|
    ensures r.Some? ==> r.value <= MAX_U32
    decreases n
  {
    if n == from then Some(0)
    else
      var d, r := Digit(v[n - 1], base), Number(v, from, n - 1, base);
      if r.None? || d == -1 || r.value * base + d > MAX_U32 then None else Some(r.value * base + d)
  }

  function Parse(v: string, def: nat): nat {
    var r := Number(v, Start(v), |v|, if Start(v) == 2 then 16 else 10);
    if r.None? then def else r.value
  }

  lemma {:induction false} BadStaysBad(v: string, from: nat, m: nat, n: nat, base: nat)
    requires from <= m <= n <= |v| && Number(v, from, m, base).None?
    ensures Number(v, from, n, base).None?
    decreases n
  {
    if m < n { BadStaysBad(v, from, m, n - 1, base); }
  }

  lemma Overflows(r: nat, d: nat, base: nat)
    requires (base == 10 || base == 16) && d <= MAX_U32
    ensures r > (MAX_U32 - d) / base <==> r * base + d > MAX_U32
  {
    if base == 10 {
      assert r > (MAX_U32 - d) / 10 <==> r * 10 + d > MAX_U32;
    } else {
      assert r > (MAX_U32 - d) / 16 <==> r * 16 + d > MAX_U32;
    }
  }

  /** parse_u32. */
  method ParseU32(v: string, def: u32) returns (r: u32)
    ensures r == Parse(v, def)
  {
    var i, base := 0, 10;
    if |v| > 2 && v[0] == '0' && (v[1] == 'x' || v[1] == 'X') { base, i := 16, 2; }
    ghost var from := i;
    r := 0;
    while i < |v|
      invariant from <= i <= |v| && Number(v, from, i, base) == Some(r)
    {
      var d := Digit(v[i], base);
      if d == -1 { BadStaysBad(v, from, i + 1, |v|, base); return def; }
      Overflows(r, d, base);
      if r > (0xFFFF_FFFF - d) / base { BadStaysBad(v, from, i + 1, |v|, base); return def; }
      r := r * base + d;
      i := i + 1;
    }
  }

  // ---- round trip -----------------------------------------------------------------------------------------------

  lemma {:induction false} SameNumber(v: string, w: string, from: nat, n: nat, base: nat)
    requires from <= n <= |v| && n <= |w| && v[..n] == w[..n]
    ensures Number(v, from, n, base) == Number(w, from, n, base)
    decreases n
  {
    if n > from {
      assert v[n - 1] == v[..n][n - 1] == w[n - 1];
      assert v[..n - 1] == v[..n][..n - 1] == w[..n - 1];
      SameNumber(v, w, from, n - 1, base);
    }
  }

  lemma {:induction false} DigitsRead(pre: string, value: nat, hex: bool)
    requires value <= MAX_U32
    ensures var v := pre + Digits(value, hex); Number(v, |pre|, |v|, Base(hex)) == Some(value)
  {
    if value > 0 {
      var b, q := Base(hex), value / Base(hex);
      DigitsRead(pre, q, hex);
      var w, v := pre + Digits(q, hex), pre + Digits(value, hex);
      assert v == w + [DigitChar(value % b)];
      assert v[..|w|] == w[..|w|];
      SameNumber(v, w, |pre|, |w|, b);
      assert value == q * b + value % b;
    }
  }

  lemma {:induction false} DigitsAreDigits(value: nat, hex: bool)
    ensures forall i :: 0 <= i < |Digits(value, hex)| ==> Digit(Digits(value, hex)[i], Base(hex)) != -1
  {
    if value > 0 { DigitsAreDigits(value / Base(hex), hex); }
  }

  /** Every 32-bit number is read back as it was written, in either form. */
  lemma FormatParses(value: u32, hex: bool, def: nat)
    ensures Parse(Format(value, hex), def) == value
  {
    var s := Format(value, hex);
    if value == 0 {
      assert hex ==> s == "0x0";
      assert !hex ==> s == "0";
      assert hex ==> Number(s, 2, 2, 16) == Some(0);
      assert !hex ==> Number(s, 0, 0, 10) == Some(0);
    } else {
      DigitsRead(if hex then "0x" else "", value, hex);
      DigitsAreDigits(value, hex);
      assert !hex ==> s == "" + Digits(value, hex) == Digits(value, hex);
    }
  }

  lemma FormatPlain(value: u32, hex: bool)
    ensures Plain(Format(value, hex))
  {
    DigitsAreDigits(value, hex);
  }

  // ---- what the digits mean -------------------------------------------------------------------------------------

  /** The digits are the usual ones, capital letters being read as well. */
  lemma DigitTable(d: nat)
    requires d < 16
    ensures DigitChar(d) == "0123456789abcdef"[d]
    ensures Digit("0123456789abcdef"[d], 16) == d == Digit("0123456789ABCDEF"[d], 16)
    ensures Digit("0123456789abcdef"[d], 10) == if d < 10 then d else -1
  {
  }

  /** The number a string of digits stands for, by the place of each digit. */
  function PlaceValue(s: string, base: nat): int {
    if s == "" then 0 else Digit(s[0], base) * Pow(base, |s| - 1) + PlaceValue(s[1..], base)
  }

  lemma {:induction false} PlaceNext(s: string, c: char, base: nat)
    ensures PlaceValue(s + [c], base) == PlaceValue(s, base) * base + Digit(c, base)
  {
    if s == "" {
      assert s + [c] == [c] && [c][1..] == "" && Pow(base, 0) == 1;
    } else {
      assert (s + [c])[1..] == s[1..] + [c];
      PlaceNext(s[1..], c, base);
      PowNext(Digit(s[0], base), base, |s| - 1);
      Distribute(Digit(s[0], base) * Pow(base, |s| - 1), PlaceValue(s[1..], base), base);
    }
  }

  lemma PowNext(d: int, base: nat, n: nat)
    ensures d * Pow(base, n + 1) == d * Pow(base, n) * base
  {
    Regroup(d, base, Pow(base, n));
  }

  lemma Regroup(x: int, y: int, z: int)
    ensures x * (y * z) == x * z * y
  {
  }

  lemma Distribute(x: int, y: int, z: int)
    ensures (x + y) * z == x * z + y * z
  {
  }

  predicate AllDigits(s: string, base: nat) { forall i :: 0 <= i < |s| ==> Digit(s[i], base) != -1 }

  lemma {:induction false} PlaceNonneg(s: string, base: nat)
    requires AllDigits(s, base)
    ensures PlaceValue(s, base) >= 0
    decreases |s|
  {
    if s != "" {
      var t := s[..|s| - 1];
      assert s == t + [s[|s| - 1]];
      PlaceNonneg(t, base);
      PlaceNext(t, s[|s| - 1], base);
      MulNonneg(PlaceValue(t, base), base);
    }
  }

  lemma NumberStep(v: string, from: nat, n: nat, base: nat)
    requires from < n <= |v|
    ensures var d, r := Digit(v[n - 1], base), Number(v, from, n - 1, base);
            Number(v, from, n, base) ==
              if r.None? || d == -1 || r.value * base + d > MAX_U32 then None else Some(r.value * base + d)
  {
    hide Digit;
  }

  /** Parsing reads the value by places: a string of digits gives it when it fits 32 bits, everything else gives
      none. */
  lemma {:induction false} NumberIs(v: string, from: nat, n: nat, base: nat)
    requires from <= n <= |v| && base > 0
    ensures var s := v[from..n];
            Number(v, from, n, base) ==
              if AllDigits(s, base) && PlaceValue(s, base) <= 0xFFFF_FFFF then Some(PlaceValue(s, base)) else None
    decreases n
  {
    hide Digit, Number, PlaceValue;
    if n > from {
      var t, c := v[from..n - 1], v[n - 1];
      assert v[from..n] == t + [c];
      NumberIs(v, from, n - 1, base);
      NumberStep(v, from, n, base);
      PlaceNext(t, c, base);
      DigitsMore(t, c, base);
      if AllDigits(t, base) {
        PlaceNonneg(t, base);
        Grows(PlaceValue(t, base), base);
        DigitRange(c, base);
      }
    } else {
      NoDigits(v, from, base);
    }
  }

  lemma NoDigits(v: string, from: nat, base: nat)
    requires from <= |v|
    ensures AllDigits(v[from..from], base) && PlaceValue(v[from..from], base) == 0 &&
            Number(v, from, from, base) == Some(0)
  {
  }

  lemma DigitRange(c: char, base: nat)
    ensures -1 <= Digit(c, base)
  {
  }

  lemma DigitsMore(t: string, c: char, base: nat)
    ensures AllDigits(t + [c], base) <==> AllDigits(t, base) && Digit(c, base) != -1
  {
    hide Digit;
    assert forall i :: 0 <= i < |t| ==> (t + [c])[i] == t[i];
    assert (t + [c])[|t|] == c;
  }

  lemma Grows(x: int, base: int)
    requires x >= 0 && base > 0
    ensures x * base >= x
  {
    MulStep(0, base, x);
  }

  /** Decimal numbers are written in decimal digits, the others behind "0x" in hexadecimal ones. */
  lemma FormatForm(value: u32, hex: bool)
    ensures !hex ==> AllDigits(Format(value, hex), 10)
    ensures hex ==> "0x" <= Format(value, hex) && AllDigits(Format(value, hex)[2..], 16)
  {
    DigitsAreDigits(value, hex);
    var d := if value == 0 then "0" else Digits(value, hex);
    assert hex ==> Format(value, hex) == "0x" + d && Format(value, hex)[2..] == d;
    assert !hex ==> Format(value, hex) == d;
  }

  /** parse_u32 of any text: behind "0x" or "0X" hexadecimal digits, otherwise decimal ones; the default for
      anything else, and for more than 32 bits. */
  lemma ParseIs(v: string, def: nat)
    ensures var hex := |v| > 2 && v[0] == '0' && (v[1] == 'x' || v[1] == 'X');
            var s, base := if hex then v[2..] else v, if hex then 16 else 10;
            Parse(v, def) ==
              if AllDigits(s, base) && PlaceValue(s, base) <= 0xFFFF_FFFF then PlaceValue(s, base) else def
  {
    hide Number, PlaceValue, AllDigits;
    NumberIs(v, Start(v), |v|, if Start(v) == 2 then 16 else 10);
    assert v[0..|v|] == v && (|v| > 2 ==> v[2..|v|] == v[2..]);
  }
}
