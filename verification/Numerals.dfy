/** Numerals in a base: the digits that the formatter writes and the number they stand for. */
module Numerals {

  /** Room for the digits of one number (enough for 128 bits in octal). */
  const MAX_CONVERT_LENGTH: nat := 43

  function DigitChar(d: nat, up: bool): (c: char)
    requires d < 16
    ensures DigitValue(c) == d && c != ',' && c != ' ' && c != 'x' && c != 'X' && (c == '0' <==> d == 0)
  {
    if d < 10 then '0' + d as char
    else if up then 'A' + (d - 10) as char
    else 'a' + (d - 10) as char
  }

  /** What a digit is worth; 16 for a character that is no digit in any base up to 16. */
  function DigitValue(c: char): (v: nat)
    ensures v <= 16
  {
    if '0' <= c <= '9' then (c - '0') as nat
    else if 'a' <= c <= 'f' then (c - 'a') as nat + 10
    else if 'A' <= c <= 'F' then (c - 'A') as nat + 10
    else 16
  }

  predicate AllDigits(s: string, base: nat) {
    forall i :: 0 <= i < |s| ==> DigitValue(s[i]) < base
  }

  /** The number that digits `s`, read after the number `acc`, stand for. */
  function Value(s: string, base: nat, acc: nat): nat {
    if s == "" then acc else Value(s[1..], base, base * acc + DigitValue(s[0]))
  }

  lemma DivMod(u: nat, base: nat)
    requires base >= 2
    ensures 0 <= u / base && 0 <= u % base < base && u == base * (u / base) + u % base
    ensures u > 0 ==> u / base < u
    ensures u < base <==> u / base == 0
  {
  }

  /** The digits of `u`, most significant first, without leading zeros. */
  function Numeral(u: nat, base: nat, up: bool): (s: string)
    requires 2 <= base <= 16
    ensures |s| > 0 && AllDigits(s, base)
    decreases u
  {
    DivMod(u, base);
    if u < base then [DigitChar(u, up)]
    else Numeral(u / base, base, up) + [DigitChar(u % base, up)]
  }

  lemma {:induction false} ValueAppend(s: string, t: string, base: nat, acc: nat)
    ensures Value(s + t, base, acc) == Value(t, base, Value(s, base, acc))
  {
    if s == "" {
      assert s + t == t;
    } else {
      assert (s + t)[1..] == s[1..] + t;
      ValueAppend(s[1..], t, base, base * acc + DigitValue(s[0]));
    }
  }

  /** Digits only make a number larger. */
  lemma {:induction false} ValueGrows(s: string, base: nat, acc: nat)
    requires base >= 1
    ensures Value(s, base, acc) >= acc
  {
    if s == "" {
    } else {
      var next := base * acc + DigitValue(s[0]);
      assert base * acc >= acc;
      ValueGrows(s[1..], base, next);
    }
  }

  /** Reading a numeral in its base gives the number. */
  lemma {:induction false} NumeralValue(u: nat, base: nat, up: bool)
    requires 2 <= base <= 16
    ensures Value(Numeral(u, base, up), base, 0) == u
    decreases u
  {
    DivMod(u, base);
    if u < base {
    } else {
      var s, d := Numeral(u / base, base, up), [DigitChar(u % base, up)];
      NumeralValue(u / base, base, up);
      ValueAppend(s, d, base, 0);
      assert Value(d, base, u / base) == base * (u / base) + u % base;
    }
  }

  lemma {:induction false} NoLeadingZero(u: nat, base: nat, up: bool)
    requires 2 <= base <= 16 && u > 0
    ensures Numeral(u, base, up)[0] != '0'
    decreases u
  {
    DivMod(u, base);
    if u < base {
    } else {
      NoLeadingZero(u / base, base, up);
    }
  }

  function Pow(b: nat, n: nat): nat {
    if n == 0 then 1 else b * Pow(b, n - 1)
  }

  lemma Eighth(u: nat, base: nat)
    requires base >= 8
    ensures 8 * (u / base) <= u
  {
    DivMod(u, base);
    var q := u / base;
    assert base * q == 8 * q + (base - 8) * q;
  }

  /** `n` octal digits' worth of number takes at most `n` digits in any base from 8 on. */
  lemma {:induction false} NumeralLength(u: nat, base: nat, up: bool, n: nat)
    requires 8 <= base <= 16 && n >= 1 && u < Pow(8, n)
    ensures |Numeral(u, base, up)| <= n
    decreases n
  {
    DivMod(u, base);
    if u < base {
    } else {
      assert Pow(8, 1) == 8;
      Eighth(u, base);
      assert Pow(8, n) == 8 * Pow(8, n - 1);
      NumeralLength(u / base, base, up, n - 1);
    }
  }

  /** A 64-bit number has at most 22 digits, so the conversion buffer never truncates it. */
  lemma ConvertFits(u: nat, base: nat, up: bool)
    requires 8 <= base <= 16 && u < 0x1_0000_0000_0000_0000
    ensures |Numeral(u, base, up)| <= 22 < MAX_CONVERT_LENGTH
  {
    assert Pow(8, 22) == 0x4_0000_0000_0000_0000 by {
      assert Pow(8, 4) == 0x1000;
      assert Pow(8, 8) == 0x100_0000;
      assert Pow(8, 16) == 0x1_0000_0000_0000;
    }
    NumeralLength(u, base, up, 22);
  }

  /** The digits of `u`, least significant first. */
  function LowFirst(u: nat, base: nat, up: bool): (s: string)
    requires 2 <= base <= 16
    ensures |s| > 0
    decreases u
  {
    DivMod(u, base);
    [DigitChar(u % base, up)] + if u < base then "" else LowFirst(u / base, base, up)
  }

  lemma {:induction false} LowFirstIsReversed(u: nat, base: nat, up: bool)
    requires 2 <= base <= 16
    ensures |LowFirst(u, base, up)| == |Numeral(u, base, up)|
    ensures forall i :: 0 <= i < |Numeral(u, base, up)| ==>
      Numeral(u, base, up)[i] == LowFirst(u, base, up)[|Numeral(u, base, up)| - 1 - i]
    decreases u
  {
    DivMod(u, base);
    if u < base {
    } else {
      LowFirstIsReversed(u / base, base, up);
    }
  }

  lemma LowFirstStep(u: nat, base: nat, up: bool)
    requires 2 <= base <= 16
    ensures 0 <= u % base < 16 && 0 <= u / base && (u > 0 ==> u / base < u)
    ensures LowFirst(u, base, up)[0] == DigitChar(u % base, up)
    ensures LowFirst(u, base, up)[1..] == if u / base == 0 then "" else LowFirst(u / base, base, up)
  {
    DivMod(u, base);
  }

  lemma LowFirstLength(u: nat, base: nat, up: bool)
    requires 2 <= base <= 16
    ensures |LowFirst(u, base, up)| == |Numeral(u, base, up)|
  {
    LowFirstIsReversed(u, base, up);
  }

  lemma ConvertStep(all: string, pos: nat, v: nat, base: nat, up: bool)
    requires 2 <= base <= 16 && pos <= |all| && all[pos..] == LowFirst(v, base, up)
    ensures pos < |all| && 0 <= v % base < 16 && 0 <= v / base && (v > 0 ==> v / base < v)
    ensures all[pos] == DigitChar(v % base, up)
    ensures all[pos + 1..] == if v / base == 0 then "" else LowFirst(v / base, base, up)
  {
    LowFirstStep(v, base, up);
    var rest := all[pos..];
    assert rest[0] == all[pos] && rest[1..] == all[pos + 1..];
  }

  /** What is still to be written when the value has shrunk to `v`. */
  ghost function DigitsLeft(v: nat, base: nat, up: bool): string
    requires 2 <= base <= 16
  {
    if v == 0 then "" else LowFirst(v, base, up)
  }

  /** One digit off the low end. */
  method NextDigit(v: nat, base: nat, caps: bool, ghost all: string, ghost pos: nat) returns (ch: char, rest: nat)
    requires 2 <= base <= 16 && pos <= |all| && all[pos..] == LowFirst(v, base, caps)
    ensures pos < |all| && ch == all[pos] && all[pos + 1..] == DigitsLeft(rest, base, caps)
    ensures v > 0 ==> rest < v
  {
    ConvertStep(all, pos, v, base, caps);
    ch := DigitChar(v % base, caps);
    rest := v / base;
  }

  /** `convert`: the lowest digits of the value, low digit first, as many as the buffer holds. */
  method Convert(value: nat, buf: array<char>, base: nat, caps: bool) returns (pos: nat)
    requires 2 <= base <= 16 && buf.Length > 0
    modifies buf
    ensures pos == if |Numeral(value, base, caps)| <= buf.Length then |Numeral(value, base, caps)| else buf.Length
    ensures pos <= |LowFirst(value, base, caps)|
    ensures buf[..pos] == LowFirst(value, base, caps)[..pos]
  {
    ghost var all := LowFirst(value, base, caps);
    LowFirstLength(value, base, caps);
    var ch, v := NextDigit(value, base, caps, all, 0);
    buf[0] := ch;
    pos := 1;
    while v != 0 && pos < buf.Length
      invariant 1 <= pos <= buf.Length && pos <= |all|
      invariant forall i :: 0 <= i < pos ==> buf[i] == all[i]
      invariant all[pos..] == DigitsLeft(v, base, caps)
      decreases v
    {
      ch, v := NextDigit(v, base, caps, all, pos);
      buf[pos] := ch;
      pos := pos + 1;
    }
  }

  // ------------------------------------------------------------------ digit groups

  /** `getnumsep`: how many separators go between groups of three digits. */
  function GetNumSep(digits: nat): nat {
    (digits - if digits > 0 && digits % 3 == 0 then 1 else 0) / 3
  }

  /** What goes after a digit when `left` more follow it. */
  function Separator(left: nat): string {
    if left > 0 && left % 3 == 0 then "," else ""
  }

  /** Digits with a comma wherever a positive multiple of three digits is left. */
  function Grouped(s: string): string {
    if s == "" then "" else [s[0]] + (Separator(|s| - 1) + Grouped(s[1..]))
  }

  function Commas(s: string): nat {
    if s == "" then 0 else (if s[0] == ',' then 1 else 0) + Commas(s[1..])
  }

  function WithoutCommas(s: string): string {
    if s == "" then "" else (if s[0] == ',' then "" else [s[0]]) + WithoutCommas(s[1..])
  }

  lemma NumSepStep(n: nat)
    requires n > 0
    ensures GetNumSep(n) == GetNumSep(n - 1) + |Separator(n - 1)|
  {
  }

  lemma CommasHead(c: char, s: string)
    ensures Commas([c] + s) == (if c == ',' then 1 else 0) + Commas(s)
    ensures WithoutCommas([c] + s) == (if c == ',' then "" else [c]) + WithoutCommas(s)
  {
    assert ([c] + s)[1..] == s;
  }

  lemma {:induction false} GroupedLength(s: string)
    ensures |Grouped(s)| == |s| + GetNumSep(|s|)
  {
    if s == "" {
    } else {
      GroupedLength(s[1..]);
      NumSepStep(|s|);
    }
  }

  lemma SeparatorHead(left: nat, t: string)
    ensures Commas(Separator(left) + t) == |Separator(left)| + Commas(t)
    ensures WithoutCommas(Separator(left) + t) == WithoutCommas(t)
  {
    if Separator(left) == "" {
      assert Separator(left) + t == t;
    } else {
      CommasHead(',', t);
    }
  }

  /** What the first digit and its separator add to the count and to the text. */
  lemma GroupedHead(s: string)
    requires s != "" && s[0] != ','
    ensures Commas(Grouped(s)) == |Separator(|s| - 1)| + Commas(Grouped(s[1..]))
    ensures WithoutCommas(Grouped(s)) == [s[0]] + WithoutCommas(Grouped(s[1..]))
  {
    SeparatorHead(|s| - 1, Grouped(s[1..]));
    CommasHead(s[0], Separator(|s| - 1) + Grouped(s[1..]));
  }

  /** The digit loop writes as many separators as `getnumsep` announces, and only inserts them. */
  lemma {:induction false} GroupedCount(s: string)
    requires ',' !in s
    ensures |Grouped(s)| == |s| + GetNumSep(|s|)
    ensures Commas(Grouped(s)) == GetNumSep(|s|)
    ensures WithoutCommas(Grouped(s)) == s
  {
    GroupedLength(s);
    if s == "" {
    } else {
      GroupedHead(s);
      NumSepStep(|s|);
      GroupedCount(s[1..]);
      assert [s[0]] + s[1..] == s;
    }
  }

  lemma PlacesFromRight(first: char, sep: string, rest: string, k: nat)
    requires |sep| <= 1 && k < 1 + |sep| + |rest|
    ensures var g := [first] + (sep + rest);
      g[|g| - 1 - k] == if k < |rest| then rest[|rest| - 1 - k] else if k < |rest| + |sep| then sep[0] else first
  {
  }

  /** Where the next digit and its separator come to stand. */
  lemma LengthPlaces(n: nat)
    ensures if Separator(n) != "" then (n + GetNumSep(n)) % 4 == 3 && (n + GetNumSep(n) + 1) % 4 != 3
            else (n + GetNumSep(n)) % 4 != 3
  {
    var q, r := n / 3, n % 3;
    assert n == 3 * q + r;
    if n > 0 && r == 0 {
      assert GetNumSep(n) == q - 1 && n + GetNumSep(n) == 4 * (q - 1) + 3;
    } else {
      assert GetNumSep(n) == q && n + GetNumSep(n) == 4 * q + r;
    }
  }

  /** Counted from the right, every fourth character is a separator and no other one is. */
  lemma {:induction false} SeparatorPlaces(s: string, k: nat)
    requires ',' !in s && k < |Grouped(s)|
    ensures Grouped(s)[|Grouped(s)| - 1 - k] == ',' <==> k % 4 == 3
  {
    var rest := Grouped(s[1..]);
    GroupedLength(s[1..]);
    PlacesFromRight(s[0], Separator(|s| - 1), rest, k);
    if k < |rest| { SeparatorPlaces(s[1..], k); } else { LengthPlaces(|s| - 1); }
  }

  lemma {:induction false} WithoutCommasAppend(s: string, t: string)
    ensures WithoutCommas(s + t) == WithoutCommas(s) + WithoutCommas(t)
  {
    if s == "" {
      assert s + t == t;
    } else {
      assert (s + t)[1..] == s[1..] + t;
      WithoutCommasAppend(s[1..], t);
    }
  }

  lemma {:induction false} NoCommas(s: string)
    requires ',' !in s
    ensures WithoutCommas(s) == s
  {
    if s == "" {
    } else {
      NoCommas(s[1..]);
    }
  }
}
