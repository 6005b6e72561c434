/** What one conversion writes: the text of a string or an integer in its field. */
module Fields {
  import opened Messages
  import opened Numerals

  datatype Flags = Flags(minus: bool, plus: bool, space: bool, num: bool, zero: bool, quote: bool)

  const NO_PRECISION: int := -1

  function Max(a: int, b: int): int { if a >= b then a else b }

  function Repeat(c: char, n: int): (s: string)
    ensures |s| == Max(0, n) && forall i :: 0 <= i < |s| ==> s[i] == c
  {
    seq(Max(0, n), _ => c)
  }

  // ----------------------------------------------------------------------- strings

  /** A C string's text has no NUL in it. */
  type CString = s: string | '\0' !in s witness ""

  /** What `fmtstr` prints of a string: "(null)" for a null pointer, and no more than the precision. */
  function Clipped(text: Option<CString>, precision: int): string {
    var s := if text.Some? then text.value else "(null)";
    if 0 <= precision < |s| then s[..precision] else s
  }

  function StringField(text: Option<CString>, width: int, precision: int, flags: Flags): string {
    var s := Clipped(text, precision);
    var pad := Repeat(' ', width - |s|);
    if flags.minus then s + pad else pad + s
  }

  // ---------------------------------------------------------------------- integers

  /** An integer conversion after its arguments are fetched. */
  datatype IntSpec = IntSpec(value: int, base: nat, width: int, precision: int, flags: Flags, up: bool, unsigned: bool)
  {
    ghost predicate Valid() {
      (base == 8 || base == 10 || base == 16) && -0x8000_0000_0000_0000 <= value < 0x8000_0000_0000_0000
      && precision >= NO_PRECISION && width >= 0
    }

    /** The absolute value; for an unsigned conversion the value as a 64-bit word. */
    function Magnitude(): (u: nat) {
      if unsigned then value % 0x1_0000_0000_0000_0000 else if value >= 0 then value else -value
    }

    function Sign(): string {
      if unsigned then ""
      else if value < 0 then "-"
      else if flags.plus then "+"
      else if flags.space then " "
      else ""
    }

    function Digits(): (s: string)
      requires 2 <= base <= 16
    {
      Numeral(Magnitude(), base, up)
    }

    function Prefix(): string {
      if flags.num && Magnitude() != 0 && base == 16 then if up then "0X" else "0x" else ""
    }

    /** The precision, raised for the alternative form of an octal number. */
    function Precision(): int
      requires 2 <= base <= 16
    {
      if flags.num && Magnitude() != 0 && base == 8 && precision <= |Digits()| then |Digits()| + 1 else precision
    }

    function Separators(): nat
      requires 2 <= base <= 16
    {
      if flags.quote then GetNumSep(|Digits()|) else 0
    }

    function Zeros(): nat
      requires 2 <= base <= 16
    {
      Max(0, Precision() - |Digits()| - Separators())
    }

    function Spaces(): nat
      requires 2 <= base <= 16
    {
      Max(0, width - Separators() - Max(Precision(), |Digits()|) - |Sign()| - |Prefix()|)
    }

    function Shown(): string
      requires 2 <= base <= 16
    {
      if flags.quote then Grouped(Digits()) else Digits()
    }
  }

  /** A number with its padding: blanks, sign, prefix, zeros, digits, blanks. */
  function LaidOut(lead: nat, sign: string, number: string, trail: nat): string {
    Repeat(' ', lead) + (sign + (number + Repeat(' ', trail)))
  }

  function Number(prefix: string, zeros: nat, shown: string): string {
    prefix + (Repeat('0', zeros) + shown)
  }

  /** The field that `fmtint` writes. */
  function IntField(c: IntSpec): string
    requires 2 <= c.base <= 16
  {
    if c.flags.minus then
      LaidOut(0, c.Sign(), Number(c.Prefix(), c.Zeros(), c.Shown()), c.Spaces())
    else if c.flags.zero && c.precision == NO_PRECISION then
      LaidOut(0, c.Sign(), Number(c.Prefix(), c.Zeros() + c.Spaces(), c.Shown()), 0)
    else
      LaidOut(c.Spaces(), c.Sign(), Number(c.Prefix(), c.Zeros(), c.Shown()), 0)
  }

  // -------------------------------------------------------------------- reading back

  function SkipSpaces(s: string): string {
    if s != "" && s[0] == ' ' then SkipSpaces(s[1..]) else s
  }

  /** The number at the start of `s`, up to the first character that is no digit. */
  function ReadDigits(s: string, base: nat, acc: nat): nat {
    if s != "" && DigitValue(s[0]) < base then ReadDigits(s[1..], base, base * acc + DigitValue(s[0])) else acc
  }

  function ReadPrefixed(s: string, base: nat): nat {
    if base == 16 && |s| >= 2 && s[0] == '0' && (s[1] == 'x' || s[1] == 'X') then ReadDigits(s[2..], base, 0)
    else ReadDigits(s, base, 0)
  }

  /** Reads an integer the way strtol does: blanks, a sign, for base 16 a prefix, then digits. */
  function ReadInt(s: string, base: nat): int {
    var t := SkipSpaces(s);
    if t != "" && t[0] == '-' then 0 - ReadPrefixed(t[1..], base)
    else if t != "" && t[0] == '+' then ReadPrefixed(t[1..], base)
    else ReadPrefixed(t, base)
  }

  lemma {:induction false} SkipPadding(n: nat, s: string)
    requires s != "" && s[0] != ' '
    ensures SkipSpaces(Repeat(' ', n) + s) == s
  {
    if n == 0 {
      assert Repeat(' ', 0) + s == s;
    } else {
      assert (Repeat(' ', n) + s)[1..] == Repeat(' ', n - 1) + s;
      SkipPadding(n - 1, s);
    }
  }

  lemma {:induction false} ReadAcross(s: string, tail: string, base: nat, acc: nat)
    requires AllDigits(s, base) && (tail == "" || DigitValue(tail[0]) >= base)
    ensures ReadDigits(s + tail, base, acc) == Value(s, base, acc)
  {
    if s == "" {
      assert s + tail == tail;
    } else {
      assert (s + tail)[1..] == s[1..] + tail;
      ReadAcross(s[1..], tail, base, base * acc + DigitValue(s[0]));
    }
  }

  lemma {:induction false} ZerosWorthNothing(n: nat, base: nat)
    ensures Value(Repeat('0', n), base, 0) == 0
  {
    if n == 0 {
    } else {
      assert Repeat('0', n)[1..] == Repeat('0', n - 1);
      ZerosWorthNothing(n - 1, base);
    }
  }

  /** Zeros and a numeral, then blanks: the number. */
  lemma ReadPadded(z: nat, u: nat, base: nat, up: bool, blanks: nat)
    requires 2 <= base <= 16
    ensures ReadDigits(Repeat('0', z) + Numeral(u, base, up) + Repeat(' ', blanks), base, 0) == u
  {
    var zeros, digits, tail := Repeat('0', z), Numeral(u, base, up), Repeat(' ', blanks);
    ReadAcross(zeros + digits, tail, base, 0);
    ValueAppend(zeros, digits, base, 0);
    ZerosWorthNothing(z, base);
    NumeralValue(u, base, up);
  }

  /** No digit is an `x`, so an unprefixed number is not taken for a prefixed one. */
  lemma ReadUnprefixed(digits: string, base: nat, blanks: nat)
    requires AllDigits(digits, base) && base <= 16
    ensures var s := digits + Repeat(' ', blanks); ReadPrefixed(s, base) == ReadDigits(s, base, 0)
  {
    var s := digits + Repeat(' ', blanks);
    if |s| >= 2 {
      assert s[1] == if 1 < |digits| then digits[1] else ' ';
    }
  }

  lemma ReadNumber(prefix: string, z: nat, u: nat, base: nat, up: bool, blanks: nat)
    requires 2 <= base <= 16 && (prefix == "" || (base == 16 && (prefix == "0x" || prefix == "0X")))
    ensures ReadPrefixed(Number(prefix, z, Numeral(u, base, up)) + Repeat(' ', blanks), base) == u
  {
    var digits, tail := Repeat('0', z) + Numeral(u, base, up), Repeat(' ', blanks);
    ReadPadded(z, u, base, up, blanks);
    if prefix == "" {
      assert prefix + digits == digits;
      ReadUnprefixed(digits, base, blanks);
    } else {
      ReadPastPrefix(prefix, digits + tail);
      assert (prefix + digits) + tail == prefix + (digits + tail);
    }
  }

  lemma ReadPastPrefix(prefix: string, s: string)
    requires prefix == "0x" || prefix == "0X"
    ensures ReadPrefixed(prefix + s, 16) == ReadDigits(s, 16, 0)
  {
    assert (prefix + s)[2..] == s && (prefix + s)[0] == '0' && (prefix + s)[1] == prefix[1];
  }

  lemma ReadSigned(lead: nat, sign: string, body: string, base: nat)
    requires sign == "" || sign == "-" || sign == "+" || sign == " "
    requires body != "" && DigitValue(body[0]) < 16
    ensures ReadInt(Repeat(' ', lead) + (sign + body), base) ==
      if sign == "-" then 0 - ReadPrefixed(body, base) else ReadPrefixed(body, base)
  {
    if sign == " " {
      assert Repeat(' ', lead) + (sign + body) == Repeat(' ', lead + 1) + body;
      SkipPadding(lead + 1, body);
    } else {
      SkipPadding(lead, sign + body);
      if sign == "" { assert sign + body == body; } else { assert (sign + body)[1..] == body; }
    }
  }

  lemma ReadLaidOut(c: IntSpec, lead: nat, z: nat, trail: nat)
    requires c.Valid()
    ensures ReadInt(LaidOut(lead, c.Sign(), Number(c.Prefix(), z, c.Digits()), trail), c.base) ==
      if c.unsigned then c.Magnitude() else c.value
  {
    var number := Number(c.Prefix(), z, c.Digits());
    ReadNumber(c.Prefix(), z, c.Magnitude(), c.base, c.up, trail);
    NumberStart(c.Prefix(), z, c.Digits(), c.base);
    ReadSigned(lead, c.Sign(), number + Repeat(' ', trail), c.base);
  }

  lemma NumberStart(prefix: string, z: nat, digits: string, base: nat)
    requires prefix == "" || prefix == "0x" || prefix == "0X"
    requires digits != "" && base <= 16 && AllDigits(digits, base)
    ensures Number(prefix, z, digits) != "" && DigitValue(Number(prefix, z, digits)[0]) < 16
  {
    assert Number(prefix, z, digits)[0] == if prefix != "" || z > 0 then '0' else digits[0];
  }

  /** Print and read back: every field without group separators reads as its value. */
  lemma ReadBack(c: IntSpec)
    requires c.Valid() && !c.flags.quote
    ensures ReadInt(IntField(c), c.base) == if c.unsigned then c.Magnitude() else c.value
  {
    ReadLaidOut(c, 0, c.Zeros(), c.Spaces());
    ReadLaidOut(c, 0, c.Zeros() + c.Spaces(), 0);
    ReadLaidOut(c, c.Spaces(), c.Zeros(), 0);
  }

  lemma StripLaidOut(c: IntSpec, lead: nat, z: nat, trail: nat)
    requires 2 <= c.base <= 16
    ensures WithoutCommas(LaidOut(lead, c.Sign(), Number(c.Prefix(), z, c.Shown()), trail)) ==
      LaidOut(lead, c.Sign(), Number(c.Prefix(), z, c.Digits()), trail)
  {
    var front, sign, zeros, back := Repeat(' ', lead), c.Sign(), Repeat('0', z), Repeat(' ', trail);
    var number := Number(c.Prefix(), z, c.Shown());
    WithoutCommasAppend(front, sign + (number + back));
    WithoutCommasAppend(sign, number + back);
    WithoutCommasAppend(number, back);
    WithoutCommasAppend(c.Prefix(), zeros + c.Shown());
    WithoutCommasAppend(zeros, c.Shown());
    NoCommas(front); NoCommas(sign); NoCommas(zeros); NoCommas(back); NoCommas(c.Prefix());
    CommaFree(c.Magnitude(), c.base, c.up);
    if c.flags.quote { GroupedCount(c.Digits()); } else { NoCommas(c.Digits()); }
  }

  /** The same with the quote flag, once the separators are taken out. */
  lemma ReadBackGrouped(c: IntSpec)
    requires c.Valid()
    ensures ReadInt(WithoutCommas(IntField(c)), c.base) == if c.unsigned then c.Magnitude() else c.value
  {
    StripLaidOut(c, 0, c.Zeros(), c.Spaces());
    ReadLaidOut(c, 0, c.Zeros(), c.Spaces());
    StripLaidOut(c, 0, c.Zeros() + c.Spaces(), 0);
    ReadLaidOut(c, 0, c.Zeros() + c.Spaces(), 0);
    StripLaidOut(c, c.Spaces(), c.Zeros(), 0);
    ReadLaidOut(c, c.Spaces(), c.Zeros(), 0);
  }

  lemma FieldLength(c: IntSpec)
    requires 2 <= c.base <= 16
    ensures |IntField(c)| == c.Spaces() + |c.Sign()| + |c.Prefix()| + c.Zeros() + |c.Digits()| + c.Separators()
  {
    if c.flags.quote {
      assert ',' !in c.Digits() by { CommaFree(c.Magnitude(), c.base, c.up); }
      GroupedCount(c.Digits());
    }
  }

  lemma CommaFree(u: nat, base: nat, up: bool)
    requires 2 <= base <= 16
    ensures ',' !in Numeral(u, base, up)
  {
    assert AllDigits(Numeral(u, base, up), base);
  }

  /** The field is as wide as asked for, or as wide as its content. */
  lemma FieldWidth(c: IntSpec)
    requires c.Valid() && !c.flags.quote
    ensures |IntField(c)| == Max(c.width, Max(c.Precision(), |c.Digits()|) + |c.Sign()| + |c.Prefix()|)
  {
    FieldLength(c);
  }

  /** With separators and a precision the padding comes out short: exactly when the width is not reached. */
  lemma FieldReachesWidth(c: IntSpec)
    requires c.Valid()
    ensures |IntField(c)| >= c.width <==>
      || c.Separators() == 0
      || c.Precision() <= |c.Digits()|
      || c.width <= |c.Sign()| + |c.Prefix()| + Max(c.Precision(), |c.Digits()| + c.Separators())
  {
    FieldLength(c);
  }

  /** `%'8.6d` of 12345 is seven characters, " 12,345". */
  lemma ShortField()
    ensures exists c: IntSpec :: c.Valid() && c.flags.quote && |IntField(c)| < c.width
  {
    var c := IntSpec(12345, 10, 8, 6, Flags(false, false, false, false, false, true), false, false);
    assert c.Valid();
    assert Numeral(1, 10, false) == "1";
    assert Numeral(123, 10, false) == "123";
    assert |c.Digits()| == 5;
    FieldLength(c);
  }

  /** Alternative octal form: the digits start with a zero, except that separators can use up the extra one. */
  lemma OctalAlternative(c: IntSpec)
    requires c.Valid() && c.flags.num && c.base == 8
    ensures (Repeat('0', c.Zeros()) + c.Shown())[..1] == "0" <==>
      c.Magnitude() == 0 || c.Precision() > |c.Digits()| + c.Separators()
  {
    var u, digits := c.Magnitude(), c.Digits();
    if u == 0 { assert digits == "0"; } else { NoLeadingZero(u, 8, c.up); }
    assert c.Shown()[0] == digits[0];
    assert (Repeat('0', c.Zeros()) + c.Shown())[0] == if c.Zeros() > 0 then '0' else digits[0];
  }

  lemma FourOctalDigits()
    ensures |Numeral(512, 8, false)| == 4
  {
    assert |Numeral(8, 8, false)| == 2;
  }

  /** `%'#o` of 01000 comes out as "1,000". */
  lemma LostOctalZero() returns (c: IntSpec)
    ensures c.Valid() && c.flags.num && c.base == 8
    ensures (Repeat('0', c.Zeros()) + c.Shown())[..1] != "0"
  {
    c := IntSpec(512, 8, 0, NO_PRECISION, Flags(false, false, false, true, false, true), false, true);
    assert c.Magnitude() == 512;
    assert |c.Digits()| == 4 by { FourOctalDigits(); }
    assert GetNumSep(4) == 1;
    assert c.Precision() == 5 && c.Separators() == 1;
    OctalAlternative(c);
  }

  /** The digits that section 7.19.6.1 of ISO/IEC 9899:1999 asks for: none for a zero with precision zero. */
  function StandardDigits(c: IntSpec): string
    requires 2 <= c.base <= 16
  {
    if c.Magnitude() == 0 && c.precision == 0 then "" else c.Digits()
  }

  /** The code never leaves out the digits, so it departs from the standard in that one case. */
  lemma ZeroWithPrecisionZero(c: IntSpec)
    requires c.Valid()
    ensures c.Digits() == StandardDigits(c) <==> !(c.Magnitude() == 0 && c.precision == 0)
  {
    assert |c.Digits()| > 0;
  }
}
