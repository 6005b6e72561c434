/** The bounded output buffer of the formatter and the conversions that write to it. */
module Output {
  import opened Messages
  import opened Numerals
  import opened Fields

  /** How many of `n` characters a buffer of `size` keeps next to the NUL. */
  function Kept(n: nat, size: nat): (k: nat)
    ensures k <= n && k <= size
  {
    if size == 0 then 0 else if n < size then n else size - 1
  }

  /** A buffer of `size` after `text` was put into it, before the NUL. */
  ghost predicate Holds(now: array<char>, before: string, size: nat, text: string)
    requires now.Length == |before|
    reads now
  {
    forall j :: 0 <= j < now.Length ==> now[j] == if j < Kept(|text|, size) then text[j] else before[j]
  }

  /** `str`, `size` and `len`; `text` is everything put so far, kept or not. */
  class Sink {
    const str: array?<char>
    const size: nat
    var len: nat
    ghost var text: string
    ghost const before: string

    ghost predicate Valid()
      reads this, str
    {
      && len == |text|
      && size <= |before|
      && (str == null ==> size == 0)
      && (str != null ==> str.Length == |before| && Holds(str, before, size, text))
    }

    /** A null buffer counts as one of size 0. */
    constructor (str: array?<char>, size: nat)
      requires str != null ==> size <= str.Length
      ensures Valid() && this.str == str && text == ""
      ensures str != null ==> this.size == size && before == str[..]
    {
      this.str := str;
      this.size := if str == null then 0 else size;
      this.len := 0;
      this.text := "";
      this.before := if str == null then "" else str[..];
    }

    /** `OUTCHAR`: counts the character, and keeps it while there is room for it and a NUL. */
    method Put(ch: char)
      requires Valid()
      modifies this, str
      ensures Valid() && text == old(text) + [ch]
    {
      if len + 1 < size {
        str[len] := ch;
      }
      len := len + 1;
      text := text + [ch];
    }

    method PutMany(ch: char, count: int)
      requires Valid()
      modifies this, str
      ensures Valid() && text == old(text) + Repeat(ch, count)
    {
      var n := count;
      assert text == old(text) + Repeat(ch, 0);
      while n > 0
        invariant Valid() && (count >= 0 ==> 0 <= n <= count) && (count < 0 ==> n == count)
        invariant text == old(text) + Repeat(ch, if count < 0 then 0 else count - n)
      {
        Put(ch);
        assert Repeat(ch, count - n + 1) == Repeat(ch, count - n) + [ch];
        n := n - 1;
      }
    }

    method PutText(s: string)
      requires Valid()
      modifies this, str
      ensures Valid() && text == old(text) + s
    {
      for i := 0 to |s|
        invariant Valid() && text == old(text) + s[..i]
      {
        Put(s[i]);
        assert s[..i + 1] == s[..i] + [s[i]];
      }
      assert s[..|s|] == s;
    }

    /** The terminating NUL: after the text, or in the last place of the buffer. */
    method Terminate()
      requires Valid()
      modifies str
      ensures str != null && size > 0 ==>
        str[..] == text[..Kept(len, size)] + ['\0'] + before[Kept(len, size) + 1..]
      ensures str != null && size == 0 ==> str[..] == before
    {
      if len < size {
        str[len] := '\0';
      } else if size > 0 {
        str[size - 1] := '\0';
      }
    }

    /** `fmtstr`: measures the string up to its precision, then pads on one side. */
    method FmtStr(value: Option<CString>, width: int, precision: int, flags: Flags)
      requires Valid() && precision >= NO_PRECISION
      modifies this, str
      ensures Valid() && text == old(text) + StringField(value, width, precision, flags)
    {
      var s: string := if value == None then "(null)" else value.value;
      var strln := Measure(s, precision);
      ghost var shown, start := s[..strln], text;
      assert shown == Clipped(value, precision);
      var padlen := width - strln;
      if padlen < 0 { padlen := 0; }
      if flags.minus { padlen := -padlen; }
      StringLayout(shown, width, flags.minus, padlen, start);
      PutMany(' ', padlen);
      PutText(s[..strln]);
      PutMany(' ', -padlen);
    }

    /** The digit loop of `fmtint`: `low` holds the digits, lowest first. */
    method PutDigits(low: string, separators: nat, ghost digits: string)
      requires Valid() && Mirrored(digits, low)
      modifies this, str
      ensures Valid()
      ensures text == old(text) + Separated(digits, separators > 0)
    {
      var pos := |low|;
      ghost var all := text + FromHigh(low, pos, separators > 0);
      assert low[..pos] == low;
      FromHighIsSeparated(low, pos, separators > 0, digits);
      while pos > 0
        invariant 0 <= pos <= |low| && Valid()
        invariant all == text + FromHigh(low, pos, separators > 0)
      {
        Regroup(text, [low[pos - 1]] + Comma(pos - 1, separators > 0), FromHigh(low, pos - 1, separators > 0));
        pos := pos - 1;
        PutDigit(low[pos], pos, separators);
      }
    }

    method PutDigit(ch: char, pos: nat, separators: nat)
      requires Valid()
      modifies this, str
      ensures Valid() && text == old(text) + ([ch] + Comma(pos, separators > 0))
    {
      Put(ch);
      if separators > 0 && pos > 0 && pos % 3 == 0 {
        Put(',');
      }
    }

    /** `fmtint`. */
    method FmtInt(value: int, base: nat, width: int, precision: int, flags: Flags, up: bool, unsigned: bool)
      requires Valid() && IntSpec(value, base, width, precision, flags, up, unsigned).Valid()
      modifies this, str
      ensures Valid()
      ensures text == old(text) + IntField(IntSpec(value, base, width, precision, flags, up, unsigned))
    {
      ghost var c := IntSpec(value, base, width, precision, flags, up, unsigned);
      var uvalue, sign := Absolute(value, flags, unsigned, c);
      var low := Converted(uvalue, base, up);
      var pos := |low|;
      var prec, prefix := AlternativeForm(uvalue, pos, base, precision, flags, up, c);
      var separators := 0;
      if flags.quote { separators := GetNumSep(pos); }
      var zpadlen := Max(0, prec - pos - separators);
      var spadlen := Max(0, width - separators - Max(prec, pos) - |sign| - |prefix|);
      if flags.minus {
        spadlen := -spadlen;
      } else if flags.zero && precision == NO_PRECISION {
        zpadlen := zpadlen + spadlen;
        spadlen := 0;
      }
      IntPadding(c, spadlen, zpadlen);
      WriteInt(spadlen, sign, prefix, zpadlen, low, separators, c);
    }

    /** The output half of `fmtint`; a negative `spadlen` asks for trailing blanks. */
    method WriteInt(spadlen: int, sign: string, prefix: string, zpadlen: nat, low: string, separators: nat,
                    ghost c: IntSpec)
      requires Valid() && c.Valid() && sign == c.Sign() && prefix == c.Prefix() && separators == c.Separators()
      requires low == LowFirst(c.Magnitude(), c.base, c.up)
      modifies this, str
      ensures Valid()
      ensures text == old(text) + LaidOut(Max(0, spadlen), sign, Number(prefix, zpadlen, c.Shown()), Max(0, -spadlen))
    {
      ghost var start := text;
      PutMany(' ', spadlen);
      PutText(sign);
      PutText(prefix);
      PutMany('0', zpadlen);
      ShownDigits(c, low, separators);
      PutDigits(low, separators, c.Digits());
      PutMany(' ', -spadlen);
      IntLayout(start, Repeat(' ', spadlen), sign, prefix, Repeat('0', zpadlen), c.Shown(), Repeat(' ', -spadlen));
    }
  }

  /** The converted digits are those of the field; without separators to print, grouping changes nothing. */
  lemma ShownDigits(c: IntSpec, low: string, separators: nat)
    requires c.Valid() && low == LowFirst(c.Magnitude(), c.base, c.up) && separators == c.Separators()
    ensures Mirrored(c.Digits(), low) && Separated(c.Digits(), separators > 0) == c.Shown()
  {
    LowFirstIsReversed(c.Magnitude(), c.base, c.up);
    if separators == 0 && c.flags.quote { FewDigits(c.Digits()); }
  }

  /** What is printed of the value, and its sign. */
  method Absolute(value: int, flags: Flags, unsigned: bool, ghost c: IntSpec) returns (uvalue: nat, sign: string)
    requires c.value == value && c.flags == flags && c.unsigned == unsigned
    ensures uvalue == c.Magnitude() && sign == c.Sign()
  {
    sign := "";
    if unsigned {
      uvalue := value % 0x1_0000_0000_0000_0000;
    } else {
      uvalue := if value >= 0 then value else -value;
      if value < 0 { sign := "-"; }
      else if flags.plus { sign := "+"; }
      else if flags.space { sign := " "; }
    }
  }

  /** The `#` flag: a leading zero for octal by way of the precision, a prefix for hexadecimal. */
  method AlternativeForm(uvalue: nat, pos: nat, base: nat, precision: int, flags: Flags, up: bool, ghost c: IntSpec)
      returns (prec: int, prefix: string)
    requires 2 <= base <= 16 && base == c.base && precision == c.precision && flags == c.flags && up == c.up
    requires uvalue == c.Magnitude() && pos == |c.Digits()|
    ensures prec == c.Precision() && prefix == c.Prefix()
  {
    prec, prefix := precision, "";
    if flags.num && uvalue != 0 {
      if base == 8 {
        if prec <= pos { prec := pos + 1; }
      } else if base == 16 {
        prefix := if up then "0X" else "0x";
      }
    }
  }

  /** How much of a string the precision lets through. */
  method Measure(s: string, precision: int) returns (strln: nat)
    requires precision >= NO_PRECISION
    ensures strln == if 0 <= precision < |s| then precision else |s|
  {
    strln := 0;
    while strln < |s| && (precision == NO_PRECISION || strln < precision)
      invariant strln <= |s| && (precision == NO_PRECISION || strln <= precision)
    {
      strln := strln + 1;
    }
  }

  /** `convert` on the local buffer of `fmtint`: all digits of a 64-bit number fit. */
  method Converted(u: nat, base: nat, up: bool) returns (low: string)
    requires 8 <= base <= 16 && u < 0x1_0000_0000_0000_0000
    ensures low == LowFirst(u, base, up) && |low| == |Numeral(u, base, up)|
  {
    var iconvert := new char[MAX_CONVERT_LENGTH];
    var pos := Convert(u, iconvert, base, up);
    ConvertFits(u, base, up);
    LowFirstIsReversed(u, base, up);
    low := iconvert[..pos];
  }

  lemma StringLayout(shown: string, width: int, minus: bool, padlen: int, start: string)
    requires padlen == if minus then -Max(0, width - |shown|) else Max(0, width - |shown|)
    ensures start + Repeat(' ', padlen) + shown + Repeat(' ', -padlen) ==
      start + if minus then shown + Repeat(' ', width - |shown|) else Repeat(' ', width - |shown|) + shown
  {}

  function Separated(s: string, grouped: bool): string {
    if grouped then Grouped(s) else s
  }

  function Comma(left: nat, grouped: bool): string {
    if grouped then Separator(left) else ""
  }

  ghost predicate Mirrored(s: string, t: string) {
    |s| == |t| && forall i :: 0 <= i < |s| ==> s[i] == t[|t| - 1 - i]
  }

  lemma Regroup(a: string, b: string, c: string)
    ensures a + (b + c) == a + b + c
  {
  }

  /** The lowest `pos` digits from the highest of them down, with separators. */
  ghost function FromHigh(low: string, pos: nat, grouped: bool): string
    requires pos <= |low|
  {
    if pos == 0 then "" else [low[pos - 1]] + Comma(pos - 1, grouped) + FromHigh(low, pos - 1, grouped)
  }

  lemma MirrorTail(s: string, t: string)
    requires Mirrored(s, t) && s != ""
    ensures s[0] == t[|t| - 1] && Mirrored(s[1..], t[..|t| - 1])
  {
  }

  lemma {:induction false} FromHighIsSeparated(low: string, pos: nat, grouped: bool, rest: string)
    requires pos <= |low| && Mirrored(rest, low[..pos])
    ensures FromHigh(low, pos, grouped) == Separated(rest, grouped)
  {
    if pos == 0 {
      assert rest == "";
    } else {
      MirrorTail(rest, low[..pos]);
      assert low[..pos][..pos - 1] == low[..pos - 1];
      FromHighIsSeparated(low, pos - 1, grouped, rest[1..]);
      SeparatedStep(rest, grouped);
    }
  }

  lemma SeparatedStep(s: string, grouped: bool)
    requires s != ""
    ensures Separated(s, grouped) == [s[0]] + Comma(|s| - 1, grouped) + Separated(s[1..], grouped)
  {
    Regroup([s[0]], Comma(|s| - 1, grouped), Separated(s[1..], grouped));
  }

  lemma {:induction false} FewDigits(s: string)
    requires GetNumSep(|s|) == 0
    ensures Grouped(s) == s
  {
    if s == "" {
    } else {
      FewDigits(s[1..]);
    }
  }

  lemma IntLayout(start: string, lead: string, sign: string, prefix: string, zeros: string, shown: string,
                  trail: string)
    ensures start + lead + sign + prefix + zeros + shown + trail ==
      start + (lead + (sign + ((prefix + (zeros + shown)) + trail)))
  {}

  lemma IntPadding(c: IntSpec, spadlen: int, zpadlen: nat)
    requires c.Valid()
    requires
      if c.flags.minus then spadlen == 0 - c.Spaces() && zpadlen == c.Zeros()
      else if c.flags.zero && c.precision == NO_PRECISION then spadlen == 0 && zpadlen == c.Zeros() + c.Spaces()
      else spadlen == c.Spaces() && zpadlen == c.Zeros()
    ensures IntField(c) ==
      LaidOut(Max(0, spadlen), c.Sign(), Number(c.Prefix(), zpadlen, c.Shown()), Max(0, -spadlen))
  {}
}
