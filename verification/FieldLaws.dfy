/**
  What a field looks like, told from the arguments of the conversion alone: which
  characters it consists of and on which side it is padded.
 */
module FieldLaws {
  import opened Messages
  import opened Numerals
  import opened Fields

  // ---------------------------------------------------------------------- integers

  ghost predicate All(s: string, c: char) {
    forall i :: 0 <= i < |s| ==> s[i] == c
  }

  /** The parts of an integer field, from left to right. */
  datatype Parts = Parts(lead: string, sign: string, prefix: string, zeros: string, digits: string, trail: string)
  {
    function Text(): string {
      lead + (sign + ((prefix + (zeros + digits)) + trail))
    }
  }

  /**
    Every integer field without group separators is: blanks, a sign, a prefix, zeros, the
    digits of the number in its base, blanks. Blanks stand on one side only: behind with
    `-`, in front without. With `0` and neither `-` nor a precision, zeros stand in for
    them. Otherwise there are just as many zeros as the precision asks for, or the
    alternative octal form. The field is as wide as asked for, or as wide as its content.
   */
  lemma IntFieldLaw(c: IntSpec) returns (p: Parts)
    requires c.Valid() && !c.flags.quote
    ensures IntField(c) == p.Text()
    ensures All(p.lead, ' ') && All(p.trail, ' ') && All(p.zeros, '0')
    ensures p.sign == if c.unsigned then "" else if c.value < 0 then "-"
                      else if c.flags.plus then "+" else if c.flags.space then " " else ""
    ensures p.prefix == if c.flags.num && c.base == 16 && c.value != 0 then if c.up then "0X" else "0x" else ""
    ensures p.digits != "" && AllDigits(p.digits, c.base) && (p.digits[0] == '0' ==> p.digits == "0")
    ensures Value(p.digits, c.base, 0) ==
      if c.value >= 0 then c.value else if c.unsigned then c.value + 0x1_0000_0000_0000_0000 else -c.value
    ensures if c.flags.minus then p.lead == "" else p.trail == ""
    ensures var alternative := c.flags.num && c.base == 8 && c.value != 0 && c.precision <= |p.digits|;
      var fill := c.flags.zero && !c.flags.minus && c.precision == -1;
      var wanted := if alternative then |p.digits| + 1 else c.precision;
      && (if fill then p.lead == "" else |p.zeros| == if wanted > |p.digits| then wanted - |p.digits| else 0)
      && (alternative ==> p.zeros != "")
      && var content := |p.sign| + |p.prefix| + if wanted > |p.digits| then wanted else |p.digits|;
         |p.Text()| == if c.width > content then c.width else content
  {
    p := LayOut(c);
    DigitsLaw(c);
    TextLength(p);
  }

  lemma TextLength(p: Parts)
    ensures |p.Text()| == |p.lead| + |p.sign| + |p.prefix| + |p.zeros| + |p.digits| + |p.trail|
  {
  }

  /** The parts in terms of the paddings that the conversion computes. */
  lemma LayOut(c: IntSpec) returns (p: Parts)
    requires c.Valid() && !c.flags.quote
    ensures IntField(c) == p.Text() && p.sign == c.Sign() && p.prefix == c.Prefix() && p.digits == c.Digits()
    ensures All(p.lead, ' ') && All(p.trail, ' ') && All(p.zeros, '0')
    ensures if c.flags.minus then p.lead == "" && |p.zeros| == c.Zeros() && |p.trail| == c.Spaces()
            else if c.flags.zero && c.precision == -1
            then p.lead == "" && |p.zeros| == c.Zeros() + c.Spaces() && p.trail == ""
            else |p.lead| == c.Spaces() && |p.zeros| == c.Zeros() && p.trail == ""
  {
    var l, z, t := 0, c.Zeros(), 0;
    if c.flags.minus {
      t := c.Spaces();
    } else if c.flags.zero && c.precision == NO_PRECISION {
      z := c.Zeros() + c.Spaces();
    } else {
      l := c.Spaces();
    }
    p := Parts(Repeat(' ', l), c.Sign(), c.Prefix(), Repeat('0', z), c.Digits(), Repeat(' ', t));
  }

  lemma DigitsLaw(c: IntSpec)
    requires c.Valid()
    ensures var d := c.Digits(); d != "" && AllDigits(d, c.base) && (d[0] == '0' ==> d == "0")
    ensures Value(c.Digits(), c.base, 0) == c.Magnitude()
    ensures c.Magnitude() == 0 <==> c.value == 0
  {
    NumeralValue(c.Magnitude(), c.base, c.up);
    if c.Magnitude() > 0 { NoLeadingZero(c.Magnitude(), c.base, c.up); }
  }

  /** No small letters in upper case, no capitals in lower case. */
  predicate InCase(s: string, up: bool) {
    forall i :: 0 <= i < |s| ==> if up then !('a' <= s[i] <= 'z') else !('A' <= s[i] <= 'Z')
  }

  lemma {:induction false} NumeralCase(u: nat, base: nat, up: bool)
    requires 2 <= base <= 16
    ensures InCase(Numeral(u, base, up), up)
    decreases u
  {
    DivMod(u, base);
    if u < base {
    } else {
      NumeralCase(u / base, base, up);
    }
  }

  lemma CaseParts(p: Parts, up: bool)
    requires InCase(p.lead, up) && InCase(p.sign, up) && InCase(p.prefix, up)
    requires InCase(p.zeros, up) && InCase(p.digits, up) && InCase(p.trail, up)
    ensures InCase(p.Text(), up)
  {
    var number := p.zeros + p.digits;
    assert InCase(number, up);
    assert InCase(p.prefix + number, up);
    assert InCase((p.prefix + number) + p.trail, up);
    assert InCase(p.sign + ((p.prefix + number) + p.trail), up);
  }

  lemma IntFieldCase(c: IntSpec)
    requires c.Valid() && !c.flags.quote
    ensures InCase(IntField(c), c.up)
  {
    var p := LayOut(c);
    NumeralCase(c.Magnitude(), c.base, c.up);
    CaseParts(p, c.up);
  }

  // ----------------------------------------------------------------------- strings

  /**
    A string field shows the string, or "(null)", up to its precision if it has one; it is
    padded with blanks to its width, behind the text with `-` and in front of it without.
   */
  lemma StringFieldLaw(text: Option<CString>, width: int, precision: int, flags: Flags)
    requires precision >= -1
    ensures var f := StringField(text, width, precision, flags);
      var s: string := match text case Some(t) => t case None => "(null)";
      var n := if precision == -1 || |s| <= precision then |s| else precision;
      && |f| == (if width > n then width else n)
      && (if flags.minus then f[..n] == s[..n] && All(f[n..], ' ')
          else f[|f| - n..] == s[..n] && All(f[..|f| - n], ' '))
  {
    var f := StringField(text, width, precision, flags);
    var s := Clipped(text, precision);
    var pad := Repeat(' ', width - |s|);
    if flags.minus {
      assert f[..|s|] == s && f[|s|..] == pad;
    } else {
      assert f[|f| - |s|..] == s && f[..|f| - |s|] == pad;
    }
  }
}
