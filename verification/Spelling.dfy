/** Directives written out and read again: what stands between `%` and the conversion means what it says. */
module Spelling {
  import opened Messages
  import opened Numerals
  import opened Fields
  import opened Formats

  /** A field width or a precision: left out, a number, or taken from an argument. */
  datatype Amount = Absent | Given(n: nat) | Star

  /** A character that means something before the conversion. */
  predicate Earlier(c: char) {
    || IsFlag(c) || IsDigit(c) || c == '*' || c == '.'
    || c == 'h' || c == 'l' || c == 'L' || c == 'j' || c == 't' || c == 'z'
  }

  /**
    A directive before its arguments are known: flag characters in any order, as often
    as one likes; `precision` says whether there is a dot, and what follows it.
   */
  datatype Spec = Spec(flags: string, width: Amount, precision: Option<Amount>, mod: Modifier, conv: char)
  {
    /** A width that starts with a zero would be a flag; the conversion is not one of the characters before it. */
    predicate Valid() {
      && (forall j :: 0 <= j < |flags| ==> IsFlag(flags[j]))
      && (width.Given? ==> width.n > 0) && conv != '\0' && !Earlier(conv)
    }
  }

  function AmountText(a: Amount): string {
    match a
    case Absent => ""
    case Given(n) => Numeral(n, 10, false)
    case Star => "*"
  }

  function PrecisionText(p: Option<Amount>): string {
    if p.Some? then "." + AmountText(p.value) else ""
  }

  function ModifierText(m: Modifier): string {
    match m
    case Plain => ""
    case Char => "hh"
    case Short => "h"
    case Long => "l"
    case LongLong => "ll"
    case LongDouble => "L"
    case Size => "z"
    case Ptrdiff => "t"
    case Intmax => "j"
  }

  /** What stands behind the `%`. */
  function Spelled(s: Spec): string {
    s.flags + (AmountText(s.width) + (PrecisionText(s.precision) + (ModifierText(s.mod) + [s.conv])))
  }

  // --------------------------------------------------------------------- text in place

  /** `s` stands in the format at `i`. */
  ghost predicate Has(f: CString, i: nat, s: string)
    decreases |s|
  {
    s == "" || (i < |f| && f[i] == s[0] && Has(f, i + 1, s[1..]))
  }

  lemma {:induction false} HasMeans(f: CString, i: nat, s: string)
    requires i <= |f|
    ensures Has(f, i, s) <==> i + |s| <= |f| && f[i..i + |s|] == s
    decreases |s|
  {
    if s == "" {
    } else if i < |f| {
      HasMeans(f, i + 1, s[1..]);
      if i + |s| <= |f| {
        assert f[i..i + |s|] == [f[i]] + f[i + 1..i + |s|];
        assert s == [s[0]] + s[1..];
      }
    }
  }

  lemma {:induction false} HasParts(f: CString, i: nat, s: string, t: string)
    requires Has(f, i, s + t)
    ensures Has(f, i, s) && Has(f, i + |s|, t)
    decreases |s|
  {
    if s == "" {
      assert s + t == t;
    } else {
      assert (s + t)[1..] == s[1..] + t;
      HasParts(f, i + 1, s[1..], t);
    }
  }

  lemma HasFirst(f: CString, i: nat, s: string)
    requires Has(f, i, s) && s != ""
    ensures i < |f| && f[i] == s[0]
  {
  }

  // ------------------------------------------------- what stands where, from the text

  /** A width or precision stands at `i` and ends before `end`. */
  ghost predicate AmountAt(f: CString, i: nat, a: Amount, end: nat)
    requires i <= |f|
  {
    var e := SkipDigits(f, i);
    && e < |f| && (f[e] == '*' <==> a.Star?)
    && Value(f[i..e], 10, 0) == (if a.Given? then a.n else 0)
    && end == e + Taken(a)
  }

  /** A precision with its dot, or none, stands at `i` and ends before `end`. */
  ghost predicate PrecisionAt(f: CString, i: nat, p: Option<Amount>, end: nat)
    requires i <= |f|
  {
    i < |f| && (f[i] == '.' <==> p.Some?) && if p.Some? then AmountAt(f, i + 1, p.value, end) else end == i
  }

  function Taken(a: Amount): nat {
    if a.Star? then 1 else 0
  }

  lemma {:induction false} SkipsDigits(f: CString, i: nat, s: string)
    requires Has(f, i, s) && AllDigits(s, 10) && i + |s| < |f| && !IsDigit(f[i + |s|])
    ensures SkipDigits(f, i) == i + |s|
    decreases |s|
  {
    if s == "" {
    } else {
      HasFirst(f, i, s);
      SkipsDigits(f, i + 1, s[1..]);
    }
  }

  /** The number that a numeral in the format stands for. */
  lemma NumberInPlace(f: CString, i: nat, n: nat)
    requires Has(f, i, Numeral(n, 10, false))
    requires var e := i + |Numeral(n, 10, false)|; e < |f| && !IsDigit(f[e])
    ensures var e := SkipDigits(f, i); e == i + |Numeral(n, 10, false)| && Value(f[i..e], 10, 0) == n
  {
    SkipsDigits(f, i, Numeral(n, 10, false));
    HasMeans(f, i, Numeral(n, 10, false));
    NumeralValue(n, 10, false);
  }

  lemma AmountInPlace(f: CString, i: nat, a: Amount, rest: string)
    requires Has(f, i, AmountText(a) + rest) && rest != "" && !IsDigit(rest[0]) && rest[0] != '*'
    ensures i <= |f| && AmountAt(f, i, a, i + |AmountText(a)|) && Has(f, i + |AmountText(a)|, rest)
  {
    HasParts(f, i, AmountText(a), rest);
    HasFirst(f, i + |AmountText(a)|, rest);
    match a {
      case Absent => assert f[i..i] == "";
      case Given(n) => NumberInPlace(f, i, n);
      case Star =>
        HasFirst(f, i, "*");
        assert f[i..i] == "";
    }
  }

  lemma ModifierInPlace(f: CString, i: nat, s: Spec)
    requires s.Valid() && Has(f, i, ModifierText(s.mod) + [s.conv])
    ensures var k := |ModifierText(s.mod)|; i + k < |f| && f[i + k] == s.conv && ModifierAt(f, i) == (s.mod, k)
  {
    var m := ModifierText(s.mod);
    HasParts(f, i, m, [s.conv]);
    HasFirst(f, i + |m|, [s.conv]);
    if m != "" { HasFirst(f, i, m); }
    if |m| == 2 { HasFirst(f, i + 1, m[1..]); }
  }

  lemma ConversionStarts(s: Spec)
    requires s.Valid()
    ensures var c := (ModifierText(s.mod) + [s.conv])[0]; !IsDigit(c) && !IsFlag(c) && c != '*' && c != '.'
  {
    assert (ModifierText(s.mod) + [s.conv])[0] == if s.mod == Plain then s.conv else ModifierText(s.mod)[0];
  }

  lemma PrecisionInPlace(f: CString, i: nat, s: Spec)
    requires s.Valid() && Has(f, i, AfterWidth(s))
    ensures var end := i + |PrecisionText(s.precision)|;
      i <= |f| && PrecisionAt(f, i, s.precision, end) && Has(f, end, ModifierText(s.mod) + [s.conv])
  {
    var rest := ModifierText(s.mod) + [s.conv];
    ConversionStarts(s);
    HasParts(f, i, PrecisionText(s.precision), rest);
    if s.precision.Some? {
      var a := s.precision.value;
      assert AfterWidth(s) == "." + (AmountText(a) + rest);
      HasParts(f, i, ".", AmountText(a) + rest);
      HasFirst(f, i, ".");
      AmountInPlace(f, i + 1, a, rest);
    } else {
      HasFirst(f, i, rest);
    }
  }

  /** What follows the width. */
  function AfterWidth(s: Spec): string {
    PrecisionText(s.precision) + (ModifierText(s.mod) + [s.conv])
  }

  lemma AfterWidthStarts(s: Spec)
    requires s.Valid()
    ensures AfterWidth(s) != "" && !IsDigit(AfterWidth(s)[0]) && AfterWidth(s)[0] != '*' && !IsFlag(AfterWidth(s)[0])
  {
    ConversionStarts(s);
    var rest := ModifierText(s.mod) + [s.conv];
    assert AfterWidth(s)[0] == if s.precision.Some? then '.' else rest[0];
  }

  lemma AfterFlagsStarts(s: Spec)
    requires s.Valid()
    ensures var rest := AmountText(s.width) + AfterWidth(s); rest != "" && !IsFlag(rest[0])
  {
    AfterWidthStarts(s);
    if s.width.Given? {
      NoLeadingZero(s.width.n, 10, false);
      assert DigitValue(Numeral(s.width.n, 10, false)[0]) < 10;
    }
  }

  lemma {:induction false} SkipsFlags(f: CString, i: nat, s: string)
    requires Has(f, i, s) && i + |s| < |f| && !IsFlag(f[i + |s|]) && forall j :: 0 <= j < |s| ==> IsFlag(s[j])
    ensures SkipFlags(f, i) == i + |s|
    decreases |s|
  {
    if s == "" {
    } else {
      HasFirst(f, i, s);
      SkipsFlags(f, i + 1, s[1..]);
    }
  }

  lemma FlagsInPlace(f: CString, i: nat, s: Spec)
    requires s.Valid() && Has(f, i, Spelled(s))
    ensures var e := i + |s.flags|;
      e <= |f| && SkipFlags(f, i) == e && f[i..e] == s.flags && Has(f, e, AmountText(s.width) + AfterWidth(s))
  {
    var rest := AmountText(s.width) + AfterWidth(s);
    HasParts(f, i, s.flags, rest);
    AfterFlagsStarts(s);
    HasFirst(f, i + |s.flags|, rest);
    SkipsFlags(f, i, s.flags);
    HasMeans(f, i, s.flags);
  }

  /** Where the parts of a directive stand. */
  ghost predicate Placed(f: CString, i: nat, s: Spec, a: nat, b: nat, c: nat, k: nat) {
    && i <= a <= b <= c && c + k < |f|
    && SkipFlags(f, i) == a && f[i..a] == s.flags
    && AmountAt(f, a, s.width, b)
    && PrecisionAt(f, b, s.precision, c)
    && ModifierAt(f, c) == (s.mod, k) && f[c + k] == s.conv
  }

  lemma WidthPlaced(f: CString, i: nat, s: Spec)
    requires s.Valid() && Has(f, i, Spelled(s))
    ensures var a, b := i + |s.flags|, i + |s.flags| + |AmountText(s.width)|;
      && b <= |f| && SkipFlags(f, i) == a && f[i..a] == s.flags
      && AmountAt(f, a, s.width, b) && Has(f, b, AfterWidth(s))
  {
    FlagsInPlace(f, i, s);
    AfterWidthStarts(s);
    AmountInPlace(f, i + |s.flags|, s.width, AfterWidth(s));
  }

  lemma TailPlaced(f: CString, b: nat, s: Spec)
    requires s.Valid() && b <= |f| && Has(f, b, AfterWidth(s))
    ensures var c, k := b + |PrecisionText(s.precision)|, |ModifierText(s.mod)|;
      && c + k < |f| && PrecisionAt(f, b, s.precision, c)
      && ModifierAt(f, c) == (s.mod, k) && f[c + k] == s.conv
  {
    PrecisionInPlace(f, b, s);
    ModifierInPlace(f, b + |PrecisionText(s.precision)|, s);
  }

  lemma AllPlaced(f: CString, i: nat, s: Spec) returns (a: nat, b: nat, c: nat, k: nat)
    requires s.Valid() && Has(f, i, Spelled(s))
    ensures Placed(f, i, s, a, b, c, k) && c + k + 1 == i + |Spelled(s)|
  {
    SpelledLength(s);
    a := i + |s.flags|;
    b := a + |AmountText(s.width)|;
    c := b + |PrecisionText(s.precision)|;
    k := |ModifierText(s.mod)|;
    WidthPlaced(f, i, s);
    TailPlaced(f, b, s);
  }

  lemma SpelledLength(s: Spec)
    ensures |Spelled(s)| ==
      |s.flags| + |AmountText(s.width)| + |PrecisionText(s.precision)| + |ModifierText(s.mod)| + 1
  {
  }

  // ------------------------------------------------ what it means, from where it stands

  predicate FitsInt(a: Amount) {
    a.Given? ==> a.n <= 0x7fff_ffff
  }

  /** The precision that a directive ends up with. */
  function PrecisionOf(p: Option<Amount>, args: Args, arg: nat): (r: int)
    ensures r >= -1
  {
    match p
    case None => -1
    case Some(Absent) => 0
    case Some(Given(n)) => n
    case Some(Star) => var v := Signed(32, args(arg).word); if v < 0 then -1 else v
  }

  function WidthOf(a: Amount, args: Args, arg: nat): int {
    match a
    case Absent => 0
    case Given(n) => n
    case Star => Signed(32, args(arg).word)
  }

  /** A negative width from an argument is a `-` flag and a positive width. */
  function Justified(flags: Flags, width: int): Flags {
    if width < 0 then flags.(minus := true) else flags
  }

  lemma ModifierChain(f: CString, i: nat, flags: Flags, width: nat, precision: int, arg: nat, mod: Modifier, k: nat)
    requires i + k < |f| && precision >= -1 && ModifierAt(f, i) == (mod, k)
    ensures FromModifier(f, i, flags, width, precision, arg) ==
      Directive(flags, width, precision, mod, f[i + k], i + k + 1, arg)
  {
  }

  lemma PrecisionChain(f: CString, i: nat, a: Amount, end: nat, args: Args, flags: Flags, width: nat, arg: nat)
    requires i <= |f| && AmountAt(f, i, a, end)
    ensures end <= |f|
    ensures FromPrecision(f, i, args, flags, width, 0, arg) ==
      if !FitsInt(a) then TooLarge
      else FromModifier(f, end, flags, width, PrecisionOf(Some(a), args, arg), arg + Taken(a))
  {
  }

  lemma DotChain(f: CString, i: nat, p: Option<Amount>, end: nat, args: Args, flags: Flags, width: nat, arg: nat)
    requires i <= |f| && PrecisionAt(f, i, p, end)
    ensures end <= |f|
    ensures FromDot(f, i, args, flags, width, arg) ==
      if p.Some? && !FitsInt(p.value) then TooLarge
      else FromModifier(f, end, flags, width, PrecisionOf(p, args, arg), arg + if p.Some? then Taken(p.value) else 0)
  {
    if p.Some? { PrecisionChain(f, i + 1, p.value, end, args, flags, width, arg); }
  }

  lemma WidthChain(f: CString, i: nat, a: Amount, end: nat, args: Args, flags: Flags, arg: nat)
    requires i <= |f| && AmountAt(f, i, a, end)
    ensures end <= |f|
    ensures var w := WidthOf(a, args, arg);
      FromWidth(f, i, args, flags, 0, arg) ==
      if !FitsInt(a) then TooLarge else FromDot(f, end, args, Justified(flags, w), Abs(w), arg + Taken(a))
  {
    var w := WidthOf(a, args, arg);
    if a.Star? { assert flags.(minus := flags.minus || w < 0) == Justified(flags, w); }
  }

  lemma FlagsChain(f: CString, i: nat, a: nat, args: Args, arg: nat)
    requires i <= a <= |f| && SkipFlags(f, i) == a
    ensures DirectiveAt(f, i, args, arg) == FromWidth(f, a, args, WithFlags(f[i..a], NO_FLAGS), 0, arg)
  {
  }

  /** What the rest of a directive means, once its flags and its width are known. */
  function TailMeant(s: Spec, args: Args, flags: Flags, width: nat, arg: nat, next: nat): Directive {
    if s.precision.Some? && !FitsInt(s.precision.value) then TooLarge
    else Directive(flags, width, PrecisionOf(s.precision, args, arg), s.mod, s.conv, next,
                   arg + if s.precision.Some? then Taken(s.precision.value) else 0)
  }

  /** What a directive means, once its arguments are known. */
  function Meant(s: Spec, args: Args, arg: nat, next: nat): Directive {
    var w := WidthOf(s.width, args, arg);
    if !FitsInt(s.width) then TooLarge
    else TailMeant(s, args, Justified(WithFlags(s.flags, NO_FLAGS), w), Abs(w), arg + Taken(s.width), next)
  }

  lemma TailChain(f: CString, b: nat, s: Spec, c: nat, k: nat, args: Args, flags: Flags, width: nat, arg: nat)
    requires b <= c && c + k < |f| && PrecisionAt(f, b, s.precision, c)
    requires ModifierAt(f, c) == (s.mod, k) && f[c + k] == s.conv
    ensures FromDot(f, b, args, flags, width, arg) == TailMeant(s, args, flags, width, arg, c + k + 1)
  {
    var taken := if s.precision.Some? then Taken(s.precision.value) else 0;
    DotChain(f, b, s.precision, c, args, flags, width, arg);
    ModifierChain(f, c, flags, width, PrecisionOf(s.precision, args, arg), arg + taken, s.mod, k);
  }

  lemma WholeChain(f: CString, i: nat, s: Spec, a: nat, b: nat, c: nat, k: nat, args: Args, arg: nat)
    requires Placed(f, i, s, a, b, c, k)
    ensures DirectiveAt(f, i, args, arg) == Meant(s, args, arg, c + k + 1)
  {
    var w, flags := WidthOf(s.width, args, arg), WithFlags(s.flags, NO_FLAGS);
    assert DirectiveAt(f, i, args, arg) == FromWidth(f, a, args, flags, 0, arg) by { FlagsChain(f, i, a, args, arg); }
    assert FromWidth(f, a, args, flags, 0, arg) == Meant(s, args, arg, c + k + 1) by {
      HeadChain(f, s, a, b, c, k, args, arg);
    }
  }

  lemma HeadChain(f: CString, s: Spec, a: nat, b: nat, c: nat, k: nat, args: Args, arg: nat)
    requires a <= b <= c && c + k < |f| && AmountAt(f, a, s.width, b) && PrecisionAt(f, b, s.precision, c)
    requires ModifierAt(f, c) == (s.mod, k) && f[c + k] == s.conv
    ensures FromWidth(f, a, args, WithFlags(s.flags, NO_FLAGS), 0, arg) == Meant(s, args, arg, c + k + 1)
  {
    var w, flags := WidthOf(s.width, args, arg), WithFlags(s.flags, NO_FLAGS);
    WidthChain(f, a, s.width, b, args, flags, arg);
    if FitsInt(s.width) {
      TailChain(f, b, s, c, k, args, Justified(flags, w), Abs(w), arg + Taken(s.width));
    }
  }

  /** Each flag character sets the flag it stands for, and no other. */
  lemma {:induction false} FlagsExactly(s: string, before: Flags)
    ensures var f := WithFlags(s, before);
      && (f.minus <==> before.minus || '-' in s) && (f.plus <==> before.plus || '+' in s)
      && (f.space <==> before.space || ' ' in s) && (f.num <==> before.num || '#' in s)
      && (f.zero <==> before.zero || '0' in s) && (f.quote <==> before.quote || '\'' in s)
  {
    if s == "" {
    } else {
      FlagsExactly(s[1..], WithFlag(s[0], before));
      assert forall c :: c in s <==> c == s[0] || c in s[1..];
    }
  }

  /**
    Written out anywhere in a format, with whatever behind it, a directive is read as what it
    was: its flags, its width and precision as numbers or from its arguments in this order, its
    length modifier and its conversion. A number that does not fit an int is the one exception.
   */
  lemma SpellingRoundTrip(f: CString, i: nat, s: Spec, args: Args, arg: nat)
    requires s.Valid() && Has(f, i, Spelled(s))
    ensures i <= |f| && DirectiveAt(f, i, args, arg) == Meant(s, args, arg, i + |Spelled(s)|)
  {
    var a, b, c, k := AllPlaced(f, i, s);
    WholeChain(f, i, s, a, b, c, k, args, arg);
  }
}
