/**
  The ideal formatter: a format string as literal text and directives, and the
  unbounded text that they produce. Nothing here knows about a buffer or its size.
 */
module Formats {
  import opened Messages
  import opened Numerals
  import opened Fields

  const INT_MAX: int := 0x7fff_ffff

  datatype Modifier = Plain | Char | Short | Long | LongLong | LongDouble | Size | Ptrdiff | Intmax

  /** A variadic argument as the machine word it occupies and, for `%s`, the text it points to. */
  datatype Arg = Arg(word: int, text: Option<CString>)

  /** Any argument list: `va_arg` never runs out. */
  type Args = nat -> Arg

  /** A floating-point conversion; its text comes from outside, or it overflows. */
  datatype FloatSpec = FloatSpec(arg: nat, kind: char, up: bool, long: bool, width: int, precision: int, flags: Flags)
  type Floats = FloatSpec -> Option<string>

  function Unsigned(bits: nat, w: int): (r: nat)
    ensures bits == 64 ==> r < 0x1_0000_0000_0000_0000
  {
    if bits == 8 then w % 0x100
    else if bits == 16 then w % 0x1_0000
    else if bits == 32 then w % 0x1_0000_0000
    else w % 0x1_0000_0000_0000_0000
  }

  function Signed(bits: nat, w: int): (r: int)
    ensures -0x8000_0000_0000_0000 <= r < 0x8000_0000_0000_0000
  {
    var u := Unsigned(bits, w);
    if bits == 8 then if u < 0x80 then u else u - 0x100
    else if bits == 16 then if u < 0x8000 then u else u - 0x1_0000
    else if bits == 32 then if u < 0x8000_0000 then u else u - 0x1_0000_0000
    else if u < 0x8000_0000_0000_0000 then u else u - 0x1_0000_0000_0000_0000
  }

  /** How wide an integer argument is under a length modifier. */
  function Bits(m: Modifier): nat {
    match m
    case Char => 8
    case Short => 16
    case Plain | LongDouble => 32
    case _ => 64
  }

  // ----------------------------------------------------------------------- grammar

  predicate IsFlag(c: char) {
    c == '-' || c == '+' || c == ' ' || c == '#' || c == '0' || c == '\''
  }

  predicate IsDigit(c: char) {
    '0' <= c <= '9'
  }

  /** The end of the longest run of flag characters from `i` on. */
  function SkipFlags(f: CString, i: nat): (e: nat)
    requires i <= |f|
    ensures i <= e <= |f|
    decreases |f| - i
  {
    if i < |f| && IsFlag(f[i]) then SkipFlags(f, i + 1) else i
  }

  /** The end of the longest run of digits from `i` on. */
  function SkipDigits(f: CString, i: nat): (e: nat)
    requires i <= |f|
    ensures i <= e <= |f|
    decreases |f| - i
  {
    if i < |f| && IsDigit(f[i]) then SkipDigits(f, i + 1) else i
  }

  function WithFlag(c: char, flags: Flags): Flags {
    Flags(c == '-' || flags.minus, c == '+' || flags.plus, c == ' ' || flags.space,
          c == '#' || flags.num, c == '0' || flags.zero, c == '\'' || flags.quote)
  }

  function WithFlags(s: string, flags: Flags): Flags {
    if s == "" then flags else WithFlags(s[1..], WithFlag(s[0], flags))
  }

  const NO_FLAGS: Flags := Flags(false, false, false, false, false, false)

  /** What stands between `%` and the conversion, with `*` already replaced by its argument. */
  datatype Directive =
    | Ended
    | TooLarge
    | Directive(flags: Flags, width: int, precision: int, mod: Modifier, conv: char, next: nat, arg: nat)

  ghost predicate Inside(d: Directive, f: CString, i: nat) {
    d.Directive? ==> i < d.next <= |f| && d.width >= 0 && d.precision >= NO_PRECISION
  }

  function ModifierAt(f: CString, i: nat): (r: (Modifier, nat))
    requires i <= |f|
    ensures r.1 <= |f| - i
  {
    if i == |f| then (Plain, 0)
    else if f[i] == 'h' then if i + 1 < |f| && f[i + 1] == 'h' then (Char, 2) else (Short, 1)
    else if f[i] == 'l' then if i + 1 < |f| && f[i + 1] == 'l' then (LongLong, 2) else (Long, 1)
    else if f[i] == 'L' then (LongDouble, 1)
    else if f[i] == 'j' then (Intmax, 1)
    else if f[i] == 't' then (Ptrdiff, 1)
    else if f[i] == 'z' then (Size, 1)
    else (Plain, 0)
  }

  function FromConversion(f: CString, i: nat, flags: Flags, width: nat, precision: int, mod: Modifier,
                          arg: nat): (d: Directive)
    requires i <= |f| && precision >= NO_PRECISION
    ensures Inside(d, f, i)
  {
    if i == |f| then Ended else Directive(flags, width, precision, mod, f[i], i + 1, arg)
  }

  function FromModifier(f: CString, i: nat, flags: Flags, width: nat, precision: int, arg: nat): (d: Directive)
    requires i <= |f| && precision >= NO_PRECISION
    ensures Inside(d, f, i)
  {
    var (mod, n) := ModifierAt(f, i);
    FromConversion(f, i + n, flags, width, precision, mod, arg)
  }

  /** A decimal number too large for an int stops everything; a `*` after it replaces it. */
  function FromPrecision(f: CString, i: nat, args: Args, flags: Flags, width: nat, sofar: nat, arg: nat): (d: Directive)
    requires i <= |f|
    ensures Inside(d, f, i)
  {
    var e := SkipDigits(f, i);
    var n := Value(f[i..e], 10, sofar);
    if n > INT_MAX then TooLarge
    else if e < |f| && f[e] == '*' then
      FromModifier(f, e + 1, flags, width, Max(NO_PRECISION, Signed(32, args(arg).word)), arg + 1)
    else FromModifier(f, e, flags, width, n, arg)
  }

  function FromDot(f: CString, i: nat, args: Args, flags: Flags, width: nat, arg: nat): (d: Directive)
    requires i <= |f|
    ensures Inside(d, f, i)
  {
    if i < |f| && f[i] == '.' then FromPrecision(f, i + 1, args, flags, width, 0, arg)
    else FromModifier(f, i, flags, width, NO_PRECISION, arg)
  }

  function Abs(x: int): nat { if x < 0 then -x else x }

  /** A negative width argument means left justified. */
  function FromWidth(f: CString, i: nat, args: Args, flags: Flags, sofar: nat, arg: nat): (d: Directive)
    requires i <= |f|
    ensures Inside(d, f, i)
  {
    var e := SkipDigits(f, i);
    var n := Value(f[i..e], 10, sofar);
    if n > INT_MAX then TooLarge
    else if e < |f| && f[e] == '*' then
      var w := Signed(32, args(arg).word);
      FromDot(f, e + 1, args, flags.(minus := flags.minus || w < 0), Abs(w), arg + 1)
    else FromDot(f, e, args, flags, n, arg)
  }

  function FromFlags(f: CString, i: nat, args: Args, before: Flags, arg: nat): (d: Directive)
    requires i <= |f|
    ensures Inside(d, f, i)
  {
    var e := SkipFlags(f, i);
    FromWidth(f, e, args, WithFlags(f[i..e], before), 0, arg)
  }

  /** The directive whose `%` stands just before `i`. */
  function DirectiveAt(f: CString, i: nat, args: Args, arg: nat): (d: Directive)
    requires i <= |f|
    ensures Inside(d, f, i)
  {
    FromFlags(f, i, args, NO_FLAGS, arg)
  }

  // --------------------------------------------------------------------- conversions

  /** A `%n`: which argument points at the place, and the count stored there. */
  datatype Store = Store(arg: nat, value: int)

  /** What a directive produces: text, maybe a store, and whether it takes an argument. */
  datatype Produced = Produced(text: string, store: Option<Store>, takes: nat) | Overflow

  function IntegerOf(d: Directive, word: int): IntSpec
    requires d.Directive?
  {
    if d.conv == 'd' || d.conv == 'i' then
      IntSpec(Signed(Bits(d.mod), word), 10, d.width, d.precision, d.flags, false, false)
    else
      var base := if d.conv == 'o' then 8 else if d.conv == 'u' then 10 else 16;
      IntSpec(Signed(64, Unsigned(Bits(d.mod), word)), base, d.width, d.precision, d.flags, d.conv == 'X', true)
  }

  function PointerOf(d: Directive, word: int): IntSpec
    requires d.Directive?
  {
    IntSpec(Signed(64, word), 16, d.width, d.precision, d.flags.(num := true), false, true)
  }

  function FloatOf(d: Directive): FloatSpec
    requires d.Directive?
  {
    var up := d.conv in "AFEG";
    var kind := if d.conv in "Ee" then 'e' else if d.conv in "Gg" then 'g' else 'f';
    FloatSpec(d.arg, kind, up, d.mod == LongDouble, d.width,
              if kind == 'g' && d.precision == 0 then 1 else d.precision, d.flags)
  }

  function Produce(d: Directive, args: Args, floats: Floats, len: nat): Produced
    requires d.Directive?
  {
    var a := args(d.arg);
    if d.conv in "diXxou" then Produced(IntField(IntegerOf(d, a.word)), None, 1)
    else if d.conv in "AFafEeGg" then
      (match floats(FloatOf(d)) case Some(t) => Produced(t, None, 1) case None => Overflow)
    else if d.conv == 'c' then Produced([(a.word % 256) as char], None, 1)
    else if d.conv == 's' then Produced(StringField(a.text, d.width, d.precision, d.flags), None, 1)
    else if d.conv == 'p' then
      Produced(if Unsigned(64, a.word) == 0 then StringField(Some("(nil)"), d.width, NO_PRECISION, d.flags)
               else IntField(PointerOf(d, a.word)), None, 1)
    else if d.conv == 'n' then Produced("", Some(Store(d.arg, Signed(Bits(d.mod), len))), 1)
    else if d.conv == '%' then Produced("%", None, 0)
    else Produced("", None, 0)
  }

  /** The unbounded output, the stores of `%n`, and whether an overflow or an unfinished directive ended it. */
  datatype Outcome = Outcome(text: string, stores: seq<Store>, overflow: bool, unfinished: bool)

  function StoreList(s: Option<Store>): seq<Store> {
    if s.Some? then [s.value] else []
  }

  /** What each directive produces, given the length of the output before it. */
  type Producer = (Directive, nat) -> Produced

  function Producing(args: Args, floats: Floats): Producer {
    (d: Directive, len: nat) => if d.Directive? then Produce(d, args, floats, len) else Overflow
  }

  /** The output of `f` from `i` on, after `text` and `stores`, when `arg` is the next argument. */
  function Ideal(f: CString, i: nat, args: Args, produce: Producer, arg: nat, text: string, stores: seq<Store>): Outcome
    requires i <= |f|
    decreases |f| - i, 1
  {
    if i == |f| then Outcome(text, stores, false, false)
    else if f[i] != '%' then Ideal(f, i + 1, args, produce, arg, text + [f[i]], stores)
    else Finish(f, i + 1, DirectiveAt(f, i + 1, args, arg), args, produce, text, stores)
  }

  /** The output from a directive on. */
  function Finish(f: CString, i: nat, d: Directive, args: Args, produce: Producer, text: string,
                  stores: seq<Store>): Outcome
    requires i <= |f| && Inside(d, f, i)
    decreases |f| - i, 0
  {
    match d
    case Ended => Outcome(text, stores, false, true)
    case TooLarge => Outcome(text, stores, true, false)
    case Directive(_, _, _, _, _, next, _) =>
      match produce(d, |text|)
      case Overflow => Outcome(text, stores, true, false)
      case Produced(field, store, takes) =>
        Ideal(f, next, args, produce, d.arg + takes, text + field, stores + StoreList(store))
  }

  /** The whole output of a format. */
  function Printed(f: CString, args: Args, floats: Floats): Outcome {
    Ideal(f, 0, args, Producing(args, floats), 0, "", [])
  }
}
