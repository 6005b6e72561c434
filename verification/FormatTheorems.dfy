/** What the ideal formatter means: concatenation, literal text, numbers, and printing into fresh memory. */
module FormatTheorems {
  import opened Messages
  import opened Fields
  import opened FieldLaws
  import opened Formats
  import opened Formatter

  // ------------------------------------------------------------------- literal text

  /** Doubles every percent sign. */
  function Escape(s: string): (f: string)
    ensures '\0' !in s ==> '\0' !in f
  {
    if s == "" then "" else (if s[0] == '%' then "%%" else [s[0]]) + Escape(s[1..])
  }

  /** `%%` is a directive without flags. */
  lemma PercentDirective(f: CString, i: nat, args: Args, arg: nat)
    requires i < |f| && f[i] == '%'
    ensures DirectiveAt(f, i, args, arg) == Directive(NO_FLAGS, 0, NO_PRECISION, Plain, '%', i + 1, arg)
  {
    assert f[i..i] == "";
  }

  /** `%%` prints a percent sign. */
  ghost predicate Escapes(produce: Producer) {
    forall d: Directive, len: nat :: d.Directive? && d.conv == '%' ==> produce(d, len) == Produced("%", None, 0)
  }

  lemma ProducingEscapes(args: Args, floats: Floats)
    ensures Escapes(Producing(args, floats))
  {
  }

  lemma PercentPrints(f: CString, i: nat, args: Args, produce: Producer, arg: nat, text: string)
    requires i + 1 < |f| && f[i] == '%' && f[i + 1] == '%' && Escapes(produce)
    ensures Ideal(f, i, args, produce, arg, text, []) == Ideal(f, i + 2, args, produce, arg, text + ['%'], [])
  {
    PercentDirective(f, i + 1, args, arg);
    assert produce(Directive(NO_FLAGS, 0, NO_PRECISION, Plain, '%', i + 2, arg), |text|) == Produced("%", None, 0);
    assert [] + StoreList(None) == [];
  }

  /** From a place where an escaped text starts, that text is printed. */
  lemma {:induction false} EscapePrints(f: CString, i: nat, s: string, args: Args, produce: Producer, arg: nat,
                                        text: string)
    requires i <= |f| && f[i..] == Escape(s) && Escapes(produce)
    ensures Ideal(f, i, args, produce, arg, text, []) == Outcome(text + s, [], false, false)
    decreases |s|
  {
    if s == "" {
      assert text + s == text;
    } else {
      assert text + s == (text + [s[0]]) + s[1..];
      if s[0] == '%' {
        assert f[i..][0] == '%' && f[i..][1] == '%' && f[i..][2..] == f[i + 2..];
        PercentPrints(f, i, args, produce, arg, text);
        EscapePrints(f, i + 2, s[1..], args, produce, arg, text + ['%']);
      } else {
        assert f[i..][0] == s[0] && f[i..][1..] == f[i + 1..];
        EscapePrints(f, i + 1, s[1..], args, produce, arg, text + [s[0]]);
      }
    }
  }

  /** An escaped text prints as itself, whatever the arguments. */
  lemma EscapeRoundTrip(s: CString, args: Args, floats: Floats)
    ensures Printed(Escape(s), args, floats) == Outcome(s, [], false, false)
  {
    assert Escape(s)[0..] == Escape(s) && "" + s == s;
    ProducingEscapes(args, floats);
    EscapePrints(Escape(s), 0, s, args, Producing(args, floats), 0, "");
  }

  // ----------------------------------------------------------------------- numbers

  /** `r` is `word` cut down to the signed type that a length modifier stands for. */
  predicate CutSigned(r: int, word: int, m: Modifier) {
    match m
    case Char => -0x80 <= r < 0x80 && (r - word) % 0x100 == 0
    case Short => -0x8000 <= r < 0x8000 && (r - word) % 0x1_0000 == 0
    case Plain | LongDouble => -0x8000_0000 <= r < 0x8000_0000 && (r - word) % 0x1_0000_0000 == 0
    case Long | LongLong | Size | Ptrdiff | Intmax =>
      -0x8000_0000_0000_0000 <= r < 0x8000_0000_0000_0000 && (r - word) % 0x1_0000_0000_0000_0000 == 0
  }

  /** The same for the unsigned type. */
  predicate CutUnsigned(r: int, word: int, m: Modifier) {
    match m
    case Char => 0 <= r < 0x100 && (r - word) % 0x100 == 0
    case Short => 0 <= r < 0x1_0000 && (r - word) % 0x1_0000 == 0
    case Plain | LongDouble => 0 <= r < 0x1_0000_0000 && (r - word) % 0x1_0000_0000 == 0
    case Long | LongLong | Size | Ptrdiff | Intmax =>
      0 <= r < 0x1_0000_0000_0000_0000 && (r - word) % 0x1_0000_0000_0000_0000 == 0
  }

  /** The base in which a conversion prints. */
  function BaseOf(conv: char): nat {
    if conv == 'o' then 8 else if conv == 'x' || conv == 'X' then 16 else 10
  }

  lemma Low8(w: int)
    ensures (w % 0x100 - w) % 0x100 == 0 && (w % 0x100 - 0x100 - w) % 0x100 == 0
  {
    assert w == 0x100 * (w / 0x100) + w % 0x100;
  }

  lemma Low16(w: int)
    ensures (w % 0x1_0000 - w) % 0x1_0000 == 0 && (w % 0x1_0000 - 0x1_0000 - w) % 0x1_0000 == 0
  {
    assert w == 0x1_0000 * (w / 0x1_0000) + w % 0x1_0000;
  }

  lemma Low32(w: int)
    ensures (w % 0x1_0000_0000 - w) % 0x1_0000_0000 == 0 && (w % 0x1_0000_0000 - 0x1_0000_0000 - w) % 0x1_0000_0000 == 0
  {
    assert w == 0x1_0000_0000 * (w / 0x1_0000_0000) + w % 0x1_0000_0000;
  }

  lemma Low64(w: int)
    ensures (w % 0x1_0000_0000_0000_0000 - w) % 0x1_0000_0000_0000_0000 == 0
    ensures (w % 0x1_0000_0000_0000_0000 - 0x1_0000_0000_0000_0000 - w) % 0x1_0000_0000_0000_0000 == 0
  {
    assert w == 0x1_0000_0000_0000_0000 * (w / 0x1_0000_0000_0000_0000) + w % 0x1_0000_0000_0000_0000;
  }

  /** The casts to the type of a length modifier keep the value modulo its range. */
  lemma CutsAreExact(m: Modifier, word: int)
    ensures CutSigned(Signed(Bits(m), word), word, m) && CutUnsigned(Unsigned(Bits(m), word), word, m)
  {
    match m {
      case Char => Low8(word);
      case Short => Low16(word);
      case Plain | LongDouble => Low32(word);
      case _ => Low64(word);
    }
  }

  /**
    What an integer conversion without group separators prints, read in the base that its
    letter stands for, is its argument cut down to the width of its length modifier: as a signed
    number for `d` and `i`, as an unsigned one for the others.
   */
  lemma IntegerReadsBack(d: Directive, args: Args, floats: Floats, len: nat)
    requires d.Directive? && d.width >= 0 && d.precision >= NO_PRECISION
    requires d.conv in "diXxou" && !d.flags.quote
    ensures Produce(d, args, floats, len).Produced?
    ensures var r, word := ReadInt(Produce(d, args, floats, len).text, BaseOf(d.conv)), args(d.arg).word;
      if d.conv == 'd' || d.conv == 'i' then CutSigned(r, word, d.mod) else CutUnsigned(r, word, d.mod)
  {
    var word := args(d.arg).word;
    ReadBack(IntegerOf(d, word));
    UnsignedFits(Bits(d.mod), word);
    CutsAreExact(d.mod, word);
  }

  lemma UnsignedFits(bits: nat, w: int)
    ensures Signed(64, Unsigned(bits, w)) % 0x1_0000_0000_0000_0000 == Unsigned(bits, w)
  {}

  /** `%x` and the decimal conversions print no capital letter, `%X` no small one. */
  lemma IntegerCase(d: Directive, args: Args, floats: Floats, len: nat)
    requires d.Directive? && d.width >= 0 && d.precision >= NO_PRECISION
    requires d.conv in "diXxou" && !d.flags.quote
    ensures Produce(d, args, floats, len).Produced? && InCase(Produce(d, args, floats, len).text, d.conv == 'X')
  {
    IntFieldCase(IntegerOf(d, args(d.arg).word));
  }

  /** Which field an integer directive asks for: `IntFieldLaw` says what it looks like. */
  lemma IntegerField(d: Directive, args: Args, floats: Floats, len: nat) returns (c: IntSpec)
    requires d.Directive? && d.width >= 0 && d.precision >= NO_PRECISION && d.conv in "diXxou"
    ensures c.Valid() && Produce(d, args, floats, len) == Produced(IntField(c), None, 1)
    ensures c.width == d.width && c.precision == d.precision && c.flags == d.flags && c.base == BaseOf(d.conv)
    ensures c.unsigned == (d.conv != 'd' && d.conv != 'i') && c.up == (d.conv == 'X')
  {
    c := IntegerOf(d, args(d.arg).word);
  }

  /** `%p`: "(nil)" for a null pointer, else the 64-bit word in hexadecimal behind "0x". */
  lemma PointerReadsBack(d: Directive, args: Args, floats: Floats, len: nat)
    requires d.Directive? && d.width >= 0 && d.precision >= NO_PRECISION && d.conv == 'p' && !d.flags.quote
    ensures var p, word := Produce(d, args, floats, len), args(d.arg).word % 0x1_0000_0000_0000_0000;
      && p.Produced? && p.store == None && p.takes == 1
      && if word == 0 then p.text == StringField(Some("(nil)"), d.width, -1, d.flags) else ReadInt(p.text, 16) == word
  {
    PointerValue(d, args(d.arg).word);
  }

  lemma PointerValue(d: Directive, word: int)
    requires d.Directive? && d.width >= 0 && d.precision >= NO_PRECISION && !d.flags.quote
    ensures ReadInt(IntField(PointerOf(d, word)), 16) == word % 0x1_0000_0000_0000_0000
  {
    ReadBack(PointerOf(d, word));
    UnsignedFits(64, word);
  }

  /** `%s`, `%c`, `%n` and `%%`: what they print, store and take. */
  lemma OtherConversions(d: Directive, args: Args, floats: Floats, len: nat)
    requires d.Directive?
    ensures var p, a := Produce(d, args, floats, len), args(d.arg);
      && (d.conv == 's' ==> p == Produced(StringField(a.text, d.width, d.precision, d.flags), None, 1))
      && (d.conv == 'c' ==> p.Produced? && |p.text| == 1 && p.text[0] as int == a.word % 0x100 && p.takes == 1)
      && (d.conv == '%' ==> p == Produced("%", None, 0))
      && (d.conv == 'n' ==>
            && p.Produced? && p.text == "" && p.takes == 1 && p.store.Some? && p.store.value.arg == d.arg
            && CutSigned(p.store.value.value, len, d.mod))
  {
    CutsAreExact(d.mod, len);
  }

  /** What the floating-point code is asked for: the letter's own conversion, `%a` as `%f`, `%g` with 1 for 0. */
  lemma FloatConversions(d: Directive)
    requires d.Directive? && d.conv in "AFafEeGg"
    ensures var r := FloatOf(d);
      && (r.up <==> 'A' <= d.conv <= 'Z')
      && (r.kind == 'e' <==> d.conv == 'e' || d.conv == 'E') && (r.kind == 'g' <==> d.conv == 'g' || d.conv == 'G')
      && (r.kind == 'f' <==> d.conv in "AFaf")
      && r.precision == (if d.precision == 0 && (d.conv == 'g' || d.conv == 'G') then 1 else d.precision)
      && r.arg == d.arg && r.width == d.width && r.flags == d.flags && (r.long <==> d.mod == LongDouble)
  {
  }

  // -------------------------------------------------------- where the standard differs

  /** `%c` prints one character whatever its field width. */
  lemma CharacterField(d: Directive, args: Args, floats: Floats, len: nat)
    requires d.Directive? && d.conv == 'c'
    ensures var p := Produce(d, args, floats, len);
      p.Produced? && (|p.text| >= d.width <==> d.width <= 1)
  {
  }

  const CONVERSIONS: string := "diXxouAFafEeGgcspn%"

  /** Exactly the unknown conversions are skipped: they print nothing and take no argument. */
  lemma SkippedConversion(d: Directive, args: Args, floats: Floats, len: nat)
    requires d.Directive?
    ensures Produce(d, args, floats, len) == Produced("", None, 0) <==> d.conv !in CONVERSIONS
  {
    assert forall c :: c in CONVERSIONS <==>
      c in "diXxou" || c in "AFafEeGg" || c == 'c' || c == 's' || c == 'p' || c == 'n' || c == '%';
  }

  // ------------------------------------------------------------------ fresh memory

  /** `rpl_vasprintf`: measures with no buffer, then prints into one that is just large enough. */
  method Vasprintf(format: CString, args: Args, floats: Floats, memory: bool) returns (ret: int, str: array?<char>)
    ensures str != null <==> memory && Returned(Printed(format, args, floats)) >= 0
    ensures str != null ==> ret == |Printed(format, args, floats).text|
    ensures str != null ==> str[..] == Printed(format, args, floats).text + ['\0']
    ensures str == null ==> ret == -1
  {
    var len, _, _ := Vsnprintf(null, 0, format, args, floats);
    if len < 0 || !memory {
      return -1, null;
    }
    var size := len + 1;
    str := new char[size];
    var printed, _, _ := Vsnprintf(str, size, format, args, floats);
    ret := printed;
  }
}
