/**
  `rpl_vsnprintf` as it runs: a state machine over the characters of the format that
  writes to a bounded buffer, proved to print what the ideal formatter prints.
 */
module Formatter {
  import opened Messages
  import opened Numerals
  import opened Fields
  import opened Output
  import opened Formats

  datatype State = InText | InFlags | InWidth | InDot | InPrecision | InModifier | InConversion

  /** The states are passed through in this order. */
  function Order(s: State): (n: nat)
    ensures n <= 6
  {
    match s
    case InText => 0
    case InFlags => 1
    case InWidth => 2
    case InDot => 3
    case InPrecision => 4
    case InModifier => 5
    case InConversion => 6
  }

  /** The scanner's variables: `pos` is where the current character stands, `arg` the next argument. */
  datatype Scan = Scan(state: State, pos: nat, arg: nat, flags: Flags, width: int, precision: int, mod: Modifier)

  const FRESH_DIRECTIVE: Scan := Scan(InText, 0, 0, NO_FLAGS, 0, NO_PRECISION, Plain)

  /** What the variables hold outside the states that set them. */
  predicate Ready(f: CString, r: Scan) {
    && r.pos <= |f| && 0 <= r.width && NO_PRECISION <= r.precision
    && (Order(r.state) <= 1 ==> r.width == 0)
    && (r.state == InWidth ==> r.width <= INT_MAX)
    && (r.state == InPrecision ==> r.precision <= INT_MAX)
    && (Order(r.state) <= 3 ==> r.precision == NO_PRECISION)
    && (Order(r.state) <= 5 ==> r.mod == Plain)
    && (r.state == InText ==> r.flags == NO_FLAGS)
  }

  /** The directive that the scanner is in the middle of. */
  ghost function Rest(f: CString, args: Args, r: Scan): (d: Directive)
    requires Ready(f, r) && r.state != InText
    ensures Inside(d, f, r.pos)
  {
    match r.state
    case InFlags => FromFlags(f, r.pos, args, r.flags, r.arg)
    case InWidth => FromWidth(f, r.pos, args, r.flags, r.width, r.arg)
    case InDot => FromDot(f, r.pos, args, r.flags, r.width, r.arg)
    case InPrecision => FromPrecision(f, r.pos, args, r.flags, r.width, Max(0, r.precision), r.arg)
    case InModifier => FromModifier(f, r.pos, r.flags, r.width, r.precision, r.arg)
    case InConversion => FromConversion(f, r.pos, r.flags, r.width, r.precision, r.mod, r.arg)
  }

  /** Closer to the end of the format, or further along in a directive. */
  ghost predicate Closer(f: CString, a: Scan, b: Scan) {
    a.pos < b.pos || (a.pos == b.pos && Order(a.state) < Order(b.state))
  }

  ghost predicate StepOk(f: CString, args: Args, r: Scan, next: Scan) {
    && Ready(f, r) && r.state != InText
    && Ready(f, next) && next.state != InText && Closer(f, r, next)
    && Rest(f, args, next) == Rest(f, args, r)
  }

  // ------------------------------------------------------------ one step in each state

  /** The flag that a character sets, if it is one. */
  method SetFlag(ch: char, flags: Flags) returns (isFlag: bool, raised: Flags)
    ensures isFlag == IsFlag(ch)
    ensures isFlag ==> raised == WithFlag(ch, flags)
  {
    isFlag, raised := true, flags;
    if ch == '-' { raised := flags.(minus := true); }
    else if ch == '+' { raised := flags.(plus := true); }
    else if ch == ' ' { raised := flags.(space := true); }
    else if ch == '#' { raised := flags.(num := true); }
    else if ch == '0' { raised := flags.(zero := true); }
    else if ch == '\'' { raised := flags.(quote := true); }
    else { isFlag := false; }
  }

  lemma FlagsEnd(f: CString, i: nat, args: Args, flags: Flags, arg: nat)
    requires i < |f| && !IsFlag(f[i])
    ensures FromFlags(f, i, args, flags, arg) == FromWidth(f, i, args, flags, 0, arg)
  {
    assert f[i..i] == "";
  }

  lemma FlagsMore(f: CString, i: nat, args: Args, flags: Flags, arg: nat)
    requires i < |f| && IsFlag(f[i])
    ensures FromFlags(f, i, args, flags, arg) == FromFlags(f, i + 1, args, WithFlag(f[i], flags), arg)
  {
    var e := SkipFlags(f, i);
    assert f[i..e][1..] == f[i + 1..e];
  }

  method FlagsStep(f: CString, ghost args: Args, r: Scan) returns (next: Scan)
    requires Ready(f, r) && r.state == InFlags && r.pos < |f|
    ensures StepOk(f, args, r, next)
  {
    var isFlag, raised := SetFlag(f[r.pos], r.flags);
    if isFlag {
      next := r.(pos := r.pos + 1, flags := raised);
      FlagsMore(f, r.pos, args, r.flags, r.arg);
    } else {
      next := r.(state := InWidth);
      FlagsEnd(f, r.pos, args, r.flags, r.arg);
    }
  }

  lemma DigitsStep(f: CString, i: nat, sofar: nat)
    requires i < |f| && IsDigit(f[i])
    ensures var e := SkipDigits(f, i);
      e == SkipDigits(f, i + 1) && Value(f[i..e], 10, sofar) == Value(f[i + 1..e], 10, 10 * sofar + DigitValue(f[i]))
  {
    var e := SkipDigits(f, i);
    assert f[i..e][1..] == f[i + 1..e];
  }

  /** An int accumulator that would overflow: the number is too large, whatever follows. */
  lemma DigitsOverflow(f: CString, i: nat, sofar: nat)
    requires i < |f| && IsDigit(f[i]) && 10 * sofar + DigitValue(f[i]) > INT_MAX
    ensures Value(f[i..SkipDigits(f, i)], 10, sofar) > INT_MAX
  {
    DigitsStep(f, i, sofar);
    ValueGrows(f[i + 1..SkipDigits(f, i)], 10, 10 * sofar + DigitValue(f[i]));
  }

  /** The number at `i` after `n` is the number at `i + 1` after `m`. */
  ghost predicate SameNumber(f: CString, i: nat, n: nat, m: nat)
    requires i < |f|
  {
    && SkipDigits(f, i) == SkipDigits(f, i + 1)
    && Value(f[i + 1..SkipDigits(f, i)], 10, m) == Value(f[i..SkipDigits(f, i)], 10, n)
  }

  /** A digit onto an int, unless that overflows. */
  method AddDigit(f: CString, i: nat, n: int) returns (ok: bool, m: int)
    requires i < |f| && IsDigit(f[i]) && 0 <= n <= INT_MAX
    ensures ok ==> 0 <= m <= INT_MAX && SameNumber(f, i, n, m)
    ensures !ok ==> Value(f[i..SkipDigits(f, i)], 10, n) > INT_MAX
  {
    var d := (f[i] - '0') as int;
    ok, m := n <= (INT_MAX - d) / 10, n;
    if ok {
      m := 10 * n + d;
      DigitsStep(f, i, n);
    } else {
      DigitsOverflow(f, i, n);
    }
  }

  lemma WidthEnd(f: CString, i: nat, args: Args, flags: Flags, sofar: nat, arg: nat)
    requires i < |f| && !IsDigit(f[i]) && sofar <= INT_MAX
    ensures FromWidth(f, i, args, flags, sofar, arg) ==
      if f[i] != '*' then FromDot(f, i, args, flags, sofar, arg)
      else
        var w := Signed(32, args(arg).word);
        FromDot(f, i + 1, args, flags.(minus := flags.minus || w < 0), Abs(w), arg + 1)
  {
    assert f[i..i] == "";
  }

  lemma WidthMore(f: CString, i: nat, args: Args, flags: Flags, n: nat, m: nat, arg: nat)
    requires i < |f| && SameNumber(f, i, n, m)
    ensures FromWidth(f, i + 1, args, flags, m, arg) == FromWidth(f, i, args, flags, n, arg)
  {}

  /** The width from an argument; a negative one sets the `-` flag. */
  method WidthArgument(f: CString, args: Args, r: Scan) returns (next: Scan)
    requires Ready(f, r) && r.state == InWidth && r.pos < |f| && f[r.pos] == '*'
    ensures StepOk(f, args, r, next)
  {
    var w := Signed(32, args(r.arg).word);
    next := r.(state := InDot, width := w, arg := r.arg + 1, pos := r.pos + 1);
    if w < 0 {
      next := next.(flags := r.flags.(minus := true), width := -w);
    }
    WidthEnd(f, r.pos, args, r.flags, r.width, r.arg);
  }

  method WidthStep(f: CString, args: Args, r: Scan) returns (overflow: bool, next: Scan)
    requires Ready(f, r) && r.state == InWidth && r.pos < |f|
    ensures overflow ==> Rest(f, args, r) == TooLarge
    ensures !overflow ==> StepOk(f, args, r, next)
  {
    var ch := f[r.pos];
    if IsDigit(ch) {
      var ok, w := AddDigit(f, r.pos, r.width);
      overflow, next := !ok, r.(width := w, pos := r.pos + 1);
      if ok { WidthMore(f, r.pos, args, r.flags, r.width, w, r.arg); }
    } else if ch == '*' {
      overflow := false;
      next := WidthArgument(f, args, r);
    } else {
      overflow, next := false, r.(state := InDot);
      WidthEnd(f, r.pos, args, r.flags, r.width, r.arg);
    }
  }

  method DotStep(f: CString, ghost args: Args, r: Scan) returns (next: Scan)
    requires Ready(f, r) && r.state == InDot && r.pos < |f|
    ensures StepOk(f, args, r, next)
  {
    if f[r.pos] == '.' {
      next := r.(state := InPrecision, pos := r.pos + 1);
    } else {
      next := r.(state := InModifier);
    }
  }

  lemma PrecisionEnd(f: CString, i: nat, args: Args, flags: Flags, width: nat, sofar: nat, arg: nat)
    requires i < |f| && !IsDigit(f[i]) && sofar <= INT_MAX
    ensures FromPrecision(f, i, args, flags, width, sofar, arg) ==
      if f[i] != '*' then FromModifier(f, i, flags, width, sofar, arg)
      else FromModifier(f, i + 1, flags, width, Max(NO_PRECISION, Signed(32, args(arg).word)), arg + 1)
  {
    assert f[i..i] == "";
  }

  lemma PrecisionMore(f: CString, i: nat, args: Args, flags: Flags, width: nat, n: nat, m: nat, arg: nat)
    requires i < |f| && SameNumber(f, i, n, m)
    ensures FromPrecision(f, i + 1, args, flags, width, m, arg) == FromPrecision(f, i, args, flags, width, n, arg)
  {}

  /** The precision from an argument; a negative one counts as none. */
  method PrecisionArgument(f: CString, args: Args, r: Scan) returns (next: Scan)
    requires Ready(f, r) && r.state == InPrecision && r.pos < |f| && f[r.pos] == '*'
    ensures StepOk(f, args, r, next)
  {
    var p := Signed(32, args(r.arg).word);
    if p < 0 { p := NO_PRECISION; }
    next := r.(state := InModifier, precision := p, arg := r.arg + 1, pos := r.pos + 1);
    PrecisionEnd(f, r.pos, args, r.flags, r.width, Max(0, r.precision), r.arg);
  }

  method PrecisionStep(f: CString, args: Args, r: Scan) returns (overflow: bool, next: Scan)
    requires Ready(f, r) && r.state == InPrecision && r.pos < |f|
    ensures overflow ==> Rest(f, args, r) == TooLarge
    ensures !overflow ==> StepOk(f, args, r, next)
  {
    var ch := f[r.pos];
    var precision := if r.precision == NO_PRECISION then 0 else r.precision;
    if IsDigit(ch) {
      var ok, p := AddDigit(f, r.pos, precision);
      overflow, next := !ok, r.(precision := p, pos := r.pos + 1);
      if ok { PrecisionMore(f, r.pos, args, r.flags, r.width, precision, p, r.arg); }
    } else if ch == '*' {
      overflow := false;
      next := PrecisionArgument(f, args, r);
    } else {
      overflow, next := false, r.(state := InModifier, precision := precision);
      PrecisionEnd(f, r.pos, args, r.flags, r.width, precision, r.arg);
    }
  }

  /** Reads one character past `h` and `l`, which may be the NUL but never lies beyond it. */
  method ModifierStep(f: CString, ghost args: Args, r: Scan) returns (next: Scan)
    requires Ready(f, r) && r.state == InModifier && r.pos < |f|
    ensures StepOk(f, args, r, next)
  {
    var ch := f[r.pos];
    next := r.(state := InConversion);
    if ch == 'h' || ch == 'l' {
      next := next.(pos := r.pos + 1, mod := if ch == 'h' then Short else Long);
      if r.pos + 1 < |f| && f[r.pos + 1] == ch {
        next := next.(pos := r.pos + 2, mod := if ch == 'h' then Char else LongLong);
      }
    } else if ch in "Ljtz" {
      next := next.(pos := r.pos + 1,
        mod := if ch == 'L' then LongDouble else if ch == 'j' then Intmax else if ch == 't' then Ptrdiff else Size);
    }
  }

  // ------------------------------------------------------------------- conversions

  /** The `switch` on the conversion: writes the field, or finds that a float overflows. */
  method Convert(out: Sink, d: Directive, args: Args, floats: Floats, ghost produce: Producer)
      returns (overflow: bool, store: Option<Store>, takes: nat, ghost p: Produced)
    requires out.Valid() && d.Directive? && d.width >= 0 && d.precision >= NO_PRECISION
    requires produce == Producing(args, floats)
    modifies out, out.str
    ensures out.Valid()
    ensures p == produce(d, |old(out.text)|)
    ensures overflow ==> p == Overflow && out.text == old(out.text)
    ensures !overflow ==> p.Produced? && p.store == store && p.takes == takes && out.text == old(out.text) + p.text
  {
    overflow, store, takes := false, None, 1;
    p := produce(d, |out.text|);
    var a := args(d.arg);
    var ch := d.conv;
    if ch == 'd' || ch == 'i' {
      out.FmtInt(Signed(Bits(d.mod), a.word), 10, d.width, d.precision, d.flags, false, false);
    } else if ch in "Xxou" {
      var base := 0;
      if ch == 'X' || ch == 'x' { base := 16; }
      if ch == 'o' { base := 8; }
      if base == 0 { base := 10; }
      out.FmtInt(Signed(64, Unsigned(Bits(d.mod), a.word)), base, d.width, d.precision, d.flags, ch == 'X', true);
    } else if ch in "AFafEeGg" {
      var t := floats(FloatOf(d));
      if t.Some? { out.PutText(t.value); } else { overflow := true; }
    } else if ch == 'c' {
      out.Put((a.word % 256) as char);
    } else if ch == 's' {
      out.FmtStr(a.text, d.width, d.precision, d.flags);
    } else if ch == 'p' {
      if Unsigned(64, a.word) == 0 {
        out.FmtStr(Some("(nil)"), d.width, NO_PRECISION, d.flags);
      } else {
        out.FmtInt(Signed(64, a.word), 16, d.width, d.precision, d.flags.(num := true), false, true);
      }
    } else if ch == 'n' {
      store := Some(Store(d.arg, Signed(Bits(d.mod), out.len)));
    } else {
      takes := 0;
      if ch == '%' { out.Put(ch); }
    }
  }

  // ------------------------------------------------------------------ the whole scan

  method ScanStep(f: CString, args: Args, r: Scan) returns (overflow: bool, next: Scan)
    requires Ready(f, r) && r.state != InText && r.state != InConversion && r.pos < |f|
    ensures overflow ==> Rest(f, args, r) == TooLarge
    ensures !overflow ==> StepOk(f, args, r, next)
  {
    overflow := false;
    match r.state
    case InFlags => next := FlagsStep(f, args, r);
    case InWidth => overflow, next := WidthStep(f, args, r);
    case InDot => next := DotStep(f, args, r);
    case InPrecision => overflow, next := PrecisionStep(f, args, r);
    case InModifier => next := ModifierStep(f, args, r);
  }

  /** The whole output, seen from the middle of a scan. */
  ghost function Continue(f: CString, args: Args, produce: Producer, r: Scan, text: string, stores: seq<Store>): Outcome
    requires Ready(f, r)
  {
    if r.state == InText then Ideal(f, r.pos, args, produce, r.arg, text, stores)
    else Finish(f, r.pos, Rest(f, args, r), args, produce, text, stores)
  }

  lemma FinishAnywhere(f: CString, i: nat, j: nat, d: Directive, args: Args, produce: Producer, text: string,
                       stores: seq<Store>)
    requires i <= |f| && j <= |f| && Inside(d, f, i) && Inside(d, f, j)
    ensures Finish(f, i, d, args, produce, text, stores) == Finish(f, j, d, args, produce, text, stores)
  {}

  /** At the NUL nothing more is printed, even inside a directive. */
  lemma AtEnd(f: CString, args: Args, produce: Producer, r: Scan, text: string, stores: seq<Store>)
    requires Ready(f, r) && r.pos == |f|
    ensures Continue(f, args, produce, r, text, stores) == Outcome(text, stores, false, r.state != InText)
  {
    assert f[|f|..|f|] == "";
  }

  /** One step outside a directive: `%` opens one, anything else is printed. */
  method TextStep(out: Sink, f: CString, ghost args: Args, ghost produce: Producer, r: Scan, ghost stores: seq<Store>)
      returns (next: Scan)
    requires out.Valid() && Ready(f, r) && r.state == InText && r.pos < |f|
    modifies out, out.str
    ensures out.Valid() && Ready(f, next) && next.pos == r.pos + 1
    ensures Continue(f, args, produce, next, out.text, stores) == old(Continue(f, args, produce, r, out.text, stores))
  {
    var ch := f[r.pos];
    if ch == '%' {
      next := r.(state := InFlags, pos := r.pos + 1);
    } else {
      next := r.(pos := r.pos + 1);
      out.Put(ch);
    }
  }

  function Current(f: CString, r: Scan): (d: Directive)
    requires Ready(f, r) && r.pos < |f|
    ensures d.Directive? && Inside(d, f, r.pos)
  {
    Directive(r.flags, r.width, r.precision, r.mod, f[r.pos], r.pos + 1, r.arg)
  }

  /** One conversion: prints its field and starts afresh. */
  method ConversionStep(out: Sink, f: CString, args: Args, floats: Floats, ghost produce: Producer, r: Scan,
                        stores: seq<Store>)
      returns (overflow: bool, next: Scan, stored: seq<Store>)
    requires out.Valid() && Ready(f, r) && r.state == InConversion && r.pos < |f|
    requires produce == Producing(args, floats)
    modifies out, out.str
    ensures out.Valid() && Ready(f, next) && next.state == InText && next.pos == r.pos + 1
    ensures old(Finish(f, r.pos, Current(f, r), args, produce, out.text, stores)) ==
      if overflow then Outcome(out.text, stored, true, false)
      else Ideal(f, next.pos, args, produce, next.arg, out.text, stored)
  {
    var store, takes;
    ghost var p;
    overflow, store, takes, p := Convert(out, Current(f, r), args, floats, produce);
    next := FRESH_DIRECTIVE.(pos := r.pos + 1, arg := r.arg + takes);
    stored := stores;
    if !overflow {
      if store.Some? { stored := stores + [store.value]; }
      assert stored == stores + StoreList(store);
    }
  }

  /** At a conversion, the directive is complete. */
  lemma AtConversion(f: CString, args: Args, produce: Producer, r: Scan, text: string, stores: seq<Store>)
    requires Ready(f, r) && r.state == InConversion && r.pos < |f|
    ensures Continue(f, args, produce, r, text, stores) == Finish(f, r.pos, Current(f, r), args, produce, text, stores)
  {
    assert Rest(f, args, r) == Current(f, r);
  }

  lemma ScanKeeps(f: CString, args: Args, produce: Producer, r: Scan, next: Scan, text: string, stores: seq<Store>)
    requires StepOk(f, args, r, next)
    ensures Continue(f, args, produce, next, text, stores) == Continue(f, args, produce, r, text, stores)
  {
    FinishAnywhere(f, r.pos, next.pos, Rest(f, args, r), args, produce, text, stores);
  }

  /** The whole output, seen from a scan that may have been stopped by an overflow. */
  ghost function Seen(f: CString, args: Args, produce: Producer, r: Scan, overflow: bool, text: string,
                      stores: seq<Store>): Outcome
    requires Ready(f, r)
  {
    if overflow then Outcome(text, stores, true, false) else Continue(f, args, produce, r, text, stores)
  }

  /** One turn of the loop: prints what the state asks for and comes closer to the end. */
  method Step(out: Sink, f: CString, args: Args, floats: Floats, ghost produce: Producer, r: Scan, stores: seq<Store>)
      returns (overflow: bool, next: Scan, stored: seq<Store>)
    requires out.Valid() && Ready(f, r) && r.pos < |f| && produce == Producing(args, floats)
    modifies out, out.str
    ensures out.Valid() && Ready(f, next) && (overflow || Closer(f, r, next))
    ensures Seen(f, args, produce, next, overflow, out.text, stored) ==
      old(Continue(f, args, produce, r, out.text, stores))
  {
    overflow, stored := false, stores;
    if r.state == InText {
      next := TextStep(out, f, args, produce, r, stores);
    } else if r.state == InConversion {
      AtConversion(f, args, produce, r, out.text, stores);
      overflow, next, stored := ConversionStep(out, f, args, floats, produce, r, stores);
    } else {
      overflow, next := ScanStep(f, args, r);
      if overflow { next := r; } else { ScanKeeps(f, args, produce, r, next, out.text, stores); }
    }
  }

  datatype Errno = NoError | EOVERFLOW | ERANGE

  /** A buffer of `size` characters after printing `text` into it, the NUL included. */
  function Truncated(before: string, size: nat, text: string): (after: string)
    requires size <= |before|
    ensures |after| == |before|
  {
    if size == 0 then before
    else text[..Kept(|text|, size)] + ['\0'] + before[Kept(|text|, size) + 1..]
  }

  /** Place by place: `text` up to the size less one, a NUL right behind it, and what was there before. */
  ghost predicate Shows(now: string, before: string, size: nat, text: string) {
    && |now| == |before|
    && forall j :: 0 <= j < |now| ==>
         if j + 1 < size && j < |text| then now[j] == text[j]
         else if j < size && (j == |text| || (j + 1 == size && j < |text|)) then now[j] == '\0'
         else now[j] == before[j]
  }

  lemma TruncatedShows(before: string, size: nat, text: string)
    requires size <= |before|
    ensures Shows(Truncated(before, size, text), before, size, text)
  {
  }

  /** The scan loop: prints the ideal output into the buffer. */
  method Format(out: Sink, format: CString, args: Args, floats: Floats) returns (overflow: bool, stores: seq<Store>)
    requires out.Valid() && out.text == ""
    modifies out, out.str
    ensures out.Valid() && out.text == Printed(format, args, floats).text
    ensures overflow == Printed(format, args, floats).overflow
    ensures stores == Printed(format, args, floats).stores
  {
    var r := FRESH_DIRECTIVE;
    overflow, stores := false, [];
    ghost var produce := Producing(args, floats);
    ghost var o := Printed(format, args, floats);
    while r.pos < |format| && !overflow
      invariant out.Valid() && Ready(format, r)
      invariant o == Seen(format, args, produce, r, overflow, out.text, stores)
      decreases if overflow then 0 else 1, |format| - r.pos, 6 - Order(r.state)
    {
      overflow, r, stores := Step(out, format, args, floats, produce, r, stores);
    }
    if !overflow { AtEnd(format, args, produce, r, out.text, stores); }
  }

  /**
    `rpl_vsnprintf`: whatever the size, the returned length and the stores are those of
    the ideal output, and the buffer holds as much of it as fits, and a NUL; nothing
    else in the buffer changes.
   */
  method Vsnprintf(str: array?<char>, size: nat, format: CString, args: Args, floats: Floats)
      returns (ret: int, errno: Errno, stores: seq<Store>)
    requires str != null ==> size <= str.Length
    modifies str
    ensures str != null ==> str[..] == Truncated(old(str[..]), size, Printed(format, args, floats).text)
    ensures stores == Printed(format, args, floats).stores
    ensures ret == Returned(Printed(format, args, floats))
    ensures str != null ==> Shows(str[..], old(str[..]), size, Printed(format, args, floats).text)
    ensures ret == var o := Printed(format, args, floats);
      if o.overflow || |o.text| >= 0x7fff_ffff then -1 else |o.text|
    ensures errno == if Printed(format, args, floats).overflow then EOVERFLOW else if ret < 0 then ERANGE else NoError
  {
    var out := new Sink(str, size);
    var overflow;
    overflow, stores := Format(out, format, args, floats);
    out.Terminate();
    if str != null { TruncatedShows(old(str[..]), size, out.text); }
    ret, errno := out.len, NoError;
    if overflow || out.len >= INT_MAX {
      ret, errno := -1, if overflow then EOVERFLOW else ERANGE;
    }
  }

  function Returned(o: Outcome): int {
    if o.overflow || |o.text| >= INT_MAX then -1 else |o.text|
  }
}
