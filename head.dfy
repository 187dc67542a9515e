/**
 * The argument handling of the `head` clone: the integer validator, the
 * decimal conversion with its int overflow check, the option loop, the
 * line-count fallback, the operand-count check and the banner label.
 *
 * getopt itself is not modelled: the option loop receives the sequence of
 * values getopt returns, and main's operand check receives the operands left
 * after the options. Output is modelled as the messages and banner produced.
 */
module Head {
  import opened CTypes

  /** DEFAULT_LINE_COUNT */
  const DefaultLineCount: int := 10

  // ---------------------------------------------------------------------
  // is_integer
  // ---------------------------------------------------------------------

  /** isdigit in the C locale. */
  predicate IsDigit(c: char) {
    '0' <= c <= '9'
  }

  predicate AllDigits(s: string) {
    forall i :: 0 <= i < |s| ==> IsDigit(s[i])
  }

  /** The text of a valid integer: an optional minus sign, then one or more digits. */
  predicate IsIntegerText(s: string) {
    || (|s| > 0 && AllDigits(s))
    || (|s| > 1 && s[0] == '-' && AllDigits(s[1..]))
  }

  /** is_integer: scans the text after an optional leading '-' for a non-digit. */
  method IsInteger(input: string) returns (valid: bool)
    ensures valid == IsIntegerText(input)
  {
    var start, len := 0, |input|;
    if len >= 1 && input[0] == '-' {
      if len < 2 {
        return false;
      }
      start := 1;
    }
    for i := start to len
      invariant forall j :: start <= j < i ==> IsDigit(input[j])
    {
      if !IsDigit(input[i]) {
        return false;
      }
    }
    return len > 0;
  }

  /** The empty string and a lone minus sign are not integers. */
  lemma NotIntegerEmptyOrDash()
    ensures !IsIntegerText("")
    ensures !IsIntegerText("-")
  {
    assert !IsDigit("-"[0]);
  }

  /** A minus sign anywhere but at index 0, or any other non-digit, rejects the text. */
  lemma NotIntegerStrayCharacter(s: string, i: int)
    requires 0 <= i < |s|
    requires !IsDigit(s[i])
    requires i > 0 || s[i] != '-'
    ensures !IsIntegerText(s)
  {
    if |s| > 1 && s[0] == '-' {
      assert s[1..][i - 1] == s[i];
    }
  }

  // ---------------------------------------------------------------------
  // The value of a digit string, and sscanf's "%lld" conversion
  // ---------------------------------------------------------------------

  function DigitValue(c: char): nat
    requires IsDigit(c)
  {
    c as int - '0' as int
  }

  /** The decimal value of a string of digits, most significant first. */
  function DigitsValue(d: string): nat
    requires AllDigits(d)
  {
    if d == [] then 0 else DigitsValue(d[..|d| - 1]) * 10 + DigitValue(d[|d| - 1])
  }

  /** The signed value an integer text denotes. */
  function IntegerValue(s: string): int
    requires IsIntegerText(s)
  {
    if s[0] == '-' then -(DigitsValue(s[1..]) as int) else DigitsValue(s)
  }

  /** isspace in the C locale: space, \t, \n, \v, \f and \r. */
  predicate IsSpace(c: char) {
    c == ' ' || '\t' <= c <= '\r'
  }

  /** s without its leading white space. */
  function SkipSpace(s: string): (t: string)
    ensures |t| <= |s| && t == s[|s| - |t|..]
    ensures forall i :: 0 <= i < |s| - |t| ==> IsSpace(s[i])
    ensures |t| > 0 ==> !IsSpace(t[0])
  {
    if |s| > 0 && IsSpace(s[0]) then SkipSpace(s[1..]) else s
  }

  /** What follows an optional leading '+' or '-'. */
  function AfterSign(t: string): (u: string)
    ensures |t| > 0 && (t[0] == '-' || t[0] == '+') ==> u == t[1..]
    ensures !(|t| > 0 && (t[0] == '-' || t[0] == '+')) ==> u == t
  {
    if |t| > 0 && (t[0] == '-' || t[0] == '+') then t[1..] else t
  }

  /** The longest prefix of s made of digits. */
  function DigitRun(s: string): (d: string)
    ensures AllDigits(d) && d <= s
    ensures |d| < |s| ==> !IsDigit(s[|d|])
  {
    if |s| > 0 && IsDigit(s[0]) then [s[0]] + DigitRun(s[1..]) else []
  }

  /**
   * sscanf(input, "%lld", &v) == 1 and the v it stores: leading white space is
   * skipped, a sign is optional, at least one digit must follow, anything after
   * the digits is ignored; a value outside long long saturates, as glibc does.
   */
  function ScanLongLong(s: string): (r: Option<int>)
    ensures r.Some? ==> LLongMin <= r.value <= LLongMax
  {
    var t := SkipSpace(s);
    var d := DigitRun(AfterSign(t));
    if d == [] then None else Some(ClampLongLong(SignedValue(t, d)))
  }

  /** The value of the digits d, negated when the text t after the white space starts with '-'. */
  function SignedValue(t: string, d: string): int
    requires AllDigits(d)
  {
    if |t| > 0 && t[0] == '-' then -(DigitsValue(d) as int) else DigitsValue(d)
  }

  /** The conversion succeeds exactly when a digit follows the white space and the optional sign. */
  lemma ScanLongLongNeedsDigit(s: string)
    ensures
      var u := AfterSign(SkipSpace(s));
      ScanLongLong(s).Some? <==> |u| > 0 && IsDigit(u[0])
  {
    var u := AfterSign(SkipSpace(s));
    var d := DigitRun(u);
    if d != [] {
      assert d[0] == u[0];
    }
  }

  /**
   * The conversion of white space ws, an optional sign, the digits d and a
   * remainder that does not start with a digit stores the value of d, negated
   * after a '-', saturated to the long long range.
   */
  lemma ScanLongLongOf(ws: string, sign: string, d: string, rest: string)
    requires forall i :: 0 <= i < |ws| ==> IsSpace(ws[i])
    requires sign == "" || sign == "+" || sign == "-"
    requires d != [] && AllDigits(d)
    requires rest == [] || !IsDigit(rest[0])
    ensures ScanLongLong(ws + (sign + (d + rest)))
      == Some(ClampLongLong(if sign == "-" then -(DigitsValue(d) as int) else DigitsValue(d)))
  {
    var y := d + rest;
    var x := sign + y;
    SkipSpaceOf(ws, x);
    AfterSignOf(sign, y);
    DigitRunOf(d, rest);
    var t := SkipSpace(ws + x);
    assert t == x;
    assert DigitRun(AfterSign(t)) == d;
    assert SignedValue(t, d) == if sign == "-" then -(DigitsValue(d) as int) else DigitsValue(d);
  }

  lemma AfterSignOf(sign: string, y: string)
    requires sign == "" || sign == "+" || sign == "-"
    requires y != [] && IsDigit(y[0])
    ensures AfterSign(sign + y) == y
    ensures (sign + y)[0] == '-' <==> sign == "-"
  {
    if sign != "" {
      assert (sign + y)[1..] == y;
    }
  }

  lemma {:induction false} SkipSpaceOf(ws: string, x: string)
    requires forall i :: 0 <= i < |ws| ==> IsSpace(ws[i])
    requires x == [] || !IsSpace(x[0])
    ensures SkipSpace(ws + x) == x
  {
    if ws != [] {
      assert (ws + x)[1..] == ws[1..] + x;
      SkipSpaceOf(ws[1..], x);
    }
  }

  lemma {:induction false} DigitRunOf(d: string, rest: string)
    requires AllDigits(d)
    requires rest == [] || !IsDigit(rest[0])
    ensures DigitRun(d + rest) == d
  {
    if d != [] {
      assert (d + rest)[1..] == d[1..] + rest;
      DigitRunOf(d[1..], rest);
    }
  }

  lemma {:induction false} DigitRunOfDigits(s: string)
    requires AllDigits(s)
    ensures DigitRun(s) == s
  {
    if |s| > 0 {
      DigitRunOfDigits(s[1..]);
    }
  }

  // ---------------------------------------------------------------------
  // get_integer
  // ---------------------------------------------------------------------

  /**
   * get_integer: `value` is the in-out parameter's value on entry and `value'`
   * on exit; `errors` is what it writes to stderr. When the conversion fails
   * the parameter is untouched; otherwise it receives the long long truncated
   * to int, and the result says whether that truncation lost nothing.
   */
  method GetInteger(input: string, value: int) returns (ok: bool, value': int, errors: seq<Message>)
    ensures ScanLongLong(input).None? ==> !ok && value' == value && errors == [CannotConvert(input)]
    ensures ScanLongLong(input).Some? ==>
      && value' == Wrap32(ScanLongLong(input).value)
      && (ok <==> InInt32(ScanLongLong(input).value))
      && (errors == if ok then [] else [IntegerOverflow(input)])
    ensures ok ==> value' == ScanLongLong(input).value
  {
    var scanned := ScanLongLong(input);
    if scanned.None? {
      return false, value, [CannotConvert(input)];
    }
    var longLong := scanned.value;
    value' := Wrap32(longLong);
    if longLong != value' {
      return false, value', [IntegerOverflow(input)];
    }
    return true, value', [];
  }

  /**
   * On a text is_integer accepts, the conversion succeeds, so get_integer
   * returns true exactly when the text's value fits in an int, and then stores
   * that value.
   */
  lemma GetIntegerOnIntegerText(s: string)
    requires IsIntegerText(s)
    ensures ScanLongLong(s).Some?
    ensures InInt32(ScanLongLong(s).value) <==> InInt32(IntegerValue(s))
    ensures InInt32(IntegerValue(s)) ==> Wrap32(ScanLongLong(s).value) == IntegerValue(s)
  {
    assert SkipSpace(s) == s;
    if s[0] == '-' {
      DigitRunOfDigits(s[1..]);
    } else {
      DigitRunOfDigits(s);
    }
  }

  // ---------------------------------------------------------------------
  // The line count
  // ---------------------------------------------------------------------

  /** A `-n` argument main keeps: an integer text whose value fits in an int and is not negative. */
  predicate IsValidLineCount(s: string) {
    IsIntegerText(s) && InInt32(IntegerValue(s)) && IntegerValue(s) >= 0
  }

  /** An integer text whose value does not fit in an int. */
  predicate Overflows(s: string) {
    IsIntegerText(s) && !InInt32(IntegerValue(s))
  }

  /** The effective line count: the `-n` value when it is valid, otherwise the default. */
  function LineCount(nValue: Option<string>): (count: int)
    ensures count >= 0
    ensures nValue.None? ==> count == DefaultLineCount
    ensures nValue.Some? && IsValidLineCount(nValue.value) ==> count == IntegerValue(nValue.value)
    ensures count != DefaultLineCount ==>
      nValue.Some? && IsValidLineCount(nValue.value) && count == IntegerValue(nValue.value)
  {
    match nValue
    case None => DefaultLineCount
    case Some(s) => if IsValidLineCount(s) then IntegerValue(s) else DefaultLineCount
  }

  /**
   * The fallback in main: is_integer, then get_integer into line_count, then
   * the sign test, short-circuited as in C; on any failure the warning is
   * printed and the default restored. `errors` is what get_integer writes to
   * stderr on the way: is_integer has already rejected everything the
   * conversion cannot read, so only the overflow warning can appear, and it
   * is always followed by the invalid-line-count warning.
   */
  method ResolveLineCount(nValue: Option<string>) returns (errors: seq<Message>, warned: bool, lineCount: int)
    ensures lineCount == LineCount(nValue)
    ensures warned <==> nValue.Some? && !IsValidLineCount(nValue.value)
    ensures errors == if nValue.Some? && Overflows(nValue.value) then [IntegerOverflow(nValue.value)] else []
    ensures errors != [] ==> warned
  {
    lineCount, warned, errors := DefaultLineCount, false, [];
    if nValue.None? {
      return;
    }
    var s := nValue.value;
    var isInt := IsInteger(s);
    if !isInt {
      return [], true, DefaultLineCount;
    }
    GetIntegerOnIntegerText(s);
    var converted;
    converted, lineCount, errors := GetInteger(s, lineCount);
    if !converted || lineCount < 0 {
      warned, lineCount := true, DefaultLineCount;
    }
  }

  /** The banner says "line" for a count of one and "lines" for every other count. */
  function LineLabel(count: int): (noun: string)
    ensures noun == "line" <==> count == 1
    ensures noun == "lines" <==> count != 1
  {
    "line" + (if count == 1 then "" else "s")
  }

  // ---------------------------------------------------------------------
  // The option loop of main
  // ---------------------------------------------------------------------

  /** What getopt(argc, argv, ":n:") returns, with optarg and optopt attached. */
  datatype Getopt =
    | OptionN(arg: string)          // 'n' with optarg
    | Unrecognized(opt: char)       // '?' with optopt
    | MissingArgument(opt: char)    // ':' with optopt, because optstring starts with ':'

  /** The diagnostics main and get_integer write to stderr. */
  datatype Message =
    | UsageLine
    | RequiresArgument(opt: char)
    | UnknownOption(opt: char)
    | TooManyFileNames
    | NoFileName
    | CannotConvert(text: string)
    | IntegerOverflow(text: string)

  /** One pass of the option loop: go on with the current `-n` value, or return EXIT_FAILURE. */
  datatype Step = Continue(nValue: Option<string>) | Stop(messages: seq<Message>)

  /**
   * The switch in the option loop as written: a missing argument comes back
   * as ':', which falls to `default` and returns without a message.
   */
  function OptionStepAsWritten(g: Getopt): (step: Step)
    ensures step.Continue? <==> g.OptionN?
    ensures g.OptionN? ==> step == Continue(Some(g.arg))
    ensures step.Stop? ==> (step.messages == [] <==> g.MissingArgument?)
  {
    match g
    case OptionN(arg) => Continue(Some(arg))
    case Unrecognized(c) =>
      Stop([if c == 'n' then RequiresArgument(c) else UnknownOption(c), UsageLine])
    case MissingArgument(_) => Stop([])
  }

  /** The switch with the missing-argument case reported as the '?' branch intends. */
  function OptionStep(g: Getopt): (step: Step)
    ensures step.Stop? ==> step.messages != [] && step.messages[|step.messages| - 1] == UsageLine
    ensures g.MissingArgument? ==> step == Stop([RequiresArgument(g.opt), UsageLine])
    ensures !g.MissingArgument? ==> step == OptionStepAsWritten(g)
  {
    if g.MissingArgument? then Stop([RequiresArgument(g.opt), UsageLine])
    else OptionStepAsWritten(g)
  }

  /** A `-n` given without an argument makes main fail without printing anything. */
  lemma MissingArgumentIsSilent()
    ensures OptionStepAsWritten(MissingArgument('n')) == Stop([])
    ensures OptionStep(MissingArgument('n')) == Stop([RequiresArgument('n'), UsageLine])
  {
  }

  /** Which switch the option loop runs: the one head.c has, or the corrected one. */
  datatype Switch = AsWritten | Corrected

  function SwitchStep(sw: Switch, g: Getopt): Step {
    match sw
    case AsWritten => OptionStepAsWritten(g)
    case Corrected => OptionStep(g)
  }

  /** The first getopt result that is not `-n` with its argument, if any. */
  function FirstError(opts: seq<Getopt>): (e: Option<Getopt>)
    ensures e.Some? ==> e.value in opts && !e.value.OptionN?
    ensures e.Some? ==>
      exists i :: 0 <= i < |opts| && opts[i] == e.value && forall j :: 0 <= j < i ==> opts[j].OptionN?
    ensures e.None? <==> forall g :: g in opts ==> g.OptionN?
  {
    if opts == [] then None
    else if opts[0].OptionN? then
      assert forall g :: g in opts ==> g == opts[0] || g in opts[1..];
      FirstError(opts[1..])
    else Some(opts[0])
  }

  /** Main fails silently: the first getopt result that is not `-n` reports a missing argument. */
  predicate SilentFailure(sw: Switch, opts: seq<Getopt>) {
    sw == AsWritten && FirstError(opts).Some? && FirstError(opts).value.MissingArgument?
  }

  /**
   * The whole option loop, from the remaining getopt results and the current
   * `-n` value: it stops exactly at a result that is not `-n`, and it stops
   * without a message exactly when the switch as written meets a missing
   * argument there.
   */
  function ScanOptions(sw: Switch, opts: seq<Getopt>, nValue: Option<string>): (step: Step)
    ensures step.Continue? <==> FirstError(opts).None?
    ensures step.Stop? ==> step == SwitchStep(sw, FirstError(opts).value)
    ensures step.Stop? ==> (step.messages == [] <==> SilentFailure(sw, opts))
  {
    if opts == [] then Continue(nValue)
    else
      match SwitchStep(sw, opts[0])
      case Stop(m) => Stop(m)
      case Continue(nv) => ScanOptions(sw, opts[1..], nv)
  }

  /** The last `-n` wins */
  function LastN(opts: seq<Getopt>, nValue: Option<string>): Option<string> {
    if opts == [] then nValue
    else if opts[|opts| - 1].OptionN? then Some(opts[|opts| - 1].arg)
    else LastN(opts[..|opts| - 1], nValue)
  }

  /**
   * The option loop succeeds exactly when every getopt result is an `-n` with
   * its argument, and then the last one given is the line-count argument.
   */
  lemma {:induction false} ScanOptionsLastWins(sw: Switch, opts: seq<Getopt>, nValue: Option<string>)
    ensures ScanOptions(sw, opts, nValue).Continue? <==> forall g :: g in opts ==> g.OptionN?
    ensures ScanOptions(sw, opts, nValue).Continue? ==>
      ScanOptions(sw, opts, nValue).nValue == LastN(opts, nValue)
  {
    if opts != [] {
      var g := opts[0];
      match SwitchStep(sw, g)
      case Stop(_) =>
      case Continue(nv) =>
        ScanOptionsLastWins(sw, opts[1..], nv);
        assert opts == [g] + opts[1..];
        if ScanOptions(sw, opts, nValue).Continue? {
          LastNOfCons(g.arg, opts[1..], nValue);
        }
    }
  }

  lemma {:induction false} LastNOfCons(arg: string, rest: seq<Getopt>, nValue: Option<string>)
    requires forall g :: g in rest ==> g.OptionN?
    ensures LastN([OptionN(arg)] + rest, nValue) == LastN(rest, Some(arg))
  {
    if rest != [] {
      var all := [OptionN(arg)] + rest;
      assert all[..|all| - 1] == [OptionN(arg)] + rest[..|rest| - 1];
    }
  }

  /** The option loop of main, stepping through getopt's results. */
  method ParseOptions(sw: Switch, opts: seq<Getopt>) returns (step: Step)
    ensures step == ScanOptions(sw, opts, None)
  {
    var nValue: Option<string> := None;
    var i := 0;
    while i < |opts|
      invariant 0 <= i <= |opts|
      invariant ScanOptions(sw, opts, None) == ScanOptions(sw, opts[i..], nValue)
    {
      assert opts[i..][1..] == opts[i + 1..];
      var next := SwitchStep(sw, opts[i]);
      if next.Stop? {
        return next;
      }
      nValue := next.nValue;
      i := i + 1;
    }
    return Continue(nValue);
  }

  // ---------------------------------------------------------------------
  // main
  // ---------------------------------------------------------------------

  /** The banner "==> file (count line[s]) <==". */
  datatype Banner = Banner(file: string, count: int, noun: string)

  datatype Exit = Failure(messages: seq<Message>) | Success(banner: Banner)

  /**
   * main up to the banner, with the option switch `sw` (head.c's own is
   * AsWritten): argc == 1 gives the usage line; then the option loop; then
   * the `-n` fallback, with get_integer's overflow warning on stderr in
   * `errors` and the invalid-line-count warning on stdout in `warned`; then
   * exactly one file operand is required.
   */
  method Run(sw: Switch, argc: int, opts: seq<Getopt>, operands: seq<string>)
    returns (errors: seq<Message>, warned: bool, exit: Exit)
    ensures argc == 1 ==> errors == [] && !warned && exit == Failure([UsageLine])
    ensures argc != 1 && ScanOptions(sw, opts, None).Stop? ==>
      errors == [] && !warned && exit == Failure(ScanOptions(sw, opts, None).messages)
    ensures argc != 1 && ScanOptions(sw, opts, None).Continue? ==>
      var nValue := ScanOptions(sw, opts, None).nValue;
      && (errors == if nValue.Some? && Overflows(nValue.value) then [IntegerOverflow(nValue.value)] else [])
      && (warned <==> nValue.Some? && !IsValidLineCount(nValue.value))
      && (|operands| > 1 ==> exit == Failure([TooManyFileNames]))
      && (|operands| == 0 ==> exit == Failure([NoFileName]))
      && (|operands| == 1 ==>
            exit == Success(Banner(operands[0], LineCount(nValue), LineLabel(LineCount(nValue)))))
    ensures exit.Failure? ==> (exit.messages == [] <==> argc != 1 && SilentFailure(sw, opts))
    ensures exit.Success? ==> |operands| == 1 && exit.banner.count >= 0
  {
    errors, warned := [], false;
    if argc == 1 {
      return [], false, Failure([UsageLine]);
    }
    var step := ParseOptions(sw, opts);
    if step.Stop? {
      return [], false, Failure(step.messages);
    }
    var lineCount;
    errors, warned, lineCount := ResolveLineCount(step.nValue);
    if |operands| > 1 {
      return errors, warned, Failure([TooManyFileNames]);
    } else if |operands| < 1 {
      return errors, warned, Failure([NoFileName]);
    }
    exit := Success(Banner(operands[0], lineCount, LineLabel(lineCount)));
  }
}
