# Systems-programming recitation snippets: a verified model

This project models the three pieces of the recitation code that are
deterministic, sequential logic:

- **Bit-manipulation exercises** (`recitation_2/bit_operators_sol`):
  - `mul8`, `make_odd`, `is_negative`, `set_bit` and `swap`, as module
    `BitOperators`.
  - The `ANSWER_*` mask macros they are built from.
  - `int` and `unsigned int` are 32-bit words (`bv32`, two's complement
    where signed) and `unsigned short` is a `bv16`, so the arithmetic is
    arithmetic modulo 2^32 or 2^16.
- **The argument handling of the `head` clone** (`recitation_6/code/head.c`),
  as module `Head`:
  - `is_integer`, a loop over the characters, proved against the predicate
    "optional minus sign, then one or more digits".
  - `get_integer`, the `sscanf("%lld")` conversion followed by the `(int)`
    cast and its overflow check.
  - The option loop of `main`.
  - The fallback to the default line count of 10.
  - The check that exactly one file operand is given.
  - The "line"/"lines" label of the banner.
- **The star printer of the fork demonstration** (`recitation_7/code/starfork.c`),
  as module `StarFork`:
  - `star`, which fills a 100-character buffer backwards and prints it.
  - The countdown that the `SIGCHLD` handler `supernova` prints for each
    reaped child. It is modelled over the sequence of exit statuses that
    `waitpid` would deliver.

Module `CTypes` holds what they share: the ranges of `int` and `long long`,
the `(int)` truncation of a wider integer, and `Option`.

The option loop and `main` take a `Switch` argument. `AsWritten` is the
switch head.c has. `Corrected` is the same switch with the missing-argument
case reported; see "## Findings".

## Model

| member | source | states |
|---|---|---|
| BitOperators.BitMask | recitation_2/bit_operators_sol/bitoperators-solutions.h:17-19 | `0x1 << n` has bit n set and every other bit clear |
| BitOperators.ClearMask | recitation_2/bit_operators_sol/bitoperators-solutions.h:21-23 | `~(0x1 << n)` has every bit set except bit n |
| BitOperators.SignMask | recitation_2/bit_operators_sol/bitoperators-solutions.h:10-15 | `(sizeof(int) << 3) - 1` is 31, and the mask has only the sign bit, bit 31, set |
| BitOperators.MaskedBit | recitation_2/bit_operators_sol/bitoperators-solutions.h:17-23 | OR with `1 << n` sets bit n; AND with `~(1 << n)` clears bit n |
| BitOperators.SetOne | recitation_2/bit_operators_sol/bitoperators-solutions.h:17-19 | ANSWER_4_1, OR with `0x1 << n`, has bit n set and equals num outside bit n |
| BitOperators.ClearOne | recitation_2/bit_operators_sol/bitoperators-solutions.h:21-23 | ANSWER_4_2, AND with `~(0x1 << n)`, has bit n clear and equals num outside bit n |
| BitOperators.AgreeExceptBits | recitation_2/bit_operators_sol/bitoperators-solutions.h:17-23 | two words equal outside bit n have the same value in every bit other than n |
| BitOperators.Mul8 | recitation_2/bit_operators_sol/bitoperators.c:4-6 | mul8(num) is num * 8 wrapped to 32 bits |
| BitOperators.MakeOdd | recitation_2/bit_operators_sol/bitoperators.c:8-10 | make_odd sets bit 0 and leaves bits 1..31 as they were |
| BitOperators.MakeOddIdempotent | recitation_2/bit_operators_sol/bitoperators.c:8-10 | an odd word is returned unchanged, and applying make_odd twice equals applying it once |
| BitOperators.IsNegative | recitation_2/bit_operators_sol/bitoperators.c:12-17 | the result is 0 or 1; it is 1 exactly when bit 31 is set, which is exactly when the word is a negative int |
| BitOperators.SetBit | recitation_2/bit_operators_sol/bitoperators.c:19-24 | bit n of the result is set exactly when b is non-zero, and every other bit equals num's |
| BitOperators.SetBitKeepsSettledBit | recitation_2/bit_operators_sol/bitoperators.c:19-24 | when bit n already has the requested state, set_bit returns num itself |
| BitOperators.Swap | recitation_2/bit_operators_sol/bitoperators.c:26-30 | the result's low byte is num's high byte and its high byte is num's low byte, after the promotion to int and the truncation on return |
| BitOperators.SwapInvolution | recitation_2/bit_operators_sol/bitoperators.c:26-30 | swap(swap(x)) == x |
| BitOperators.SwapHalves | recitation_2/bit_operators_sol/bitoperators-solutions.h:25-28 | `num >> 8` is the old high byte; `num << 8` truncated to 16 bits holds the old low byte in the high byte |
| BitOperators.ShiftLeftMultiplies | recitation_2/bit_operators_sol/bitoperators-solutions.h:1-4 | a left shift by n multiplies by 2^n modulo 2^32; a shift by 3 multiplies by 8 |
| BitOperators.ShiftRightDivides | recitation_2/bit_operators_sol/bitoperators-solutions.h:3 | a right shift of an unsigned word divides it by the power of two, shown for a shift by 3 on 32 bits and by 8 on 16 bits (ANSWER_5_2's shift) |
| BitOperators.DriverMul8 | recitation_2/bit_operators_sol/bitoperators.c:36-42 | every mul8 call of the driver has the value two's complement gives, including mul8(-1) == -8 and mul8(-32) == -256 |
| BitOperators.DriverMakeOdd | recitation_2/bit_operators_sol/bitoperators.c:47-59 | every make_odd call of the driver, for example make_odd(32) == 33 and make_odd(0xfffffffe) == 0xffffffff |
| BitOperators.DriverIsNegative | recitation_2/bit_operators_sol/bitoperators.c:64-73 | every is_negative call of the driver: 0 for 0, 1, 2 and 0x7fffffff, 1 for -1, -3, 0x80000000 and 0xffffffff |
| BitOperators.DriverSetBit | recitation_2/bit_operators_sol/bitoperators.c:78-97 | every set_bit call of the driver, for example set_bit(0x0, 30, 1) == 0x40000000 and set_bit(0xffffffff, 30, 0) == 0xbfffffff |
| BitOperators.DriverSwap | recitation_2/bit_operators_sol/bitoperators.c:102-113 | every swap call of the driver, for example swap(7) == 0x700 and swap(0xfffe) == 0xfeff |
| CTypes.Wrap32 | recitation_6/code/head.c:58-59 | `(int)v` lies in the int range, is congruent to v modulo 2^32, and equals v exactly when v fits in an int |
| CTypes.ClampLongLong | recitation_6/code/head.c:53-54 | the `%lld` conversion stores a value in the long long range: the exact value when it is in range, LLONG_MAX above it and LLONG_MIN below it |
| Head.IsInteger | recitation_6/code/head.c:23-43 | is_integer returns true exactly when the text is an optional '-' followed by one or more digits |
| Head.NotIntegerEmptyOrDash | recitation_6/code/head.c:31-42 | "" and "-" are not integers |
| Head.NotIntegerStrayCharacter | recitation_6/code/head.c:37-41 | a non-digit anywhere, including a '-' at any index but 0, makes the text invalid |
| Head.SkipSpace | recitation_6/code/head.c:54 | the conversion's white-space skip drops a prefix made only of white space and returns a suffix that does not start with white space |
| Head.DigitRun | recitation_6/code/head.c:54 | the digits the conversion consumes are the longest all-digit prefix of the input |
| Head.AfterSign | recitation_6/code/head.c:54 | the conversion drops one leading '+' or '-' when there is one, and nothing otherwise |
| Head.ScanLongLong | recitation_6/code/head.c:54 | a successful `%lld` conversion stores a value in the long long range |
| Head.ScanLongLongNeedsDigit | recitation_6/code/head.c:54 | the conversion succeeds exactly when a digit follows the leading white space and the optional sign |
| Head.ScanLongLongOf | recitation_6/code/head.c:54 | for any white space, an optional '+' or '-', one or more digits and a remainder not starting with a digit, the conversion stores the digits' decimal value, negated after '-', saturated to the long long range |
| Head.DigitRunOfDigits | recitation_6/code/head.c:54 | on a string of digits the conversion consumes the whole string |
| Head.GetInteger | recitation_6/code/head.c:45-64 | when the conversion fails, the result is false and *value is untouched; otherwise *value is the long long truncated to int, and the result is true exactly when that value fits in an int, in which case *value is the converted value. It writes "Cannot convert" to stderr when the conversion fails, "Integer overflow" when the value does not fit, and nothing when it succeeds |
| Head.GetIntegerOnIntegerText | recitation_6/code/head.c:52-64 | on text that is_integer accepts, the conversion succeeds; get_integer is true exactly when the text's value fits in an int, and then stores that value |
| Head.LineCount | recitation_6/code/head.c:107-115 | the effective line count is 10 without `-n`, the `-n` value when that is a valid, non-negative int, and 10 otherwise; it is never negative |
| Head.ResolveLineCount | recitation_6/code/head.c:107-115 | the short-circuited check leaves line_count at the effective line count, and the warning is printed exactly when `-n` was given with an invalid value. The only stderr output on the way is get_integer's overflow warning, exactly when `-n` is an integer text outside the int range, and it is always followed by the warning |
| Head.LineLabel | recitation_6/code/head.c:132-133 | the label is "line" exactly when the count is 1 and "lines" otherwise |
| Head.OptionStepAsWritten | recitation_6/code/head.c:86-105 | the switch as written: `-n arg` continues with arg and everything else stops; it stops with no message exactly on getopt's ':' for a missing argument |
| Head.OptionStep | recitation_6/code/head.c:86-105 | `-n arg` continues with arg; any other getopt result stops with a message ending in the usage line, and a missing argument is reported as requiring an argument |
| Head.MissingArgumentIsSilent | recitation_6/code/head.c:86-105 | as written, a `-n` with no argument makes main fail with no message; the corrected switch reports it |
| Head.FirstError | recitation_6/code/head.c:86-105 | the getopt result that is not `-n` and is preceded only by `-n` results; there is none exactly when every result is `-n` |
| Head.ScanOptions | recitation_6/code/head.c:86-105 | the option loop stops exactly when some getopt result is not `-n`, and then with what the switch does for the first such result (for `-x`, "Unknown option" and the usage line). It stops with no message exactly when the switch is as written and that result is a missing argument |
| Head.ScanOptionsLastWins | recitation_6/code/head.c:86-90 | the option loop continues exactly when every getopt result is `-n` with its argument, and then the last `-n` given is the value kept |
| Head.ParseOptions | recitation_6/code/head.c:86-105 | the loop over getopt's results computes the option loop's outcome, for either switch |
| Head.Run | recitation_6/code/head.c:77-133 | argc == 1 fails with the usage line. An option error fails with its messages. Otherwise get_integer's overflow warning goes to stderr exactly when `-n` is an integer text outside the int range, and the invalid-line-count warning is printed exactly when `-n` is invalid. Then more than one operand fails with "Too many file names", none fails with "No file name", and exactly one prints the banner with the effective count and its label. A failure prints nothing exactly when argc != 1, the switch is as written, and the first getopt result that is not `-n` is a missing argument. A success has a non-negative count |
| StarFork.CStringUpToNul | recitation_7/code/starfork.c:21-28 | a buffer whose first NUL is at index k prints as its first k characters |
| StarFork.Star | recitation_7/code/starfork.c:10-29 | a magnitude of 100 or more exits with status 1. Otherwise the printed line is exactly as many copies as the magnitude of n of '@' for negative n, or of '*' otherwise, so star(0) prints the empty line. The loop writes only indices below that magnitude, which is below 100, in the buffer |
| StarFork.CountdownLines | recitation_7/code/starfork.c:34-35 | the countdown for status k has k lines, and line j has k - j '@' characters |
| StarFork.StarCountdown | recitation_7/code/starfork.c:34-35 | the inner loop prints the countdown for k, or, when k >= 100, exits with status 1 before printing |
| StarFork.Supernova | recitation_7/code/starfork.c:31-36 | the handler prints the countdowns of the reaped statuses in order, and stops at the first status of 100 or more with exit status 1 |
| StarFork.NovaSkipsZero | recitation_7/code/starfork.c:34 | a status of 0 prints nothing |
| StarFork.NovaLineCount | recitation_7/code/starfork.c:31-36 | when every status is below 100, the handler does not exit and prints as many lines as the statuses sum to; otherwise it exits with status 1 |

## Left out

- getopt is not modelled. `Head.Run` receives the sequence of results getopt returns, with optarg and optopt attached, and the operands left after the options (argc - optind of them).
- Output is modelled as values: the stderr messages, the stdout warning flag and the banner. The messages' text is not modelled.
- The file reading, printing and closing in head.c are TODO comments in the source, so there is nothing to model.
- sscanf is modelled by its documented effect on `%lld`: skip white space, an optional sign, at least one digit. Out-of-range values saturate to the long long limits, as glibc does. The C standard leaves that case undefined.
- `(int)` of a long long is modelled as reduction modulo 2^32 into the int range, which is gcc's implementation-defined behaviour.
- StarFork.Star: requires numstar > INT_MIN, because `-numstar` overflows there (undefined behaviour in C).
- BitOperators.SetBit: requires n < 32, the range the driver uses; a shift by 32 or more is undefined behaviour in C. The same holds for SetOne, ClearOne, BitMask and ClearMask.
- Undefined behaviour is not reproduced: left shifts of negative ints in mul8, and `0x1 << 31` in is_negative. They are modelled as two's-complement word arithmetic.
- BitOperators.AgreeExceptBits: the model proves only that masked equality implies bit-by-bit agreement. The converse is not proved.
- BitOperators.ShiftRightDivides: proves the right-shift-divides rule for a shift by 3 on 32 bits and for ANSWER_5_2's shift by 8 on 16 bits only. The general `x >> n == x / 2^n` for a variable n exhausts the solver.
- The `bitoperators.c` driver only prints. The values of all its calls are stated in `BitOperators.DriverMul8`, `DriverMakeOdd`, `DriverIsNegative`, `DriverSetBit` and `DriverSwap`, but the printed text is not modelled.
- fork, execv, waitpid, sleep, the blocking read and sigaction in starfork.c's main and setup_supernova are process control and asynchronous signal delivery. supernova's input is the sequence of exit statuses waitpid reaps, each in 0..255.
- The other signal and function-pointer snippets (recitation_3, recitation_8, recitation_9) are OS or libc demonstrations with no logic of their own, and are not part of this model.

## Findings

| source | as written | input that shows it | evidently intended | confidence | as-written member | corrected member |
|---|---|---|---|---|---|---|
| recitation_6/code/head.c:86-105 | the optstring ":n:" begins with ':', so getopt returns ':' for a `-n` without an argument; that falls to `default:`, which returns EXIT_FAILURE without a message, and the `optopt == 'n'` branch under '?' is never reached | `head -n` (argv = {"head", "-n"}) | print "Option '-n' requires an argument" and the usage line, then fail | not executed | Head.OptionStepAsWritten | Head.OptionStep |
