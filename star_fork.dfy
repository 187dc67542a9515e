/**
 * The line printer `star` and the SIGCHLD handler `supernova` of the fork
 * demonstration. fork, exec, waitpid and signal delivery are not modelled:
 * supernova receives the exit statuses its waitpid loop would reap, in order.
 */
module StarFork {
  import opened CTypes

  /** The size of the stack buffer `char line[100]`. */
  const LineBufferSize: int := 100

  /** The outcome of one call of star: the process exits, or one line is printed. */
  datatype StarResult = Exited(status: int) | Printed(line: string)

  function Abs(n: int): nat {
    if n < 0 then -n else n
  }

  /** '*' for a non-negative argument, '@' for a negative one. */
  function StarChar(n: int): char {
    if n < 0 then '@' else '*'
  }

  function Repeat(c: char, k: nat): (s: string)
    ensures |s| == k
    ensures forall i :: 0 <= i < k ==> s[i] == c
  {
    seq(k, _ => c)
  }

  /** What printf's "%s" prints of a buffer: the characters before the first NUL. */
  function CString(buf: seq<char>): string {
    if buf == [] || buf[0] == '\0' then [] else [buf[0]] + CString(buf[1..])
  }

  /** A buffer whose first NUL is at index k prints as its first k characters. */
  lemma {:induction false} CStringUpToNul(buf: seq<char>, k: nat)
    requires k < |buf| && buf[k] == '\0'
    requires forall i :: 0 <= i < k ==> buf[i] != '\0'
    ensures CString(buf) == buf[..k]
  {
    if k > 0 {
      CStringUpToNul(buf[1..], k - 1);
    }
  }

  /**
   * star: a negative argument selects '@' and its magnitude; a magnitude of
   * 100 or more exits with status 1; otherwise the buffer is NUL-terminated
   * at the magnitude and filled backwards with the character, and the line
   * printed is exactly that many copies of it.
   */
  method Star(numstar: int) returns (r: StarResult)
    requires IntMin < numstar <= IntMax
    ensures Abs(numstar) >= LineBufferSize ==> r == Exited(1)
    ensures Abs(numstar) < LineBufferSize ==> r == Printed(Repeat(StarChar(numstar), Abs(numstar)))
  {
    var count := numstar;
    var star := '*';
    if count < 0 {
      count := -count;
      star := '@';
    }
    if count >= LineBufferSize {
      return Exited(1);
    }
    var line := new char[LineBufferSize];
    line[count] := '\0';
    ghost var len := count;
    count := count - 1;
    while 0 <= count
      invariant -1 <= count < len
      invariant line[len] == '\0'
      invariant forall i :: count < i < len ==> line[i] == star
    {
      line[count] := star;
      count := count - 1;
    }
    CStringUpToNul(line[..], len);
    assert line[..][..len] == Repeat(star, len);
    return Printed(CString(line[..]));
  }

  /** The lines supernova prints for one child that exited with status k, before any exit. */
  function Countdown(k: nat): seq<string> {
    if k == 0 then [] else [Repeat('@', k)] + Countdown(k - 1)
  }

  /** Status k gives k lines of lengths k, k-1, ..., 1 in that order. */
  lemma {:induction false} CountdownLines(k: nat)
    ensures |Countdown(k)| == k
    ensures forall j :: 0 <= j < k ==> Countdown(k)[j] == Repeat('@', k - j)
  {
    if k > 0 {
      CountdownLines(k - 1);
    }
  }

  /** What supernova prints, and the exit status if a call of star ends the process. */
  datatype NovaResult = NovaResult(lines: seq<string>, exit: Option<int>)

  predicate IsExitStatus(k: int) {
    0 <= k <= 255
  }

  /**
   * The output of supernova for the reaped statuses in order: each status
   * below 100 contributes its countdown; the first status of 100 or more makes
   * its first star call exit with status 1 before anything is printed for it.
   */
  function Nova(statuses: seq<int>): NovaResult
    requires forall k :: k in statuses ==> IsExitStatus(k)
  {
    if statuses == [] then NovaResult([], None)
    else if statuses[0] >= LineBufferSize then NovaResult([], Some(1))
    else
      var k := statuses[0];
      assert IsExitStatus(k) by { assert k in statuses; }
      var rest := Nova(statuses[1..]);
      NovaResult(Countdown(k) + rest.lines, rest.exit)
  }

  /**
   * The inner loop of supernova for one reaped status k: star(-i) for i from
   * k down to 1.
   */
  method StarCountdown(k: int) returns (r: NovaResult)
    requires IsExitStatus(k)
    ensures k < LineBufferSize ==> r == NovaResult(Countdown(k), None)
    ensures k >= LineBufferSize ==> r == NovaResult([], Some(1))
  {
    CountdownLines(k);
    var lines: seq<string> := [];
    var i := k;
    while i > 0
      invariant 0 <= i <= k
      invariant k < LineBufferSize ==> lines == Countdown(k)[..k - i]
      invariant k >= LineBufferSize ==> i == k && lines == []
    {
      var s := Star(-i);
      if s.Exited? {
        return NovaResult(lines, Some(s.status));
      }
      assert Countdown(k)[..k - i + 1] == Countdown(k)[..k - i] + [Repeat('@', i)];
      lines := lines + [s.line];
      i := i - 1;
    }
    assert Countdown(k)[..k] == Countdown(k);
    return NovaResult(lines, None);
  }

  /**
   * supernova: while waitpid reaps a child, run the countdown for its exit
   * status.
   */
  method Supernova(statuses: seq<int>) returns (r: NovaResult)
    requires forall k :: k in statuses ==> IsExitStatus(k)
    ensures r == Nova(statuses)
  {
    var lines: seq<string> := [];
    var j := 0;
    while j < |statuses|
      invariant 0 <= j <= |statuses|
      invariant Nova(statuses) == NovaResult(lines + Nova(statuses[j..]).lines, Nova(statuses[j..]).exit)
    {
      var k := statuses[j];
      assert k in statuses;
      assert statuses[j..][1..] == statuses[j + 1..];
      var one := StarCountdown(k);
      if one.exit.Some? {
        return NovaResult(lines + one.lines, one.exit);
      }
      assert lines + Countdown(k) + Nova(statuses[j + 1..]).lines
          == lines + (Countdown(k) + Nova(statuses[j + 1..]).lines);
      lines := lines + one.lines;
      j := j + 1;
    }
    r := NovaResult(lines, None);
  }

  /** A status of 0 prints nothing. */
  lemma NovaSkipsZero(statuses: seq<int>)
    requires forall k :: k in statuses ==> IsExitStatus(k)
    ensures Nova([0] + statuses) == Nova(statuses)
  {
    assert ([0] + statuses)[1..] == statuses;
  }

  function Sum(statuses: seq<int>): int {
    if statuses == [] then 0 else statuses[0] + Sum(statuses[1..])
  }

  /**
   * When every status is below 100 the handler never exits and prints one
   * line per unit of status; otherwise it ends with exit status 1.
   */
  lemma {:induction false} NovaLineCount(statuses: seq<int>)
    requires forall k :: k in statuses ==> IsExitStatus(k)
    ensures (forall k :: k in statuses ==> k < LineBufferSize) ==>
      Nova(statuses).exit == None && |Nova(statuses).lines| == Sum(statuses)
    ensures (exists k :: k in statuses && k >= LineBufferSize) ==> Nova(statuses).exit == Some(1)
  {
    if statuses != [] {
      var rest := statuses[1..];
      assert statuses[0] in statuses;
      assert forall k :: k in rest ==> k in statuses;
      NovaLineCount(rest);
      CountdownLines(statuses[0]);
      if exists k :: k in statuses && k >= LineBufferSize {
        var k :| k in statuses && k >= LineBufferSize;
        if statuses[0] < LineBufferSize {
          assert k in rest;
        }
      }
    }
  }
}
