/**
 * The read-dispatch loop `commands` (bshell.c:92-121). Each iteration
 * takes one `getline` buffer; unless it starts with '\n' it strips the
 * newlines and tokenizes, then dispatches and keeps the returned status.
 * The guard here is corrected: a line with no token is skipped too, where
 * the source would pass a NULL command name to `strcmp`. The loop ends
 * once the status is 0. The input is a finite sequence of buffers,
 * one per `getline` call, and the model also ends when it is used up.
 */
module Shell {
  import opened Wrappers
  import opened LineBuffer
  import opened Tokenizer
  import opened Builtins

  /** Every buffer has a first cell for `line[0]` to read. */
  predicate Readable(input: seq<seq<char>>)
  {
    forall i :: 0 <= i < |input| ==> |input[i]| > 0
  }

  /** The tokens `parse_args` finds in a buffer once its newlines are stripped. */
  function LineTokens(buf: seq<char>): seq<string>
  {
    Tokens(CString(NulForNewline(buf)))
  }

  /** The guard of `commands` as written: the line does not start with '\n'. */
  predicate AsWrittenGuard(buf: seq<char>)
    requires |buf| > 0
  {
    buf[0] != '\n'
  }

  /** The guard as evidently intended: also skip a line that has no command name. */
  predicate Dispatches(buf: seq<char>)
    requires |buf| > 0
  {
    AsWrittenGuard(buf) && LineTokens(buf) != []
  }

  /** One iteration: the dispatched command's outcome, or the status unchanged. */
  function Step(buf: seq<char>, status: int, helpReturn: int): Outcome
    requires |buf| > 0
  {
    if Dispatches(buf) then Dispatch(ArgV(LineTokens(buf)), helpReturn)
    else Outcome(status, "")
  }

  /** How many buffers the loop read, the status it ended with, and what `echo` printed. */
  datatype Run = Run(consumed: nat, status: int, output: string)

  /** The loop run from `status` on the remaining buffers. */
  function Session(lines: seq<seq<char>>, status: int, helpReturn: int): Run
    requires Readable(lines)
    decreases |lines|
  {
    if status == STOP || lines == [] then Run(0, status, "")
    else
      var o := Step(lines[0], status, helpReturn);
      var r := Session(lines[1..], o.status, helpReturn);
      Run(r.consumed + 1, r.status, o.echoed + r.output)
  }

  /** The status after the first `j` buffers, were the loop not to stop. */
  function StatusAfter(lines: seq<seq<char>>, status: int, helpReturn: int, j: nat): int
    requires Readable(lines) && j <= |lines|
    decreases j
  {
    if j == 0 then status
    else StatusAfter(lines[1..], Step(lines[0], status, helpReturn).status, helpReturn, j - 1)
  }

  /**
   * One pass of the loop body of `commands` on a fresh buffer: unless it
   * begins with '\n', strip its newlines, parse it and, when it has a
   * command name, execute it.
   */
  method HandleLine(buf: seq<char>, status: int, helpReturn: int) returns (o: Outcome)
    requires |buf| > 0
    ensures o == Step(buf, status, helpReturn)
  {
    o := Outcome(status, "");
    var line := new char[|buf|](j requires 0 <= j < |buf| => buf[j]);
    assert line[..] == buf;
    if line[0] != '\n' {
      StripNewlines(line);
      var args := ParseArgs(CString(line[..]));
      if args[0] != None {
        o := Execute(args, helpReturn);
      }
    }
  }

  /**
   * `commands`: starts with status 1 and handles one buffer after another
   * until the status is 0.
   */
  method Commands(input: seq<seq<char>>, helpReturn: int) returns (r: Run)
    requires Readable(input)
    ensures r == Session(input, CONTINUE, helpReturn)
  {
    var status := CONTINUE;
    var out := "";
    var k := 0;
    while status != STOP && k < |input|
      invariant 0 <= k <= |input|
      invariant Session(input, CONTINUE, helpReturn) == Resume(k, out, Session(input[k..], status, helpReturn))
      decreases |input| - k
    {
      var o := HandleLine(input[k], status, helpReturn);
      SessionUnfold(input[k..], status, helpReturn);
      assert input[k..][1..] == input[k + 1..];
      ResumeTwice(k, out, o.echoed, Session(input[k + 1..], o.status, helpReturn));
      status := o.status;
      out := out + o.echoed;
      k := k + 1;
    }
    assert Session(input[k..], status, helpReturn) == Run(0, status, "");
    assert out + "" == out;
    r := Run(k, status, out);
  }

  /** One iteration of the loop, as the session sees it. */
  lemma SessionUnfold(lines: seq<seq<char>>, status: int, helpReturn: int)
    requires Readable(lines) && lines != [] && status != STOP
    ensures Session(lines, status, helpReturn) ==
      Resume(1, Step(lines[0], status, helpReturn).echoed,
             Session(lines[1..], Step(lines[0], status, helpReturn).status, helpReturn))
  {
  }

  lemma ResumeTwice(k: nat, out: string, more: string, rest: Run)
    ensures Resume(k, out, Resume(1, more, rest)) == Resume(k + 1, out + more, rest)
  {
  }

  /** A run that had already read `k` buffers and printed `out` before `rest`. */
  function Resume(k: nat, out: string, rest: Run): Run
  {
    Run(k + rest.consumed, rest.status, out + rest.output)
  }

  // ---------------------------------------------------------------------
  // Lemmas
  // ---------------------------------------------------------------------

  /**
   * The loop ends exactly when the status becomes 0: every buffer it
   * read was read with a non-zero status, and it stops early only at 0.
   */
  lemma {:induction false} SessionEndsAtFirstStop(lines: seq<seq<char>>, status: int, helpReturn: int)
    requires Readable(lines) && status != STOP
    ensures Session(lines, status, helpReturn).consumed <= |lines|
    ensures Session(lines, status, helpReturn).status ==
            StatusAfter(lines, status, helpReturn, Session(lines, status, helpReturn).consumed)
    ensures Session(lines, status, helpReturn).status == STOP ||
            Session(lines, status, helpReturn).consumed == |lines|
    ensures forall j :: 0 <= j < Session(lines, status, helpReturn).consumed ==>
            StatusAfter(lines, status, helpReturn, j) != STOP
    decreases |lines|
  {
    if lines != [] {
      var o := Step(lines[0], status, helpReturn);
      var tail := lines[1..];
      var r := Session(lines, status, helpReturn);
      if o.status == STOP {
        assert StatusAfter(lines, status, helpReturn, 1) == StatusAfter(tail, STOP, helpReturn, 0);
      } else {
        SessionEndsAtFirstStop(tail, o.status, helpReturn);
        forall j | 0 <= j < r.consumed
          ensures StatusAfter(lines, status, helpReturn, j) != STOP
        {
          if j > 0 {
            assert StatusAfter(lines, status, helpReturn, j) == StatusAfter(tail, o.status, helpReturn, j - 1);
          }
        }
      }
    }
  }

  /** A buffer starting with '\n' is not dispatched and leaves the status as it was. */
  lemma NewlineLineSkipped(buf: seq<char>, status: int, helpReturn: int)
    requires |buf| > 0 && buf[0] == '\n'
    ensures Step(buf, status, helpReturn) == Outcome(status, "")
  {
  }

  /** A line made only of spaces (or empty) is not dispatched and leaves the status as it was. */
  lemma BlankLineSkipped(text: seq<char>, terminated: bool, junk: seq<char>, status: int, helpReturn: int)
    requires IsLineText(text)
    requires forall k :: 0 <= k < |text| ==> text[k] == Delim
    ensures Step(GetlineBuffer(text, terminated, junk), status, helpReturn) == Outcome(status, "")
  {
    StrippedLineText(text, terminated, junk);
    TokensEmptyIffBlank(text);
  }

  /** A line read by `getline` that has a token is dispatched on its tokens. */
  lemma LineDispatched(text: seq<char>, terminated: bool, junk: seq<char>, status: int, helpReturn: int)
    requires IsLineText(text) && IsNulFree(text) && Tokens(text) != []
    ensures Step(GetlineBuffer(text, terminated, junk), status, helpReturn) == Dispatch(ArgV(Tokens(text)), helpReturn)
  {
    StrippedLineText(text, terminated, junk);
    assert text != [];
  }

  /**
   * A line holding a NUL byte is dispatched on the tokens before the NUL
   * alone: `echo a<NUL> b` runs `echo a`.
   */
  lemma LineWithNulDispatched(before: seq<char>, after: seq<char>, terminated: bool, junk: seq<char>,
                              status: int, helpReturn: int)
    requires IsLineText(before) && IsNulFree(before) && IsLineText(after) && Tokens(before) != []
    ensures Step(GetlineBuffer(before + ['\0'] + after, terminated, junk), status, helpReturn) ==
            Dispatch(ArgV(Tokens(before)), helpReturn)
  {
    StrippedLineStopsAtNul(before, after, terminated, junk);
    assert before != [];
    assert GetlineBuffer(before + ['\0'] + after, terminated, junk)[0] == before[0];
  }

  /** A line whose command is `exit` or `logout` ends the session right after it. */
  lemma ExitLineEndsSession(lines: seq<seq<char>>, status: int, helpReturn: int)
    requires Readable(lines) && lines != [] && status != STOP
    requires Dispatches(lines[0])
    requires LineTokens(lines[0])[0] == "exit" || LineTokens(lines[0])[0] == "logout"
    ensures Session(lines, status, helpReturn) == Run(1, STOP, "")
  {
  }

  /**
   * As written, the guard lets a line of spaces through: `parse_args`
   * then returns a vector whose first entry is NULL, and `execute` would
   * pass that NULL to `strcmp`.
   */
  lemma AsWrittenGuardAdmitsBlank()
    ensures AsWrittenGuard(GetlineBuffer("  ", true, []))
    ensures ArgV(LineTokens(GetlineBuffer("  ", true, [])))[0] == None
    ensures !IsCommand(ArgV(LineTokens(GetlineBuffer("  ", true, []))))
  {
  }

  /** `echo a  b` continues and prints its two arguments single-spaced. */
  lemma ExampleEchoLine(text: seq<char>, terminated: bool, junk: seq<char>, buf: seq<char>, helpReturn: int)
    requires text == "echo a  b" && buf == GetlineBuffer(text, terminated, junk)
    ensures Step(buf, CONTINUE, helpReturn) == Outcome(CONTINUE, "a b\n")
  {
    assert Spaces(0) + Spaced(["echo", "a", "b"], [1, 2, 0]) == text;
    TokensOfSpaced(0, ["echo", "a", "b"], [1, 2, 0]);
    LineDispatched(text, terminated, junk, CONTINUE, helpReturn);
    EchoContinues(ArgV(["echo", "a", "b"]), helpReturn);
    assert Words(ArgV(["echo", "a", "b"]))[1..] == ["a", "b"];
  }

  /** `logout now` stops the loop although an argument follows. */
  lemma ExampleLogoutLine(text: seq<char>, terminated: bool, junk: seq<char>, buf: seq<char>, helpReturn: int)
    requires text == "logout now" && buf == GetlineBuffer(text, terminated, junk)
    ensures Step(buf, CONTINUE, helpReturn) == Outcome(STOP, "")
  {
    assert Spaces(0) + Spaced(["logout", "now"], [1, 0]) == text;
    TokensOfSpaced(0, ["logout", "now"], [1, 0]);
    LineDispatched(text, terminated, junk, CONTINUE, helpReturn);
    ExitStops(ArgV(["logout", "now"]), helpReturn);
  }

  /** A last line `exit` with no '\n' after it is still dispatched, and stops the loop. */
  lemma ExampleUnterminatedExitLine(text: seq<char>, junk: seq<char>, buf: seq<char>, helpReturn: int)
    requires text == "exit" && buf == GetlineBuffer(text, false, junk)
    ensures Step(buf, CONTINUE, helpReturn) == Outcome(STOP, "")
  {
    assert Spaces(0) + Spaced(["exit"], [0]) == text;
    TokensOfSpaced(0, ["exit"], [0]);
    LineDispatched(text, false, junk, CONTINUE, helpReturn);
    ExitStops(ArgV(["exit"]), helpReturn);
  }

  /**
   * A concrete session: `echo a  b` prints "a b\n", an empty line is
   * skipped, `logout now` stops the loop, and the line after it is never read.
   */
  lemma ExampleSession(lines: seq<seq<char>>, helpReturn: int)
    requires |lines| == 4
    requires lines[0] == GetlineBuffer("echo a  b", true, [])
    requires lines[1] == GetlineBuffer("", true, "xyz")
    requires lines[2] == GetlineBuffer("logout now", true, [])
    requires lines[3] == GetlineBuffer("echo late", false, [])
    ensures Session(lines, CONTINUE, helpReturn) == Run(3, STOP, "a b\n")
  {
    ExampleEchoLine(lines[0][..9], true, [], lines[0], helpReturn);
    NewlineLineSkipped(lines[1], CONTINUE, helpReturn);
    ExampleLogoutLine(lines[2][..10], true, [], lines[2], helpReturn);
    SessionOfThreeSteps(lines, helpReturn, "a b\n");
  }

  /** Two continuing steps, the second printing nothing, then a stopping one. */
  lemma SessionOfThreeSteps(lines: seq<seq<char>>, helpReturn: int, printed: string)
    requires Readable(lines) && |lines| >= 3
    requires Step(lines[0], CONTINUE, helpReturn) == Outcome(CONTINUE, printed)
    requires Step(lines[1], CONTINUE, helpReturn) == Outcome(CONTINUE, "")
    requires Step(lines[2], CONTINUE, helpReturn) == Outcome(STOP, "")
    ensures Session(lines, CONTINUE, helpReturn) == Run(3, STOP, printed)
  {
    var l1, l2, l3 := lines[1..], lines[2..], lines[3..];
    assert l1[0] == lines[1] && l1[1..] == l2;
    assert l2[0] == lines[2] && l2[1..] == l3;
    assert Session(l3, STOP, helpReturn) == Run(0, STOP, "");
    SessionUnfold(l2, CONTINUE, helpReturn);
    assert Session(l2, CONTINUE, helpReturn) == Run(1, STOP, "");
    SessionUnfold(l1, CONTINUE, helpReturn);
    assert Session(l1, CONTINUE, helpReturn) == Run(2, STOP, "");
    SessionUnfold(lines, CONTINUE, helpReturn);
    assert printed + "" == printed;
  }

  /** With the corrected guard, a dispatched line always gives `execute` a command name. */
  lemma DispatchedLineHasCommand(buf: seq<char>)
    requires |buf| > 0 && Dispatches(buf)
    ensures IsCommand(ArgV(LineTokens(buf))) && ArgV(LineTokens(buf))[0] != None
  {
  }
}
