# bshell, modelled in Dafny

A model of the command-processing core of `bshell`, a small interactive
shell written in C: the loop that reads a line, overwrites its newlines
with NULs, splits it into a NULL-terminated argument vector with `strtok`,
and dispatches the vector to the first builtin whose name equals the
command (`cd`, `echo`, `exit`, `help`, `logout`) or else to process
launch. Each command returns the C `int` kept in `status`; the loop ends
once it is 0.

Modules, one per component of `bshell.c`:

- `Wrappers` (`wrappers.dfy`): `Option`, used for NULL-or-pointer entries.
- `LineBuffer` (`line_buffer.dfy`): the `getline` buffer, the in-place
  newline-stripping loop, and the C string a buffer holds.
- `Tokenizer` (`tokenizer.dfy`): a reference definition `Tokens` of the
  maximal runs of non-spaces, `strtok` as a function of its saved
  position, `parse_args` as a method growing the vector, `Join`, and the
  round-trip and characterisation lemmas.
- `Builtins` (`builtins.dfy`): the two parallel tables, first-match
  lookup, `bshell_echo` as a method producing the text it prints, each
  builtin's result, and `execute` as a linear search.
- `Shell` (`shell.dfy`): one loop iteration, the `commands` loop, and the
  session lemmas.

Conventions of the model:

- `STOP` is 0 and `CONTINUE` is 1. The status is a plain `int`, because
  `bshell_help` has no return statement. The value it yields is the
  parameter `helpReturn`, and nothing is assumed about it.
- Standard input is a finite sequence of buffers, one per `getline` call.
  Each buffer holds every cell of the allocation: the text, its `'\n'`
  (absent on a last line that has none), `'\0'`, and whatever follows.
  The stripping loop walks all of those cells, as the source does with
  `len` for any buffer of at most 2^31 cells (see "## Left out"). The
  text may itself hold NUL bytes; `strtok` then sees only the part before
  the first one.
- `strtok` is a function of the string and its saved position. The model
  calls it with position 0 in place of `strtok(line, …)` and with the
  saved position in place of `strtok(NULL, …)`.
- `Dispatch`, `RunBuiltin`, `LaunchProcess`, `EchoText`, `Step` and
  `Session` are the specification functions. The lemmas below state what
  they mean.

## Model

| member | source | states |
|---|---|---|
| `LineBuffer.NulForNewline` | bshell.c:108-112 | the buffer keeps its length, no cell holds '\n' afterwards, each '\n' becomes '\0' and every other character is unchanged |
| `LineBuffer.StripNewlines` | bshell.c:108-112 | after the downward loop over all `len` cells, the array equals `NulForNewline` of its old contents |
| `LineBuffer.CString` | bshell.c:130 | the string `strtok` reads is the longest NUL-free prefix of the buffer, ended by a '\0' when shorter than the buffer |
| `LineBuffer.StrippedLineCString` | bshell.c:105-113 | for any buffer `getline` fills with a line (text, its '\n' if the line has one, '\0', anything), stripping and reading the C string gives the text up to its first NUL byte |
| `LineBuffer.StrippedLineText` | bshell.c:105-113 | for a line with no NUL byte, stripping and reading the C string gives exactly the text |
| `LineBuffer.StrippedLineStopsAtNul` | bshell.c:105-113 | for a line holding a NUL byte, stripping and reading the C string gives exactly the part before that NUL |
| `Tokenizer.Tokens` | bshell.c:125-139 | no token is empty and no token contains ' ' |
| `Tokenizer.Strtok` | bshell.c:130-138 | a call yields NULL exactly when only delimiters remain; otherwise a non-empty, space-free token and a saved position strictly further on |
| `Tokenizer.StrtokTokens` | bshell.c:130-139 | each `strtok` call yields the next token of `Tokens`, and NULL only when no token remains |
| `Tokenizer.ParseArgs` | bshell.c:123-144 | the vector holds the n tokens of the line in order at indices 0..n-1 and NULL at index n |
| `Tokenizer.TokensOfSpaced` | bshell.c:125-139 | words laid out with any leading spaces and at least one space between neighbours tokenize back to exactly those words |
| `Tokenizer.SpacedOfTokens` | bshell.c:125-139 | every line is its tokens laid out with leading spaces and at least one space between neighbours, so tokens are exactly the maximal non-space runs, left to right |
| `Tokenizer.JoinOfTokens` | bshell.c:130-139 | a line with no leading, trailing or doubled space is its tokens joined by single spaces |
| `Tokenizer.TokensOfJoin` | bshell.c:130-139 | n non-empty space-free words joined by single spaces tokenize to exactly those n words |
| `Tokenizer.TokensEmptyIffBlank` | bshell.c:130-142 | a line has zero tokens (so `args[0]` is NULL) exactly when it is empty or only spaces |
| `Tokenizer.JoinSnoc` | bshell.c:216-223 | appending a word to a non-empty list appends one space and the word to the joined text |
| `Builtins.NumBuiltins` | bshell.c:201-203 | the count equals the length of both parallel tables, so they stay index-aligned |
| `Builtins.FirstMatchFrom` | bshell.c:189-193 | the result is the lowest index at or after `i` with that name, or none exactly when no later name matches |
| `Builtins.Lookup` | bshell.c:189-193 | the result is the lowest builtin index whose name equals the command, or none exactly when no builtin name matches |
| `Builtins.Echo` | bshell.c:212-227 | the printed text is the arguments after `args[0]` joined by single spaces, then "\n"; for `echo` alone it is "\n" |
| `Builtins.CallBuiltin` | bshell.c:191 | calling through the table gives the builtin's result as `RunBuiltin` states it; its only work is running the `Echo` loop for `bshell_echo` |
| `Builtins.Execute` | bshell.c:180-198 | the outcome is that of the lowest-index builtin whose name equals `args[0]`, or else `launch_process`'s |
| `Builtins.DispatchFirstMatch` | bshell.c:189-192 | when index i is the first name equal to the command, execute returns builtin i's result |
| `Builtins.DispatchNoMatch` | bshell.c:195-197 | a command that names no builtin is launched and returns 1, printing nothing |
| `Builtins.BuiltinNamesDistinct` | bshell.c:24-30 | no builtin name is registered twice |
| `Builtins.ExitAndLogoutShareFunction` | bshell.c:24-38 | `exit` is found at index 2 and `logout` at index 4, and both indices hold `bshell_exit` |
| `Builtins.ExitStops` | bshell.c:229-232 | `exit` and `logout` return 0 whatever arguments follow |
| `Builtins.CdContinues` | bshell.c:205-210 | `cd` returns 1 whatever its argument, so also when `chdir` fails |
| `Builtins.EchoContinues` | bshell.c:212-227 | `echo` returns 1 and prints its arguments single-spaced, then a newline |
| `Builtins.EchoExamples` | bshell.c:216-224 | `echo a b c` prints "a b c\n" and `echo` alone prints "\n" |
| `Builtins.OnlyExitStops` | bshell.c:24-38 | every command other than `exit`, `logout` and `help` returns 1 |
| `Shell.HandleLine` | bshell.c:106-115 | one iteration yields the dispatched command's outcome, or keeps the status and prints nothing |
| `Shell.Commands` | bshell.c:92-121 | the loop's count of lines read, final status and echo output are those of `Session` from status 1 |
| `Shell.SessionEndsAtFirstStop` | bshell.c:101-120 | every line is read with a non-zero status, the final status is the status after the lines read, and the loop stops early only when that is 0 |
| `Shell.NewlineLineSkipped` | bshell.c:106 | a line starting with '\n' is not dispatched and leaves the status unchanged |
| `Shell.BlankLineSkipped` | bshell.c:106-115 | an empty line or a line of spaces is not dispatched and leaves the status unchanged |
| `Shell.LineDispatched` | bshell.c:105-114 | a NUL-free line with a token is dispatched on exactly the tokens of its text |
| `Shell.LineWithNulDispatched` | bshell.c:105-114 | a line holding a NUL byte, with at least one token before that NUL, is dispatched on those tokens alone, so `echo a<NUL> b` runs `echo a` |
| `Shell.ExitLineEndsSession` | bshell.c:114-120 | a line whose command is `exit` or `logout` ends the session after one line, whatever follows |
| `Shell.AsWrittenGuardAdmitsBlank` | bshell.c:106-114 | the first-character guard lets "  \n" through, and its vector has NULL at index 0, so it is no valid command |
| `Shell.DispatchedLineHasCommand` | bshell.c:113-114 | every line the loop dispatches gives `execute` a non-NULL `args[0]` |
| `Shell.ExampleEchoLine` | bshell.c:212-227 | the line `echo a  b` continues and prints "a b\n" |
| `Shell.ExampleLogoutLine` | bshell.c:229-232 | the line `logout now` returns 0 |
| `Shell.ExampleUnterminatedExitLine` | bshell.c:105-114 | a last line `exit` with no '\n' after it still returns 0 |
| `Shell.SessionOfThreeSteps` | bshell.c:101-120 | after a line that returns 1, a second line that returns 1 and prints nothing, and a third that returns 0, the loop has read three lines and stops |
| `Shell.ExampleSession` | bshell.c:101-120 | `echo a  b`, an empty line, `logout now`, `echo late`: three lines are read, status 0, output "a b\n" |

## Left out

- `init_shell` is not modelled. It covers the foreground-group spin loop, the signal dispositions, `setpgid`, `tcsetpgrp` and `tcgetattr`, which are operating-system process and terminal control.
- `launch_process` keeps only its return value of 1. `fork`, `execvp`, `waitpid` and the child's group and signal setup are process creation.
- `bshell_cd` keeps only its return value of 1. The `chdir` call and its effect on the working directory are not modelled.
- `perror` diagnostics, the prompt `printf` and the `help` banner are not modelled. `Outcome.echoed` holds only the text `bshell_echo` prints.
- `bshell_help` has no return statement, so its status is the free parameter `helpReturn`.
- `getline` is replaced by the input sequence of buffers. What the source does at end of input is not modelled; the model's loop also stops when the input runs out.
- `Tokenizer.ParseArgs`: the byte counts passed to `malloc`/`realloc` are not modelled. The source allocates `sizeof(char)` first and the final size reads as `sizeof(char*) * n_spaces + 1`; the model uses a correctly sized vector.
- `Tokenizer.ParseArgs`: the `realloc` failure path (return NULL) is not modelled, since allocation does not fail in Dafny.
- `Tokenizer.Strtok` does not write `'\0'` into the line, and tokens are copies rather than pointers into the buffer. The aliasing between the vector and the buffer is therefore not captured.
- `Shell.HandleLine`: the guard is corrected. After parsing, a line whose vector has NULL at index 0 is skipped, where the source calls `execute` on it with undefined behaviour; see Findings.
- `LineBuffer.StripNewlines`: the source starts the loop at `i = len-1`, converting a `size_t` to an `int`. For a buffer of more than 2^31 cells that conversion is implementation-defined. Under gcc's modulo-2^32 conversion, a buffer of 2^31+1 to 2^32 cells gives a negative start, so the loop does not run and the `'\n'` stays in the last token. The model's index is unbounded and strips every cell of any buffer.
- `Builtins.Execute` requires a non-NULL `args[0]`, because the source's `strcmp(NULL, …)` is undefined. The loop never calls it otherwise; see Findings.

## Findings

| source | as written | input that shows it | evidently intended | confidence | as-written member | corrected member |
|---|---|---|---|---|---|---|
| bshell.c:106 | only a line whose first character is '\n' skips dispatch; a line of spaces reaches `execute` with `args[0] == NULL`, and `strcmp(NULL, …)` is undefined | the line `"  "` (buffer `"  \n\0"`) | a line with no command name is skipped like an empty one | medium; not executed | `Shell.AsWrittenGuardAdmitsBlank` | `Shell.BlankLineSkipped` |

The model's loop (`Shell.HandleLine`, `Shell.Commands`) uses the corrected
guard. It keeps the first-character test and skips `execute` when the
vector's first entry is NULL. On every line the source handles without
undefined behaviour, in a buffer of at most 2^31 cells, it behaves as
the source does.
