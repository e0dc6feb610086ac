/**
 * The builtin table and the dispatcher `execute` (bshell.c:23-38,
 * 180-232). A command's result is the C `int` that `commands` keeps in
 * `status`: 0 stops the loop, 1 continues it.
 */
module Builtins {
  import opened Wrappers
  import opened Tokenizer

  const STOP: int := 0
  const CONTINUE: int := 1

  /** The functions `builtin_funcs` points to. */
  datatype BuiltinFn = BshellCd | BshellEcho | BshellExit | BshellHelp

  /** `bshell_builtins`, in registration order. */
  const BuiltinNames: seq<string> := ["cd", "echo", "exit", "help", "logout"]

  /** `builtin_funcs`, index-aligned with `BuiltinNames`. */
  const BuiltinFuncs: seq<BuiltinFn> := [BshellCd, BshellEcho, BshellExit, BshellHelp, BshellExit]

  /** `num_builtins`: the number of entries, which both parallel arrays have. */
  function NumBuiltins(): (n: nat)
    ensures n == |BuiltinNames| && n == |BuiltinFuncs|
  {
    5
  }

  /** What one dispatched command returns and what `bshell_echo` printed. */
  datatype Outcome = Outcome(status: int, echoed: string)

  /** The lowest index at or after `i` whose name is `name`, if any. */
  function FirstMatchFrom(names: seq<string>, name: string, i: nat): (r: Option<nat>)
    requires i <= |names|
    ensures r.Some? ==> i <= r.value < |names| && names[r.value] == name
    ensures r.Some? ==> forall j :: i <= j < r.value ==> names[j] != name
    ensures r.None? <==> forall j :: i <= j < |names| ==> names[j] != name
    decreases |names| - i
  {
    if i == |names| then None
    else if names[i] == name then Some(i)
    else FirstMatchFrom(names, name, i + 1)
  }

  /** The builtin that `execute` picks for a command name: the first whose name equals it. */
  function Lookup(name: string): (r: Option<nat>)
    ensures r.Some? ==> r.value < NumBuiltins() && BuiltinNames[r.value] == name
    ensures r.Some? ==> forall j :: 0 <= j < r.value ==> BuiltinNames[j] != name
    ensures r.None? <==> forall j :: 0 <= j < NumBuiltins() ==> BuiltinNames[j] != name
  {
    FirstMatchFrom(BuiltinNames, name, 0)
  }

  /** A vector that `execute` may be called on: NULL-terminated, with a command name. */
  predicate IsCommand(args: seq<Option<string>>)
  {
    IsArgVector(args) && |args| >= 2
  }

  /** The text `bshell_echo` prints: the arguments after the name, single-spaced, then a newline. */
  function EchoText(args: seq<Option<string>>): string
    requires IsCommand(args)
  {
    Join(Words(args)[1..]) + "\n"
  }

  /**
   * What calling the builtin returns. `bshell_cd` returns 1 whether or not
   * `chdir` succeeds; `bshell_help` has no return statement, so its result
   * is whatever value `helpReturn` the C int happens to hold.
   */
  function RunBuiltin(f: BuiltinFn, args: seq<Option<string>>, helpReturn: int): Outcome
    requires IsCommand(args)
  {
    match f
    case BshellCd => Outcome(CONTINUE, "")
    case BshellEcho => Outcome(CONTINUE, EchoText(args))
    case BshellExit => Outcome(STOP, "")
    case BshellHelp => Outcome(helpReturn, "")
  }

  /** `launch_process` returns 1 on every path: after the wait, and when `fork` fails. */
  function LaunchProcess(args: seq<Option<string>>): int
  {
    CONTINUE
  }

  /** What `execute` returns for a command. */
  function Dispatch(args: seq<Option<string>>, helpReturn: int): Outcome
    requires IsCommand(args)
  {
    match Lookup(Words(args)[0])
    case Some(i) => RunBuiltin(BuiltinFuncs[i], args, helpReturn)
    case None => Outcome(LaunchProcess(args), "")
  }

  /**
   * `bshell_echo`: walks the vector from index 1 up to its NULL, printing
   * the first argument bare and each later one after a space, then a newline.
   */
  method Echo(args: seq<Option<string>>) returns (out: string)
    requires IsCommand(args)
    ensures out == EchoText(args)
    ensures args == [Some("echo"), None] ==> out == "\n"
  {
    ghost var ws := Words(args);
    out := "";
    var i := 1;
    while args[i] != None
      invariant 1 <= i < |args|
      invariant out == Join(ws[1..i])
      decreases |args| - i
    {
      if i == 1 {
        out := out + args[i].value;
        assert ws[1..i + 1] == [ws[1]];
      } else {
        JoinSnoc(ws[1..i], ws[i]);
        assert ws[1..i + 1] == ws[1..i] + [ws[i]];
        out := out + " " + args[i].value;
      }
      i := i + 1;
    }
    assert i == |args| - 1;
    assert ws[1..i] == ws[1..];
    out := out + "\n";
  }

  /** Calls the builtin function `f` points to. */
  method CallBuiltin(f: BuiltinFn, args: seq<Option<string>>, helpReturn: int) returns (o: Outcome)
    requires IsCommand(args)
    ensures o == RunBuiltin(f, args, helpReturn)
  {
    match f {
      case BshellCd => o := Outcome(CONTINUE, "");
      case BshellEcho =>
        var text := Echo(args);
        o := Outcome(CONTINUE, text);
      case BshellExit => o := Outcome(STOP, "");
      case BshellHelp => o := Outcome(helpReturn, "");
    }
  }

  /**
   * `execute`: scans the builtin names in order and calls the first
   * builtin whose name equals `args[0]`; with no match it launches the
   * command as a process.
   */
  method Execute(args: seq<Option<string>>, helpReturn: int) returns (o: Outcome)
    requires IsCommand(args)
    ensures o == Dispatch(args, helpReturn)
  {
    var i := 0;
    while i < NumBuiltins()
      invariant 0 <= i <= NumBuiltins()
      invariant forall j :: 0 <= j < i ==> BuiltinNames[j] != args[0].value
    {
      if args[0].value == BuiltinNames[i] {
        o := CallBuiltin(BuiltinFuncs[i], args, helpReturn);
        return;
      }
      i := i + 1;
    }
    o := Outcome(LaunchProcess(args), "");
  }

  // ---------------------------------------------------------------------
  // Lemmas
  // ---------------------------------------------------------------------

  /** A matching name dispatches to the lowest-index builtin of that name. */
  lemma DispatchFirstMatch(args: seq<Option<string>>, helpReturn: int, i: nat)
    requires IsCommand(args)
    requires i < NumBuiltins() && BuiltinNames[i] == Words(args)[0]
    requires forall j :: 0 <= j < i ==> BuiltinNames[j] != Words(args)[0]
    ensures Dispatch(args, helpReturn) == RunBuiltin(BuiltinFuncs[i], args, helpReturn)
  {
  }

  /** A name that is no builtin's is launched, and the shell continues. */
  lemma DispatchNoMatch(args: seq<Option<string>>, helpReturn: int)
    requires IsCommand(args)
    requires forall j :: 0 <= j < NumBuiltins() ==> BuiltinNames[j] != Words(args)[0]
    ensures Dispatch(args, helpReturn) == Outcome(CONTINUE, "")
  {
  }

  /** No name is registered twice, so the first match is the only one. */
  lemma BuiltinNamesDistinct()
    ensures forall i, j :: 0 <= i < j < NumBuiltins() ==> BuiltinNames[i] != BuiltinNames[j]
  {
  }

  /** `exit` and `logout` both name `bshell_exit`. */
  lemma ExitAndLogoutShareFunction()
    ensures Lookup("exit") == Some(2) && Lookup("logout") == Some(4)
    ensures BuiltinFuncs[2] == BshellExit && BuiltinFuncs[4] == BshellExit
  {
  }

  /** `exit` and `logout` stop the shell whatever arguments follow them. */
  lemma ExitStops(args: seq<Option<string>>, helpReturn: int)
    requires IsCommand(args)
    requires Words(args)[0] == "exit" || Words(args)[0] == "logout"
    ensures Dispatch(args, helpReturn) == Outcome(STOP, "")
  {
  }

  /** `cd` continues whatever its argument, so also when `chdir` fails. */
  lemma CdContinues(args: seq<Option<string>>, helpReturn: int)
    requires IsCommand(args) && Words(args)[0] == "cd"
    ensures Dispatch(args, helpReturn) == Outcome(CONTINUE, "")
  {
  }

  /** `echo` continues and prints its arguments single-spaced, then a newline. */
  lemma EchoContinues(args: seq<Option<string>>, helpReturn: int)
    requires IsCommand(args) && Words(args)[0] == "echo"
    ensures Dispatch(args, helpReturn) == Outcome(CONTINUE, Join(Words(args)[1..]) + "\n")
  {
  }

  /** `echo a b c` prints "a b c\n"; `echo` alone prints "\n". */
  lemma EchoExamples()
    ensures EchoText(ArgV(["echo", "a", "b", "c"])) == "a b c\n"
    ensures EchoText(ArgV(["echo"])) == "\n"
  {
  }

  /** Every command except `exit`, `logout` and `help` continues the shell. */
  lemma OnlyExitStops(args: seq<Option<string>>, helpReturn: int)
    requires IsCommand(args)
    requires Words(args)[0] != "exit" && Words(args)[0] != "logout" && Words(args)[0] != "help"
    ensures Dispatch(args, helpReturn).status == CONTINUE
  {
  }
}
