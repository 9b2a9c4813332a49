/** `run_executable`: the argument vector it builds and never uses, and the
    policy that turns the child process's outcome into the returned text. */
module Executor {
  import opened Wrappers

  /** An argument as the caller passes it. A pydantic model and a dict carry
      the text their serialiser produces (`model_dump_json`, `json.dumps`);
      `Unsupported` is a value of any other type. */
  datatype Argument =
    | ModelArg(dumped: string)
    | TextArg(text: string)
    | DictArg(dumped: string)
    | Unsupported

  /** What running the child gives: it exited with captured output and a
      return code, or launching or reading it raised an exception. */
  datatype Outcome = Exited(stdout: string, stderr: string, code: int) | Raised

  /** Every argument has one of the three accepted types. */
  predicate AllSupported(args: seq<Argument>) {
    forall i :: 0 <= i < |args| ==> !args[i].Unsupported?
  }

  /** The text `extend` walks over for one accepted argument. */
  function Serialised(a: Argument): string
    requires !a.Unsupported?
  {
    match a
    case ModelArg(d) => d
    case TextArg(t) => t
    case DictArg(d) => d
  }

  /** The serialised texts of accepted arguments, one after another. */
  function Flatten(args: seq<Argument>): string
    requires AllSupported(args)
  {
    if args == [] then "" else Flatten(args[..|args| - 1]) + Serialised(args[|args| - 1])
  }

  /** The elements of a string list joined with no separator. */
  function Concat(parts: seq<string>): string {
    if parts == [] then "" else Concat(parts[..|parts| - 1]) + parts[|parts| - 1]
  }

  /** `list.extend` on a string appends its characters one by one. */
  function Chars(s: string): (r: seq<string>)
    ensures |r| == |s|
    ensures forall k :: 0 <= k < |r| ==> r[k] == [s[k]]
  {
    seq(|s|, k requires 0 <= k < |s| => [s[k]])
  }

  lemma {:induction false} ConcatAppend(a: seq<string>, b: seq<string>)
    ensures Concat(a + b) == Concat(a) + Concat(b)
    decreases |b|
  {
    if b == [] {
      assert a + b == a;
    } else {
      var b' := b[..|b| - 1];
      assert (a + b)[..|a + b| - 1] == a + b';
      ConcatAppend(a, b');
    }
  }

  lemma {:induction false} ConcatChars(s: string)
    ensures Concat(Chars(s)) == s
    decreases |s|
  {
    if s != [] {
      var s' := s[..|s| - 1];
      assert Chars(s)[..|s| - 1] == Chars(s');
      ConcatChars(s');
      assert s == s' + [s[|s| - 1]];
    }
  }

  /** The argument list of lines 94-103. It raises on the first argument of an
      unsupported type; otherwise it is the executable path followed by one
      single-character element per character of the serialised arguments. */
  method BuildArguments(exec: string, args: seq<Argument>) returns (r: Result<seq<string>>)
    ensures r.Err? <==> exists i :: 0 <= i < |args| && args[i].Unsupported?
    ensures r.Err? ==> r.error == InvalidArgumentType
    ensures r.Ok? ==> |r.value| >= 1 && r.value[0] == exec
    ensures r.Ok? ==> forall k :: 1 <= k < |r.value| ==> |r.value[k]| == 1
    ensures r.Ok? ==> AllSupported(args) && Concat(r.value[1..]) == Flatten(args)
  {
    var extended: seq<string> := [];
    var i := 0;
    while i < |args|
      invariant 0 <= i <= |args|
      invariant AllSupported(args[..i])
      invariant SingleChars(extended)
      invariant Concat(extended) == Flatten(args[..i])
    {
      if args[i].Unsupported? {
        return Err(InvalidArgumentType);
      }
      var piece := Chars(Serialised(args[i]));
      ExtendStep(extended, args, i);
      extended := extended + piece;
      i := i + 1;
    }
    assert args[..i] == args;
    var argv := [exec] + extended;
    assert argv[1..] == extended;
    return Ok(argv);
  }

  /** Every element is a one-character string. */
  predicate SingleChars(parts: seq<string>) {
    forall k :: 0 <= k < |parts| ==> |parts[k]| == 1
  }

  /** Extending by the characters of one more accepted argument keeps the
      loop's invariants. */
  lemma ExtendStep(extended: seq<string>, args: seq<Argument>, i: nat)
    requires i < |args| && AllSupported(args[..i]) && !args[i].Unsupported?
    requires SingleChars(extended) && Concat(extended) == Flatten(args[..i])
    ensures AllSupported(args[..i + 1])
    ensures SingleChars(extended + Chars(Serialised(args[i])))
    ensures Concat(extended + Chars(Serialised(args[i]))) == Flatten(args[..i + 1])
  {
    var piece := Chars(Serialised(args[i]));
    assert args[..i + 1][..i] == args[..i];
    ConcatAppend(extended, piece);
    ConcatChars(Serialised(args[i]));
  }

  /** `run_executable`: an unsupported argument raises before the child is
      started; otherwise the child is started with the single-element list
      `[exec]`, and its stdout is returned when it exits with code 0, the
      caller's `default` when it exits otherwise or raises. */
  function RunExecutable(exec: string, args: seq<Argument>, default: string,
                         spawn: seq<string> -> Outcome): (r: Result<string>)
    ensures r.Err? <==> exists i :: 0 <= i < |args| && args[i].Unsupported?
    ensures r.Err? ==> r.error == InvalidArgumentType
    ensures r.Ok? ==> r.value == default || (spawn([exec]).Exited? && r.value == spawn([exec]).stdout)
  {
    if !AllSupported(args) then Err(InvalidArgumentType)
    else match spawn([exec])
      case Exited(out, _, code) => if code == 0 then Ok(out) else Ok(default)
      case Raised => Ok(default)
  }

  /** Exit code 0 returns stdout, whatever the child wrote to stderr. */
  lemma ZeroExitReturnsStdout(exec: string, args: seq<Argument>, default: string,
                              spawn: seq<string> -> Outcome)
    requires AllSupported(args)
    requires spawn([exec]).Exited? && spawn([exec]).code == 0
    ensures RunExecutable(exec, args, default, spawn) == Ok(spawn([exec]).stdout)
  {
  }

  /** A non-zero exit or an exception degrades to `default`; it never raises. */
  lemma FailureReturnsDefault(exec: string, args: seq<Argument>, default: string,
                              spawn: seq<string> -> Outcome)
    requires AllSupported(args)
    requires spawn([exec]).Raised? || spawn([exec]).code != 0
    ensures RunExecutable(exec, args, default, spawn) == Ok(default)
  {
  }

  /** The child only ever sees `[exec]`: two process runners that agree on
      that one list give the same result. */
  lemma OnlyExecIsInvoked(exec: string, args: seq<Argument>, default: string,
                          spawn1: seq<string> -> Outcome, spawn2: seq<string> -> Outcome)
    requires spawn1([exec]) == spawn2([exec])
    ensures RunExecutable(exec, args, default, spawn1) == RunExecutable(exec, args, default, spawn2)
  {
  }

  /** The argument vector the caller evidently intends the child to get: the
      executable path followed by each accepted argument's text as one
      element, which is how a command line such as `run --test test` reaches
      the child. It is not used by `run_executable`. */
  function IntendedArguments(exec: string, args: seq<Argument>): (r: Result<seq<string>>)
    ensures r.Err? <==> exists i :: 0 <= i < |args| && args[i].Unsupported?
    ensures r.Ok? ==> |r.value| == |args| + 1 && r.value[0] == exec
    ensures r.Ok? ==> forall i :: 0 <= i < |args| ==> r.value[i + 1] == Serialised(args[i])
  {
    if !AllSupported(args) then Err(InvalidArgumentType)
    else Ok([exec] + seq(|args|, i requires 0 <= i < |args| && AllSupported(args) => Serialised(args[i])))
  }

  /** The intended vector carries the same text as the one lines 94-103
      build; only the grouping into elements differs. */
  lemma {:induction false} IntendedArgumentsSameText(exec: string, args: seq<Argument>)
    requires AllSupported(args)
    ensures IntendedArguments(exec, args).Ok?
    ensures Concat(IntendedArguments(exec, args).value[1..]) == Flatten(args)
    decreases |args|
  {
    var tail := IntendedArguments(exec, args).value[1..];
    if args != [] {
      var front := args[..|args| - 1];
      assert AllSupported(front) by {
        forall i | 0 <= i < |front| ensures !front[i].Unsupported? {
          assert front[i] == args[i];
        }
      }
      IntendedArgumentsSameText(exec, front);
      var tail' := IntendedArguments(exec, front).value[1..];
      assert tail == tail' + [Serialised(args[|args| - 1])];
      ConcatAppend(tail', [Serialised(args[|args| - 1])]);
      assert Concat([Serialised(args[|args| - 1])]) == Serialised(args[|args| - 1]) by {
        assert [Serialised(args[|args| - 1])][..0] == [];
      }
    }
  }

  /** A text argument is split into characters by `extend`, where one element
      per argument is intended: `"run"` gives three elements, not one. */
  lemma TextArgumentSplit()
    ensures Chars("run") == ["r", "u", "n"]
    ensures IntendedArguments("exec", [TextArg("run")]) == Ok(["exec", "run"])
  {
    var r := IntendedArguments("exec", [TextArg("run")]);
    assert AllSupported([TextArg("run")]);
    assert r.value[1] == "run";
    assert r.value == ["exec", "run"];
  }

  /** Accepted arguments are not forwarded: which ones are passed does not
      change the result. */
  lemma ArgumentsNotForwarded(exec: string, args1: seq<Argument>, args2: seq<Argument>,
                              default: string, spawn: seq<string> -> Outcome)
    requires AllSupported(args1) && AllSupported(args2)
    ensures RunExecutable(exec, args1, default, spawn) == RunExecutable(exec, args2, default, spawn)
  {
  }
}
