/** The world the commands act on, as values: `git` is an oracle, the terminal is a
    finite sequence of typed answers, and everything the commands do is appended to a log.
    Python exceptions become `Exc` values carried by `Result`. */
module Shell {

  /** One invocation of `git.run(*args, colorize=…, capture_output=…)`. With
      `colorize` the real argument list is prefixed by `-c color.ui=always`. */
  datatype Cmd = Cmd(args: seq<string>, colorize: bool, capture: bool)

  /** `git.run(*args)` with its defaults: coloured and captured. */
  function Git(args: seq<string>): Cmd {
    Cmd(args, true, true)
  }

  /** `git.run(*args, colorize=False)`; also how a direct `subprocess.check_output(['git', …])`
      call is recorded. */
  function Plain(args: seq<string>): Cmd {
    Cmd(args, false, true)
  }

  /** What `git` answers: its decoded standard output, or a non-zero exit carrying
      standard error. Whether the output is right-stripped is part of the answer:
      `git.run` strips it, a direct `subprocess.check_output` call does not. */
  datatype Response = Completed(stdout: string) | Failed(stderr: string)

  /** Things the commands do, in order. */
  datatype Event =
    | Ran(cmd: Cmd)          // a git invocation
    | Out(text: string)      // print(text)
    | Err(text: string)      // print(text, file=sys.stderr)
    | Asked(prompt: string)  // input(prompt) showing its prompt
    | Cleared                // os.system('clear')

  /** The git binary, as an oracle: its answer to a command may depend on everything
      that happened before it. */
  type Oracle = (seq<Event>, Cmd) -> Response

  /** One answer typed at the terminal: a line, or Ctrl-C. */
  datatype Input = Line(text: string) | Interrupt

  /** The Python exceptions the commands raise or catch. */
  datatype Exc =
    | ProcessError(stderr: string)             // subprocess.CalledProcessError
    | EofError                                 // input() with no more answers
    | KeyboardInterrupt
    | AttributeError(name: string)
    | IndexError
    | KeyError(key: string)
    | NotImplementedError(message: string)
    | BranchNotFound                           // switch_git_branch.BranchNotFoundError
    | ExcessivelyBroadQuery(names: seq<string>) // switch_git_branch.ExcessivelyBroadQueryError
    | LastCommitWip(message: string)           // commit.LastCommitWIPException
    | SuccessfulExecution                      // scripts/remove_branch.py
    | ErrorDuringExecution                     // scripts/remove_branch.py
    | SystemExit(code: int)                    // sys.exit, or argparse after printing help

  datatype Result<T> = Ok(value: T) | Raised(exc: Exc)

  /** Terminal answers still unread, and the log so far. */
  datatype Io = Io(input: seq<Input>, log: seq<Event>)

  /** The outcome of a piece of a command, and the world after it. */
  datatype Step<T> = Step(result: Result<T>, io: Io)

  /** `git.run(…)`: the invocation is logged, then answered by the oracle. */
  function Run(git: Oracle, io: Io, cmd: Cmd): (s: Step<string>)
    ensures s.io == Io(io.input, io.log + [Ran(cmd)])
    ensures s.result.Ok? <==> git(io.log, cmd).Completed?
    ensures s.result.Ok? ==> s.result.value == git(io.log, cmd).stdout
    ensures s.result.Raised? ==> s.result.exc == ProcessError(git(io.log, cmd).stderr)
  {
    var io' := Io(io.input, io.log + [Ran(cmd)]);
    match git(io.log, cmd)
    case Completed(out) => Step(Ok(out), io')
    case Failed(err) => Step(Raised(ProcessError(err)), io')
  }

  function Print(io: Io, text: string): Io {
    Io(io.input, io.log + [Out(text)])
  }

  function PrintErr(io: Io, text: string): Io {
    Io(io.input, io.log + [Err(text)])
  }

  /** `input(prompt)`: the prompt is shown, then one answer is consumed; no answer left
      is EOFError, Ctrl-C is KeyboardInterrupt. */
  function Read(io: Io, prompt: string): (s: Step<string>)
    ensures s.io.log == io.log + [Asked(prompt)]
    ensures io.input == [] ==> s == Step(Raised(EofError), Io([], s.io.log))
    ensures io.input != [] ==> s.io.input == io.input[1..]
    ensures s.result.Ok? <==> io.input != [] && io.input[0].Line?
    ensures s.result.Ok? ==> s.result.value == io.input[0].text
    ensures io.input != [] && io.input[0].Interrupt? ==> s.result == Raised(KeyboardInterrupt)
  {
    var log := io.log + [Asked(prompt)];
    if io.input == [] then Step(Raised(EofError), Io([], log))
    else match io.input[0]
      case Line(t) => Step(Ok(t), Io(io.input[1..], log))
      case Interrupt => Step(Raised(KeyboardInterrupt), Io(io.input[1..], log))
  }

  /** The process exit status of `sys.exit(main())`, as a shell reports it: the return
      value, the code of a `SystemExit`, 130 for an escaping KeyboardInterrupt (the
      interpreter ends itself by SIGINT, 128 + 2), or 1 when another exception escaped
      (the interpreter prints a traceback). */
  function ExitStatus(r: Result<int>): int {
    match r
    case Ok(code) => code
    case Raised(e) =>
      if e.SystemExit? then e.code
      else if e == KeyboardInterrupt then 130
      else 1
  }

  /** The commands issued in a stretch of log, in order. */
  function Commands(log: seq<Event>): (cmds: seq<Cmd>)
    ensures |cmds| <= |log|
  {
    if log == [] then []
    else (if log[0].Ran? then [log[0].cmd] else []) + Commands(log[1..])
  }

  lemma {:induction false} CommandsAppend(a: seq<Event>, b: seq<Event>)
    ensures Commands(a + b) == Commands(a) + Commands(b)
  {
    if a != [] {
      assert (a + b)[1..] == a[1..] + b;
      CommandsAppend(a[1..], b);
    } else {
      assert a + b == b;
    }
  }

  /** The number of prompts in a stretch of log. */
  function Prompts(log: seq<Event>): nat {
    if log == [] then 0 else (if log[0].Asked? then 1 else 0) + Prompts(log[1..])
  }

  lemma {:induction false} PromptsAppend(a: seq<Event>, b: seq<Event>)
    ensures Prompts(a + b) == Prompts(a) + Prompts(b)
  {
    if a != [] {
      assert (a + b)[1..] == a[1..] + b;
      PromptsAppend(a[1..], b);
    } else {
      assert a + b == b;
    }
  }
}
