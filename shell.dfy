/**
 * The machine the tool runs on, seen through what the tool asks of it.
 *
 * A `Host` records every interaction in its trace. Commands, binary lookups,
 * file inspections, prompts and name lookups are answered by an environment
 * `Env` from the trace so far, so a probe repeated after a repair may see a
 * different answer. Log output goes to a separate list, each line stamped
 * with the trace length at the time it was written.
 */
module Shell {
  import opened Types
  import opened Text

  /** What running a command produced: it ran and exited, or it could not be started (or timed out). */
  datatype Outcome = Finished(rc: int, stdout: string, stderr: string) | SpawnFailed(reason: string)

  /** What the file system says about a path: does it exist, is it a symbolic link, what it resolves to. */
  datatype FileInfo = FileInfo(present: bool, isLink: bool, realPath: string)

  /** Work handed to a component that is not part of this model. */
  datatype Task =
    | RepairCoordinator(iface: string, dryRun: bool, allowEdit: bool, diagnosis: Diagnosis)
    | ShowStatus(iface: string)
    | InteractiveMenu(iface: string, dryRun: bool)

  /** One interaction with the machine, recorded in the host's trace. */
  datatype Event =
    | Exec(argv: seq<string>, timeout: nat)
    | Which(binary: string)
    | Inspect(path: string)
    | Ask(prompt: string)
    | Lookup(host: string)
    | Delegate(task: Task)
    | Announce(desc: string, cmd: seq<string>)

  /**
   * One line of output: an informational log message or a line on standard
   * error, with the length of the trace when it was written.
   */
  datatype LogLine = Info(message: string, at: nat) | Stderr(message: string, at: nat)

  /** The commands of a trace, in order. */
  function Commands(es: seq<Event>): (cmds: seq<seq<string>>)
    ensures |cmds| <= |es|
  {
    if es == [] then []
    else (if es[0].Exec? then [es[0].argv] else []) + Commands(es[1..])
  }

  lemma {:induction false} CommandsAppend(a: seq<Event>, b: seq<Event>)
    ensures Commands(a + b) == Commands(a) + Commands(b)
  {
    if a == [] {
      assert a + b == b;
    } else {
      var head := if a[0].Exec? then [a[0].argv] else [];
      assert (a + b)[0] == a[0];
      assert (a + b)[1..] == a[1..] + b;
      assert Commands(a + b) == head + Commands(a[1..] + b);
      CommandsAppend(a[1..], b);
    }
  }

  /** The commands announced for execution (logged with their description), in order. */
  function Announced(es: seq<Event>): (cmds: seq<seq<string>>)
    ensures |cmds| <= |es|
  {
    if es == [] then []
    else (if es[0].Announce? then [es[0].cmd] else []) + Announced(es[1..])
  }

  lemma {:induction false} AnnouncedAppend(a: seq<Event>, b: seq<Event>)
    ensures Announced(a + b) == Announced(a) + Announced(b)
  {
    if a == [] {
      assert a + b == b;
    } else {
      var head := if a[0].Announce? then [a[0].cmd] else [];
      assert (a + b)[0] == a[0];
      assert (a + b)[1..] == a[1..] + b;
      assert Announced(a + b) == head + Announced(a[1..] + b);
      AnnouncedAppend(a[1..], b);
    }
  }

  /** The answers of the environment, each a function of the trace so far. */
  datatype Env = Env(
    respond: (seq<Event>, seq<string>, nat) -> Outcome,
    installed: (seq<Event>, string) -> bool,
    inspect: (seq<Event>, string) -> FileInfo,
    answer: (seq<Event>, string) -> string,
    resolves: (seq<Event>, string) -> bool,
    stdinIsTty: bool,
    euid: Option<int>)

  /** `ShellRunner.run_cmd`: the command result for `argv` after trace `w`. */
  function Answer(env: Env, w: seq<Event>, argv: seq<string>, timeout: nat): (r: CommandResult)
    ensures r.cmd == argv
    ensures env.respond(w, argv, timeout).SpawnFailed? ==> r.returncode == 255 && r.stdout == []
  {
    match env.respond(w, argv, timeout)
    case Finished(rc, out, err) => CommandResult(argv, rc, out, err)
    case SpawnFailed(reason) => CommandResult(argv, 255, "", reason)
  }

  /** `ShellRunner.cmd_str`: the shell-quoted words joined by spaces. */
  function CmdStr(cmd: seq<string>): string
  {
    Join(seq(|cmd|, i requires 0 <= i < |cmd| => ShQuote(cmd[i])), " ")
  }

  /** A value computed against the trace, with the events it appends. */
  datatype Step<T> = Step(value: T, trace: seq<Event>)

  /** A step preceded by the events `done`. */
  function After<T>(done: seq<Event>, s: Step<T>): Step<T>
  {
    Step(s.value, done + s.trace)
  }

  /** Prefixing two traces one after the other is prefixing them joined. */
  lemma AfterAfter<T>(a: seq<Event>, b: seq<Event>, s: Step<T>)
    ensures After(a, After(b, s)) == After(a + b, s)
  {
    AppendAssoc(a, b, s.trace);
  }

  class Host {
    /** What the tool asked of the machine, in order. */
    var trace: seq<Event>
    /** What the tool printed, in order. */
    var log: seq<LogLine>
    const env: Env

    constructor (env: Env)
      ensures this.env == env && trace == [] && log == []
    {
      this.env := env;
      trace := [];
      log := [];
    }

    /** Runs `argv` with the given timeout (seconds). */
    method Run(argv: seq<string>, timeout: nat) returns (r: CommandResult)
      modifies this
      ensures trace == old(trace) + [Exec(argv, timeout)] && log == old(log)
      ensures r == Answer(env, old(trace), argv, timeout)
    {
      r := Answer(env, trace, argv, timeout);
      trace := trace + [Exec(argv, timeout)];
    }

    /** `shutil.which(binary) is not None`. */
    method Which(binary: string) returns (found: bool)
      modifies this
      ensures trace == old(trace) + [Event.Which(binary)] && log == old(log)
      ensures found == env.installed(old(trace), binary)
    {
      found := env.installed(trace, binary);
      trace := trace + [Event.Which(binary)];
    }

    /** `os.path.exists`, `os.path.islink` and `os.path.realpath` of one path. */
    method Inspect(path: string) returns (info: FileInfo)
      modifies this
      ensures trace == old(trace) + [Event.Inspect(path)] && log == old(log)
      ensures info == env.inspect(old(trace), path)
    {
      info := env.inspect(trace, path);
      trace := trace + [Event.Inspect(path)];
    }

    /** `input(prompt)`. */
    method Ask(prompt: string) returns (reply: string)
      modifies this
      ensures trace == old(trace) + [Event.Ask(prompt)] && log == old(log)
      ensures reply == env.answer(old(trace), prompt)
    {
      reply := env.answer(trace, prompt);
      trace := trace + [Event.Ask(prompt)];
    }

    /** `socket.getaddrinfo(host, None)` succeeding. */
    method Lookup(host: string) returns (ok: bool)
      modifies this
      ensures trace == old(trace) + [Event.Lookup(host)] && log == old(log)
      ensures ok == env.resolves(old(trace), host)
    {
      ok := env.resolves(trace, host);
      trace := trace + [Event.Lookup(host)];
    }

    /** Hands `task` to a component outside this model. */
    method Delegate(task: Task)
      modifies this
      ensures trace == old(trace) + [Event.Delegate(task)] && log == old(log)
    {
      trace := trace + [Event.Delegate(task)];
    }

    /** Logs an action's description and its shell-quoted command line. */
    method Announce(desc: string, cmd: seq<string>)
      modifies this
      ensures trace == old(trace) + [Event.Announce(desc, cmd)]
      ensures log == old(log) + [Info("[ACTION] " + desc, |old(trace)|),
                                 Info("         " + CmdStr(cmd), |old(trace)|)]
    {
      log := log + [Info("[ACTION] " + desc, |trace|), Info("         " + CmdStr(cmd), |trace|)];
      trace := trace + [Event.Announce(desc, cmd)];
    }

    /** One informational log line. */
    method Log(message: string)
      modifies this
      ensures trace == old(trace) && log == old(log) + [Info(message, |old(trace)|)]
    {
      log := log + [Info(message, |trace|)];
    }

    /** One line printed to standard error. */
    method PrintError(message: string)
      modifies this
      ensures trace == old(trace) && log == old(log) + [Stderr(message, |old(trace)|)]
    {
      log := log + [Stderr(message, |trace|)];
    }
  }
}
