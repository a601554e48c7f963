/** The client: `run_command` checks the tool's environment variables, installs its
    dependencies, writes its implementation to `<id>.py`, runs its command and evaluates what
    the command prints; `give_task` turns that pair into a status record. The process
    environment is a map, and the installer, the file system, the shell, UTF-8 decoding and
    `eval` are parameters. Every call on them is recorded, in order, in an effect trace. */
module Client {
  import opened Wrappers

  /** A call on the world outside, in the order it is made. */
  datatype Effect = Install(packages: seq<string>) | WriteFile(name: string, text: string) | Spawn(command: string)

  /** What a stream of the child process holds: text, or raw bytes. */
  datatype Output = Text(text: string) | Raw(bytes: seq<bv8>)

  /** What `process.communicate()` returns. */
  datatype Streams = Streams(out: Output, err: Output)

  /** The services `run_command` calls. `install` is `uv pip install`, whose non-zero exit
      raises; `write` opens and writes a file; `spawn` runs the command in a shell with the
      given environment; `utf8` is `bytes.decode('utf-8')`; `eval` is Python's `eval`, which
      may raise, and `truthy` is the truth value of what it returns. */
  datatype Services<!V> = Services(
    install: seq<string> -> Outcome,
    write: (string, string) -> Outcome,
    spawn: (string, map<string, string>) -> Streams,
    utf8: seq<bv8> -> Result<string>,
    eval: string -> Result<V>,
    truthy: V -> bool)

  /** The list `run_command` returns: each stream evaluated, or `None` when it is empty. */
  datatype RunResult<V> = RunResult(out: Option<V>, err: Option<V>)

  /** `if out`: a stream is true when it is not empty. */
  predicate NonEmpty(o: Output) {
    match o
    case Text(t) => t != ""
    case Raw(b) => b != []
  }

  /** `decode_bytes`: bytes are decoded as UTF-8, text is passed through. */
  function DecodeBytes(o: Output, utf8: seq<bv8> -> Result<string>): Result<string> {
    match o
    case Raw(b) => utf8(b)
    case Text(t) => Ok(t)
  }

  /** `eval(decode_bytes(x)) if x else None`; a decoding or evaluation error raises. */
  function Evaluated<V>(o: Output, s: Services<V>): Result<Option<V>> {
    if !NonEmpty(o) then Ok(None)
    else
      match DecodeBytes(o, s.utf8)
      case Err(e) => Err(e)
      case Ok(t) =>
        match s.eval(t)
        case Err(e) => Err(e)
        case Ok(v) => Ok(Some(v))
  }

  /** Every variable the tool needs is set (`os.getenv(var) is not None`). */
  predicate AllSet(envVariables: seq<string>, env: map<string, string>) {
    forall i | 0 <= i < |envVariables| :: envVariables[i] in env
  }

  /** The file the implementation is written to. */
  function FileName(id: string): string {
    id + ".py"
  }

  /** The calls `run_command` makes, in order: the install (only with dependencies to
      install), the file write, the spawn; a call that raises is the last one. */
  function Effects<V>(id: string, command: string, implementation: string, envVariables: seq<string>,
                      dependencies: seq<string>, env: map<string, string>, s: Services<V>): seq<Effect>
  {
    if !AllSet(envVariables, env) then []
    else
      var install := if |dependencies| > 0 then [Install(dependencies)] else [];
      if |dependencies| > 0 && s.install(dependencies).Fail? then install
      else if s.write(FileName(id), implementation).Fail? then install + [WriteFile(FileName(id), implementation)]
      else install + [WriteFile(FileName(id), implementation), Spawn(command)]
  }

  /** What `run_command` returns: `None` when a variable is missing, the exception of a failed
      install, write or evaluation, or the evaluated pair. */
  function Run<V>(id: string, command: string, implementation: string, envVariables: seq<string>,
                  dependencies: seq<string>, env: map<string, string>, s: Services<V>): Result<Option<RunResult<V>>>
  {
    if !AllSet(envVariables, env) then Ok(None)
    else if |dependencies| > 0 && s.install(dependencies).Fail? then Err(s.install(dependencies).error)
    else if s.write(FileName(id), implementation).Fail? then Err(s.write(FileName(id), implementation).error)
    else
      var streams := s.spawn(command, env);
      match Evaluated(streams.out, s)
      case Err(e) => Err(e)
      case Ok(out) =>
        match Evaluated(streams.err, s)
        case Err(e) => Err(e)
        case Ok(err) => Ok(Some(RunResult(out, err)))
  }

  /** `run_command`: the environment check loop returns early at the first missing
      variable; then install, write and spawn run in that order. */
  method RunCommand<V>(id: string, command: string, implementation: string, envVariables: seq<string>,
                       dependencies: seq<string>, env: map<string, string>, s: Services<V>)
    returns (r: Result<Option<RunResult<V>>>, trace: seq<Effect>)
    ensures r == Run(id, command, implementation, envVariables, dependencies, env, s)
    ensures trace == Effects(id, command, implementation, envVariables, dependencies, env, s)
  {
    trace := [];
    if |envVariables| > 0 {
      for i := 0 to |envVariables|
        invariant forall j | 0 <= j < i :: envVariables[j] in env
      {
        if envVariables[i] !in env {
          return Ok(None), trace;
        }
      }
    }
    if |dependencies| > 0 {
      trace := trace + [Install(dependencies)];
      var installed := s.install(dependencies);
      if installed.Fail? {
        return Err(installed.error), trace;
      }
    }
    var name := FileName(id);
    trace := trace + [WriteFile(name, implementation)];
    var written := s.write(name, implementation);
    if written.Fail? {
      return Err(written.error), trace;
    }
    trace := trace + [Spawn(command)];
    var streams := s.spawn(command, env);
    var out := Evaluated(streams.out, s);
    if out.Err? {
      return Err(out.error), trace;
    }
    var err := Evaluated(streams.err, s);
    if err.Err? {
      return Err(err.error), trace;
    }
    r := Ok(Some(RunResult(out.value, err.value)));
  }

  /** A missing variable ends the call before any effect, with `None`; with every variable
      set, the call does not return `None`. */
  lemma MissingVariableFirst<V>(id: string, command: string, implementation: string, envVariables: seq<string>,
                                dependencies: seq<string>, env: map<string, string>, s: Services<V>)
    ensures Run(id, command, implementation, envVariables, dependencies, env, s) == Ok(None)
            <==> exists i | 0 <= i < |envVariables| :: envVariables[i] !in env
    ensures !AllSet(envVariables, env) ==> Effects(id, command, implementation, envVariables, dependencies, env, s) == []
  {
  }

  /** The install is one call with every dependency, made first, and only when there is a
      dependency to install. */
  lemma InstallOnce<V>(id: string, command: string, implementation: string, envVariables: seq<string>,
                       dependencies: seq<string>, env: map<string, string>, s: Services<V>)
    ensures var t := Effects(id, command, implementation, envVariables, dependencies, env, s);
            && (forall i | 0 <= i < |t| && t[i].Install? :: i == 0 && t[i].packages == dependencies)
            && (|t| > 0 && t[0].Install? <==> AllSet(envVariables, env) && |dependencies| > 0)
  {
  }

  /** The command runs only after the implementation has been written to `<id>.py`, and it is
      the last call; any result other than `None` or an install or write error comes from a
      run. */
  lemma WrittenBeforeSpawn<V>(id: string, command: string, implementation: string, envVariables: seq<string>,
                              dependencies: seq<string>, env: map<string, string>, s: Services<V>)
    ensures var t := Effects(id, command, implementation, envVariables, dependencies, env, s);
            forall i | 0 <= i < |t| && t[i].Spawn? ::
              i == |t| - 1 && i >= 1 && t[i - 1] == WriteFile(id + ".py", implementation) && t[i].command == command
    ensures var t := Effects(id, command, implementation, envVariables, dependencies, env, s);
            Run(id, command, implementation, envVariables, dependencies, env, s).Ok?
            && Run(id, command, implementation, envVariables, dependencies, env, s).value.Some?
            ==> |t| >= 1 && t[|t| - 1] == Spawn(command)
  {
  }

  /** Each half of the pair is `None` exactly when its stream is empty, and otherwise the
      evaluation of the decoded stream. */
  lemma PairShape<V>(id: string, command: string, implementation: string, envVariables: seq<string>,
                     dependencies: seq<string>, env: map<string, string>, s: Services<V>)
    ensures var r := Run(id, command, implementation, envVariables, dependencies, env, s);
            var streams := s.spawn(command, env);
            r.Ok? && r.value.Some? ==>
              && (r.value.value.out.None? <==> !NonEmpty(streams.out))
              && (r.value.value.err.None? <==> !NonEmpty(streams.err))
              && (r.value.value.out.Some? ==>
                    DecodeBytes(streams.out, s.utf8).Ok?
                    && s.eval(DecodeBytes(streams.out, s.utf8).value) == Ok(r.value.value.out.value))
              && (r.value.value.err.Some? ==>
                    DecodeBytes(streams.err, s.utf8).Ok?
                    && s.eval(DecodeBytes(streams.err, s.utf8).value) == Ok(r.value.value.err.value))
  {
  }

  /** `decode_bytes` leaves text unchanged and hands bytes to the UTF-8 decoder. */
  lemma DecodeBytesSpec(o: Output, utf8: seq<bv8> -> Result<string>)
    ensures o.Text? ==> DecodeBytes(o, utf8) == Ok(o.text)
    ensures o.Raw? ==> DecodeBytes(o, utf8) == utf8(o.bytes)
  {
  }

  /** The tool as the client reads it from the server's reply. The server always fills
      `id`, `command` and `implementation`. */
  datatype ToolReply = ToolReply(id: string, command: string, implementation: string,
                                 envVariables: seq<string>, dependencies: seq<string>)

  /** The record `give_task` returns. */
  datatype TaskResult<V> = TaskResult(status: string, result: Option<V>)

  /** What unpacking `None` into `(out, err)` raises. */
  const NotIterable := "cannot unpack non-iterable NoneType object"

  /** The status mapping: `ERROR` with `err` when `err` is true, else `SUCCESS` with `out`; a
      `None` from `run_command` raises on unpacking. */
  function Status<V>(run: Result<Option<RunResult<V>>>, truthy: V -> bool): Result<TaskResult<V>> {
    match run
    case Err(e) => Err(e)
    case Ok(None) => Err(NotIterable)
    case Ok(Some(RunResult(out, err))) =>
      if err.Some? && truthy(err.value) then Ok(TaskResult("ERROR", err))
      else Ok(TaskResult("SUCCESS", out))
  }

  /** `ToolAgentClient.give_task`: fetch the tool (`request`, the HTTP round trip, which raises
      on a reply without the expected keys), run it, and map the pair to a status. */
  method GiveTask<V>(task: string, request: string -> Result<ToolReply>, env: map<string, string>, s: Services<V>)
    returns (r: Result<TaskResult<V>>, trace: seq<Effect>)
    ensures request(task).Err? ==> r == Err(request(task).error) && trace == []
    ensures request(task).Ok? ==>
      var t := request(task).value;
      && r == Status(Run(t.id, t.command, t.implementation, t.envVariables, t.dependencies, env, s), s.truthy)
      && trace == Effects(t.id, t.command, t.implementation, t.envVariables, t.dependencies, env, s)
  {
    var reply := request(task);
    if reply.Err? {
      return Err(reply.error), [];
    }
    var t := reply.value;
    var run;
    run, trace := RunCommand(t.id, t.command, t.implementation, t.envVariables, t.dependencies, env, s);
    r := Status(run, s.truthy);
  }

  /** `ERROR` exactly when the evaluated stderr is true, and then the result is it; otherwise
      `SUCCESS` with the evaluated stdout. A `None` or an exception never becomes a status. */
  lemma StatusSpec<V>(run: Result<Option<RunResult<V>>>, truthy: V -> bool)
    ensures Status(run, truthy).Ok? <==> run.Ok? && run.value.Some?
    ensures run == Ok(None) ==> Status(run, truthy) == Err(NotIterable)
    ensures run.Ok? && run.value.Some? ==>
      var p := run.value.value;
      && (Status(run, truthy).value.status == "ERROR" <==> p.err.Some? && truthy(p.err.value))
      && (Status(run, truthy).value.status == "ERROR" ==> Status(run, truthy).value.result == p.err)
      && (Status(run, truthy).value.status != "ERROR" ==>
            Status(run, truthy).value == TaskResult("SUCCESS", p.out))
  {
  }
}
