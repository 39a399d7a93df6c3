/** The messages that cross the agent connection, and how a command's result is formed. */
module Wire {
  import opened Common

  /** What the relay's `sendRequest` writes: kind is "exec", "lock", "locate", or anything else. */
  datatype Request = Request(kind: string, id: string, cmd: string)

  datatype RunResult = RunResult(output: string, code: int, error: string)

  /** What the agent writes. A response whose id field is missing reads as one with an empty id. */
  datatype Message = Hello | Resp(id: string, result: RunResult) | Pong

  /** How a started shell process ended. */
  datatype Shell =
    | Deadline(out: string, note: string)
    | Succeeded(out: string)
    | Exited(out: string, status: int, note: string)
    | NotRun(out: string, note: string)

  /** What the operating system can report: a failed exit has a non-zero status, every failure a text. */
  predicate Plausible(o: Shell) {
    match o
    case Deadline(_, note) => note != ""
    case Succeeded(_) => true
    case Exited(_, status, note) => status != 0 && note != ""
    case NotRun(_, note) => note != ""
  }

  /** The agent's `runCommand`, given how the shell behaved. */
  function CommandResult(cmd: string, o: Shell): (r: RunResult)
    requires Plausible(o)
    ensures r.code == 0 <==> r.error == ""
    ensures r.code == 0 <==> cmd != "" && o.Succeeded?
    ensures cmd != "" ==> r.output == o.out
    ensures cmd != "" && o.Deadline? ==> r.code == 124
    ensures cmd != "" && o.Exited? ==> r.code == o.status
    ensures cmd != "" && o.NotRun? ==> r.code == 1
    ensures cmd != "" && !o.Succeeded? ==> r.error == o.note
    ensures cmd == "" ==> r == RunResult("", 1, "empty command")
  {
    if cmd == "" then RunResult("", 1, "empty command")
    else match o
      case Deadline(out, note) => RunResult(out, 124, note)
      case Succeeded(out) => RunResult(out, 0, "")
      case Exited(out, status, note) => RunResult(out, status, note)
      case NotRun(out, note) => RunResult(out, 1, note)
  }

  /** A result this command can have. */
  ghost predicate Possible(cmd: string, r: RunResult) {
    exists o: Shell :: Plausible(o) && r == CommandResult(cmd, o)
  }

  /**
   * What the result of a non-empty command tells about its shell: everything, except that a deadline reads like an exit
   * with status 124 and a shell that did not run like one with status 1.
   */
  lemma ResultTellsEnding(cmd: string, a: Shell, b: Shell)
    requires cmd != "" && Plausible(a) && Plausible(b)
    ensures CommandResult(cmd, a) == CommandResult(cmd, b) <==>
            || a == b
            || (a.out == b.out && !a.Succeeded? && !b.Succeeded? && a.note == b.note && Status(a) == Status(b))
  {
  }

  /** The exit status a shell ending stands for. */
  function Status(o: Shell): int {
    match o
    case Succeeded(_) => 0
    case Deadline(_, _) => 124
    case Exited(_, status, _) => status
    case NotRun(_, _) => 1
  }

  /** A request as it lies on the wire, with the call that wrote it. */
  datatype Sent = Sent(req: Request, caller: nat)

  /** Selects one id, or every id. */
  predicate Selects(x: Option<string>, id: string) {
    x.None? || x.value == id
  }

  function ExecWith(x: Option<string>): Sent -> bool {
    (m: Sent) => m.req.kind == "exec" && Selects(x, m.req.id)
  }

  function RespWith(x: Option<string>): Message -> bool {
    (m: Message) => m.Resp? && Selects(x, m.id)
  }

  /** Number of `exec` requests in `q` with id `x`. */
  function Execs(q: seq<Sent>, x: Option<string>): nat { Count(q, ExecWith(x)) }

  /** Number of responses in `w` with id `x`. */
  function Resps(w: seq<Message>, x: Option<string>): nat { Count(w, RespWith(x)) }
}
