/**
 * One whole connection: the relay half of Session.dfy joined to the agent's `handleConnection`
 * (agent/runtime.go:130-175) by two first-in-first-out wires, starting at the accepted socket, when the relay still
 * reads with the decoder of its handshake (relay/main.go:350-432).
 */
module Connection {
  import opened Common
  import opened Wire
  import S = Session

  /**
   * The agent's loop; Running and Replying concern the request it took last. It is Halted once its loop has returned
   * or its process is gone, which may happen at any moment (event Die).
   */
  datatype Agent = Greeting | Ready | Running | Replying(result: RunResult) | Halted

  /** One execution of `runCommand`: for which written request, on what command, with what result. */
  datatype Run = Run(slot: nat, cmd: string, result: RunResult)

  /** While the handshake lasts, the relay's first decoder has pulled `buffered` messages off the socket. */
  datatype Phase = Handshake(buffered: nat) | Serving

  datatype Joint = Joint(
    phase: Phase,
    relay: S.Relay,
    agent: Agent,
    taken: nat,
    mute: bool,
    runs: seq<Run>)

  datatype Event =
    | Greet(ok: bool)
    | Buffer(n: nat)
    | HandOver
    | OfRelay(e: S.Event)
    | Take(ok: bool)
    | Ran(shell: Shell)
    | Reply(ok: bool)
    | Die

  const START := Joint(Handshake(0), S.START, Greeting, 0, false, [])

  /** The connection once the handshake is over, with the greeting read and nothing else sent. */
  const OPENED := Joint(Serving, S.START.(wire := [Hello], read := 1), Ready, 0, false, [])

  predicate Enabled(j: Joint, e: Event) {
    match e
    case Greet(_) => j.agent.Greeting?
    case Buffer(n) => j.phase.Handshake? && j.phase.buffered <= n <= |j.relay.wire|
    case HandOver => j.phase.Handshake? && 0 < j.phase.buffered
    case OfRelay(e) => j.phase.Serving? && !e.Arrive? && S.Enabled(j.relay, e)
    case Take(ok) => j.agent.Ready? && j.taken < |j.relay.sent| && (ok ==> !j.mute)
    case Ran(shell) => j.agent.Running? && 0 < j.taken <= |j.relay.sent| && Plausible(shell)
    case Reply(ok) => j.agent.Replying? && 0 < j.taken <= |j.relay.sent| && (ok ==> !j.mute)
    case Die => !j.agent.Halted?
  }

  /** The agent writes one message: the relay half's Arrive. */
  function Put(j: Joint, m: Message): Joint {
    j.(relay := j.relay.(wire := j.relay.wire + [m]))
  }

  function Current(j: Joint): Request
    requires 0 < j.taken <= |j.relay.sent|
  {
    j.relay.sent[j.taken - 1].req
  }

  function Step(j: Joint, e: Event): Joint
    requires Enabled(j, e)
  {
    match e
    case Greet(ok) => if ok then Put(j, Hello).(agent := Ready) else j.(agent := Halted)
    case Buffer(n) => j.(phase := Handshake(n))
    case HandOver => j.(phase := Serving, relay := j.relay.(read := j.phase.buffered))
    case OfRelay(e) => j.(relay := S.Step(j.relay, e))
    case Take(ok) =>
      var m := j.relay.sent[j.taken].req;
      var j' := j.(taken := j.taken + 1);
      if m.kind == "exec" then j'.(agent := Running)
      else if m.kind == "ping" then (if ok then Put(j', Pong) else j'.(mute := true))
      else j'
    case Ran(shell) =>
      var result := CommandResult(Current(j).cmd, shell);
      j.(agent := Replying(result), runs := j.runs + [Run(j.taken - 1, Current(j).cmd, result)])
    case Reply(ok) =>
      if ok then Put(j, Resp(Current(j).id, j.agent.result)).(agent := Ready)
      else j.(agent := Halted, mute := true)
    case Die => j.(agent := Halted)
  }

  predicate CanRun(j: Joint, es: seq<Event>)
    decreases |es|
  {
    es == [] || (Enabled(j, es[0]) && CanRun(Step(j, es[0]), es[1..]))
  }

  function RunFrom(j: Joint, es: seq<Event>): Joint
    requires CanRun(j, es)
    decreases |es|
  {
    if es == [] then j else RunFrom(Step(j, es[0]), es[1..])
  }

  lemma RunOfOne(j: Joint, e: Event)
    requires Enabled(j, e)
    ensures CanRun(j, [e]) && RunFrom(j, [e]) == Step(j, e)
  {
    assert [e][1..] == [];
  }

  lemma {:induction false} RunAppends(j: Joint, es: seq<Event>, fs: seq<Event>)
    requires CanRun(j, es) && CanRun(RunFrom(j, es), fs)
    ensures CanRun(j, es + fs) && RunFrom(j, es + fs) == RunFrom(RunFrom(j, es), fs)
    decreases |es|
  {
    if es == [] {
      assert es + fs == fs;
    } else {
      RunAppends(Step(j, es[0]), es[1..], fs);
      assert (es + fs)[1..] == es[1..] + fs;
    }
  }

  // ----- What every step keeps -----

  predicate Busy(j: Joint) { j.agent.Running? || j.agent.Replying? }

  ghost predicate AgentOk(j: Joint) {
    && j.taken <= |j.relay.sent|
    && (Busy(j) ==> 0 < j.taken && Current(j).kind == "exec")
    && (j.agent.Greeting? ==> j.taken == 0 && j.relay.wire == [] && j.runs == [])
    && (j.agent.Replying? ==> 0 < |j.runs| && j.runs[|j.runs| - 1] == Run(j.taken - 1, Current(j).cmd, j.agent.result))
  }

  /** Until the hand-over nothing has been requested, so the agent has said nothing but its greeting. */
  ghost predicate HandshakeOk(j: Joint) {
    j.phase.Handshake? ==>
      && j.relay.sent == [] && j.relay.calls == [] && j.relay.reader == S.Reading && j.relay.read == 0
      && j.phase.buffered <= |j.relay.wire|
      && (j.relay.wire == [] || j.relay.wire == [Hello])
  }

  /** How many requests the agent has answered: all it took, but the one it is busy with. */
  function Answered(j: Joint): int {
    if Busy(j) then j.taken - 1 else j.taken
  }

  /** The balance of requests answered against responses written, for one id or for all of them. */
  ghost predicate Balanced(j: Joint, x: Option<string>)
    requires 0 <= Answered(j) <= |j.relay.sent|
  {
    if j.agent.Halted? then
      Resps(j.relay.wire, x) <= Execs(j.relay.sent[..j.taken], x) <= Resps(j.relay.wire, x) + 1
    else
      Execs(j.relay.sent[..Answered(j)], x) == Resps(j.relay.wire, x)
  }

  /** The n-th run executed the n-th `exec` request. */
  ghost predicate RunOk(j: Joint, n: nat)
    requires n < |j.runs|
  {
    var run := j.runs[n];
    && run.slot < j.taken <= |j.relay.sent|
    && j.relay.sent[run.slot].req.kind == "exec"
    && run.cmd == j.relay.sent[run.slot].req.cmd
    && Execs(j.relay.sent[..run.slot], None) == n
    && Possible(run.cmd, run.result)
  }

  function AllResps(j: Joint, k: nat): nat
    requires k <= |j.relay.wire|
  {
    Resps(j.relay.wire[..k], None)
  }

  /** The n-th response carries the id of the n-th request run, and its result. */
  ghost predicate PairOk(j: Joint, k: nat)
    requires k < |j.relay.wire| && j.relay.wire[k].Resp?
  {
    var n := AllResps(j, k);
    && n < |j.runs|
    && j.runs[n].slot < |j.relay.sent|
    && j.relay.wire[k] == Resp(j.relay.sent[j.runs[n].slot].req.id, j.runs[n].result)
    && forall x :: Execs(j.relay.sent[..j.runs[n].slot], x) == Resps(j.relay.wire[..k], x)
  }

  predicate RunCount(j: Joint) {
    if j.agent.Halted? then Resps(j.relay.wire, None) <= |j.runs| <= Resps(j.relay.wire, None) + 1
    else |j.runs| == Resps(j.relay.wire, None) + (if j.agent.Replying? then 1 else 0)
  }

  ghost predicate Paired(j: Joint) {
    && RunCount(j)
    && (forall n: nat | n < |j.runs| :: RunOk(j, n))
    && (forall k: nat | k < |j.relay.wire| && j.relay.wire[k].Resp? :: PairOk(j, k))
  }

  ghost predicate Inv(j: Joint) {
    && S.Inv(j.relay) && AgentOk(j) && HandshakeOk(j) && Paired(j)
    && forall x :: Balanced(j, x)
  }

  /** What the relay half does at a step other than the hand-over, if anything. */
  function RelayEvent(j: Joint, e: Event): Option<S.Event>
    requires Enabled(j, e)
  {
    match e
    case Greet(ok) => if ok then Some(S.Arrive(Hello)) else None
    case OfRelay(re) => Some(re)
    case Take(ok) => if ok && j.relay.sent[j.taken].req.kind == "ping" then Some(S.Arrive(Pong)) else None
    case Reply(ok) => if ok then Some(S.Arrive(Resp(Current(j).id, j.agent.result))) else None
    case _ => None
  }

  lemma RelayHalf(j: Joint, e: Event)
    requires Enabled(j, e) && !e.HandOver?
    ensures var x := RelayEvent(j, e);
            && (x.None? ==> Step(j, e).relay == j.relay)
            && (x.Some? ==> S.Enabled(j.relay, x.value) && Step(j, e).relay == S.Step(j.relay, x.value))
            && (x.Some? && x.value.Begin? ==> e == OfRelay(x.value))
  {
  }

  lemma StepKeepsRelayInv(j: Joint, e: Event)
    requires S.Inv(j.relay) && AgentOk(j) && HandshakeOk(j) && Enabled(j, e)
    ensures S.Inv(Step(j, e).relay)
  {
    if !e.HandOver? {
      RelayHalf(j, e);
      if RelayEvent(j, e).Some? {
        S.StepKeepsInv(j.relay, RelayEvent(j, e).value);
      }
    }
  }

  lemma StepKeepsAgentOk(j: Joint, e: Event)
    requires AgentOk(j) && HandshakeOk(j) && Enabled(j, e)
    ensures AgentOk(Step(j, e)) && HandshakeOk(Step(j, e))
  {
  }

  /** The relay's own steps write nothing on the agent's side of the wire. */
  lemma RelayStepFrame(r: S.Relay, e: S.Event)
    requires S.Enabled(r, e) && !e.Arrive?
    ensures S.Step(r, e).wire == r.wire && r.sent <= S.Step(r, e).sent
    ensures forall n: nat | n <= |r.sent| :: S.Step(r, e).sent[..n] == r.sent[..n]
  {
  }

  lemma RelayStepKeepsBalance(j: Joint, e: S.Event, x: Option<string>)
    requires AgentOk(j) && Enabled(j, OfRelay(e)) && Balanced(j, x)
    ensures AgentOk(Step(j, OfRelay(e))) && Balanced(Step(j, OfRelay(e)), x)
  {
    RelayStepFrame(j.relay, e);
  }

  lemma TakeKeepsBalance(j: Joint, ok: bool, x: Option<string>)
    requires AgentOk(j) && Enabled(j, Take(ok)) && Balanced(j, x)
    ensures AgentOk(Step(j, Take(ok))) && Balanced(Step(j, Take(ok)), x)
  {
    CountNext(j.relay.sent, j.taken, ExecWith(x));
    CountAppend(j.relay.wire, Pong, RespWith(x));
  }

  lemma ReplyKeepsBalance(j: Joint, ok: bool, x: Option<string>)
    requires AgentOk(j) && Enabled(j, Reply(ok)) && Balanced(j, x)
    ensures AgentOk(Step(j, Reply(ok))) && Balanced(Step(j, Reply(ok)), x)
  {
    CountNext(j.relay.sent, j.taken - 1, ExecWith(x));
    CountAppend(j.relay.wire, Resp(Current(j).id, j.agent.result), RespWith(x));
  }

  lemma DeathKeepsBalance(j: Joint, x: Option<string>)
    requires AgentOk(j) && Enabled(j, Die) && Balanced(j, x)
    ensures AgentOk(Step(j, Die)) && Balanced(Step(j, Die), x)
  {
    if Busy(j) {
      CountNext(j.relay.sent, j.taken - 1, ExecWith(x));
    }
  }

  lemma StepKeepsBalance(j: Joint, e: Event, x: Option<string>)
    requires AgentOk(j) && HandshakeOk(j) && Enabled(j, e) && Balanced(j, x)
    ensures AgentOk(Step(j, e)) && Balanced(Step(j, e), x)
  {
    match e
    case OfRelay(re) => RelayStepKeepsBalance(j, re, x);
    case Take(ok) => TakeKeepsBalance(j, ok, x);
    case Reply(ok) => ReplyKeepsBalance(j, ok, x);
    case Greet(ok) => CountAppend(j.relay.wire, Hello, RespWith(x));
    case Die => DeathKeepsBalance(j, x);
    case _ => StepKeepsAgentOk(j, e);
  }

  // ----- Pairing of responses, runs and requests -----

  lemma RelayStepKeepsPaired(j: Joint, e: S.Event)
    requires AgentOk(j) && Paired(j) && Enabled(j, OfRelay(e))
    ensures Paired(Step(j, OfRelay(e)))
  {
    var j' := Step(j, OfRelay(e));
    RelayStepFrame(j.relay, e);
    forall n: nat | n < |j'.runs| ensures RunOk(j', n) {
      assert RunOk(j, n);
    }
    forall k: nat | k < |j'.relay.wire| && j'.relay.wire[k].Resp? ensures PairOk(j', k) {
      assert PairOk(j, k);
    }
  }

  /** A message other than a response, or none, joins the wire; the runs stay. */
  lemma QuietStepKeepsPaired(j: Joint, j': Joint, m: Message)
    requires Paired(j) && !m.Resp? && j'.runs == j.runs
    requires j'.relay.sent == j.relay.sent && j.taken <= j'.taken <= |j.relay.sent|
    requires j'.relay.wire == j.relay.wire || j'.relay.wire == j.relay.wire + [m]
    requires j'.agent.Halted? || (!j.agent.Halted? && j'.agent.Replying? == j.agent.Replying?)
    ensures Paired(j')
  {
    CountAppend(j.relay.wire, m, RespWith(None));
    forall n: nat | n < |j'.runs| ensures RunOk(j', n) {
      assert RunOk(j, n);
    }
    forall k: nat | k < |j'.relay.wire| && j'.relay.wire[k].Resp? ensures PairOk(j', k) {
      assert PairOk(j, k);
      assert j'.relay.wire[..k] == j.relay.wire[..k];
    }
  }

  lemma RanKeepsPaired(j: Joint, shell: Shell)
    requires AgentOk(j) && Paired(j) && Balanced(j, None) && Enabled(j, Ran(shell))
    ensures Paired(Step(j, Ran(shell)))
  {
    var j' := Step(j, Ran(shell));
    forall n: nat | n < |j'.runs| ensures RunOk(j', n) {
      if n < |j.runs| {
        assert RunOk(j, n);
      }
    }
    forall k: nat | k < |j'.relay.wire| && j'.relay.wire[k].Resp? ensures PairOk(j', k) {
      assert PairOk(j, k);
    }
  }

  lemma ReplyKeepsPaired(j: Joint)
    requires AgentOk(j) && Paired(j) && Enabled(j, Reply(true))
    requires forall x :: Balanced(j, x)
    ensures Paired(Step(j, Reply(true)))
  {
    var j' := Step(j, Reply(true));
    var w := j.relay.wire;
    CountAppend(w, Resp(Current(j).id, j.agent.result), RespWith(None));
    forall n: nat | n < |j'.runs| ensures RunOk(j', n) {
      assert RunOk(j, n);
    }
    forall k: nat | k < |j'.relay.wire| && j'.relay.wire[k].Resp? ensures PairOk(j', k) {
      assert j'.relay.wire[..k] == w[..k];
      if k < |w| {
        assert PairOk(j, k);
      } else {
        assert w[..k] == w;
        forall x ensures Execs(j.relay.sent[..j.taken - 1], x) == Resps(w, x) {
          assert Balanced(j, x);
        }
      }
    }
  }

  lemma StepKeepsPaired(j: Joint, e: Event)
    requires Inv(j) && Enabled(j, e)
    ensures Paired(Step(j, e))
  {
    match e
    case OfRelay(re) => RelayStepKeepsPaired(j, re);
    case Ran(shell) => RanKeepsPaired(j, shell);
    case Greet(_) => QuietStepKeepsPaired(j, Step(j, e), Hello);
    case Take(_) => QuietStepKeepsPaired(j, Step(j, e), Pong);
    case Reply(ok) =>
      if ok { ReplyKeepsPaired(j); } else { QuietStepKeepsPaired(j, Step(j, e), Pong); }
    case _ => QuietStepKeepsPaired(j, Step(j, e), Pong);
  }

  lemma StepKeepsInv(j: Joint, e: Event)
    requires Inv(j) && Enabled(j, e)
    ensures Inv(Step(j, e))
  {
    StepKeepsRelayInv(j, e);
    StepKeepsAgentOk(j, e);
    StepKeepsPaired(j, e);
    forall x ensures Balanced(Step(j, e), x) {
      StepKeepsBalance(j, e, x);
    }
  }

  lemma {:induction false} RunKeepsInv(j: Joint, es: seq<Event>)
    requires Inv(j) && CanRun(j, es)
    ensures Inv(RunFrom(j, es))
    decreases |es|
  {
    if es != [] {
      StepKeepsInv(j, es[0]);
      RunKeepsInv(Step(j, es[0]), es[1..]);
    }
  }
}
