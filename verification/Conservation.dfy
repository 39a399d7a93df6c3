/** Where every message of a connection is, at any moment. */
module Conservation {
  import opened Common
  import opened Wire
  import opened Connection

  /** Requests with id x that the agent has taken and not yet answered. */
  function BeingServed(j: Joint, x: Option<string>): nat
    requires Busy(j) ==> 0 < j.taken <= |j.relay.sent|
  {
    if Busy(j) && Selects(x, Current(j).id) then 1 else 0
  }

  /**
   * While the connection lasts, for each id and for all ids together: the `exec` requests ever written are those
   * queued at the agent, the one being served, and as many as there are responses queued at the relay or read by it.
   */
  lemma ExecsAreConserved(es: seq<Event>, x: Option<string>)
    requires CanRun(START, es) && !RunFrom(START, es).agent.Halted?
    ensures var j := RunFrom(START, es); var r := j.relay;
            && j.taken <= |r.sent| && r.read <= |r.wire| && (Busy(j) ==> 0 < j.taken)
            && Execs(r.sent, x) ==
               Execs(r.sent[j.taken..], x) + BeingServed(j, x) + Resps(r.wire[r.read..], x) + Resps(r.wire[..r.read], x)
  {
    RunKeepsInv(START, es);
    assert Balanced(RunFrom(START, es), x);
    BalanceSplits(RunFrom(START, es), x);
  }

  lemma BalanceSplits(j: Joint, x: Option<string>)
    requires AgentOk(j) && j.relay.read <= |j.relay.wire| && Balanced(j, x) && !j.agent.Halted?
    ensures var r := j.relay;
            && j.taken <= |r.sent| && r.read <= |r.wire| && (Busy(j) ==> 0 < j.taken)
            && Execs(r.sent, x) ==
               Execs(r.sent[j.taken..], x) + BeingServed(j, x) + Resps(r.wire[r.read..], x) + Resps(r.wire[..r.read], x)
  {
    CountSplit(j.relay.sent, j.taken, ExecWith(x));
    CountSplit(j.relay.wire, j.relay.read, RespWith(x));
    if Busy(j) {
      CountNext(j.relay.sent, j.taken - 1, ExecWith(x));
    }
  }

  /** A connection that broke, at whatever moment, has lost at most the one answer the agent was working on. */
  lemma BrokenConnectionLosesAtMostOne(es: seq<Event>, x: Option<string>)
    requires CanRun(START, es) && RunFrom(START, es).agent.Halted?
    ensures var j := RunFrom(START, es);
            j.taken <= |j.relay.sent| &&
            Resps(j.relay.wire, x) <= Execs(j.relay.sent[..j.taken], x) <= Resps(j.relay.wire, x) + 1
  {
    RunKeepsInv(START, es);
    assert Balanced(RunFrom(START, es), x);
  }

  /**
   * Every response is the answer to exactly one `exec`: the n-th response has the id of the n-th `exec` written, and
   * carries what the one run of its command produced, with exit code 0 exactly when there is no error text.
   */
  lemma ResponsesFollowRequests(es: seq<Event>, k: nat)
    requires CanRun(START, es) && k < |RunFrom(START, es).relay.wire| && RunFrom(START, es).relay.wire[k].Resp?
    ensures var j := RunFrom(START, es); var r := j.relay; var n := AllResps(j, k);
            && n < |j.runs| && j.runs[n].slot < j.taken <= |r.sent|
            && var q := r.sent[j.runs[n].slot].req;
            && q.kind == "exec" && Execs(r.sent[..j.runs[n].slot], None) == n
            && r.wire[k].id == q.id && j.runs[n].cmd == q.cmd && r.wire[k].result == j.runs[n].result
            && (r.wire[k].result.code == 0 <==> r.wire[k].result.error == "")
  {
    RunKeepsInv(START, es);
    var j := RunFrom(START, es);
    assert PairOk(j, k);
    assert RunOk(j, AllResps(j, k));
  }

  /**
   * When the relay drops its handshake decoder for a new one, the old one can have read ahead nothing but the
   * greeting, because that is all the agent has sent.
   */
  lemma HandOverLosesNothing(es: seq<Event>)
    requires CanRun(START, es) && Enabled(RunFrom(START, es), HandOver)
    ensures RunFrom(START, es).relay.wire == [Hello]
    ensures var j := Step(RunFrom(START, es), HandOver);
            j.relay.read == 1 && Resps(j.relay.wire[..j.relay.read], None) == 0
  {
    RunKeepsInv(START, es);
    OnlyGreeting(RunFrom(START, es));
  }

  lemma OnlyGreeting(j: Joint)
    requires HandshakeOk(j) && Enabled(j, HandOver)
    ensures j.relay.wire == [Hello] && Step(j, HandOver).relay.read == 1
    ensures Resps(Step(j, HandOver).relay.wire[..1], None) == 0
  {
    assert [Hello][..1] == [] + [Hello];
    CountAppend([], Hello, RespWith(None));
  }
}
