/** Which command's result a controller call returns. */
module Matching {
  import opened Common
  import opened Wire
  import opened Connection
  import S = Session
  import D = Delivery
  import R = IdReuse

  /** Call c returned the result of the one run of its own command. */
  ghost predicate GotOwn(j: Joint, c: nat) {
    && c < |j.relay.calls| && D.TookAny(j.relay.calls[c])
    && var k := j.relay.calls[c].pc.out.k;
    && k < |j.relay.wire| && j.relay.wire[k].Resp? && AllResps(j, k) < |j.runs|
    && var run := j.runs[AllResps(j, k)];
    && j.relay.calls[c].slot == Some(run.slot)
    && run.cmd == j.relay.calls[c].req.cmd
    && j.relay.wire[k].result == run.result
  }

  /** Call c returned the result of some run, for a request with its id. */
  lemma TookAnswer(j: Joint, c: nat)
    requires Inv(j) && c < |j.relay.calls| && D.TookAny(j.relay.calls[c])
    ensures var k := j.relay.calls[c].pc.out.k;
            && k < |j.relay.wire| && j.relay.wire[k].Resp? && AllResps(j, k) < |j.runs|
            && var run := j.runs[AllResps(j, k)];
            && run.slot < |j.relay.sent|
            && j.relay.wire[k].id == j.relay.calls[c].req.id == j.relay.sent[run.slot].req.id
            && j.relay.wire[k].result == run.result
            && Execs(j.relay.sent[..run.slot], D.Key(j.relay.calls[c])) ==
               Resps(j.relay.wire[..k], D.Key(j.relay.calls[c]))
            && (GotOwn(j, c) <==> j.relay.calls[c].slot == Some(run.slot))
  {
    var k := j.relay.calls[c].pc.out.k;
    assert S.Fits(j.relay, c, k);
    assert PairOk(j, k);
    assert RunOk(j, AllResps(j, k));
  }

  /** Each request is run at most once, in the order written. */
  lemma RunsInOrder(es: seq<Event>, a: nat, b: nat)
    requires CanRun(START, es) && a < b < |RunFrom(START, es).runs|
    ensures var j := RunFrom(START, es); j.runs[a].slot < j.runs[b].slot < |j.relay.sent|
  {
    RunKeepsInv(START, es);
    var j := RunFrom(START, es);
    assert RunOk(j, a) && RunOk(j, b);
    if j.runs[b].slot <= j.runs[a].slot {
      CountMonotone(j.relay.sent, j.runs[b].slot, j.runs[a].slot, ExecWith(None));
    }
  }

  // ----- Every run, however ids are reused and calls overlap -----

  lemma HandOverKeepsDelivery(j: Joint)
    requires HandshakeOk(j) && D.DeliveryInv(j.relay) && Enabled(j, HandOver) && S.Inv(Step(j, HandOver).relay)
    ensures D.DeliveryInv(Step(j, HandOver).relay)
  {
    var r' := Step(j, HandOver).relay;
    forall id ensures D.LastTouch(r', id, |r'.log|) == D.LastTouch(j.relay, id, |j.relay.log|) {
      D.LastTouchKept(j.relay, r', id, |r'.log|);
    }
  }

  lemma StepKeepsDelivery(j: Joint, e: Event)
    requires AgentOk(j) && HandshakeOk(j) && D.DeliveryInv(j.relay) && Enabled(j, e)
    ensures D.DeliveryInv(Step(j, e).relay)
  {
    if e.HandOver? {
      StepKeepsRelayInv(j, e);
      HandOverKeepsDelivery(j);
    } else {
      RelayHalf(j, e);
      if RelayEvent(j, e).Some? {
        D.StepKeepsDelivery(j.relay, RelayEvent(j, e).value);
      }
    }
  }

  lemma {:induction false} RunKeepsDelivery(j: Joint, es: seq<Event>)
    requires Inv(j) && D.DeliveryInv(j.relay) && CanRun(j, es)
    ensures Inv(RunFrom(j, es)) && D.DeliveryInv(RunFrom(j, es).relay)
    decreases |es|
  {
    if es != [] {
      StepKeepsInv(j, es[0]);
      StepKeepsDelivery(j, es[0]);
      RunKeepsDelivery(Step(j, es[0]), es[1..]);
    }
  }

  /** Number of `exec` requests with call c's id that were written ahead of its own request. */
  function WrittenAhead(r: S.Relay, c: nat): nat
    requires c < |r.calls| && r.calls[c].slot.Some? && r.calls[c].slot.value <= |r.sent|
  {
    Execs(r.sent[..r.calls[c].slot.value], D.Key(r.calls[c]))
  }

  /** Two requests with the same id and equally many such requests before them are the same request. */
  lemma OwnByCounts(j: Joint, c: nat)
    requires Inv(j) && D.DeliveryInv(j.relay) && c < |j.relay.calls|
    requires D.TookAny(j.relay.calls[c]) && D.IsExec(j.relay.calls[c])
    ensures j.relay.calls[c].slot.Some? && j.relay.calls[c].slot.value < |j.relay.sent|
    ensures j.relay.calls[c].seenMark <= |j.relay.wire|
    ensures GotOwn(j, c) <==> WrittenAhead(j.relay, c) == D.SeenBefore(j.relay, c)
  {
    var r := j.relay;
    TookAnswer(j, c);
    assert S.SlotOk(r.calls[c]) && D.SeenOk(r, c);
    var run := j.runs[AllResps(j, r.calls[c].pc.out.k)];
    assert RunOk(j, AllResps(j, r.calls[c].pc.out.k));
    if WrittenAhead(r, c) == D.SeenBefore(r, c) {
      CountInjective(r.sent, run.slot, r.calls[c].slot.value, ExecWith(D.Key(r.calls[c])));
    }
  }

  lemma NotExecNeverOwn(j: Joint, c: nat)
    requires Inv(j) && c < |j.relay.calls| && D.TookAny(j.relay.calls[c]) && !D.IsExec(j.relay.calls[c])
    ensures !GotOwn(j, c)
  {
    TookAnswer(j, c);
    var run := j.runs[AllResps(j, j.relay.calls[c].pc.out.k)];
    assert RunOk(j, AllResps(j, j.relay.calls[c].pc.out.k));
    assert j.relay.calls[j.relay.sent[run.slot].caller].slot == Some(run.slot);
  }

  /**
   * End-to-end matching, exactly and on every run, however ids are reused and calls overlap: an `exec` that returns a
   * response returns its own exactly when the requests with its id written ahead of its own are as many as the
   * responses with that id already looked up when it registered. The relay knows both numbers when it writes the
   * request. A call other than `exec` never returns a result of its own.
   */
  lemma OwnExactlyWhenAllAnswered(es: seq<Event>, c: nat)
    requires CanRun(START, es) && c < |RunFrom(START, es).relay.calls|
    requires D.TookAny(RunFrom(START, es).relay.calls[c])
    ensures var r := RunFrom(START, es).relay;
            && r.calls[c].slot.Some? && r.calls[c].slot.value < |r.sent| && r.calls[c].seenMark <= |r.wire|
            && (D.IsExec(r.calls[c]) ==> (GotOwn(RunFrom(START, es), c) <==> WrittenAhead(r, c) == D.SeenBefore(r, c)))
            && (!D.IsExec(r.calls[c]) ==> !GotOwn(RunFrom(START, es), c))
  {
    RunKeepsDelivery(START, es);
    var j := RunFrom(START, es);
    assert S.SlotOk(j.relay.calls[c]);
    if D.IsExec(j.relay.calls[c]) {
      OwnByCounts(j, c);
    } else {
      NotExecNeverOwn(j, c);
    }
  }

  /**
   * End-to-end matching: over every interleaving of callers, timeouts, failing writes, reader and agent, a call whose
   * id no other call of the session uses returns, if it returns a response, the result of its own command.
   */
  lemma FreshIdGetsOwn(es: seq<Event>, c: nat)
    requires CanRun(START, es) && c < |RunFrom(START, es).relay.calls|
    requires D.TookAny(RunFrom(START, es).relay.calls[c])
    requires var r := RunFrom(START, es).relay;
             forall d | 0 <= d < |r.calls| && d != c :: r.calls[d].req.id != r.calls[c].req.id
    ensures GotOwn(RunFrom(START, es), c)
  {
    RunKeepsInv(START, es);
    TookAnswer(RunFrom(START, es), c);
  }

  // ----- Calls that share an id but never overlap -----

  predicate Alone(j: Joint, e: Event) {
    e.OfRelay? ==> R.Alone(j.relay, e.e)
  }

  predicate CanRunAlone(j: Joint, es: seq<Event>)
    ensures CanRunAlone(j, es) ==> CanRun(j, es)
    decreases |es|
  {
    es == [] || (Enabled(j, es[0]) && Alone(j, es[0]) && CanRunAlone(Step(j, es[0]), es[1..]))
  }

  /** Requests with call c's id still unanswered, as the relay sees it, when c registered. */
  function Owed(r: S.Relay, c: nat): int
    requires c < |r.calls| && r.calls[c].sentMark <= |r.sent| && r.calls[c].seenMark <= |r.wire|
  {
    R.WrittenBefore(r, c) - D.SeenBefore(r, c)
  }

  /** A call that asks for no command can only pick up somebody else's late answer. */
  ghost predicate OwedOk(r: S.Relay, c: nat)
    requires c < |r.calls| && r.calls[c].sentMark <= |r.sent| && r.calls[c].seenMark <= |r.wire|
  {
    && 0 <= Owed(r, c)
    && (D.TookAny(r.calls[c]) && !D.IsExec(r.calls[c]) ==> 0 < Owed(r, c))
  }

  ghost predicate AloneInv(j: Joint) {
    && Inv(j) && R.AloneInv(j.relay)
    && forall c: nat | c < |j.relay.calls| :: OwedOk(j.relay, c)
  }

  /** Never more answers than questions. */
  lemma AnswersBounded(j: Joint, n: nat, x: Option<string>)
    requires Inv(j) && n <= |j.relay.wire|
    ensures Resps(j.relay.wire[..n], x) <= Execs(j.relay.sent, x)
  {
    assert Balanced(j, x);
    assert j.relay.wire[..|j.relay.wire|] == j.relay.wire && j.relay.sent[..|j.relay.sent|] == j.relay.sent;
    CountMonotone(j.relay.wire, n, |j.relay.wire|, RespWith(x));
    CountMonotone(j.relay.sent, Answered(j), |j.relay.sent|, ExecWith(x));
    CountMonotone(j.relay.sent, j.taken, |j.relay.sent|, ExecWith(x));
  }

  lemma HandOverKeepsAlone(j: Joint)
    requires HandshakeOk(j) && Enabled(j, HandOver) && D.DeliveryInv(Step(j, HandOver).relay)
    ensures R.AloneInv(Step(j, HandOver).relay)
  {
  }

  lemma StepKeepsRelayAlone(j: Joint, e: Event)
    requires HandshakeOk(j) && R.AloneInv(j.relay) && Enabled(j, e) && Alone(j, e)
    requires D.DeliveryInv(Step(j, e).relay)
    ensures R.AloneInv(Step(j, e).relay)
  {
    if e.HandOver? {
      HandOverKeepsAlone(j);
    } else {
      RelayHalf(j, e);
      if RelayEvent(j, e).Some? {
        R.StepKeepsAloneInv(j.relay, RelayEvent(j, e).value);
      }
    }
  }

  /** Nothing written is ever taken back, and what a call recorded at registration stays. */
  predicate Extends(r: S.Relay, r': S.Relay) {
    && r.sent <= r'.sent && r.wire <= r'.wire && |r.calls| <= |r'.calls|
    && forall c | 0 <= c < |r.calls| ::
         && r'.calls[c].req == r.calls[c].req
         && r'.calls[c].sentMark == r.calls[c].sentMark
         && r'.calls[c].seenMark == r.calls[c].seenMark
  }

  lemma RelayStepExtends(r: S.Relay, e: S.Event)
    requires S.Enabled(r, e)
    ensures Extends(r, S.Step(r, e))
  {
  }

  lemma StepExtends(j: Joint, e: Event)
    requires Enabled(j, e)
    ensures Extends(j.relay, Step(j, e).relay)
  {
    if e.OfRelay? {
      RelayStepExtends(j.relay, e.e);
    }
  }

  lemma OwedKept(r: S.Relay, r': S.Relay, c: nat)
    requires Extends(r, r') && c < |r.calls| && r.calls[c].sentMark <= |r.sent| && r.calls[c].seenMark <= |r.wire|
    ensures R.WrittenBefore(r', c) == R.WrittenBefore(r, c) && D.SeenBefore(r', c) == D.SeenBefore(r, c)
  {
    assert r'.sent[..r.calls[c].sentMark] == r.sent[..r.calls[c].sentMark];
    assert r'.wire[..r.calls[c].seenMark] == r.wire[..r.calls[c].seenMark];
  }

  lemma ReceiveOwed(j: Joint, c: nat)
    requires AloneInv(j) && S.Enabled(j.relay, S.Receive(c)) && !D.IsExec(j.relay.calls[c])
    ensures 0 < Owed(j.relay, c)
  {
    var r := j.relay;
    var n := r.table.chans[c].value;
    assert S.Fits(r, c, n) && R.WrittenOk(r, c) && D.SeenOk(r, c);
    CountNext(r.wire, n, RespWith(D.Key(r.calls[c])));
    AnswersBounded(j, n + 1, D.Key(r.calls[c]));
  }

  lemma BeginOwed(j: Joint, req: Request)
    requires AloneInv(j) && S.Enabled(j.relay, S.Begin(req)) && D.MarksOk(S.Step(j.relay, S.Begin(req)))
    ensures OwedOk(S.Step(j.relay, S.Begin(req)), |j.relay.calls|)
  {
    assert j.relay.sent[..|j.relay.sent|] == j.relay.sent;
    AnswersBounded(j, S.Seen(j.relay), Some(req.id));
  }

  lemma TakesOnlyByReceive(r: S.Relay, e: S.Event, c: nat)
    requires S.Enabled(r, e) && c < |r.calls|
    ensures D.TookAny(S.Step(r, e).calls[c]) ==> D.TookAny(r.calls[c]) || e == S.Receive(c)
  {
  }

  lemma OwedOkKept(r: S.Relay, r': S.Relay, c: nat)
    requires Extends(r, r') && c < |r.calls| && r.calls[c].sentMark <= |r.sent| && r.calls[c].seenMark <= |r.wire|
    requires OwedOk(r, c)
    requires D.TookAny(r'.calls[c]) && !D.IsExec(r.calls[c]) ==> D.TookAny(r.calls[c]) || 0 < Owed(r, c)
    ensures OwedOk(r', c)
  {
    OwedKept(r, r', c);
  }

  lemma RelayStepKeepsOwed(r: S.Relay, e: S.Event, c: nat)
    requires S.Enabled(r, e) && c < |r.calls| && r.calls[c].sentMark <= |r.sent| && r.calls[c].seenMark <= |r.wire|
    requires OwedOk(r, c)
    requires e == S.Receive(c) && !D.IsExec(r.calls[c]) ==> 0 < Owed(r, c)
    ensures Extends(r, S.Step(r, e)) && OwedOk(S.Step(r, e), c)
  {
    RelayStepExtends(r, e);
    TakesOnlyByReceive(r, e, c);
    OwedOkKept(r, S.Step(r, e), c);
  }

  lemma AgentStepKeepsOwed(j: Joint, e: Event, c: nat)
    requires Enabled(j, e) && !e.OfRelay?
    requires c < |j.relay.calls|
    requires j.relay.calls[c].sentMark <= |j.relay.sent| && j.relay.calls[c].seenMark <= |j.relay.wire|
    requires OwedOk(j.relay, c)
    ensures Extends(j.relay, Step(j, e).relay) && OwedOk(Step(j, e).relay, c)
  {
    StepExtends(j, e);
    OwedOkKept(j.relay, Step(j, e).relay, c);
  }

  lemma OldCallKeepsOwed(j: Joint, e: Event, c: nat)
    requires AloneInv(j) && Enabled(j, e) && c < |j.relay.calls|
    ensures Extends(j.relay, Step(j, e).relay) && OwedOk(Step(j, e).relay, c)
  {
    assert OwedOk(j.relay, c);
    if e.OfRelay? {
      if e.e == S.Receive(c) && !D.IsExec(j.relay.calls[c]) {
        ReceiveOwed(j, c);
      }
      RelayStepKeepsOwed(j.relay, e.e, c);
    } else {
      AgentStepKeepsOwed(j, e, c);
    }
  }

  lemma OnlyBeginAddsCall(j: Joint, e: Event)
    requires Enabled(j, e)
    ensures |Step(j, e).relay.calls| == |j.relay.calls| + (if e.OfRelay? && e.e.Begin? then 1 else 0)
  {
  }

  lemma StepKeepsOwed(j: Joint, e: Event)
    requires AloneInv(j) && Enabled(j, e) && D.MarksOk(Step(j, e).relay)
    ensures forall c: nat | c < |Step(j, e).relay.calls| :: OwedOk(Step(j, e).relay, c)
  {
    OnlyBeginAddsCall(j, e);
    forall c: nat | c < |Step(j, e).relay.calls| ensures OwedOk(Step(j, e).relay, c) {
      if c < |j.relay.calls| {
        OldCallKeepsOwed(j, e, c);
      } else {
        BeginOwed(j, e.e.req);
      }
    }
  }

  lemma StepKeepsAloneInv(j: Joint, e: Event)
    requires AloneInv(j) && Enabled(j, e) && Alone(j, e)
    ensures AloneInv(Step(j, e))
  {
    StepKeepsInv(j, e);
    StepKeepsDelivery(j, e);
    StepKeepsRelayAlone(j, e);
    StepKeepsOwed(j, e);
  }

  lemma {:induction false} RunKeepsAloneInv(j: Joint, es: seq<Event>)
    requires AloneInv(j) && CanRunAlone(j, es)
    ensures AloneInv(RunFrom(j, es))
    decreases |es|
  {
    if es != [] {
      StepKeepsAloneInv(j, es[0]);
      RunKeepsAloneInv(Step(j, es[0]), es[1..]);
    }
  }

  /**
   * Calls that share an id but never overlap: then the condition is that nothing was owed at registration, when the
   * relay had seen an answer to every earlier request with the id. A call other than `exec` returns a response only
   * if some such answer was still to come.
   */
  lemma OwnExactlyWhenNothingOwed(es: seq<Event>, c: nat)
    requires CanRunAlone(START, es) && c < |RunFrom(START, es).relay.calls|
    requires D.TookAny(RunFrom(START, es).relay.calls[c])
    ensures var r := RunFrom(START, es).relay;
            && r.calls[c].sentMark <= |r.sent| && r.calls[c].seenMark <= |r.wire|
            && (D.IsExec(r.calls[c]) ==> (GotOwn(RunFrom(START, es), c) <==> Owed(r, c) == 0))
            && (!D.IsExec(r.calls[c]) ==> 0 < Owed(r, c) && !GotOwn(RunFrom(START, es), c))
  {
    RunKeepsAloneInv(START, es);
    var j := RunFrom(START, es);
    OwnExactlyWhenAllAnswered(es, c);
    assert OwedOk(j.relay, c) && R.WrittenOk(j.relay, c);
  }
}
