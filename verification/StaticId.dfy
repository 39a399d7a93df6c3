/**
 * What the controller handlers can rely on although they always pass the id "1": as long as calls do not overlap and
 * no `exec` times out, every `exec` returns its own result and `lock` and `locate` return none.
 */
module StaticId {
  import opened Common
  import opened Wire
  import opened Connection
  import opened Matching
  import S = Session
  import D = Delivery
  import R = IdReuse

  predicate NoExecTimedOut(r: S.Relay, x: string) {
    forall c | 0 <= c < |r.calls| && r.calls[c].req.id == x && D.IsExec(r.calls[c]) && S.HasOutcome(r.calls[c]) ::
      !r.calls[c].pc.out.TimedOut?
  }

  predicate Idle(r: S.Relay, x: string) {
    forall c | 0 <= c < |r.calls| && r.calls[c].req.id == x :: !S.InFlight(r.calls[c])
  }

  /** Every `exec` with id x that was written has been answered, and the reader has looked the answer up. */
  predicate Settled(r: S.Relay, x: string) {
    Execs(r.sent, Some(x)) == D.RespsUpTo(r, S.Seen(r), Some(x))
  }

  ghost predicate Clean(r: S.Relay, x: string)
    requires D.MarksOk(r)
  {
    && (Idle(r, x) ==> Settled(r, x))
    && (forall c: nat | c < |r.calls| && r.calls[c].req.id == x :: Owed(r, c) == 0)
  }

  lemma SettledByBound(j: Joint, x: string)
    requires Inv(j)
    requires Execs(j.relay.sent, Some(x)) <= D.RespsUpTo(j.relay, S.Seen(j.relay), Some(x))
    ensures Settled(j.relay, x)
  {
    if 0 <= S.Seen(j.relay) <= |j.relay.wire| {
      AnswersBounded(j, S.Seen(j.relay), Some(x));
    }
  }

  /** A call that ends without timing out leaves nothing unanswered. */
  lemma EndedCallCounts(r: S.Relay, c: nat)
    requires c < |r.calls| == |r.table.chans| && r.calls[c].pc.Leaving?
    requires r.calls[c].sentMark <= |r.sent| && r.calls[c].seenMark <= S.Seen(r) <= |r.wire|
    requires R.WrittenOk(r, c) && D.SeenOk(r, c) && S.SlotOk(r.calls[c]) && Owed(r, c) == 0
    requires r.calls[c].pc.out.Got? ==> r.calls[c].pc.out.k < S.Seen(r) && S.Fits(r, c, r.calls[c].pc.out.k)
    requires D.IsExec(r.calls[c]) ==> !r.calls[c].pc.out.TimedOut?
    ensures Execs(r.sent, D.Key(r.calls[c])) <= D.RespsUpTo(r, S.Seen(r), D.Key(r.calls[c]))
  {
    var k := r.calls[c];
    var p := RespWith(D.Key(k));
    CountMonotone(r.wire, k.seenMark, S.Seen(r), p);
    if D.IsExec(k) && k.slot.Some? {
      CountNext(r.wire, k.pc.out.k, p);
      CountMonotone(r.wire, k.pc.out.k + 1, S.Seen(r), p);
    }
  }

  lemma EndedCallSettles(j: Joint, c: nat)
    requires AloneInv(j) && c < |j.relay.calls| && j.relay.calls[c].pc.Leaving? && Owed(j.relay, c) == 0
    requires D.IsExec(j.relay.calls[c]) ==> !j.relay.calls[c].pc.out.TimedOut?
    ensures Settled(j.relay, j.relay.calls[c].req.id)
  {
    EndedCallFits(j.relay, c);
    assert R.WrittenOk(j.relay, c) && D.SeenOk(j.relay, c);
    EndedCallCounts(j.relay, c);
    SettledByBound(j, j.relay.calls[c].req.id);
  }

  lemma EndedCallFits(r: S.Relay, c: nat)
    requires S.Inv(r) && c < |r.calls| && r.calls[c].pc.Leaving?
    ensures S.SlotOk(r.calls[c])
    ensures r.calls[c].pc.out.Got? ==> r.calls[c].pc.out.k < S.Seen(r) && S.Fits(r, c, r.calls[c].pc.out.k)
  {
  }

  lemma SettledGrows(r: S.Relay, r': S.Relay, x: string)
    requires Extends(r, r') && 0 <= S.Seen(r) <= |r.wire| && S.Seen(r) <= S.Seen(r') <= |r'.wire|
    requires Execs(r'.sent, Some(x)) == Execs(r.sent, Some(x)) && Settled(r, x)
    ensures Execs(r'.sent, Some(x)) <= D.RespsUpTo(r', S.Seen(r'), Some(x))
  {
    assert r'.wire[..S.Seen(r)] == r.wire[..S.Seen(r)];
    CountMonotone(r'.wire, S.Seen(r), S.Seen(r'), RespWith(Some(x)));
  }

  /** Steps that neither start nor end a call with id x keep an idle id settled. */
  lemma IdleStaysSettled(j: Joint, e: Event, x: string)
    requires Inv(j) && Enabled(j, e) && Inv(Step(j, e))
    requires Idle(j.relay, x) && Settled(j.relay, x)
    ensures Settled(Step(j, e).relay, x)
  {
    IdleWritesNothing(j, e, x);
    SeenGrows(j, e);
    StepExtends(j, e);
    SettledGrows(j.relay, Step(j, e).relay, x);
    SettledByBound(Step(j, e), x);
  }

  lemma IdleWritesNothing(j: Joint, e: Event, x: string)
    requires Enabled(j, e) && Idle(j.relay, x)
    ensures Execs(Step(j, e).relay.sent, Some(x)) == Execs(j.relay.sent, Some(x))
  {
    if e.OfRelay? && e.e.Write? && e.e.ok {
      CountAppend(j.relay.sent, Sent(j.relay.calls[e.e.c].req, e.e.c), ExecWith(Some(x)));
    }
  }

  lemma SeenGrows(j: Joint, e: Event)
    requires Enabled(j, e) && S.ReaderOk(j.relay) && S.ReaderOk(Step(j, e).relay) && HandshakeOk(j)
    ensures 0 <= S.Seen(j.relay) <= S.Seen(Step(j, e).relay) <= |Step(j, e).relay.wire|
    ensures S.Seen(j.relay) <= |j.relay.wire|
  {
  }

  lemma FinishKeepsSettled(r: S.Relay, c: nat, x: string)
    requires S.Enabled(r, S.Finish(c)) && Settled(r, x)
    ensures Settled(S.Step(r, S.Finish(c)), x)
  {
  }

  lemma StepKeepsSettled(j: Joint, e: Event, x: string)
    requires AloneInv(j) && Enabled(j, e) && Inv(Step(j, e))
    requires Clean(j.relay, x) && NoExecTimedOut(j.relay, x) && Idle(Step(j, e).relay, x)
    ensures Settled(Step(j, e).relay, x)
  {
    if Idle(j.relay, x) {
      IdleStaysSettled(j, e, x);
    } else {
      LastCallEnds(j, e, x);
      EndedCallSettles(j, e.e.c);
      FinishKeepsSettled(j.relay, e.e.c, x);
    }
  }

  lemma LastCallEnds(j: Joint, e: Event, x: string)
    requires Enabled(j, e) && !Idle(j.relay, x) && Idle(Step(j, e).relay, x)
    ensures e.OfRelay? && e.e.Finish? && j.relay.calls[e.e.c].req.id == x
  {
    var c :| 0 <= c < |j.relay.calls| && j.relay.calls[c].req.id == x && S.InFlight(j.relay.calls[c]);
    assert Step(j, e).relay.calls[c].req.id == x;
  }

  lemma OldCallsOweNothing(r: S.Relay, r': S.Relay, x: string)
    requires D.MarksOk(r) && D.MarksOk(r') && Extends(r, r') && Clean(r, x)
    ensures forall c: nat | c < |r.calls| && r'.calls[c].req.id == x :: Owed(r', c) == 0
  {
    forall c: nat | c < |r.calls| && r'.calls[c].req.id == x ensures Owed(r', c) == 0 {
      OwedKept(r, r', c);
    }
  }

  lemma StepOwesNothing(j: Joint, e: Event, x: string)
    requires Enabled(j, e) && Alone(j, e) && D.MarksOk(j.relay) && D.MarksOk(Step(j, e).relay)
    requires S.ReaderOk(j.relay) && Clean(j.relay, x)
    ensures forall c: nat | c < |Step(j, e).relay.calls| && Step(j, e).relay.calls[c].req.id == x ::
              Owed(Step(j, e).relay, c) == 0
  {
    StepExtends(j, e);
    OldCallsOweNothing(j.relay, Step(j, e).relay, x);
    OnlyBeginAddsCall(j, e);
    if e.OfRelay? && e.e.Begin? && e.e.req.id == x {
      NewCallOwed(j.relay, e.e.req);
    }
  }

  lemma StepKeepsClean(j: Joint, e: Event, x: string)
    requires AloneInv(j) && Enabled(j, e) && Alone(j, e) && AloneInv(Step(j, e))
    requires Clean(j.relay, x) && NoExecTimedOut(j.relay, x)
    ensures Clean(Step(j, e).relay, x)
  {
    if Idle(Step(j, e).relay, x) {
      StepKeepsSettled(j, e, x);
    }
    StepOwesNothing(j, e, x);
  }

  lemma NewCallOwed(r: S.Relay, req: Request)
    requires 0 <= S.Seen(r) <= |r.wire| && S.Enabled(r, S.Begin(req)) && Settled(r, req.id)
    ensures Owed(S.Step(r, S.Begin(req)), |r.calls|) == 0
  {
    assert r.sent[..|r.sent|] == r.sent;
  }

  lemma OutcomeStays(r: S.Relay, e: S.Event, c: nat)
    requires S.Enabled(r, e) && c < |r.calls| && S.HasOutcome(r.calls[c])
    ensures var k' := S.Step(r, e).calls[c];
            S.HasOutcome(k') && k'.pc.out == r.calls[c].pc.out && k'.req == r.calls[c].req
  {
  }

  lemma TimeOutsStay(j: Joint, e: Event, x: string)
    requires Enabled(j, e) && NoExecTimedOut(Step(j, e).relay, x)
    ensures NoExecTimedOut(j.relay, x)
  {
    if e.OfRelay? {
      forall c: nat | c < |j.relay.calls| && S.HasOutcome(j.relay.calls[c])
        ensures var k' := Step(j, e).relay.calls[c];
                S.HasOutcome(k') && k'.pc.out == j.relay.calls[c].pc.out && k'.req == j.relay.calls[c].req
      {
        OutcomeStays(j.relay, e.e, c);
      }
    } else {
      AgentStepsKeepCalls(j, e);
    }
  }

  lemma AgentStepsKeepCalls(j: Joint, e: Event)
    requires Enabled(j, e) && !e.OfRelay?
    ensures Step(j, e).relay.calls == j.relay.calls
  {
  }

  lemma {:induction false} TimeOutsStayOverRun(j: Joint, es: seq<Event>, x: string)
    requires CanRun(j, es) && NoExecTimedOut(RunFrom(j, es).relay, x)
    ensures NoExecTimedOut(j.relay, x)
    decreases |es|
  {
    if es != [] {
      TimeOutsStayOverRun(Step(j, es[0]), es[1..], x);
      TimeOutsStay(j, es[0], x);
    }
  }

  lemma {:induction false} RunKeepsClean(j: Joint, es: seq<Event>, x: string)
    requires AloneInv(j) && CanRunAlone(j, es) && Clean(j.relay, x) && NoExecTimedOut(RunFrom(j, es).relay, x)
    ensures AloneInv(RunFrom(j, es)) && Clean(RunFrom(j, es).relay, x)
    decreases |es|
  {
    TimeOutsStayOverRun(j, es, x);
    if es != [] {
      StepKeepsAloneInv(j, es[0]);
      StepKeepsClean(j, es[0], x);
      RunKeepsClean(Step(j, es[0]), es[1..], x);
    }
  }

  /**
   * The static-id theorem, for any id and any number of calls issued one at a time: while no `exec` has timed out, a
   * call that returns a response is an `exec` and the response is its own; `lock` and `locate` get none.
   */
  lemma StaticIdGetsOwn(es: seq<Event>, c: nat)
    requires CanRunAlone(START, es) && c < |RunFrom(START, es).relay.calls|
    requires var r := RunFrom(START, es).relay; D.TookAny(r.calls[c]) && NoExecTimedOut(r, r.calls[c].req.id)
    ensures D.IsExec(RunFrom(START, es).relay.calls[c]) && GotOwn(RunFrom(START, es), c)
  {
    RunKeepsClean(START, es, RunFrom(START, es).relay.calls[c].req.id);
    OwnExactlyWhenNothingOwed(es, c);
  }
}
