/**
 * What the state of a session says about the run that led to it, event by event, and how calls come to their ends. The
 * agent is arbitrary, and calls may overlap and share ids.
 */
module History {
  import opened Common
  import opened Wire
  import opened Session
  import C = Connection
  import W = Waiters

  lemma {:induction false} RunSplitsLast(r: Relay, es: seq<Event>)
    requires es != [] && CanRun(r, es)
    ensures var front := es[..|es| - 1];
            && CanRun(r, front) && Enabled(RunFrom(r, front), es[|es| - 1])
            && RunFrom(r, es) == Step(RunFrom(r, front), es[|es| - 1])
    decreases |es|
  {
    var front := es[..|es| - 1];
    if |es| == 1 {
      assert es[1..] == [];
    } else {
      RunSplitsLast(Step(r, es[0]), es[1..]);
      assert front[1..] == es[1..][..|es| - 2];
    }
  }

  // ----- The sequences a state records -----

  /** The requests that calls were started with, in order. */
  function Begun(es: seq<Event>): seq<Request> {
    if es == [] then []
    else
      var e, rest := es[|es| - 1], Begun(es[..|es| - 1]);
      if e.Begin? then rest + [e.req] else rest
  }

  /** The calls whose request was written, in order. */
  function Writers(es: seq<Event>): seq<nat> {
    if es == [] then []
    else
      var e, rest := es[|es| - 1], Writers(es[..|es| - 1]);
      if e.Write? && e.ok then rest + [e.c] else rest
  }

  /** The messages the agent sent, in order. */
  function Arrived(es: seq<Event>): seq<Message> {
    if es == [] then []
    else
      var e, rest := es[|es| - 1], Arrived(es[..|es| - 1]);
      if e.Arrive? then rest + [e.m] else rest
  }

  /** Registrations and deferred deletes, in order. */
  function Touches(es: seq<Event>): seq<Touch> {
    if es == [] then []
    else
      var e, rest := es[|es| - 1], Touches(es[..|es| - 1]);
      if e.Begin? then rest + [Put(|Begun(es[..|es| - 1])|)]
      else if e.Finish? then rest + [Cut(e.c)]
      else rest
  }

  function Decodes(es: seq<Event>): nat {
    if es == [] then 0 else Decodes(es[..|es| - 1]) + (if es[|es| - 1].Decode? then 1 else 0)
  }

  predicate Requested(r: Relay, reqs: seq<Request>) {
    |r.calls| == |reqs| && forall c | 0 <= c < |reqs| :: r.calls[c].req == reqs[c]
  }

  predicate SentBy(r: Relay, reqs: seq<Request>, writers: seq<nat>) {
    && |r.sent| == |writers|
    && forall i | 0 <= i < |writers| ::
         writers[i] < |reqs| && r.sent[i] == Sent(reqs[writers[i]], writers[i])
  }

  predicate Records(r: Relay, es: seq<Event>) {
    && Requested(r, Begun(es)) && SentBy(r, Begun(es), Writers(es))
    && r.wire == Arrived(es) && r.log == Touches(es) && r.read == Decodes(es)
    && (r.reader.Stopped? <==> Disconnect in es)
    && (r.broken <==> exists e :: e in es && e.Write? && !e.ok)
  }

  lemma StepRecords(r: Relay, es: seq<Event>, e: Event)
    requires Records(r, es) && Enabled(r, e)
    ensures Records(Step(r, e), es + [e])
  {
    assert (es + [e])[..|es|] == es;
    assert e in es + [e] && forall x | x in es :: x in es + [e];
  }

  /**
   * The records are the run's: one call per Begin with its request, one written request per successful Write and by its
   * call, the wire all that arrived, one message read per Decode, one table entry per registration and delete; the reader
   * has stopped after a Disconnect, and the encoder is broken after a failed Write.
   */
  lemma {:induction false} RecordsAreTheRun(es: seq<Event>)
    requires CanRun(START, es)
    ensures Records(RunFrom(START, es), es)
    decreases |es|
  {
    if es != [] {
      var front, e := es[..|es| - 1], es[|es| - 1];
      RunSplitsLast(START, es);
      RecordsAreTheRun(front);
      StepRecords(RunFrom(START, front), front, e);
      assert es == front + [e];
    }
  }

  // ----- How a call ends -----

  /** What has happened to call c. */
  predicate CallTells(r: Relay, es: seq<Event>, c: nat)
    requires c < |r.calls|
  {
    var k := r.calls[c];
    && (k.pc.Registered? <==> Write(c, true) !in es && Write(c, false) !in es)
    && (k.slot.Some? <==> Write(c, true) in es)
    && (HasOutcome(k) && k.pc.out.WriteFailed? <==> Write(c, false) in es)
    && (HasOutcome(k) && k.pc.out.Got? <==> Receive(c) in es)
    && (HasOutcome(k) && k.pc.out.TimedOut? <==> TimeOut(c) in es)
    && (k.pc.Done? <==> Finish(c) in es)
  }

  lemma StepTells(r: Relay, front: seq<Event>, e: Event, c: nat)
    requires Enabled(r, e) && c < |r.calls| && CallTells(r, front, c)
    ensures c < |Step(r, e).calls| && CallTells(Step(r, e), front + [e], c)
  {
  }

  /** A call that is not there yet has not been mentioned. */
  predicate Unmentioned(r: Relay, es: seq<Event>) {
    forall e | e in es && (e.Write? || e.Receive? || e.TimeOut? || e.Finish?) :: e.c < |r.calls|
  }

  lemma NewCallTells(r: Relay, es: seq<Event>, req: Request)
    requires Unmentioned(r, es) && Enabled(r, Begin(req))
    ensures CallTells(Step(r, Begin(req)), es + [Begin(req)], |r.calls|)
  {
  }

  lemma StepUnmentioned(r: Relay, es: seq<Event>, e: Event)
    requires Unmentioned(r, es) && Enabled(r, e)
    ensures Unmentioned(Step(r, e), es + [e])
  {
  }

  lemma {:induction false} RunTells(es: seq<Event>)
    requires CanRun(START, es)
    ensures var r := RunFrom(START, es); Unmentioned(r, es) && forall c: nat | c < |r.calls| :: CallTells(r, es, c)
    decreases |es|
  {
    if es != [] {
      var front, e := es[..|es| - 1], es[|es| - 1];
      RunSplitsLast(START, es);
      RunTells(front);
      assert es == front + [e];
      var r := RunFrom(START, front);
      StepUnmentioned(r, front, e);
      forall c: nat | c < |RunFrom(START, es).calls| ensures CallTells(RunFrom(START, es), es, c) {
        if c < |r.calls| {
          StepTells(r, front, e, c);
        } else {
          NewCallTells(r, front, e.req);
        }
      }
    }
  }

  /**
   * Every outcome has its one cause and keeps it: a call has failed its write, received or timed out exactly when that
   * event is in the run, at most one of them is, and the outcome is what it still holds when it is done.
   */
  lemma OutcomesHaveCauses(es: seq<Event>, c: nat)
    requires CanRun(START, es) && c < |RunFrom(START, es).calls|
    ensures CallTells(RunFrom(START, es), es, c)
    ensures Receive(c) in es ==> TimeOut(c) !in es && Write(c, false) !in es && Write(c, true) in es
    ensures TimeOut(c) in es ==> Write(c, false) !in es && Write(c, true) in es
    ensures Write(c, false) in es ==> Write(c, true) !in es
    ensures Finish(c) in es ==> Receive(c) in es || TimeOut(c) in es || Write(c, false) in es
  {
    RunTells(es);
    RunKeepsInv(START, es);
    assert SlotOk(RunFrom(START, es).calls[c]);
  }

  lemma RunOfOne(r: Relay, e: Event)
    requires Enabled(r, e)
    ensures CanRun(r, [e]) && RunFrom(r, [e]) == Step(r, e)
  {
    assert [e][1..] == [];
  }

  lemma Before(r: Relay, e: Event, es: seq<Event>) returns (all: seq<Event>)
    requires Enabled(r, e) && CanRun(Step(r, e), es)
    ensures all == [e] + es && CanRun(r, all) && RunFrom(r, all) == RunFrom(Step(r, e), es)
  {
    all := [e] + es;
    assert all[1..] == es;
  }

  /** No call can be kept from ending: whatever state it is in, it can time out or fail and then finish. */
  lemma CallsCanEnd(r: Relay, c: nat) returns (es: seq<Event>)
    requires c < |r.calls|
    ensures |es| <= 2 && CanRun(r, es) && c < |RunFrom(r, es).calls| && RunFrom(r, es).calls[c].pc.Done?
    ensures r.calls[c].pc.Waiting? ==> RunFrom(r, es).calls[c].pc.out.TimedOut?
    ensures HasOutcome(r.calls[c]) ==> RunFrom(r, es).calls[c].pc.out == r.calls[c].pc.out
  {
    if r.calls[c].pc.Done? {
      es := [];
    } else if r.calls[c].pc.Leaving? {
      RunOfOne(r, Finish(c));
      es := [Finish(c)];
    } else {
      var e := if r.calls[c].pc.Waiting? then TimeOut(c) else Write(c, false);
      RunOfOne(Step(r, e), Finish(c));
      es := Before(r, e, [Finish(c)]);
    }
  }

  /** A waiting call that is listed and has an empty channel gets the next message if that is a response with its id. */
  lemma NextAnswerIsDelivered(r: Relay, c: nat) returns (es: seq<Event>)
    requires Inv(r) && c < |r.calls| && r.calls[c].pc.Waiting? && W.Lookup(r.table, r.calls[c].req.id) == Some(c)
    requires r.table.chans[c].None? && r.reader.Reading? && r.read < |r.wire|
    requires r.wire[r.read].Resp? && r.wire[r.read].id == r.calls[c].req.id
    ensures CanRun(r, es) && c < |RunFrom(r, es).calls|
    ensures RunFrom(r, es).calls[c] == r.calls[c].(pc := Done(Got(r.read)))
    ensures RunFrom(r, es).read == r.read + 1 && RunFrom(r, es).reader.Reading?
  {
    var r1 := Step(r, Decode);
    var r2 := Step(r1, LookUp);
    var r3 := Step(r2, Send);
    ReaderHandsOver(r, c);
    TakesAndEnds(r3, c);
    es := Before(r2, Send, [Receive(c), Finish(c)]);
    es := Before(r1, LookUp, es);
    es := Before(r, Decode, es);
  }

  lemma ReaderHandsOver(r: Relay, c: nat)
    requires Inv(r) && c < |r.calls| && W.Lookup(r.table, r.calls[c].req.id) == Some(c)
    requires r.table.chans[c].None? && r.reader.Reading? && r.read < |r.wire|
    requires r.wire[r.read].Resp? && r.wire[r.read].id == r.calls[c].req.id
    ensures Enabled(r, Decode) && Enabled(Step(r, Decode), LookUp) && Enabled(Step(Step(r, Decode), LookUp), Send)
    ensures var t := Step(Step(Step(r, Decode), LookUp), Send);
            && t.calls == r.calls && |t.table.chans| == |t.calls| && t.table.chans[c] == Some(r.read)
            && t.read == r.read + 1 && t.reader.Reading?
  {
  }

  lemma TakesAndEnds(r: Relay, c: nat)
    requires c < |r.calls| == |r.table.chans| && r.calls[c].pc.Waiting? && r.table.chans[c].Some?
    ensures CanRun(r, [Receive(c), Finish(c)])
    ensures var t := RunFrom(r, [Receive(c), Finish(c)]);
            && c < |t.calls| && t.calls[c] == r.calls[c].(pc := Done(Got(r.table.chans[c].value)))
            && t.read == r.read && t.reader == r.reader
  {
    RunOfOne(Step(r, Receive(c)), Finish(c));
    var es := Before(r, Receive(c), [Finish(c)]);
  }

  // ----- The agent's half of a connection -----

  lemma {:induction false} ConnectionSplitsLast(j: C.Joint, es: seq<C.Event>)
    requires es != [] && C.CanRun(j, es)
    ensures var front := es[..|es| - 1];
            && C.CanRun(j, front) && C.Enabled(C.RunFrom(j, front), es[|es| - 1])
            && C.RunFrom(j, es) == C.Step(C.RunFrom(j, front), es[|es| - 1])
    decreases |es|
  {
    var front := es[..|es| - 1];
    if |es| == 1 {
      assert es[1..] == [];
    } else {
      ConnectionSplitsLast(C.Step(j, es[0]), es[1..]);
      assert front[1..] == es[1..][..|es| - 2];
    }
  }

  /** How the commands run ended, in order. */
  function Endings(es: seq<C.Event>): seq<Shell> {
    if es == [] then []
    else
      var e, rest := es[|es| - 1], Endings(es[..|es| - 1]);
      if e.Ran? then rest + [e.shell] else rest
  }

  function Takes(es: seq<C.Event>): nat {
    if es == [] then 0 else Takes(es[..|es| - 1]) + (if es[|es| - 1].Take? then 1 else 0)
  }

  /** The runs are those of the run's endings, each with the result its ending gives its command. */
  ghost predicate RanSo(runs: seq<C.Run>, endings: seq<Shell>) {
    && |runs| == |endings|
    && forall n: nat | n < |runs| :: Plausible(endings[n]) && runs[n].result == CommandResult(runs[n].cmd, endings[n])
  }

  ghost predicate AgentRecords(j: C.Joint, es: seq<C.Event>) {
    && j.taken == Takes(es) && RanSo(j.runs, Endings(es))
    && (j.phase.Serving? <==> C.HandOver in es)
    && (j.agent.Halted? <==> C.Die in es || C.Greet(false) in es || C.Reply(false) in es)
  }

  lemma StepAgentRecords(j: C.Joint, es: seq<C.Event>, e: C.Event)
    requires AgentRecords(j, es) && C.Enabled(j, e)
    ensures AgentRecords(C.Step(j, e), es + [e])
  {
    assert (es + [e])[..|es|] == es;
  }

  /**
   * The agent's records are the run's too: one request taken per Take, one run per Ran with the result of that ending;
   * the relay serves after the hand-over, and the agent is gone exactly after dying or failing to greet or to answer.
   */
  lemma {:induction false} AgentRecordsAreTheRun(es: seq<C.Event>)
    requires C.CanRun(C.START, es)
    ensures AgentRecords(C.RunFrom(C.START, es), es)
    decreases |es|
  {
    if es != [] {
      var front, e := es[..|es| - 1], es[|es| - 1];
      ConnectionSplitsLast(C.START, es);
      AgentRecordsAreTheRun(front);
      StepAgentRecords(C.RunFrom(C.START, front), front, e);
      assert es == front + [e];
    }
  }
}
