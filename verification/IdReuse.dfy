/**
 * Sessions on which calls that share an id never overlap, although ids may be used again and again: what one
 * controller at a time gets from handlers that always pass the id "1" (relay/main.go:301, relay/main.go:340).
 */
module IdReuse {
  import opened Common
  import opened Wire
  import opened Session
  import opened Delivery
  import W = Waiters

  /** A new call may start only when no call in flight has its id. */
  predicate Alone(r: Relay, e: Event) {
    e.Begin? ==> forall c | 0 <= c < |r.calls| && InFlight(r.calls[c]) :: r.calls[c].req.id != e.req.id
  }

  predicate CanRunAlone(r: Relay, es: seq<Event>)
    decreases |es|
  {
    es == [] || (Enabled(r, es[0]) && Alone(r, es[0]) && CanRunAlone(Step(r, es[0]), es[1..]))
  }

  /** Number of `exec` requests with this call's id that had been written when it registered. */
  function WrittenBefore(r: Relay, c: nat): nat
    requires c < |r.calls| && r.calls[c].sentMark <= |r.sent|
  {
    Execs(r.sent[..r.calls[c].sentMark], Key(r.calls[c]))
  }

  /** Every call in flight is listed under its id, so no two of them share one. */
  ghost predicate AllListed(r: Relay) {
    forall c | 0 <= c < |r.calls| && InFlight(r.calls[c]) :: W.Lookup(r.table, r.calls[c].req.id) == Some(c)
  }

  /** Between registration and delete, the only request with call c's id that can be written is its own. */
  ghost predicate WrittenOk(r: Relay, c: nat)
    requires c < |r.calls| && r.calls[c].sentMark <= |r.sent|
  {
    var k := r.calls[c];
    var base := WrittenBefore(r, c);
    && (k.slot.Some? ==> k.sentMark <= k.slot.value < |r.sent| && Execs(r.sent[..k.slot.value], Key(k)) == base)
    && (InFlight(k) ==> Execs(r.sent, Key(k)) == base + (if IsExec(k) && k.slot.Some? then 1 else 0))
  }

  ghost predicate AloneInv(r: Relay) {
    && DeliveryInv(r) && AllListed(r)
    && (forall c: nat | c < |r.calls| :: WrittenOk(r, c))
  }

  lemma StepKeepsAllListed(r: Relay, e: Event)
    requires TableOk(r) && AllListed(r) && Enabled(r, e) && Alone(r, e)
    ensures AllListed(Step(r, e))
  {
  }

  lemma WriteKeepsWritten(r: Relay, d: nat, c: nat)
    requires c < |r.calls| && r.calls[c].sentMark <= |r.sent| && SlotOk(r.calls[c]) && WrittenOk(r, c)
    requires Enabled(r, Write(d, true))
    requires d != c && InFlight(r.calls[c]) ==> r.calls[d].req.id != r.calls[c].req.id
    ensures WrittenOk(Step(r, Write(d, true)), c)
  {
    var r' := Step(r, Write(d, true));
    var k := r.calls[c];
    CountAppend(r.sent, Sent(r.calls[d].req, d), ExecWith(Key(k)));
    assert r'.sent[..k.sentMark] == r.sent[..k.sentMark];
    assert r'.sent[..|r.sent|] == r.sent;
    if k.slot.Some? {
      assert r'.sent[..k.slot.value] == r.sent[..k.slot.value];
    }
  }

  lemma StepKeepsWritten(r: Relay, e: Event, c: nat)
    requires c < |r.calls| && r.calls[c].sentMark <= |r.sent| && SlotOk(r.calls[c]) && WrittenOk(r, c) && Enabled(r, e)
    requires e.Write? && e.c != c && InFlight(r.calls[c]) ==> r.calls[e.c].req.id != r.calls[c].req.id
    ensures WrittenOk(Step(r, e), c)
  {
    if e.Write? && e.ok {
      WriteKeepsWritten(r, e.c, c);
    } else {
      var r' := Step(r, e);
      assert r'.sent == r.sent && r'.calls[c].slot == r.calls[c].slot && r'.calls[c].req == r.calls[c].req;
    }
  }

  lemma BeginWritten(r: Relay, req: Request)
    requires Enabled(r, Begin(req))
    ensures WrittenOk(Step(r, Begin(req)), |r.calls|)
  {
    assert r.sent[..|r.sent|] == r.sent;
  }

  lemma OthersHaveOtherIds(r: Relay, c: nat, d: nat)
    requires AllListed(r) && c < |r.calls| && d < |r.calls| && InFlight(r.calls[c]) && InFlight(r.calls[d]) && c != d
    ensures r.calls[c].req.id != r.calls[d].req.id
  {
  }

  lemma StepKeepsEachWritten(r: Relay, e: Event, c: nat)
    requires AloneInv(r) && Enabled(r, e) && c < |Step(r, e).calls| && MarksOk(Step(r, e))
    ensures WrittenOk(Step(r, e), c)
  {
    if c < |r.calls| {
      assert WrittenOk(r, c) && SlotOk(r.calls[c]);
      if e.Write? && e.c != c && InFlight(r.calls[c]) {
        OthersHaveOtherIds(r, e.c, c);
      }
      StepKeepsWritten(r, e, c);
    } else {
      BeginWritten(r, e.req);
    }
  }

  lemma StepKeepsAloneInv(r: Relay, e: Event)
    requires AloneInv(r) && Enabled(r, e) && Alone(r, e)
    ensures AloneInv(Step(r, e))
  {
    StepKeepsDelivery(r, e);
    StepKeepsAllListed(r, e);
    forall c: nat | c < |Step(r, e).calls| ensures WrittenOk(Step(r, e), c) {
      StepKeepsEachWritten(r, e, c);
    }
  }

  lemma {:induction false} RunKeepsAloneInv(r: Relay, es: seq<Event>)
    requires AloneInv(r) && CanRunAlone(r, es)
    ensures CanRun(r, es) && AloneInv(RunFrom(r, es))
    decreases |es|
  {
    if es != [] {
      StepKeepsAloneInv(r, es[0]);
      RunKeepsAloneInv(Step(r, es[0]), es[1..]);
    }
  }

  /**
   * No waiter is lost either: on every run in which calls sharing an id never overlap, whatever the agent sends, the
   * table is exactly the calls between registration and deferred delete.
   */
  lemma TableIsCallsInFlight(es: seq<Event>, id: string, c: nat)
    requires CanRunAlone(START, es)
    ensures CanRun(START, es)
    ensures var r := RunFrom(START, es);
            W.Lookup(r.table, id) == Some(c) <==> c < |r.calls| && InFlight(r.calls[c]) && r.calls[c].req.id == id
  {
    RunKeepsAloneInv(START, es);
  }
}
