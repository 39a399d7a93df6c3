/**
 * Which message a call receives, on every run of a session: whatever the agent sends, however ids are reused and
 * however calls overlap.
 */
module Delivery {
  import opened Common
  import opened Wire
  import opened Session
  import W = Waiters

  // ----- Who is listed -----

  predicate LogOk(r: Relay) {
    forall i | 0 <= i < |r.log| :: r.log[i].c < |r.calls|
  }

  /** The last entry about this id among the first n of the table's history. */
  function LastTouch(r: Relay, id: string, n: nat): Option<Touch>
    requires LogOk(r) && n <= |r.log|
  {
    if n == 0 then None
    else if r.calls[r.log[n - 1].c].req.id == id then Some(r.log[n - 1])
    else LastTouch(r, id, n - 1)
  }

  ghost predicate ListedLast(r: Relay)
    requires LogOk(r)
  {
    forall id, c: nat :: W.Lookup(r.table, id) == Some(c) <==> LastTouch(r, id, |r.log|) == Some(Put(c))
  }

  lemma {:induction false} LastTouchKept(r: Relay, r': Relay, id: string, n: nat)
    requires LogOk(r) && LogOk(r') && n <= |r.log| && r.log <= r'.log && |r.calls| <= |r'.calls|
    requires forall c | 0 <= c < |r.calls| :: r'.calls[c].req == r.calls[c].req
    ensures LastTouch(r', id, n) == LastTouch(r, id, n)
  {
    if n > 0 {
      LastTouchKept(r, r', id, n - 1);
    }
  }

  lemma StepKeepsLog(r: Relay, e: Event)
    requires LogOk(r) && Enabled(r, e)
    ensures var r' := Step(r, e);
            && LogOk(r') && r.log <= r'.log && |r.calls| <= |r'.calls|
            && (forall c | 0 <= c < |r.calls| :: r'.calls[c].req == r.calls[c].req)
            && |r'.log| == |r.log| + (if e.Begin? || e.Finish? then 1 else 0)
  {
  }

  lemma QuietStepKeepsTable(r: Relay, e: Event)
    requires Enabled(r, e) && !e.Begin? && !e.Finish?
    ensures Step(r, e).table.responses == r.table.responses
  {
  }

  lemma StepKeepsListed(r: Relay, e: Event)
    requires TableOk(r) && LogOk(r) && ListedLast(r) && Enabled(r, e) && LogOk(Step(r, e))
    ensures ListedLast(Step(r, e))
  {
    var r' := Step(r, e);
    StepKeepsLog(r, e);
    forall id, c: nat
      ensures W.Lookup(r'.table, id) == Some(c) <==> LastTouch(r', id, |r'.log|) == Some(Put(c))
    {
      LastTouchKept(r, r', id, |r.log|);
      assert W.Lookup(r.table, id) == Some(c) <==> LastTouch(r, id, |r.log|) == Some(Put(c));
      if !e.Begin? && !e.Finish? {
        QuietStepKeepsTable(r, e);
      }
    }
  }

  /** Call c listed itself, and since then no call with its id has registered or finished. */
  ghost predicate Undisturbed(r: Relay, c: nat)
    requires LogOk(r) && c < |r.calls|
  {
    exists i ::
      && 0 <= i < |r.log| && r.log[i] == Put(c)
      && forall h | i < h < |r.log| :: r.calls[r.log[h].c].req.id != r.calls[c].req.id
  }

  lemma {:induction false} LastTouchMeans(r: Relay, c: nat, n: nat)
    requires LogOk(r) && c < |r.calls| && n <= |r.log|
    ensures LastTouch(r, r.calls[c].req.id, n) == Some(Put(c)) <==>
            exists i ::
              && 0 <= i < n && r.log[i] == Put(c)
              && forall h | i < h < n :: r.calls[r.log[h].c].req.id != r.calls[c].req.id
  {
    if n > 0 {
      LastTouchMeans(r, c, n - 1);
      if r.calls[r.log[n - 1].c].req.id != r.calls[c].req.id {
        if LastTouch(r, r.calls[c].req.id, n) == Some(Put(c)) {
          var i :| 0 <= i < n - 1 && r.log[i] == Put(c)
                   && forall h | i < h < n - 1 :: r.calls[r.log[h].c].req.id != r.calls[c].req.id;
          assert r.log[i] == Put(c);
        }
      }
    }
  }

  // ----- What reaches a call -----

  function Key(k: Call): Option<string> { Some(k.req.id) }

  predicate IsExec(k: Call) { k.req.kind == "exec" }

  predicate TookAny(k: Call) { HasOutcome(k) && k.pc.out.Got? }

  /** Number of responses with this call's id that the reader had looked up when it registered. */
  function SeenBefore(r: Relay, c: nat): nat
    requires c < |r.calls| && r.calls[c].seenMark <= |r.wire|
  {
    Resps(r.wire[..r.calls[c].seenMark], Key(r.calls[c]))
  }

  ghost predicate MarksOk(r: Relay) {
    forall c | 0 <= c < |r.calls| :: r.calls[c].sentMark <= |r.sent| && r.calls[c].seenMark <= Seen(r) <= |r.wire|
  }

  /** Number of responses with id `x` among the first n messages. */
  function RespsUpTo(r: Relay, n: int, x: Option<string>): nat {
    if 0 <= n <= |r.wire| then Resps(r.wire[..n], x) else 0
  }

  /**
   * The first message that reaches call c is the first with its id that the reader looks up after it registered. A call
   * that is not listed any more is never listed again.
   */
  ghost predicate SeenOk(r: Relay, c: nat)
    requires c < |r.calls| == |r.table.chans| && r.calls[c].seenMark <= |r.wire|
  {
    var k := r.calls[c];
    var base := SeenBefore(r, c);
    if TookAny(k) then RespsUpTo(r, k.pc.out.k, Key(k)) == base
    else if r.table.chans[c].Some? then RespsUpTo(r, r.table.chans[c].value, Key(k)) == base
    else if r.reader == Sending(c) then RespsUpTo(r, r.read - 1, Key(k)) == base
    else W.Lookup(r.table, k.req.id) == Some(c) ==> RespsUpTo(r, Seen(r), Key(k)) == base
  }

  ghost predicate DeliveryInv(r: Relay) {
    && Inv(r) && LogOk(r) && ListedLast(r) && MarksOk(r)
    && (forall c: nat | c < |r.calls| :: SeenOk(r, c))
  }

  lemma StepKeepsMarks(r: Relay, e: Event)
    requires ReaderOk(r) && MarksOk(r) && Enabled(r, e)
    ensures MarksOk(Step(r, e))
  {
    var r' := Step(r, e);
    assert 0 <= Seen(r) <= Seen(r') <= |r'.wire| && |r.sent| <= |r'.sent|;
    forall c | 0 <= c < |r'.calls|
      ensures r'.calls[c].sentMark <= |r'.sent| && r'.calls[c].seenMark <= Seen(r')
    {
      if c < |r.calls| {
        assert r'.calls[c].sentMark == r.calls[c].sentMark && r'.calls[c].seenMark == r.calls[c].seenMark;
      }
    }
  }

  /** What call c needs from its surroundings for SeenOk to be kept. */
  ghost predicate CallOk(r: Relay, c: nat) {
    && c < |r.calls| == |r.table.chans| && r.calls[c].seenMark <= |r.wire| && ReaderOk(r) && r.calls[c].req.id != ""
    && (r.table.chans[c].Some? ==> r.table.chans[c].value < |r.wire|)
    && (TookAny(r.calls[c]) ==> r.calls[c].pc.out.k < |r.wire|)
    && (forall id | id in r.table.responses && r.table.responses[id] == c :: id == r.calls[c].req.id)
  }

  lemma ArriveKeepsSeen(r: Relay, m: Message, c: nat)
    requires CallOk(r, c) && SeenOk(r, c)
    ensures SeenOk(Step(r, Arrive(m)), c)
  {
    var r' := Step(r, Arrive(m));
    forall n: nat | n <= |r.wire| ensures r'.wire[..n] == r.wire[..n] {
    }
  }

  lemma LookUpKeepsSeen(r: Relay, c: nat)
    requires CallOk(r, c) && SeenOk(r, c) && Enabled(r, LookUp)
    ensures SeenOk(Step(r, LookUp), c)
  {
    CountNext(r.wire, r.read - 1, RespWith(Key(r.calls[c])));
  }

  /** Steps that touch neither the wire nor what call c holds. */
  lemma ElsewhereKeepsSeen(r: Relay, r': Relay, c: nat)
    requires CallOk(r, c) && SeenOk(r, c) && c < |r'.calls| == |r'.table.chans|
    requires r'.wire == r.wire && Seen(r') == Seen(r) && r'.table.chans[c] == r.table.chans[c]
    requires r'.reader == Sending(c) <==> r.reader == Sending(c)
    requires r'.reader == Sending(c) ==> r'.read == r.read
    requires r'.calls[c].req == r.calls[c].req && r'.calls[c].seenMark == r.calls[c].seenMark
    requires W.Lookup(r'.table, r.calls[c].req.id) == Some(c) ==> W.Lookup(r.table, r.calls[c].req.id) == Some(c)
    requires TookAny(r'.calls[c]) == TookAny(r.calls[c])
    requires TookAny(r.calls[c]) ==> r'.calls[c].pc.out == r.calls[c].pc.out
    ensures SeenOk(r', c)
  {
  }

  lemma StepKeepsSeen(r: Relay, e: Event, c: nat)
    requires CallOk(r, c) && SeenOk(r, c) && Enabled(r, e)
    ensures SeenOk(Step(r, e), c)
  {
    match e
    case Arrive(m) => ArriveKeepsSeen(r, m, c);
    case LookUp => LookUpKeepsSeen(r, c);
    case Receive(_) => ReceiveKeepsSeen(r, e.c, c);
    case Send => SendKeepsSeen(r, c);
    case _ => ElsewhereKeepsSeen(r, Step(r, e), c);
  }

  lemma ReceiveKeepsSeen(r: Relay, d: nat, c: nat)
    requires CallOk(r, c) && SeenOk(r, c) && Enabled(r, Receive(d))
    ensures SeenOk(Step(r, Receive(d)), c)
  {
  }

  lemma SendKeepsSeen(r: Relay, c: nat)
    requires CallOk(r, c) && SeenOk(r, c) && Enabled(r, Send)
    ensures SeenOk(Step(r, Send), c)
  {
  }

  /** A call that has just registered. */
  lemma BeginSeen(r: Relay, req: Request)
    requires |r.calls| == |r.table.chans| && 0 <= Seen(r) <= |r.wire| && Enabled(r, Begin(req))
    requires r.reader.Sending? ==> r.reader.ch < |r.calls|
    ensures SeenOk(Step(r, Begin(req)), |r.calls|)
  {
  }

  lemma InvGivesCallOk(r: Relay, c: nat)
    requires DeliveryInv(r) && c < |r.calls|
    ensures CallOk(r, c) && SeenOk(r, c)
  {
    if TookAny(r.calls[c]) {
      assert Fits(r, c, r.calls[c].pc.out.k);
    }
  }

  lemma StepKeepsEachSeen(r: Relay, e: Event, c: nat)
    requires DeliveryInv(r) && Enabled(r, e) && c < |Step(r, e).calls| == |Step(r, e).table.chans|
    requires MarksOk(Step(r, e))
    ensures SeenOk(Step(r, e), c)
  {
    if c < |r.calls| {
      InvGivesCallOk(r, c);
      StepKeepsSeen(r, e, c);
    } else {
      BeginSeen(r, e.req);
    }
  }

  lemma StepKeepsDelivery(r: Relay, e: Event)
    requires DeliveryInv(r) && Enabled(r, e)
    ensures DeliveryInv(Step(r, e))
  {
    StepKeepsInv(r, e);
    StepKeepsLog(r, e);
    StepKeepsListed(r, e);
    StepKeepsMarks(r, e);
    forall c: nat | c < |Step(r, e).calls| ensures SeenOk(Step(r, e), c) {
      StepKeepsEachSeen(r, e, c);
    }
  }

  lemma {:induction false} RunKeepsDelivery(r: Relay, es: seq<Event>)
    requires DeliveryInv(r) && CanRun(r, es)
    ensures DeliveryInv(RunFrom(r, es))
    decreases |es|
  {
    if es != [] {
      StepKeepsDelivery(r, es[0]);
      RunKeepsDelivery(Step(r, es[0]), es[1..]);
    }
  }

  lemma TookIsFirst(r: Relay, c: nat, h: nat)
    requires DeliveryInv(r) && c < |r.calls| && TookAny(r.calls[c]) && h < r.calls[c].pc.out.k < |r.wire|
    requires r.calls[c].seenMark <= h && r.wire[h].Resp?
    ensures r.wire[h].id != r.calls[c].req.id
  {
    var p := RespWith(Key(r.calls[c]));
    assert SeenOk(r, c);
    CountMonotone(r.wire, r.calls[c].seenMark, h, p);
    CountNext(r.wire, h, p);
    CountMonotone(r.wire, h + 1, r.calls[c].pc.out.k, p);
  }

  lemma TookAfterRegistration(r: Relay, c: nat)
    requires DeliveryInv(r) && c < |r.calls| && TookAny(r.calls[c])
    ensures r.calls[c].seenMark <= r.calls[c].pc.out.k < |r.wire|
  {
    var p, n := RespWith(Key(r.calls[c])), r.calls[c].pc.out.k;
    assert SeenOk(r, c) && Fits(r, c, n);
    if n < r.calls[c].seenMark {
      CountNext(r.wire, n, p);
      CountMonotone(r.wire, n + 1, r.calls[c].seenMark, p);
    }
  }

  /**
   * First come, first served, on every run: the message a call returns is the very first response with its id among
   * those the reader had not yet looked up when the call registered.
   */
  lemma CallsGetTheFirstAnswer(es: seq<Event>, c: nat)
    requires CanRun(START, es) && c < |RunFrom(START, es).calls| && TookAny(RunFrom(START, es).calls[c])
    ensures var r := RunFrom(START, es); var n := r.calls[c].pc.out.k;
            && r.calls[c].seenMark <= n < |r.wire| && r.wire[n].Resp? && r.wire[n].id == r.calls[c].req.id
            && forall h | r.calls[c].seenMark <= h < n && r.wire[h].Resp? :: r.wire[h].id != r.calls[c].req.id
  {
    RunKeepsDelivery(START, es);
    var r := RunFrom(START, es);
    TookAfterRegistration(r, c);
    assert Fits(r, c, r.calls[c].pc.out.k);
    forall h | r.calls[c].seenMark <= h < r.calls[c].pc.out.k && r.wire[h].Resp?
      ensures r.wire[h].id != r.calls[c].req.id
    {
      TookIsFirst(r, c, h);
    }
  }

  /**
   * Exactly who is listed, on every run: a call is, when it has registered and since then no call with its id, itself
   * included, has registered or finished. A waiting call can thus lose its place to another one's deferred delete.
   */
  lemma ListedExactlyWhileUndisturbed(es: seq<Event>, c: nat)
    requires CanRun(START, es) && c < |RunFrom(START, es).calls|
    ensures var r := RunFrom(START, es);
            LogOk(r) && (W.Lookup(r.table, r.calls[c].req.id) == Some(c) <==> Undisturbed(r, c))
  {
    RunKeepsDelivery(START, es);
    var r := RunFrom(START, es);
    LastTouchMeans(r, c, |r.log|);
  }
}
