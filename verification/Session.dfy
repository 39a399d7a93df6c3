/**
 * The relay half of one agent session as a state machine. Every step is one mutex section, one
 * message written or read, or one channel operation of relay/main.go:75-133. The agent is arbitrary here:
 * it may put any message on the wire at any time (event Arrive).
 */
module Session {
  import opened Common
  import opened Wire
  import W = Waiters

  /** How a call left its `select`; Got(k) means it took the message at position k of the wire. */
  datatype Outcome = Got(k: nat) | TimedOut | WriteFailed

  datatype Pc = Registered | Waiting | Leaving(out: Outcome) | Done(out: Outcome)

  /**
   * One invocation of `sendRequest`. `slot` is where its request lies in the stream of written requests;
   * `sentMark` and `seenMark` record, for the history only, how many requests had been written and how many
   * messages the reader had looked up when the call registered.
   */
  datatype Call = Call(req: Request, pc: Pc, slot: Option<nat>, sentMark: nat, seenMark: nat)

  /** The reader goroutine. Decoded and Sending concern the message last read. */
  datatype Reader = Reading | Decoded | Sending(ch: nat) | Stopped

  /** The history of the `responses` table: call c listed itself under its id, or deleted whatever its id listed. */
  datatype Touch = Put(c: nat) | Cut(c: nat)

  /**
   * `sent` and `wire` are everything ever written in each direction; the reader has consumed `read` messages. `log` is
   * the history of the table.
   */
  datatype Relay = Relay(
    calls: seq<Call>,
    table: W.Table<nat>,
    reader: Reader,
    broken: bool,
    sent: seq<Sent>,
    wire: seq<Message>,
    read: nat,
    log: seq<Touch>)

  datatype Event =
    | Begin(req: Request)
    | Write(c: nat, ok: bool)
    | Receive(c: nat)
    | TimeOut(c: nat)
    | Finish(c: nat)
    | Arrive(m: Message)
    | Decode
    | LookUp
    | Send
    | Disconnect

  const START := Relay([], W.Empty(), Reading, false, [], [], 0, [])

  predicate InFlight(k: Call) { !k.pc.Done? }

  /** The outcome of a call that has left its `select`. */
  predicate HasOutcome(k: Call) { k.pc.Leaving? || k.pc.Done? }

  predicate Took(k: Call, n: nat) { HasOutcome(k) && k.pc.out == Got(n) }

  /** Number of messages that have passed the reader's table lookup. */
  function Seen(r: Relay): int {
    if r.reader.Decoded? then r.read - 1 else r.read
  }

  predicate Enabled(r: Relay, e: Event) {
    match e
    case Begin(req) => req.id != ""
    case Write(c, ok) => c < |r.calls| && r.calls[c].pc.Registered? && (ok ==> !r.broken)
    case Receive(c) => c < |r.calls| && r.calls[c].pc.Waiting? && c < |r.table.chans| && r.table.chans[c].Some?
    case TimeOut(c) => c < |r.calls| && r.calls[c].pc.Waiting?
    case Finish(c) => c < |r.calls| && r.calls[c].pc.Leaving?
    case Arrive(_) => true
    case Decode => r.reader.Reading? && r.read < |r.wire|
    case LookUp => r.reader.Decoded? && 0 < r.read <= |r.wire|
    case Send => r.reader.Sending? && 0 < r.read && r.reader.ch < |r.table.chans|
    case Disconnect => r.reader.Reading?
  }

  function SetPc(r: Relay, c: nat, pc: Pc): Relay
    requires c < |r.calls|
  {
    r.(calls := r.calls[c := r.calls[c].(pc := pc)])
  }

  function Step(r: Relay, e: Event): Relay
    requires Enabled(r, e)
  {
    match e
    case Begin(req) =>
      r.(calls := r.calls + [Call(req, Registered, None, |r.sent|, if Seen(r) < 0 then 0 else Seen(r))],
         table := W.Register(r.table, req.id),
         log := r.log + [Put(|r.calls|)])
    case Write(c, ok) =>
      if ok then
        r.(calls := r.calls[c := r.calls[c].(pc := Waiting, slot := Some(|r.sent|))],
           sent := r.sent + [Sent(r.calls[c].req, c)])
      else
        SetPc(r, c, Leaving(WriteFailed)).(broken := true)
    case Receive(c) =>
      SetPc(r, c, Leaving(Got(r.table.chans[c].value))).(table := W.Take(r.table, c))
    case TimeOut(c) => SetPc(r, c, Leaving(TimedOut))
    case Finish(c) =>
      SetPc(r, c, Done(r.calls[c].pc.out)).(
        table := W.Deregister(r.table, r.calls[c].req.id),
        log := r.log + [Cut(c)])
    case Arrive(m) => r.(wire := r.wire + [m])
    case Decode => r.(reader := Decoded, read := r.read + 1)
    case LookUp =>
      var m := r.wire[r.read - 1];
      if m.Resp? && m.id != "" && W.Lookup(r.table, m.id).Some? then
        r.(reader := Sending(W.Lookup(r.table, m.id).value))
      else
        r.(reader := Reading)
    case Send => r.(reader := Reading, table := W.TrySend(r.table, r.reader.ch, r.read - 1))
    case Disconnect => r.(reader := Stopped)
  }

  predicate CanRun(r: Relay, es: seq<Event>)
    decreases |es|
  {
    es == [] || (Enabled(r, es[0]) && CanRun(Step(r, es[0]), es[1..]))
  }

  function RunFrom(r: Relay, es: seq<Event>): Relay
    requires CanRun(r, es)
    decreases |es|
  {
    if es == [] then r else RunFrom(Step(r, es[0]), es[1..])
  }

  // ----- What every step keeps, whatever the agent sends and however ids are reused -----

  /** Positions below this have left the reader's hands. */
  function HandedOn(r: Relay): int {
    if r.reader.Decoded? || r.reader.Sending? then r.read - 1 else r.read
  }

  /** Message n is a response that carries the id call c asked for. */
  predicate Fits(r: Relay, c: nat, n: nat) {
    c < |r.calls| && n < |r.wire| && r.wire[n].Resp? && r.wire[n].id == r.calls[c].req.id
  }

  ghost predicate TableOk(r: Relay) {
    && |r.table.chans| == |r.calls|
    && (forall c | 0 <= c < |r.calls| :: r.calls[c].req.id != "")
    && (forall id | id in r.table.responses ::
          var c := r.table.responses[id];
          c < |r.calls| && r.calls[c].req.id == id && InFlight(r.calls[c]))
  }

  ghost predicate ReaderOk(r: Relay) {
    && r.read <= |r.wire|
    && (r.reader.Decoded? ==> 0 < r.read)
    && (r.reader.Sending? ==> 0 < r.read && Fits(r, r.reader.ch, r.read - 1))
  }

  ghost predicate HeldOk(r: Relay)
    requires |r.table.chans| == |r.calls|
  {
    && (forall c | 0 <= c < |r.calls| && r.table.chans[c].Some? ::
          r.table.chans[c].value < HandedOn(r) && Fits(r, c, r.table.chans[c].value))
    && (forall c | 0 <= c < |r.calls| && HasOutcome(r.calls[c]) && r.calls[c].pc.out.Got? ::
          r.calls[c].pc.out.k < HandedOn(r) && Fits(r, c, r.calls[c].pc.out.k))
  }

  /** Message n is in the hands of call c: in its channel, or taken out of it. */
  predicate Holds(r: Relay, c: nat, n: nat)
    requires |r.table.chans| == |r.calls|
  {
    c < |r.calls| && (r.table.chans[c] == Some(n) || Took(r.calls[c], n))
  }

  ghost predicate Exclusive(r: Relay)
    requires |r.table.chans| == |r.calls|
  {
    && (forall c, d, n: nat | 0 <= c < |r.calls| && 0 <= d < |r.calls| && Holds(r, c, n) && Holds(r, d, n) :: c == d)
    && (forall c, n: nat | 0 <= c < |r.calls| && Took(r.calls[c], n) :: r.table.chans[c] != Some(n))
  }

  /** A call has a slot exactly when its request was written. */
  predicate SlotOk(k: Call) {
    k.slot.None? <==> k.pc.Registered? || (HasOutcome(k) && k.pc.out.WriteFailed?)
  }

  /** Each written request belongs to one call, and each call wrote at most one. */
  ghost predicate SentOk(r: Relay) {
    && (forall i | 0 <= i < |r.sent| ::
          r.sent[i].caller < |r.calls| && r.calls[r.sent[i].caller].slot == Some(i)
          && r.calls[r.sent[i].caller].req == r.sent[i].req)
    && (forall c | 0 <= c < |r.calls| && r.calls[c].slot.Some? ::
          r.calls[c].slot.value < |r.sent| && r.sent[r.calls[c].slot.value].caller == c)
    && (forall c | 0 <= c < |r.calls| :: SlotOk(r.calls[c]))
  }

  ghost predicate Inv(r: Relay) {
    TableOk(r) && ReaderOk(r) && HeldOk(r) && Exclusive(r) && SentOk(r)
  }

  lemma SameTableKept(r: Relay, r': Relay)
    requires TableOk(r) && r'.table.responses == r.table.responses
    requires |r'.calls| == |r.calls| == |r'.table.chans|
    requires forall c | 0 <= c < |r.calls| ::
               r'.calls[c].req == r.calls[c].req && (InFlight(r.calls[c]) ==> InFlight(r'.calls[c]))
    ensures TableOk(r')
  {
  }

  lemma FinishKeepsTable(r: Relay, c: nat)
    requires TableOk(r) && Enabled(r, Finish(c))
    ensures TableOk(Step(r, Finish(c)))
  {
  }

  lemma BeginKeepsTable(r: Relay, req: Request)
    requires TableOk(r) && Enabled(r, Begin(req))
    ensures TableOk(Step(r, Begin(req)))
  {
  }

  lemma StepKeepsTable(r: Relay, e: Event)
    requires TableOk(r) && Enabled(r, e)
    ensures TableOk(Step(r, e))
  {
    match e
    case Begin(req) => BeginKeepsTable(r, req);
    case Finish(c) => FinishKeepsTable(r, c);
    case _ => SameTableKept(r, Step(r, e));
  }

  lemma StepKeepsReader(r: Relay, e: Event)
    requires TableOk(r) && ReaderOk(r) && Enabled(r, e)
    ensures ReaderOk(Step(r, e))
  {
  }

  lemma HandedOnGrows(r: Relay, e: Event)
    requires Enabled(r, e)
    ensures HandedOn(r) <= HandedOn(Step(r, e))
  {
  }

  lemma StillFits(r: Relay, e: Event, c: nat, n: nat)
    requires Enabled(r, e) && Fits(r, c, n)
    ensures Fits(Step(r, e), c, n)
  {
  }

  /** A buffered message was there before or is being sent; a taken one was taken before or is being received. */
  lemma HeldFrom(r: Relay, e: Event, c: nat)
    requires |r.table.chans| == |r.calls| && Enabled(r, e) && c < |Step(r, e).calls| == |Step(r, e).table.chans|
    ensures var r' := Step(r, e);
            && (r'.table.chans[c].Some? ==>
                  || (c < |r.calls| && r.table.chans[c] == r'.table.chans[c])
                  || (e.Send? && c == r.reader.ch && r'.table.chans[c] == Some(r.read - 1)))
            && (HasOutcome(r'.calls[c]) && r'.calls[c].pc.out.Got? ==>
                  c < |r.calls| &&
                  (|| (HasOutcome(r.calls[c]) && r.calls[c].pc.out == r'.calls[c].pc.out)
                   || (e.Receive? && r.table.chans[c] == Some(r'.calls[c].pc.out.k))))
  {
  }

  lemma StepKeepsHeld(r: Relay, e: Event)
    requires TableOk(r) && ReaderOk(r) && HeldOk(r) && Enabled(r, e) && TableOk(Step(r, e))
    ensures HeldOk(Step(r, e))
  {
    var r' := Step(r, e);
    HandedOnGrows(r, e);
    forall c: nat | c < |r'.calls| && r'.table.chans[c].Some?
      ensures r'.table.chans[c].value < HandedOn(r') && Fits(r', c, r'.table.chans[c].value)
    {
      HeldFrom(r, e, c);
      StillFits(r, e, c, r'.table.chans[c].value);
    }
    forall c: nat | c < |r'.calls| && HasOutcome(r'.calls[c]) && r'.calls[c].pc.out.Got?
      ensures r'.calls[c].pc.out.k < HandedOn(r') && Fits(r', c, r'.calls[c].pc.out.k)
    {
      HeldFrom(r, e, c);
      StillFits(r, e, c, r'.calls[c].pc.out.k);
    }
  }

  /** A message comes into a call's hands only when the reader sends it. */
  lemma HeldBefore(r: Relay, e: Event, c: nat, n: nat)
    requires Inv(r) && Enabled(r, e) && TableOk(Step(r, e)) && Holds(Step(r, e), c, n)
    ensures Holds(r, c, n) || (e.Send? && r.reader.ch == c && n == r.read - 1 && r.table.chans[c].None?)
  {
  }

  lemma HeldByOne(r: Relay, e: Event, c: nat, d: nat, n: nat)
    requires Inv(r) && Enabled(r, e) && TableOk(Step(r, e)) && Holds(Step(r, e), c, n) && Holds(Step(r, e), d, n)
    ensures c == d
  {
    HeldBefore(r, e, c, n);
    HeldBefore(r, e, d, n);
  }

  lemma TakenIsNotBuffered(r: Relay, e: Event, c: nat, n: nat)
    requires Inv(r) && Enabled(r, e) && TableOk(Step(r, e)) && c < |Step(r, e).calls| && Took(Step(r, e).calls[c], n)
    ensures Step(r, e).table.chans[c] != Some(n)
  {
  }

  lemma StepKeepsExclusive(r: Relay, e: Event)
    requires Inv(r) && Enabled(r, e) && TableOk(Step(r, e))
    ensures Exclusive(Step(r, e))
  {
    var r' := Step(r, e);
    forall c: nat, d: nat, n: nat | c < |r'.calls| && d < |r'.calls| && Holds(r', c, n) && Holds(r', d, n)
      ensures c == d
    {
      HeldByOne(r, e, c, d, n);
    }
    forall c: nat, n: nat | c < |r'.calls| && Took(r'.calls[c], n) ensures r'.table.chans[c] != Some(n) {
      TakenIsNotBuffered(r, e, c, n);
    }
  }

  lemma StepKeepsSent(r: Relay, e: Event)
    requires Inv(r) && Enabled(r, e)
    ensures SentOk(Step(r, e))
  {
    if e.Write? {
      WriteKeepsSent(r, e.c, e.ok);
    } else {
      OthersKeepSent(r, Step(r, e));
    }
  }

  lemma OthersKeepSent(r: Relay, r': Relay)
    requires SentOk(r) && r'.sent == r.sent && |r.calls| <= |r'.calls|
    requires forall c | 0 <= c < |r.calls| :: r'.calls[c].slot == r.calls[c].slot && r'.calls[c].req == r.calls[c].req
    requires forall c | |r.calls| <= c < |r'.calls| :: r'.calls[c].slot.None?
    requires forall c | 0 <= c < |r'.calls| :: SlotOk(r'.calls[c])
    ensures SentOk(r')
  {
  }

  lemma WriteKeepsSent(r: Relay, c: nat, ok: bool)
    requires SentOk(r) && Enabled(r, Write(c, ok))
    ensures SentOk(Step(r, Write(c, ok)))
  {
  }

  lemma StepKeepsInv(r: Relay, e: Event)
    requires Inv(r) && Enabled(r, e)
    ensures Inv(Step(r, e))
  {
    StepKeepsTable(r, e);
    StepKeepsReader(r, e);
    StepKeepsHeld(r, e);
    StepKeepsExclusive(r, e);
    StepKeepsSent(r, e);
  }

  lemma {:induction false} RunKeepsInv(r: Relay, es: seq<Event>)
    requires Inv(r) && CanRun(r, es)
    ensures Inv(RunFrom(r, es))
    decreases |es|
  {
    if es != [] {
      StepKeepsInv(r, es[0]);
      RunKeepsInv(Step(r, es[0]), es[1..]);
    }
  }

  /**
   * Injective delivery, under any id reuse: a call that returns a response asked for that response's id, and no
   * other call ever returns the same message.
   */
  lemma InjectiveDelivery(es: seq<Event>, c: nat, d: nat)
    requires CanRun(START, es)
    requires c < |RunFrom(START, es).calls| && d < |RunFrom(START, es).calls|
    ensures var r := RunFrom(START, es); forall n: nat | Took(r.calls[c], n) ::
              && n < r.read <= |r.wire| && r.wire[n].Resp? && r.wire[n].id == r.calls[c].req.id
              && (Took(r.calls[d], n) ==> c == d)
  {
    RunKeepsInv(START, es);
    var r := RunFrom(START, es);
    forall n: nat | Took(r.calls[c], n) && Took(r.calls[d], n) ensures c == d {
      assert Holds(r, c, n) && Holds(r, d, n);
    }
  }

  /** The reader is never stuck: unless it has stopped, its next step is enabled as soon as a message is there. */
  lemma ReaderNeverBlocks(es: seq<Event>)
    requires CanRun(START, es)
    ensures var r := RunFrom(START, es);
            r.reader.Stopped? || (r.reader.Reading? && r.read == |r.wire|) ||
            Enabled(r, Decode) || Enabled(r, LookUp) || Enabled(r, Send)
  {
    RunKeepsInv(START, es);
  }

  /** No leaked waiters: the table lists only calls between registration and deferred delete. */
  lemma NoLeakedWaiters(es: seq<Event>)
    requires CanRun(START, es)
    ensures var r := RunFrom(START, es);
            && (forall id | id in r.table.responses ::
                  exists c :: 0 <= c < |r.calls| && InFlight(r.calls[c]) && r.calls[c].req.id == id)
            && ((forall c | 0 <= c < |r.calls| :: !InFlight(r.calls[c])) ==> r.table.responses == map[])
  {
    RunKeepsInv(START, es);
    var r := RunFrom(START, es);
    forall id | id in r.table.responses
      ensures exists c :: 0 <= c < |r.calls| && InFlight(r.calls[c]) && r.calls[c].req.id == id
    {
      var c := r.table.responses[id];
      assert InFlight(r.calls[c]) && r.calls[c].req.id == id;
    }
    if forall c | 0 <= c < |r.calls| :: !InFlight(r.calls[c]) {
      assert r.table.responses.Keys == {};
    }
  }
}
