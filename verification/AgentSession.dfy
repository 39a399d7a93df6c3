/**
 * The session object of relay/main.go:54-133: the table that `sendRequest` and `readLoop` share, as fields updated in
 * place. Its methods are the critical sections of Session.dfy; the lemmas at the end say so.
 */
module AgentSession {
  import opened Common
  import opened Wire
  import W = Waiters
  import S = Session

  /** A channel of capacity one. */
  class Channel {
    /** Which call of the session made this channel; not part of what the program keeps. */
    ghost const index: nat
    var buf: Option<Message>

    constructor (ghost index: nat)
      ensures this.index == index && buf == None
    {
      this.index := index;
      buf := None;
    }

    /** The reader's `select` with a default branch. */
    method TrySend(m: Message)
      modifies this
      ensures buf == if old(buf).None? then Some(m) else old(buf)
    {
      if buf.None? {
        buf := Some(m);
      }
    }
  }

  ghost function Buffers(cs: seq<Channel>): (bs: seq<Option<Message>>)
    reads cs
    ensures |bs| == |cs| && forall i | 0 <= i < |cs| :: bs[i] == cs[i].buf
  {
    if cs == [] then [] else [cs[0].buf] + Buffers(cs[1..])
  }

  lemma BuffersSnoc(cs: seq<Channel>, c: Channel)
    ensures Buffers(cs + [c]) == Buffers(cs) + [c.buf]
  {
  }

  /** A map of channels, with their numbers in place of them. */
  ghost function Listing(m: map<string, Channel>): map<string, nat> {
    map id | id in m :: m[id].index
  }

  lemma ListingPut(m: map<string, Channel>, id: string, ch: Channel)
    ensures Listing(m[id := ch]) == Listing(m)[id := ch.index]
  {
  }

  lemma ListingDrop(m: map<string, Channel>, id: string)
    ensures Listing(m - {id}) == Listing(m) - {id}
  {
  }

  /** The reader's treatment of one message. */
  function Dispatch(t: W.Table<Message>, m: Message): W.Table<Message> {
    if m.Resp? && m.id != "" && W.Lookup(t, m.id).Some? && W.Lookup(t, m.id).value < |t.chans|
    then W.TrySend(t, W.Lookup(t, m.id).value, m)
    else t
  }

  function DispatchAll(t: W.Table<Message>, ms: seq<Message>): W.Table<Message> {
    if ms == [] then t else Dispatch(DispatchAll(t, ms[..|ms| - 1]), ms[|ms| - 1])
  }

  /** The first response with this id, if there is one. */
  function FirstFor(ms: seq<Message>, id: string): Option<Message> {
    if ms == [] then None
    else if ms[0].Resp? && ms[0].id == id then Some(ms[0])
    else FirstFor(ms[1..], id)
  }

  predicate IsFor(m: Message, id: string) { m.Resp? && m.id == id }

  lemma {:induction false} FirstForIsFirst(ms: seq<Message>, id: string)
    ensures FirstFor(ms, id).None? <==> forall i | 0 <= i < |ms| :: !IsFor(ms[i], id)
    ensures FirstFor(ms, id).Some? ==>
              exists i :: 0 <= i < |ms| && IsFor(ms[i], id) && ms[i] == FirstFor(ms, id).value
                          && (forall h | 0 <= h < i :: !IsFor(ms[h], id))
  {
    if ms != [] && !IsFor(ms[0], id) {
      var rest := ms[1..];
      FirstForIsFirst(rest, id);
      assert forall i | 1 <= i < |ms| :: ms[i] == rest[i - 1];
      if FirstFor(rest, id).Some? {
        var k :| 0 <= k < |rest| && IsFor(rest[k], id) && rest[k] == FirstFor(rest, id).value
                 && (forall h | 0 <= h < k :: !IsFor(rest[h], id));
        assert ms[k + 1] == rest[k];
      } else {
        assert forall i | 0 <= i < |rest| :: rest[i] == ms[i + 1];
      }
    }
  }

  /** Message m is the earliest of these that is a response with this id. */
  ghost predicate IsAnswer(ms: seq<Message>, id: string, m: Message) {
    exists i :: 0 <= i < |ms| && ms[i] == m && IsFor(m, id) && forall h | 0 <= h < i :: !IsFor(ms[h], id)
  }

  ghost predicate HasAnswer(ms: seq<Message>, id: string) { exists i :: 0 <= i < |ms| && IsFor(ms[i], id) }

  lemma FirstForAnswers(ms: seq<Message>, id: string, m: Message)
    ensures FirstFor(ms, id) == Some(m) <==> IsAnswer(ms, id, m)
  {
    FirstForIsFirst(ms, id);
    if IsAnswer(ms, id, m) {
      var i :| 0 <= i < |ms| && ms[i] == m && IsFor(m, id) && forall h | 0 <= h < i :: !IsFor(ms[h], id);
      var k :| 0 <= k < |ms| && IsFor(ms[k], id) && ms[k] == FirstFor(ms, id).value
               && (forall h | 0 <= h < k :: !IsFor(ms[h], id));
      assert i == k;
    }
  }

  lemma FirstForDecides(ms: seq<Message>, id: string)
    ensures FirstFor(ms, id).Some? <==> HasAnswer(ms, id)
    ensures FirstFor(ms, id).Some? ==> IsAnswer(ms, id, FirstFor(ms, id).value)
  {
    FirstForIsFirst(ms, id);
    if FirstFor(ms, id).Some? {
      FirstForAnswers(ms, id, FirstFor(ms, id).value);
    }
  }

  lemma {:induction false} FirstForSnoc(ms: seq<Message>, m: Message, id: string)
    ensures FirstFor(ms + [m], id) ==
            if FirstFor(ms, id).Some? then FirstFor(ms, id) else if m.Resp? && m.id == id then Some(m) else None
  {
    if ms != [] {
      FirstForSnoc(ms[1..], m, id);
      assert (ms + [m])[1..] == ms[1..] + [m];
    }
  }

  datatype SendError = MissingId | WriteFailed | TimedOut

  class AgentSession {
    const deviceID: string
    var responses: map<string, Channel>
    /** What the encoder has written to the agent. */
    var sent: seq<Request>
    ghost var made: seq<Channel>

    ghost predicate Valid()
      reads this`responses, this`made
    {
      && (forall i | 0 <= i < |made| :: made[i].index == i)
      && (forall id | id in responses :: responses[id].index < |made| && made[responses[id].index] == responses[id])
    }

    ghost function Table(): W.Table<Message>
      requires Valid()
      reads this`responses, this`made, made
    {
      W.Table(Listing(responses), Buffers(made))
    }

    constructor (deviceID: string)
      ensures Valid() && made == [] && Table() == W.Empty() && this.deviceID == deviceID && sent == []
    {
      this.deviceID := deviceID;
      sent := [];
      responses := map[];
      made := [];
    }

    method Register(id: string) returns (ch: Channel)
      requires Valid()
      modifies this`responses, this`made
      ensures Valid() && fresh(ch) && made == old(made) + [ch]
      ensures Table() == W.Register(old(Table()), id)
      ensures ch.index == |old(made)| && id in responses && responses[id] == ch
    {
      ghost var before := Table();
      ch := new Channel(|made|);
      assert Buffers(made) == before.chans;
      BuffersSnoc(made, ch);
      ListingPut(responses, id, ch);
      responses := responses[id := ch];
      made := made + [ch];
    }

    /** A successful write of one request. */
    method Encode(req: Request)
      modifies this`sent
      ensures sent == old(sent) + [req]
    {
      sent := sent + [req];
    }

    /** The deferred delete. */
    method Deregister(id: string)
      requires Valid()
      modifies this`responses
      ensures Valid()
      ensures Table() == W.Deregister(old(Table()), id)
    {
      ListingDrop(responses, id);
      responses := responses - {id};
    }

    /** One turn of the read loop. */
    method Deliver(m: Message)
      requires Valid()
      modifies made
      ensures Valid()
      ensures Table() == Dispatch(old(Table()), m)
    {
      ghost var before := Table();
      if m.Resp? && m.id != "" && m.id in responses {
        var ch := responses[m.id];
        ch.TrySend(m);
        assert Table().chans == W.TrySend(before, ch.index, m).chans;
      }
    }

    /** The read loop over what arrives until the connection ends, or until some moment before. */
    method ReadLoop(arrivals: seq<Message>)
      requires Valid()
      modifies made
      ensures Valid()
      ensures Table() == DispatchAll(old(Table()), arrivals)
    {
      for i := 0 to |arrivals|
        invariant Valid()
        invariant Table() == DispatchAll(old(Table()), arrivals[..i])
      {
        Deliver(arrivals[i]);
        assert arrivals[..i + 1][..i] == arrivals[..i];
      }
      assert arrivals[..|arrivals|] == arrivals;
    }

    /** The non-blocking half of the waiting `select`. */
    method TakeFrom(ch: Channel) returns (m: Option<Message>)
      requires Valid() && ch in made && ch.index < |made| && made[ch.index] == ch
      modifies ch
      ensures Valid() && m == old(Table()).chans[ch.index]
      ensures Table() == W.Take(old(Table()), ch.index)
    {
      ghost var before := Table();
      m := ch.buf;
      ch.buf := None;
      assert Table().chans == W.Take(before, ch.index).chans;
    }

    /**
     * The waiting `select`, over what the reader dispatches meanwhile. `timerFirst` says that the timer is chosen even
     * if a message is there by then; the message stays where it is.
     */
    method Wait(ch: Channel, arrivals: seq<Message>, timerFirst: bool) returns (m: Option<Message>)
      requires Valid() && ch in made && ch.index < |made| && made[ch.index] == ch
      modifies made
      ensures Valid() && ch.index < |DispatchAll(old(Table()), arrivals).chans|
      ensures m == if timerFirst then None else DispatchAll(old(Table()), arrivals).chans[ch.index]
      ensures Table() == if timerFirst then DispatchAll(old(Table()), arrivals)
                         else W.Take(DispatchAll(old(Table()), arrivals), ch.index)
    {
      DispatchAllKeepsTable(Table(), arrivals);
      ReadLoop(arrivals);
      if timerFirst {
        return None;
      }
      m := TakeFrom(ch);
    }

    /**
     * One whole `sendRequest` whose write succeeds or not, and during whose wait the reader dispatches `arrivals`. It
     * returns the earliest response with its id among them, and one of its three errors in exactly the other cases.
     */
    method SendRequest(req: Request, writeOk: bool, arrivals: seq<Message>, timerFirst: bool)
      returns (r: Result<Message, SendError>)
      requires Valid()
      modifies this`responses, this`made, this`sent, made
      ensures Valid()
      ensures sent == if req.id != "" && writeOk then old(sent) + [req] else old(sent)
      ensures r == Err(MissingId) <==> req.id == ""
      ensures r == Err(WriteFailed) <==> req.id != "" && !writeOk
      ensures r == Err(TimedOut) <==>
              req.id != "" && writeOk && (timerFirst || !HasAnswer(arrivals, req.id))
      ensures r.Ok? <==> req.id != "" && writeOk && !timerFirst && HasAnswer(arrivals, req.id)
      ensures r.Ok? ==> IsAnswer(arrivals, req.id, r.value)
      ensures Table() == if req.id == "" then old(Table())
                         else AfterSend(old(Table()), req.id, if writeOk then arrivals else [], timerFirst)
    {
      if req.id == "" {
        return Err(MissingId);
      }
      ghost var before := Table();
      var ch := Register(req.id);
      NewWaiterGetsFirst(before, req.id, arrivals);
      AfterUnsent(before, req.id, timerFirst);
      FirstForDecides(arrivals, req.id);
      var got: Option<Message> := None;
      if writeOk {
        Encode(req);
        got := Wait(ch, arrivals, timerFirst);
      }
      Deregister(req.id);
      r := if !writeOk then Err(WriteFailed) else if got.Some? then Ok(got.value) else Err(TimedOut);
    }
  }

  /**
   * The table once the call is over: its id deleted, whoever else had been listed there, and its channel emptied unless
   * the timer was first.
   */
  function AfterSend(t: W.Table<Message>, id: string, arrivals: seq<Message>, timerFirst: bool): (r: W.Table<Message>)
    ensures r.responses == t.responses - {id}
    ensures |r.chans| == |t.chans| + 1 && (!timerFirst ==> r.chans[|t.chans|] == None)
  {
    var u := DispatchAll(W.Register(t, id), arrivals);
    DispatchAllKeepsTable(W.Register(t, id), arrivals);
    assert t.responses[id := |t.chans|] - {id} == t.responses - {id};
    W.Deregister(if timerFirst then u else W.Take(u, |t.chans|), id)
  }

  /** An answer that came too late to be chosen stays in the channel that nobody lists any more. */
  lemma TimerLeavesAnswer(t: W.Table<Message>, id: string, arrivals: seq<Message>)
    requires id != "" && forall x | x in t.responses :: t.responses[x] < |t.chans|
    ensures AfterSend(t, id, arrivals, true).chans[|t.chans|] == FirstFor(arrivals, id)
  {
    NewWaiterGetsFirst(t, id, arrivals);
  }

  lemma AfterUnsent(t: W.Table<Message>, id: string, timerFirst: bool)
    ensures AfterSend(t, id, [], timerFirst) == W.Deregister(W.Register(t, id), id)
  {
    assert W.Take(W.Register(t, id), |t.chans|).chans == W.Register(t, id).chans;
  }

  /** Dispatching changes buffers only. */
  lemma {:induction false} DispatchAllKeepsTable(t: W.Table<Message>, ms: seq<Message>)
    ensures DispatchAll(t, ms).responses == t.responses && |DispatchAll(t, ms).chans| == |t.chans|
  {
    if ms != [] {
      DispatchAllKeepsTable(t, ms[..|ms| - 1]);
    }
  }

  /** Only messages for its id reach a channel that is listed under that id alone. */
  lemma DispatchAt(t: W.Table<Message>, m: Message, id: string, ch: nat)
    requires id != "" && ch < |t.chans| && W.Lookup(t, id) == Some(ch)
    requires forall x | x in t.responses && t.responses[x] == ch :: x == id
    ensures Dispatch(t, m).chans[ch] == if t.chans[ch].None? && IsFor(m, id) then Some(m) else t.chans[ch]
  {
  }

  /** A freshly registered call's channel ends up with the first response that carries its id. */
  lemma {:induction false} NewWaiterGetsFirst(t: W.Table<Message>, id: string, ms: seq<Message>)
    requires id != "" && forall x | x in t.responses :: t.responses[x] < |t.chans|
    ensures var u := DispatchAll(W.Register(t, id), ms);
            && |u.chans| == |t.chans| + 1 && u.responses == t.responses[id := |t.chans|]
            && u.chans[|t.chans|] == FirstFor(ms, id)
  {
    DispatchAllKeepsTable(W.Register(t, id), ms);
    if ms != [] {
      var front, m := ms[..|ms| - 1], ms[|ms| - 1];
      NewWaiterGetsFirst(t, id, front);
      DispatchAt(DispatchAll(W.Register(t, id), front), m, id, |t.chans|);
      FirstForSnoc(front, m, id);
      assert front + [m] == ms;
    }
  }

  // ----- The object and the state machine -----

  /** The message that a buffered position of the wire stands for. */
  function MessageAt(wire: seq<Message>, n: Option<nat>): Option<Message> {
    if n.Some? && n.value < |wire| then Some(wire[n.value]) else None
  }

  function Resolve(wire: seq<Message>, bufs: seq<Option<nat>>): (ms: seq<Option<Message>>)
    ensures |ms| == |bufs| && forall i | 0 <= i < |bufs| :: ms[i] == MessageAt(wire, bufs[i])
  {
    if bufs == [] then [] else [MessageAt(wire, bufs[0])] + Resolve(wire, bufs[1..])
  }

  /** The table of a machine state with messages in place of their positions on the wire. */
  function Contents(r: S.Relay): W.Table<Message> {
    W.Table(r.table.responses, Resolve(r.wire, r.table.chans))
  }

  /** Channels hold only messages that are there. */
  ghost predicate BuffersOk(r: S.Relay) {
    S.TableOk(r) && S.ReaderOk(r) &&
    forall i | 0 <= i < |r.table.chans| && r.table.chans[i].Some? :: r.table.chans[i].value < |r.wire|
  }

  /** So it is in every state that a session can reach, and the lemmas below apply there. */
  lemma ReachableBuffersOk(es: seq<S.Event>)
    requires S.CanRun(S.START, es)
    ensures BuffersOk(S.RunFrom(S.START, es))
  {
    S.RunKeepsInv(S.START, es);
  }

  lemma SendFillsChannel(r: S.Relay)
    requires BuffersOk(r) && r.reader.Sending?
    ensures S.Enabled(r, S.Send) && r.reader.ch < |Contents(r).chans|
    ensures Contents(S.Step(r, S.Send)) == W.TrySend(Contents(r), r.reader.ch, r.wire[r.read - 1])
  {
    assert S.Fits(r, r.reader.ch, r.read - 1);
    var r' := S.Step(r, S.Send);
    assert Contents(r').chans == W.TrySend(Contents(r), r.reader.ch, r.wire[r.read - 1]).chans;
  }

  /** The reader goes on to send exactly when Deliver would, and a lookup that finds no waiter changes nothing. */
  lemma LookUpDecides(r: S.Relay)
    requires S.TableOk(r) && S.Enabled(r, S.LookUp)
    ensures var r1 := S.Step(r, S.LookUp);
            && (r1.reader.Reading? || (r1.reader.Sending? && r1.reader.ch < |Contents(r).chans|))
            && Contents(r1) == Contents(r)
            && Dispatch(Contents(r), r.wire[r.read - 1]) ==
               if r1.reader.Sending? then W.TrySend(Contents(r), r1.reader.ch, r.wire[r.read - 1]) else Contents(r)
  {
  }

  lemma LookUpKeepsBuffers(r: S.Relay)
    requires BuffersOk(r) && S.Enabled(r, S.LookUp)
    ensures BuffersOk(S.Step(r, S.LookUp)) && S.Step(r, S.LookUp).wire == r.wire && S.Step(r, S.LookUp).read == r.read
  {
    S.StepKeepsTable(r, S.LookUp);
    S.StepKeepsReader(r, S.LookUp);
  }

  /** The reader's two steps, lookup and send, are the object's Deliver. */
  lemma LookUpThenSendIsDispatch(r: S.Relay)
    requires BuffersOk(r) && S.Enabled(r, S.LookUp) && S.Step(r, S.LookUp).reader.Sending?
    ensures var r1 := S.Step(r, S.LookUp);
            && S.Enabled(r1, S.Send)
            && Contents(S.Step(r1, S.Send)) == Dispatch(Contents(r), r.wire[r.read - 1])
  {
    LookUpDecides(r);
    LookUpKeepsBuffers(r);
    SendFillsChannel(S.Step(r, S.LookUp));
  }

  /** Registration, deferred delete and reception are the object's Register, Deregister and TakeFrom. */
  lemma CallStepsAreSections(r: S.Relay, e: S.Event)
    requires BuffersOk(r) && S.Enabled(r, e) && (e.Begin? || e.Finish? || e.Receive?)
    ensures e.Receive? ==> e.c < |Contents(r).chans| && Contents(r).chans[e.c] == Some(r.wire[r.table.chans[e.c].value])
    ensures Contents(S.Step(r, e)) ==
            match e
            case Begin(req) => W.Register(Contents(r), req.id)
            case Finish(c) => W.Deregister(Contents(r), r.calls[c].req.id)
            case Receive(c) => W.Take(Contents(r), c)
            case _ => Contents(r)
  {
    var r' := S.Step(r, e);
    match e
    case Begin(_) => assert Contents(r').chans == Contents(r).chans + [None];
    case Receive(c) => assert Contents(r').chans == W.Take(Contents(r), c).chans;
    case Finish(_) => assert Contents(r').chans == Contents(r).chans;
    case _ =>
  }
}
