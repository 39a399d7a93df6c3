/** The agent's side of a connection as the loop it is: `handleConnection`, agent/runtime.go:130-175. */
module AgentLoop {
  import opened Wire
  import C = Connection

  /** What one request makes the agent write. */
  function Answer(m: Request, shell: Shell): seq<Message>
    requires Plausible(shell)
  {
    if m.kind == "exec" then [Resp(m.id, CommandResult(m.cmd, shell))]
    else if m.kind == "ping" then [Pong]
    else []
  }

  /** Everything a run of requests makes the agent write; `shells` says how each command would end. */
  function Serve(q: seq<Request>, shells: nat -> Shell): seq<Message>
    requires forall i: nat :: Plausible(shells(i))
  {
    if q == [] then [] else Serve(q[..|q| - 1], shells) + Answer(q[|q| - 1], shells(|q| - 1))
  }

  /** The answers that the `exec` requests among these should get, in order. */
  function Expected(q: seq<Request>, shells: nat -> Shell): seq<Message>
    requires forall i: nat :: Plausible(shells(i))
  {
    if q == [] then []
    else
      var n := |q| - 1;
      Expected(q[..n], shells) +
      (if q[n].kind == "exec" then [Resp(q[n].id, CommandResult(q[n].cmd, shells(n)))] else [])
  }

  function Responses(w: seq<Message>): seq<Message> {
    if w == [] then [] else Responses(w[..|w| - 1]) + (if w[|w| - 1].Resp? then [w[|w| - 1]] else [])
  }

  function Pings(q: seq<Request>): nat {
    if q == [] then 0 else Pings(q[..|q| - 1]) + (if q[|q| - 1].kind == "ping" then 1 else 0)
  }

  function Pongs(w: seq<Message>): nat {
    if w == [] then 0 else Pongs(w[..|w| - 1]) + (if w[|w| - 1].Pong? then 1 else 0)
  }

  /**
   * The agent answers exactly one response per `exec`, in order, with its id and the result of its command, one Pong
   * per `ping`, and nothing for anything else.
   */
  lemma {:induction false} ServeAnswersRequests(q: seq<Request>, shells: nat -> Shell)
    requires forall i: nat :: Plausible(shells(i))
    ensures Responses(Serve(q, shells)) == Expected(q, shells)
    ensures Pongs(Serve(q, shells)) == Pings(q)
    ensures |Serve(q, shells)| == |Expected(q, shells)| + Pings(q)
  {
    if q != [] {
      var front, last := q[..|q| - 1], q[|q| - 1];
      ServeAnswersRequests(front, shells);
      var w, a := Serve(front, shells), Answer(last, shells(|q| - 1));
      assert a == [] ==> w + a == w;
      assert a != [] ==> (w + a)[..|w + a| - 1] == w;
    }
  }

  predicate PongsFrom(w: seq<Message>, n: nat) {
    forall k | n <= k < |w| :: w[k].Pong?
  }

  /**
   * The greeting and the dispatch loop, on a connection whose first `writes` writes succeed and that delivers `inbox`
   * before it ends, by an end of file or by another read error. A failed Pong is ignored; a failed greeting or response
   * ends the connection with an error, and so does a read error.
   */
  method HandleConnection(inbox: seq<Request>, shells: nat -> Shell, writes: nat, endOfFile: bool)
    returns (out: seq<Message>, failed: bool)
    requires forall i: nat :: Plausible(shells(i))
    ensures var full := [Hello] + Serve(inbox, shells);
            && out <= full && |out| == (if writes < |full| then writes else |full|)
            && (failed <==> !PongsFrom(full, |out|) || !endOfFile)
  {
    ghost var full := [Hello] + Serve(inbox, shells);
    out, failed := [], false;
    if writes == 0 {
      assert full[0] == Hello;
      return [], true;
    }
    out := [Hello];
    for i := 0 to |inbox|
      invariant 0 < |out| <= writes
      invariant out <= [Hello] + Serve(inbox[..i], shells)
      invariant |out| < writes ==> out == [Hello] + Serve(inbox[..i], shells)
      invariant PongsFrom([Hello] + Serve(inbox[..i], shells), |out|)
    {
      ghost var before := [Hello] + Serve(inbox[..i], shells);
      ServeNext(inbox, i, shells);
      if inbox[i].kind == "exec" {
        var r := CommandResult(inbox[i].cmd, shells(i));
        if |out| == writes {
          assert full[|before|] == Resp(inbox[i].id, r);
          return out, true;
        }
        out := out + [Resp(inbox[i].id, r)];
      } else if inbox[i].kind == "ping" {
        if |out| < writes {
          out := out + [Pong];
        }
      }
    }
    assert inbox[..|inbox|] == inbox;
    failed := !endOfFile;
  }

  lemma ServeNext(q: seq<Request>, i: nat, shells: nat -> Shell)
    requires i < |q| && forall i: nat :: Plausible(shells(i))
    ensures [Hello] + Serve(q[..i + 1], shells) == ([Hello] + Serve(q[..i], shells)) + Answer(q[i], shells(i))
    ensures ([Hello] + Serve(q[..i], shells)) + Answer(q[i], shells(i)) <= [Hello] + Serve(q, shells)
  {
    var t := q[..i + 1];
    assert |t| == i + 1 && t[..i] == q[..i] && t[i] == q[i];
    ServeGrows(q, i + 1, shells);
    PrefixAfter(Hello, Serve(q[..i], shells), Answer(q[i], shells(i)), Serve(q, shells));
  }

  lemma PrefixAfter(h: Message, a: seq<Message>, b: seq<Message>, full: seq<Message>)
    requires a + b <= full
    ensures [h] + (a + b) == ([h] + a) + b <= [h] + full
  {
  }

  /** What the agent has written never depends on later requests. */
  lemma {:induction false} ServeGrows(q: seq<Request>, i: nat, shells: nat -> Shell)
    requires i <= |q| && forall i: nat :: Plausible(shells(i))
    ensures Serve(q[..i], shells) <= Serve(q, shells)
    decreases |q|
  {
    if i == |q| {
      assert q[..i] == q;
    } else {
      ServeGrows(q[..|q| - 1], i, shells);
      assert q[..|q| - 1][..i] == q[..i];
    }
  }

  /** The n requests from position lo on. */
  function Requests(q: seq<Sent>, lo: nat, n: nat): seq<Request>
    requires lo + n <= |q|
  {
    seq(n, i requires 0 <= i < n => q[lo + i].req)
  }

  function Served(j: C.Joint, n: nat, w: seq<Message>, runs: seq<C.Run>): C.Joint {
    j.(taken := j.taken + n, runs := runs, relay := j.relay.(wire := j.relay.wire + w))
  }

  lemma MachineServesOne(j: C.Joint, shell: Shell) returns (es: seq<C.Event>)
    requires Plausible(shell) && j.agent.Ready? && !j.mute && j.taken < |j.relay.sent|
    ensures C.CanRun(j, es)
    ensures C.RunFrom(j, es) == Served(j, 1, Answer(j.relay.sent[j.taken].req, shell), C.RunFrom(j, es).runs)
  {
    var j1 := C.Step(j, C.Take(true));
    C.RunOfOne(j, C.Take(true));
    es := [C.Take(true)];
    if j.relay.sent[j.taken].req.kind == "exec" {
      C.RunOfOne(j1, C.Ran(shell));
      C.RunAppends(j, es, [C.Ran(shell)]);
      es := es + [C.Ran(shell)];
      var j2 := C.Step(j1, C.Ran(shell));
      C.RunOfOne(j2, C.Reply(true));
      C.RunAppends(j, es, [C.Reply(true)]);
      es := es + [C.Reply(true)];
    } else {
      assert j.relay.wire + [] == j.relay.wire;
    }
  }

  /** What the loop writes on the next n requests. */
  function Saying(j: C.Joint, n: nat, shells: nat -> Shell): seq<Message>
    requires j.taken + n <= |j.relay.sent| && forall i: nat :: Plausible(shells(i))
  {
    Serve(Requests(j.relay.sent, j.taken, n), shells)
  }

  lemma SayingNext(j: C.Joint, n: nat, shells: nat -> Shell)
    requires j.taken + n < |j.relay.sent| && forall i: nat :: Plausible(shells(i))
    ensures Saying(j, n + 1, shells) == Saying(j, n, shells) + Answer(j.relay.sent[j.taken + n].req, shells(n))
  {
    ServeStretch(j.relay.sent, j.taken, n, shells);
  }

  /**
   * The agent steps of Connection.dfy are this loop: taken one after the other they serve the queued requests and
   * leave on the wire what HandleConnection writes.
   */
  lemma {:induction false} MachineServesQueue(j: C.Joint, n: nat, shells: nat -> Shell) returns (es: seq<C.Event>)
    requires forall i: nat :: Plausible(shells(i))
    requires j.agent.Ready? && !j.mute && j.taken + n <= |j.relay.sent|
    ensures C.CanRun(j, es)
    ensures C.RunFrom(j, es) == Served(j, n, Saying(j, n, shells), C.RunFrom(j, es).runs)
  {
    if n == 0 {
      es := [];
      assert j.relay.wire + [] == j.relay.wire;
    } else {
      var front := MachineServesQueue(j, n - 1, shells);
      es := ServeLast(j, n - 1, shells, front);
    }
  }

  lemma ServeLast(j: C.Joint, n: nat, shells: nat -> Shell, front: seq<C.Event>) returns (es: seq<C.Event>)
    requires forall i: nat :: Plausible(shells(i))
    requires j.agent.Ready? && !j.mute && j.taken + n < |j.relay.sent| && C.CanRun(j, front)
    requires C.RunFrom(j, front) == Served(j, n, Saying(j, n, shells), C.RunFrom(j, front).runs)
    ensures C.CanRun(j, es)
    ensures C.RunFrom(j, es) == Served(j, n + 1, Saying(j, n + 1, shells), C.RunFrom(j, es).runs)
  {
    var k := C.RunFrom(j, front);
    var last := MachineServesOne(k, shells(n));
    C.RunAppends(j, front, last);
    es := front + last;
    SayingNext(j, n, shells);
    ServedTwice(j, n, Saying(j, n, shells), k.runs, Answer(j.relay.sent[j.taken + n].req, shells(n)),
                C.RunFrom(k, last).runs);
  }

  lemma ServeSnoc(q: seq<Request>, shells: nat -> Shell)
    requires q != [] && forall i: nat :: Plausible(shells(i))
    ensures Serve(q, shells) == Serve(q[..|q| - 1], shells) + Answer(q[|q| - 1], shells(|q| - 1))
  {
  }

  lemma RequestsSnoc(q: seq<Sent>, lo: nat, n: nat)
    requires lo + n < |q|
    ensures Requests(q, lo, n + 1)[..n] == Requests(q, lo, n) && Requests(q, lo, n + 1)[n] == q[lo + n].req
  {
  }

  lemma ServeStretch(q: seq<Sent>, lo: nat, n: nat, shells: nat -> Shell)
    requires lo + n < |q| && forall i: nat :: Plausible(shells(i))
    ensures Serve(Requests(q, lo, n + 1), shells) ==
            Serve(Requests(q, lo, n), shells) + Answer(q[lo + n].req, shells(n))
  {
    RequestsSnoc(q, lo, n);
    ServeSnoc(Requests(q, lo, n + 1), shells);
  }

  lemma ServedTwice(j: C.Joint, n: nat, w: seq<Message>, runs: seq<C.Run>, a: seq<Message>, runs': seq<C.Run>)
    ensures Served(Served(j, n, w, runs), 1, a, runs') == Served(j, n + 1, w + a, runs')
  {
    assert j.relay.wire + (w + a) == (j.relay.wire + w) + a;
  }

  // ----- And nothing else -----

  /** What the loop writes on the first n of these requests. */
  function Said(q: seq<Sent>, n: nat, shells: nat -> Shell): seq<Message>
    requires n <= |q| && forall i: nat :: Plausible(shells(i))
  {
    [Hello] + Serve(Requests(q, 0, n), shells)
  }

  /** Everything has been written, or, on a connection that takes no more writes, everything but some last Pongs. */
  predicate InStep(w: seq<Message>, mute: bool, full: seq<Message>) {
    w <= full && PongsFrom(full, |w|) && (!mute ==> w == full)
  }

  /** A halted agent was done with all requests it took, or was at its last one. */
  predicate EndedInStep(j: C.Joint, shells: nat -> Shell)
    requires j.taken <= |j.relay.sent| && forall i: nat :: Plausible(shells(i))
  {
    || (j.taken == 0 && j.relay.wire == [])
    || InStep(j.relay.wire, j.mute, Said(j.relay.sent, j.taken, shells))
    || (0 < j.taken && InStep(j.relay.wire, j.mute, Said(j.relay.sent, j.taken - 1, shells)))
  }

  /** The agent's side of the wire is what the loop writes when `shells` says how the commands end. */
  ghost predicate FollowsLoop(j: C.Joint, shells: nat -> Shell)
    requires forall i: nat :: Plausible(shells(i))
  {
    && j.taken <= |j.relay.sent| && (C.Busy(j) ==> 0 < j.taken && C.Current(j).kind == "exec")
    && match j.agent
       case Greeting => j.taken == 0 && j.relay.wire == [] && !j.mute
       case Ready => InStep(j.relay.wire, j.mute, Said(j.relay.sent, j.taken, shells))
       case Running => InStep(j.relay.wire, j.mute, Said(j.relay.sent, j.taken - 1, shells))
       case Replying(result) =>
         && InStep(j.relay.wire, j.mute, Said(j.relay.sent, j.taken - 1, shells))
         && result == CommandResult(C.Current(j).cmd, shells(j.taken - 1))
       case Halted => EndedInStep(j, shells)
  }

  lemma SaidSnoc(q: seq<Sent>, n: nat, shells: nat -> Shell)
    requires n < |q| && forall i: nat :: Plausible(shells(i))
    ensures Said(q, n + 1, shells) == Said(q, n, shells) + Answer(q[n].req, shells(n))
  {
    ServeStretch(q, 0, n, shells);
  }

  /** Later requests and later shells do not matter. */
  lemma {:induction false} SaidKept(q: seq<Sent>, q': seq<Sent>, n: nat, shells: nat -> Shell, shells': nat -> Shell)
    requires n <= |q| && q <= q' && (forall i: nat :: Plausible(shells(i))) && (forall i: nat :: Plausible(shells'(i)))
    requires forall i: nat | i < n :: shells'(i) == shells(i)
    ensures Said(q', n, shells') == Said(q, n, shells)
  {
    if n > 0 {
      SaidKept(q, q', n - 1, shells, shells');
      SaidSnoc(q, n - 1, shells);
      SaidSnoc(q', n - 1, shells');
    }
  }

  lemma RelayStepFollows(j: C.Joint, e: C.Event, shells: nat -> Shell)
    requires (forall i: nat :: Plausible(shells(i))) && FollowsLoop(j, shells) && e.OfRelay? && C.Enabled(j, e)
    ensures FollowsLoop(C.Step(j, e), shells)
  {
    C.RelayStepFrame(j.relay, e.e);
    SaidKept(j.relay.sent, C.Step(j, e).relay.sent, j.taken, shells, shells);
    if 0 < j.taken {
      SaidKept(j.relay.sent, C.Step(j, e).relay.sent, j.taken - 1, shells, shells);
    }
  }

  /** A ping is answered, or, from then on, nothing is written any more; what is neither exec nor ping says nothing. */
  lemma InStepNext(w: seq<Message>, mute: bool, full: seq<Message>, m: Request, shell: Shell, ok: bool)
    requires Plausible(shell) && InStep(w, mute, full) && m.kind != "exec" && (ok ==> !mute)
    ensures var full' := full + Answer(m, shell);
            if m.kind != "ping" then InStep(w, mute, full')
            else if ok then InStep(w + [Pong], mute, full')
            else InStep(w, true, full')
  {
    if m.kind != "ping" {
      assert full + [] == full;
    }
  }

  lemma TakeFollows(j: C.Joint, ok: bool, shells: nat -> Shell)
    requires (forall i: nat :: Plausible(shells(i))) && FollowsLoop(j, shells) && C.Enabled(j, C.Take(ok))
    ensures FollowsLoop(C.Step(j, C.Take(ok)), shells)
  {
    var m := j.relay.sent[j.taken].req;
    if m.kind != "exec" {
      SaidSnoc(j.relay.sent, j.taken, shells);
      InStepNext(j.relay.wire, j.mute, Said(j.relay.sent, j.taken, shells), m, shells(j.taken), ok);
    }
  }

  lemma ReplyFollows(j: C.Joint, ok: bool, shells: nat -> Shell)
    requires (forall i: nat :: Plausible(shells(i))) && FollowsLoop(j, shells) && C.Enabled(j, C.Reply(ok))
    ensures FollowsLoop(C.Step(j, C.Reply(ok)), shells)
  {
    SaidSnoc(j.relay.sent, j.taken - 1, shells);
  }

  lemma GreetFollows(j: C.Joint, ok: bool, shells: nat -> Shell)
    requires (forall i: nat :: Plausible(shells(i))) && FollowsLoop(j, shells) && C.Enabled(j, C.Greet(ok))
    ensures FollowsLoop(C.Step(j, C.Greet(ok)), shells)
  {
    assert j.relay.wire + [Hello] == [Hello];
    assert Requests(j.relay.sent, 0, 0) == [];
    assert Said(j.relay.sent, 0, shells) == [Hello];
  }

  lemma RanFollows(j: C.Joint, shell: Shell, shells: nat -> Shell) returns (shells': nat -> Shell)
    requires (forall i: nat :: Plausible(shells(i))) && FollowsLoop(j, shells) && C.Enabled(j, C.Ran(shell))
    ensures (forall i: nat :: Plausible(shells'(i))) && FollowsLoop(C.Step(j, C.Ran(shell)), shells')
  {
    shells' := (i: nat) => if i == j.taken - 1 then shell else shells(i);
    SaidKept(j.relay.sent, j.relay.sent, j.taken - 1, shells, shells');
  }

  lemma StepFollows(j: C.Joint, e: C.Event, shells: nat -> Shell) returns (shells': nat -> Shell)
    requires (forall i: nat :: Plausible(shells(i))) && FollowsLoop(j, shells) && C.Enabled(j, e)
    ensures (forall i: nat :: Plausible(shells'(i))) && FollowsLoop(C.Step(j, e), shells')
  {
    shells' := shells;
    match e
    case OfRelay(_) => RelayStepFollows(j, e, shells);
    case Take(ok) => TakeFollows(j, ok, shells);
    case Ran(shell) => shells' := RanFollows(j, shell, shells);
    case Reply(ok) => ReplyFollows(j, ok, shells);
    case Greet(ok) => GreetFollows(j, ok, shells);
    case _ =>
  }

  /**
   * The agent steps of Connection.dfy do nothing but this loop: on every run, whatever relay, network and crashes do,
   * there are endings for the commands such that the agent has written exactly what the loop writes on the requests it
   * is done with, short only of last Pongs on a connection that takes no more writes.
   */
  lemma {:induction false} AgentFollowsLoop(j: C.Joint, es: seq<C.Event>, shells: nat -> Shell)
    returns (shells': nat -> Shell)
    requires (forall i: nat :: Plausible(shells(i))) && FollowsLoop(j, shells) && C.CanRun(j, es)
    ensures (forall i: nat :: Plausible(shells'(i))) && FollowsLoop(C.RunFrom(j, es), shells')
    decreases |es|
  {
    shells' := shells;
    if es != [] {
      shells' := StepFollows(j, es[0], shells);
      shells' := AgentFollowsLoop(C.Step(j, es[0]), es[1..], shells');
    }
  }

  /** In particular on every run from the start. */
  lemma EveryRunFollowsLoop(es: seq<C.Event>) returns (shells: nat -> Shell)
    requires C.CanRun(C.START, es)
    ensures (forall i: nat :: Plausible(shells(i))) && FollowsLoop(C.RunFrom(C.START, es), shells)
  {
    shells := AgentFollowsLoop(C.START, es, (i: nat) => Succeeded(""));
  }
}
