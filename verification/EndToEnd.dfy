/**
 * The relay of RelayRun.dfy with one connection of Connection.dfy behind each registered handler, and the controller
 * requests that find a session under the global mutex and then use it without (relay/main.go:285-347).
 */
module EndToEnd {
  import opened Common
  import opened Wire
  import C = Connection
  import D = Delivery
  import M = Matching
  import R = RelayRun
  import S = Session

  /**
   * A controller request that found its device's session: the handler it found, and, once its `sendRequest` has
   * registered there, which call of that session it is.
   */
  datatype Task = Task(device: string, req: Request, session: nat, call: Option<nat>)

  datatype Service = Service(relay: R.Relay, conns: seq<C.Joint>, tasks: seq<Task>)

  datatype Event =
    | OfRelay(re: R.Event)
    | OfConn(h: nat, ce: C.Event)
    | Find(device: string, action: string, cmd: string)
    | Call(t: nat)

  function Start(w: R.World): Service { Service(R.Start(w), [], []) }

  predicate IsBegin(e: C.Event) { e.OfRelay? && e.e.Begin? }

  /** A handler is past its read loop once its reader has stopped; calls are started by tasks only. */
  predicate Enabled(s: Service, e: Event) {
    match e
    case OfRelay(re) =>
      R.Enabled(s.relay, re) && (re.EndRead? ==> re.h < |s.conns| && s.conns[re.h].relay.reader.Stopped?)
    case OfConn(h, ce) => h < |s.conns| && C.Enabled(s.conns[h], ce) && !IsBegin(ce)
    case Find(device, _, _) => device in s.relay.sessions
    case Call(t) =>
      && t < |s.tasks| && s.tasks[t].call.None? && s.tasks[t].session < |s.conns|
      && C.Enabled(s.conns[s.tasks[t].session], C.OfRelay(S.Begin(s.tasks[t].req)))
  }

  function Step(w: R.World, s: Service, e: Event): Service
    requires Enabled(s, e)
  {
    match e
    case OfRelay(re) =>
      s.(relay := R.Step(w, s.relay, re),
         conns := if re.Connect? && R.Verdict(w, s.relay, re).Ok? then s.conns + [C.OPENED] else s.conns)
    case OfConn(h, ce) => s.(conns := s.conns[h := C.Step(s.conns[h], ce)])
    case Find(device, action, cmd) =>
      s.(tasks := s.tasks + [Task(device, Request(action, "1", cmd), s.relay.sessions[device], None)])
    case Call(t) =>
      var k := s.tasks[t];
      s.(conns := s.conns[k.session := C.Step(s.conns[k.session], C.OfRelay(S.Begin(k.req)))],
         tasks := s.tasks[t := k.(call := Some(|s.conns[k.session].relay.calls|))])
  }

  predicate CanRun(w: R.World, s: Service, es: seq<Event>)
    decreases |es|
  {
    es == [] || (Enabled(s, es[0]) && CanRun(w, Step(w, s, es[0]), es[1..]))
  }

  function RunFrom(w: R.World, s: Service, es: seq<Event>): Service
    requires CanRun(w, s, es)
    decreases |es|
  {
    if es == [] then s else RunFrom(w, Step(w, s, es[0]), es[1..])
  }

  // ----- What every step keeps -----

  ghost predicate ConnOk(j: C.Joint) { C.Inv(j) && D.DeliveryInv(j.relay) }

  ghost predicate ConnsOk(s: Service) {
    |s.conns| == |s.relay.handlers| && forall h: nat | h < |s.conns| :: ConnOk(s.conns[h])
  }

  /** The task's session is one of its device, and its call there is its own request. */
  predicate TaskOk(s: Service, k: Task) {
    && k.session < |s.relay.handlers| == |s.conns| && R.Device(s.relay, k.session) == k.device && k.req.id == "1"
    && (k.call.Some? ==> k.call.value < |s.conns[k.session].relay.calls|
                         && s.conns[k.session].relay.calls[k.call.value].req == k.req)
  }

  ghost predicate TasksOk(s: Service) {
    forall t: nat | t < |s.tasks| :: TaskOk(s, s.tasks[t])
  }

  /** Task t is call c of session h. */
  predicate IsCall(s: Service, t: nat, h: nat, c: nat) {
    t < |s.tasks| && s.tasks[t].session == h && s.tasks[t].call == Some(c)
  }

  predicate HasCall(s: Service, h: nat, c: nat) { h < |s.conns| && c < |s.conns[h].relay.calls| }

  ghost predicate Owned(s: Service, h: nat, c: nat) { exists t: nat :: IsCall(s, t, h, c) }

  /** Every call of every session is the call of some task, and of one only. */
  ghost predicate CallsOwned(s: Service) {
    && (forall h: nat, c: nat | HasCall(s, h, c) :: Owned(s, h, c))
    && (forall t: nat, u: nat, h: nat, c: nat | IsCall(s, t, h, c) && IsCall(s, u, h, c) :: t == u)
  }

  ghost predicate Inv(w: R.World, s: Service) {
    && R.RegistryOk(s.relay) && R.AuthorityOk(w, s.relay)
    && ConnsOk(s) && TasksOk(s) && CallsOwned(s)
  }

  lemma OpenedRelayOk()
    ensures S.Inv(C.OPENED.relay) && D.DeliveryInv(C.OPENED.relay)
  {
  }

  lemma OpenedOk()
    ensures ConnOk(C.OPENED)
  {
    OpenedRelayOk();
    assert [Hello] == [] + [Hello];
    forall x ensures Resps([Hello], x) == 0 {
      CountAppend([], Hello, RespWith(x));
    }
    forall x ensures C.Balanced(C.OPENED, x) {
    }
  }

  lemma ConnStepOk(j: C.Joint, e: C.Event)
    requires ConnOk(j) && C.Enabled(j, e)
    ensures ConnOk(C.Step(j, e))
  {
    C.StepKeepsInv(j, e);
    M.StepKeepsDelivery(j, e);
  }

  lemma StepKeepsConns(w: R.World, s: Service, e: Event)
    requires ConnsOk(s) && Enabled(s, e)
    ensures ConnsOk(Step(w, s, e))
  {
    match e
    case OfRelay(_) => OpenedOk();
    case OfConn(h, ce) => ConnStepOk(s.conns[h], ce);
    case Find(_, _, _) =>
    case Call(t) => ConnStepOk(s.conns[s.tasks[t].session], C.OfRelay(S.Begin(s.tasks[t].req)));
  }

  /** Nothing a task refers to is ever taken back. */
  predicate Grows(s: Service, s': Service) {
    && |s.conns| <= |s'.conns| && |s.relay.handlers| <= |s'.relay.handlers|
    && (forall h | 0 <= h < |s.relay.handlers| :: s'.relay.handlers[h].auth == s.relay.handlers[h].auth)
    && (forall h | 0 <= h < |s.conns| :: M.Extends(s.conns[h].relay, s'.conns[h].relay))
  }

  lemma StepGrows(w: R.World, s: Service, e: Event)
    requires R.LogOk(s.relay) && Enabled(s, e)
    ensures Grows(s, Step(w, s, e))
  {
    match e
    case OfRelay(re) => R.StepKeepsLog(w, s.relay, re);
    case OfConn(h, ce) => M.StepExtends(s.conns[h], ce);
    case Find(_, _, _) =>
    case Call(t) => M.StepExtends(s.conns[s.tasks[t].session], C.OfRelay(S.Begin(s.tasks[t].req)));
  }

  lemma TaskKept(s: Service, s': Service, k: Task)
    requires TaskOk(s, k) && Grows(s, s') && |s'.conns| == |s'.relay.handlers|
    ensures TaskOk(s', k)
  {
    assert M.Extends(s.conns[k.session].relay, s'.conns[k.session].relay);
  }

  lemma FoundOk(s: Service, device: string, action: string, cmd: string)
    requires R.ListedLive(s.relay) && |s.conns| == |s.relay.handlers| && device in s.relay.sessions
    ensures TaskOk(s, Task(device, Request(action, "1", cmd), s.relay.sessions[device], None))
  {
  }

  lemma StepKeepsTasks(w: R.World, s: Service, e: Event)
    requires R.LogOk(s.relay) && R.ListedLive(s.relay) && TasksOk(s) && Enabled(s, e) && |s.conns| == |s.relay.handlers|
    requires |Step(w, s, e).conns| == |Step(w, s, e).relay.handlers|
    ensures TasksOk(Step(w, s, e))
  {
    var s' := Step(w, s, e);
    StepGrows(w, s, e);
    forall t: nat | t < |s'.tasks| ensures TaskOk(s', s'.tasks[t]) {
      if t < |s.tasks| {
        TaskKept(s, s', s.tasks[t]);
      } else {
        FoundOk(s, e.device, e.action, e.cmd);
      }
    }
  }

  /** Which calls there are changes only when a task's own call begins. */
  lemma StepCalls(w: R.World, s: Service, e: Event, h: nat)
    requires Enabled(s, e) && h < |Step(w, s, e).conns|
    ensures |Step(w, s, e).conns[h].relay.calls| ==
            if h >= |s.conns| then 0
            else if e.Call? && h == s.tasks[e.t].session then |s.conns[h].relay.calls| + 1
            else |s.conns[h].relay.calls|
  {
    match e
    case OfConn(g, ce) => M.OnlyBeginAddsCall(s.conns[g], ce);
    case Call(t) => M.OnlyBeginAddsCall(s.conns[s.tasks[t].session], C.OfRelay(S.Begin(s.tasks[t].req)));
    case _ =>
  }

  lemma StepIsCall(w: R.World, s: Service, e: Event, t: nat, h: nat, c: nat)
    requires Enabled(s, e)
    ensures IsCall(Step(w, s, e), t, h, c) <==>
            || IsCall(s, t, h, c)
            || (e == Call(t) && h == s.tasks[t].session && c == |s.conns[h].relay.calls|)
  {
  }

  lemma StepKeepsOwned(w: R.World, s: Service, e: Event)
    requires TasksOk(s) && CallsOwned(s) && Enabled(s, e)
    ensures CallsOwned(Step(w, s, e))
  {
    var s' := Step(w, s, e);
    forall h: nat, c: nat | HasCall(s', h, c) ensures Owned(s', h, c) {
      StepCalls(w, s, e, h);
      if HasCall(s, h, c) {
        assert Owned(s, h, c);
        var t: nat :| IsCall(s, t, h, c);
        StepIsCall(w, s, e, t, h, c);
      } else {
        StepIsCall(w, s, e, e.t, h, c);
        assert IsCall(s', e.t, h, c);
      }
    }
    forall t: nat, u: nat, h: nat, c: nat | IsCall(s', t, h, c) && IsCall(s', u, h, c) ensures t == u {
      StepIsCall(w, s, e, t, h, c);
      StepIsCall(w, s, e, u, h, c);
      assert t < |s.tasks| ==> TaskOk(s, s.tasks[t]);
      assert u < |s.tasks| ==> TaskOk(s, s.tasks[u]);
    }
  }

  lemma StepKeepsInv(w: R.World, s: Service, e: Event)
    requires Inv(w, s) && Enabled(s, e)
    ensures Inv(w, Step(w, s, e))
  {
    if e.OfRelay? {
      R.StepKeepsRegistry(w, s.relay, e.re);
      R.StepKeepsAuthority(w, s.relay, e.re);
    }
    StepKeepsConns(w, s, e);
    StepKeepsTasks(w, s, e);
    StepKeepsOwned(w, s, e);
  }

  lemma {:induction false} RunKeepsInv(w: R.World, s: Service, es: seq<Event>)
    requires Inv(w, s) && CanRun(w, s, es)
    ensures Inv(w, RunFrom(w, s, es))
    decreases |es|
  {
    if es != [] {
      StepKeepsInv(w, s, es[0]);
      RunKeepsInv(w, Step(w, s, es[0]), es[1..]);
    }
  }

  /** Task t has returned with a response. */
  predicate Returned(s: Service, t: nat) {
    && t < |s.tasks| && s.tasks[t].session < |s.conns| && s.tasks[t].call.Some?
    && s.tasks[t].call.value < |s.conns[s.tasks[t].session].relay.calls|
    && D.TookAny(s.conns[s.tasks[t].session].relay.calls[s.tasks[t].call.value])
  }

  /** The run whose result task t returned, on the connection that its session belongs to. */
  ghost predicate CameFrom(s: Service, t: nat, run: C.Run)
    requires Returned(s, t)
  {
    var j := s.conns[s.tasks[t].session];
    var k := j.relay.calls[s.tasks[t].call.value].pc.out.k;
    && k < |j.relay.wire| && j.relay.wire[k].Resp? && C.AllResps(j, k) < |j.runs| && run == j.runs[C.AllResps(j, k)]
    && run.slot < |j.relay.sent| && j.relay.wire[k].result == run.result
  }

  /** A handler past its read loop has a reader that has stopped for good, so nothing more is dispatched there. */
  ghost predicate EndedAreStopped(s: Service) {
    && |s.conns| == |s.relay.handlers|
    && forall h: nat | h < |s.conns| && !s.relay.handlers[h].stage.Reading? :: s.conns[h].relay.reader.Stopped?
  }

  lemma StoppedStays(j: C.Joint, e: C.Event)
    requires C.Enabled(j, e) && j.relay.reader.Stopped?
    ensures C.Step(j, e).relay.reader.Stopped?
  {
  }

  lemma StepKeepsStopped(w: R.World, s: Service, e: Event)
    requires EndedAreStopped(s) && Enabled(s, e)
    ensures EndedAreStopped(Step(w, s, e))
  {
    match e
    case OfConn(h, ce) => if s.conns[h].relay.reader.Stopped? { StoppedStays(s.conns[h], ce); }
    case Call(t) =>
      var h := s.tasks[t].session;
      if s.conns[h].relay.reader.Stopped? {
        StoppedStays(s.conns[h], C.OfRelay(S.Begin(s.tasks[t].req)));
      }
    case _ =>
  }

  lemma {:induction false} EndedHandlersHaveStopped(w: R.World, s: Service, es: seq<Event>)
    requires EndedAreStopped(s) && CanRun(w, s, es)
    ensures EndedAreStopped(RunFrom(w, s, es))
    decreases |es|
  {
    if es != [] {
      StepKeepsStopped(w, s, es[0]);
      EndedHandlersHaveStopped(w, Step(w, s, es[0]), es[1..]);
    }
  }

  // ----- Where controller requests come from -----

  lemma {:induction false} RunSplitsLast(w: R.World, s: Service, es: seq<Event>)
    requires es != [] && CanRun(w, s, es)
    ensures var front := es[..|es| - 1];
            && CanRun(w, s, front) && Enabled(RunFrom(w, s, front), es[|es| - 1])
            && RunFrom(w, s, es) == Step(w, RunFrom(w, s, front), es[|es| - 1])
    decreases |es|
  {
    var front := es[..|es| - 1];
    if |es| == 1 {
      assert es[1..] == [];
    } else {
      RunSplitsLast(w, Step(w, s, es[0]), es[1..]);
      assert front[1..] == es[1..][..|es| - 2];
    }
  }

  lemma {:induction false} PrefixRuns(w: R.World, s: Service, es: seq<Event>, n: nat)
    requires CanRun(w, s, es) && n <= |es|
    ensures CanRun(w, s, es[..n])
    decreases |es| - n
  {
    if n == |es| {
      assert es[..n] == es;
    } else {
      PrefixRuns(w, s, es, n + 1);
      RunSplitsLast(w, s, es[..n + 1]);
      assert es[..n + 1][..n] == es[..n];
    }
  }

  /** Where in the run a controller request found a session, for each one, in order. */
  function FindAt(es: seq<Event>): seq<nat> {
    if es == [] then []
    else
      var rest := FindAt(es[..|es| - 1]);
      if es[|es| - 1].Find? then rest + [|es| - 1] else rest
  }

  /** The task is the request of event n: its device, its action and command, and the session listed at that moment. */
  ghost predicate StemsFrom(w: R.World, es: seq<Event>, k: Task, n: nat)
    requires CanRun(w, Start(w), es)
  {
    && n < |es| && es[n] == Find(k.device, k.req.kind, k.req.cmd) && k.req.id == "1"
    && CanRun(w, Start(w), es[..n])
    && var sessions := RunFrom(w, Start(w), es[..n]).relay.sessions;
    k.device in sessions && sessions[k.device] == k.session
  }

  ghost predicate TasksAreFinds(w: R.World, es: seq<Event>)
    requires CanRun(w, Start(w), es)
  {
    var tasks := RunFrom(w, Start(w), es).tasks;
    && |tasks| == |FindAt(es)|
    && (forall t: nat | t < |tasks| :: StemsFrom(w, es, tasks[t], FindAt(es)[t]))
    && CalledAre(tasks, es)
  }

  lemma StemStays(w: R.World, es: seq<Event>, k: Task, k': Task, n: nat)
    requires es != [] && CanRun(w, Start(w), es) && CanRun(w, Start(w), es[..|es| - 1])
    requires StemsFrom(w, es[..|es| - 1], k, n) && k' == k.(call := k'.call)
    ensures StemsFrom(w, es, k', n)
  {
    assert es[..|es| - 1][..n] == es[..n] && es[..|es| - 1][n] == es[n];
  }

  lemma StepTasks(w: R.World, s: Service, e: Event)
    requires Enabled(s, e)
    ensures var tasks := Step(w, s, e).tasks;
            && |tasks| == |s.tasks| + (if e.Find? then 1 else 0)
            && (forall t: nat | t < |s.tasks| :: tasks[t] == s.tasks[t].(call := tasks[t].call))
            && (forall t: nat | t < |s.tasks| :: tasks[t].call.Some? <==> s.tasks[t].call.Some? || e == Call(t))
            && (e.Find? ==>
                  tasks[|s.tasks|] == Task(e.device, Request(e.action, "1", e.cmd), s.relay.sessions[e.device], None))
            && (forall t: nat | e == Call(t) :: t < |s.tasks|)
  {
  }

  lemma StemsNext(w: R.World, es: seq<Event>, t: nat)
    requires es != [] && CanRun(w, Start(w), es) && CanRun(w, Start(w), es[..|es| - 1])
    requires var s := RunFrom(w, Start(w), es[..|es| - 1]);
             && Enabled(s, es[|es| - 1]) && RunFrom(w, Start(w), es) == Step(w, s, es[|es| - 1])
             && |s.tasks| == |FindAt(es[..|es| - 1])|
             && (t < |s.tasks| ==> StemsFrom(w, es[..|es| - 1], s.tasks[t], FindAt(es[..|es| - 1])[t]))
    requires t < |RunFrom(w, Start(w), es).tasks|
    ensures t < |FindAt(es)| && StemsFrom(w, es, RunFrom(w, Start(w), es).tasks[t], FindAt(es)[t])
  {
    var front, e := es[..|es| - 1], es[|es| - 1];
    var s := RunFrom(w, Start(w), front);
    StepTasks(w, s, e);
    if t < |s.tasks| {
      StemStays(w, es, s.tasks[t], RunFrom(w, Start(w), es).tasks[t], FindAt(front)[t]);
    }
  }

  /** Exactly the tasks with a Call event have called. */
  ghost predicate CalledAre(tasks: seq<Task>, es: seq<Event>) {
    && (forall t: nat | t < |tasks| :: tasks[t].call.Some? <==> Call(t) in es)
    && (forall t: nat | Call(t) in es :: t < |tasks|)
  }

  lemma CalledNext(w: R.World, s: Service, es: seq<Event>, e: Event)
    requires CalledAre(s.tasks, es) && Enabled(s, e)
    ensures CalledAre(Step(w, s, e).tasks, es + [e])
  {
    StepTasks(w, s, e);
  }

  /**
   * Each controller request of the state is the one of its Find event in the run, of its device, action and command, on
   * the session listed for the device at that moment; and it has called there exactly if its Call event is in the run.
   */
  lemma {:induction false} TasksStemFromFinds(w: R.World, es: seq<Event>)
    requires CanRun(w, Start(w), es)
    ensures TasksAreFinds(w, es)
    decreases |es|
  {
    if es != [] {
      var front, e := es[..|es| - 1], es[|es| - 1];
      RunSplitsLast(w, Start(w), es);
      TasksStemFromFinds(w, front);
      StepTasks(w, RunFrom(w, Start(w), front), e);
      forall t: nat | t < |RunFrom(w, Start(w), es).tasks|
        ensures StemsFrom(w, es, RunFrom(w, Start(w), es).tasks[t], FindAt(es)[t])
      {
        StemsNext(w, es, t);
      }
      CalledNext(w, RunFrom(w, Start(w), front), front, e);
      assert es == front + [e];
    }
  }

  // ----- The two machines inside -----

  function RelayEvents(es: seq<Event>): seq<R.Event> {
    if es == [] then []
    else
      var rest := RelayEvents(es[..|es| - 1]);
      if es[|es| - 1].OfRelay? then rest + [es[|es| - 1].re] else rest
  }

  lemma {:induction false} RelayRunNext(w: R.World, r: R.Relay, es: seq<R.Event>, e: R.Event)
    requires R.CanRun(w, r, es) && R.Enabled(R.RunFrom(w, r, es), e)
    ensures R.CanRun(w, r, es + [e]) && R.RunFrom(w, r, es + [e]) == R.Step(w, R.RunFrom(w, r, es), e)
    decreases |es|
  {
    if es == [] {
      assert ([] + [e])[1..] == [];
    } else {
      RelayRunNext(w, R.Step(w, r, es[0]), es[1..], e);
      assert (es + [e])[1..] == es[1..] + [e];
    }
  }

  /** The relay inside behaves as in RelayRun, on its own events. */
  lemma {:induction false} RelayIsARun(w: R.World, es: seq<Event>)
    requires CanRun(w, Start(w), es)
    ensures R.CanRun(w, R.Start(w), RelayEvents(es))
    ensures RunFrom(w, Start(w), es).relay == R.RunFrom(w, R.Start(w), RelayEvents(es))
    decreases |es|
  {
    if es != [] {
      var e := es[|es| - 1];
      RunSplitsLast(w, Start(w), es);
      RelayIsARun(w, es[..|es| - 1]);
      if e.OfRelay? {
        RelayRunNext(w, R.Start(w), RelayEvents(es[..|es| - 1]), e.re);
      }
    }
  }

  /** What event e of the service is for connection h, if anything. */
  function ConnEvent(s: Service, e: Event, h: nat): seq<C.Event>
    requires Enabled(s, e)
  {
    match e
    case OfConn(g, ce) => if g == h then [ce] else []
    case Call(t) => if s.tasks[t].session == h then [C.OfRelay(S.Begin(s.tasks[t].req))] else []
    case _ => []
  }

  function ConnEvents(w: R.World, es: seq<Event>, h: nat): seq<C.Event>
    requires CanRun(w, Start(w), es)
  {
    if es == [] then []
    else
      RunSplitsLast(w, Start(w), es);
      var front := es[..|es| - 1];
      ConnEvents(w, front, h) + ConnEvent(RunFrom(w, Start(w), front), es[|es| - 1], h)
  }

  lemma StepConn(w: R.World, s: Service, e: Event, h: nat)
    requires Enabled(s, e) && h < |Step(w, s, e).conns|
    ensures if h >= |s.conns| then Step(w, s, e).conns[h] == C.OPENED && ConnEvent(s, e, h) == []
            else || (ConnEvent(s, e, h) == [] && Step(w, s, e).conns[h] == s.conns[h])
                 || (|ConnEvent(s, e, h)| == 1 && C.Enabled(s.conns[h], ConnEvent(s, e, h)[0])
                     && Step(w, s, e).conns[h] == C.Step(s.conns[h], ConnEvent(s, e, h)[0]))
  {
  }

  lemma {:induction false} NoEventsYet(w: R.World, es: seq<Event>, h: nat)
    requires CanRun(w, Start(w), es) && h >= |RunFrom(w, Start(w), es).conns|
    ensures ConnEvents(w, es, h) == []
    decreases |es|
  {
    if es != [] {
      RunSplitsLast(w, Start(w), es);
      NoEventsYet(w, es[..|es| - 1], h);
    }
  }

  /** And every connection inside behaves as in Connection, from the end of its handshake, on exactly its own events. */
  lemma {:induction false} ConnIsARun(w: R.World, es: seq<Event>, h: nat)
    requires CanRun(w, Start(w), es) && h < |RunFrom(w, Start(w), es).conns|
    ensures C.CanRun(C.OPENED, ConnEvents(w, es, h))
    ensures RunFrom(w, Start(w), es).conns[h] == C.RunFrom(C.OPENED, ConnEvents(w, es, h))
    decreases |es|
  {
    var front, e := es[..|es| - 1], es[|es| - 1];
    RunSplitsLast(w, Start(w), es);
    var s := RunFrom(w, Start(w), front);
    StepConn(w, s, e, h);
    var now := ConnEvent(s, e, h);
    if h >= |s.conns| {
      NoEventsYet(w, front, h);
    } else {
      ConnIsARun(w, front, h);
      if now == [] {
        assert ConnEvents(w, front, h) + [] == ConnEvents(w, front, h);
      } else {
        assert now == [now[0]];
        C.RunOfOne(s.conns[h], now[0]);
        C.RunAppends(C.OPENED, ConnEvents(w, front, h), now);
      }
    }
  }

  // ----- Where results come from -----

  /** Event n of the run is a controller's `exec` of this command for this device. */
  predicate AskedAt(es: seq<Event>, n: nat, device: string, cmd: string) {
    n < |es| && es[n] == Find(device, "exec", cmd)
  }

  /** Some run on connection h executed what event n asked for. */
  lemma RunWasAsked(w: R.World, es: seq<Event>, h: nat, k: nat) returns (n: nat)
    requires CanRun(w, Start(w), es)
    requires h < |RunFrom(w, Start(w), es).conns| && k < |RunFrom(w, Start(w), es).conns[h].runs|
    ensures var s := RunFrom(w, Start(w), es);
            && h < |s.relay.handlers| && R.Vouched(w, s.relay, h)
            && AskedAt(es, n, R.Device(s.relay, h), s.conns[h].runs[k].cmd)
            && Possible(s.conns[h].runs[k].cmd, s.conns[h].runs[k].result)
  {
    RunKeepsInv(w, Start(w), es);
    TasksStemFromFinds(w, es);
    var s := RunFrom(w, Start(w), es);
    assert R.Vouched(w, s.relay, h);
    assert ConnOk(s.conns[h]);
    var u := TaskOfRun(s, h, k);
    n := FindAt(es)[u];
    assert StemsFrom(w, es, s.tasks[u], n);
  }

  lemma TaskOfRun(s: Service, h: nat, k: nat) returns (u: nat)
    requires TasksOk(s) && CallsOwned(s) && h < |s.conns| && C.Inv(s.conns[h]) && k < |s.conns[h].runs|
    requires |s.conns| == |s.relay.handlers|
    ensures u < |s.tasks| && s.tasks[u].session == h && s.tasks[u].device == R.Device(s.relay, h)
    ensures s.tasks[u].req.kind == "exec" && s.tasks[u].req.cmd == s.conns[h].runs[k].cmd
    ensures Possible(s.conns[h].runs[k].cmd, s.conns[h].runs[k].result)
  {
    var j := s.conns[h];
    assert C.RunOk(j, k);
    var caller := j.relay.sent[j.runs[k].slot].caller;
    assert HasCall(s, h, caller);
    assert Owned(s, h, caller);
    u :| IsCall(s, u, h, caller);
    assert TaskOk(s, s.tasks[u]);
  }

  /**
   * Nothing runs that was not asked for: without an `exec` request for a device, whatever lock, locate or other requests
   * there are, no connection of that device ever runs a command.
   */
  lemma OnlyExecRuns(w: R.World, es: seq<Event>, h: nat)
    requires CanRun(w, Start(w), es) && h < |RunFrom(w, Start(w), es).relay.handlers|
    requires forall n, cmd :: !AskedAt(es, n, R.Device(RunFrom(w, Start(w), es).relay, h), cmd)
    ensures h < |RunFrom(w, Start(w), es).conns| && RunFrom(w, Start(w), es).conns[h].runs == []
  {
    RunKeepsInv(w, Start(w), es);
    if RunFrom(w, Start(w), es).conns[h].runs != [] {
      var n := RunWasAsked(w, es, h, 0);
    }
  }

  /**
   * End to end, on every run of the relay with any number of devices, connections, reconnects and controllers: a result
   * returned for device d was computed on one connection, by a run of a command that an `exec` request of a controller
   * for the same device d had asked for. The greeting of that connection had been verified under the key registered for
   * d at that moment, and it was the listed one when the request found it, whether or not it is still listed, or still
   * there, when the result is returned.
   */
  lemma ResultsComeFromTheDevice(w: R.World, es: seq<Event>, t: nat) returns (run: C.Run, n: nat)
    requires CanRun(w, Start(w), es) && Returned(RunFrom(w, Start(w), es), t)
    ensures var s := RunFrom(w, Start(w), es); var h := s.tasks[t].session;
            && CameFrom(s, t, run) && Possible(run.cmd, run.result)
            && h < |s.relay.handlers| && R.Device(s.relay, h) == s.tasks[t].device && R.Vouched(w, s.relay, h)
            && t < |FindAt(es)| && StemsFrom(w, es, s.tasks[t], FindAt(es)[t])
            && AskedAt(es, n, s.tasks[t].device, run.cmd)
  {
    RunKeepsInv(w, Start(w), es);
    TasksStemFromFinds(w, es);
    var s := RunFrom(w, Start(w), es);
    InvAt(w, s, t);
    var h := s.tasks[t].session;
    var j := s.conns[h];
    M.TookAnswer(j, s.tasks[t].call.value);
    var k := C.AllResps(j, j.relay.calls[s.tasks[t].call.value].pc.out.k);
    run := j.runs[k];
    n := RunWasAsked(w, es, h, k);
  }

  lemma InvAt(w: R.World, s: Service, t: nat)
    requires Inv(w, s) && t < |s.tasks|
    ensures TaskOk(s, s.tasks[t]) && C.Inv(s.conns[s.tasks[t].session]) && R.Vouched(w, s.relay, s.tasks[t].session)
  {
    assert TaskOk(s, s.tasks[t]);
    assert ConnOk(s.conns[s.tasks[t].session]);
  }

  /** No message answers two controller requests. */
  lemma NoResponseReturnedTwice(w: R.World, es: seq<Event>, t: nat, u: nat)
    requires CanRun(w, Start(w), es) && Returned(RunFrom(w, Start(w), es), t) && Returned(RunFrom(w, Start(w), es), u)
    requires var s := RunFrom(w, Start(w), es); t != u && s.tasks[t].session == s.tasks[u].session
    ensures var s := RunFrom(w, Start(w), es); var calls := s.conns[s.tasks[t].session].relay.calls;
            calls[s.tasks[t].call.value].pc.out.k != calls[s.tasks[u].call.value].pc.out.k
  {
    RunKeepsInv(w, Start(w), es);
    var s := RunFrom(w, Start(w), es);
    var h, c, d := s.tasks[t].session, s.tasks[t].call.value, s.tasks[u].call.value;
    InvAt(w, s, t);
    assert IsCall(s, t, h, c) && IsCall(s, u, h, d);
    var r := s.conns[h].relay;
    assert S.Holds(r, c, r.calls[c].pc.out.k) && S.Holds(r, d, r.calls[d].pc.out.k);
  }

  /**
   * And which task's result it is: an `exec` task returns the result of its own command exactly when, on its session,
   * as many `exec` requests were written ahead of its own as responses had been looked up when it registered.
   */
  lemma TaskGetsItsOwnExactlyWhen(w: R.World, es: seq<Event>, t: nat)
    requires CanRun(w, Start(w), es) && Returned(RunFrom(w, Start(w), es), t)
    requires RunFrom(w, Start(w), es).tasks[t].req.kind == "exec"
    ensures var s := RunFrom(w, Start(w), es); var j := s.conns[s.tasks[t].session]; var c := s.tasks[t].call.value;
            && j.relay.calls[c].slot.Some? && j.relay.calls[c].slot.value <= |j.relay.sent|
            && j.relay.calls[c].seenMark <= |j.relay.wire|
            && (M.GotOwn(j, c) <==> M.WrittenAhead(j.relay, c) == D.SeenBefore(j.relay, c))
  {
    RunKeepsInv(w, Start(w), es);
    var s := RunFrom(w, Start(w), es);
    assert TaskOk(s, s.tasks[t]) && ConnOk(s.conns[s.tasks[t].session]);
    M.OwnByCounts(s.conns[s.tasks[t].session], s.tasks[t].call.value);
  }
}
