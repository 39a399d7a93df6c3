/**
 * One run of the relay process: provision requests and agent connections, in any interleaving. Every event is one
 * section under the global mutex of relay/main.go, or the end of a connection's read loop.
 */
module RelayRun {
  import opened Common
  import H = Handshake
  import P = Provisioning

  /** The connection handler of an accepted agent: reading, past its read loop, or past its cleanup. */
  datatype Stage = Reading | Ended | Gone

  /**
   * For the history, `after` is how many provision requests had been handled at registration, and `now` and `later` are
   * the two clock readings of its check.
   */
  datatype Handler = Handler(auth: H.AuthPayload, stage: Stage, after: nat, now: int, later: int)

  /** The history of the `sessions` map: handler h put itself in, or deleted its device's entry. */
  datatype Entry = In(h: nat) | Out(h: nat)

  datatype World = World(scheme: H.Scheme, format: H.Format, loaded: P.Store)

  datatype Relay = Relay(
    store: P.Store,
    posts: seq<P.Post>,
    handlers: seq<Handler>,
    sessions: map<string, nat>,
    log: seq<Entry>)

  datatype Event =
    | Post(post: P.Post)
    | Connect(m: H.Frame, now: int, later: int)
    | EndRead(h: nat)
    | CleanUp(h: nat)

  function Start(w: World): Relay { Relay(w.loaded, [], [], map[], []) }

  function Verdict(w: World, r: Relay, e: Event): Result<H.AuthPayload, H.Refusal>
    requires e.Connect?
  {
    H.Check(w.scheme, w.format, r.store.devices, e.m, e.now, e.later)
  }

  predicate Enabled(r: Relay, e: Event) {
    match e
    case EndRead(h) => h < |r.handlers| && r.handlers[h].stage.Reading?
    case CleanUp(h) => h < |r.handlers| && r.handlers[h].stage.Ended?
    case _ => true
  }

  function SetStage(r: Relay, h: nat, stage: Stage): Relay
    requires h < |r.handlers|
  {
    r.(handlers := r.handlers[h := r.handlers[h].(stage := stage)])
  }

  function Step(w: World, r: Relay, e: Event): Relay
    requires Enabled(r, e)
  {
    match e
    case Post(post) => r.(store := P.Provision(r.store, post.p, post.saveOk).0, posts := r.posts + [post])
    case Connect(_, now, later) =>
      (match Verdict(w, r, e)
       case Ok(auth) =>
         r.(handlers := r.handlers + [Handler(auth, Reading, |r.posts|, now, later)],
            sessions := r.sessions[auth.deviceID := |r.handlers|],
            log := r.log + [In(|r.handlers|)])
       case Err(_) => r)
    case EndRead(h) => SetStage(r, h, Ended)
    case CleanUp(h) =>
      SetStage(r, h, Gone).(
        sessions := r.sessions - {r.handlers[h].auth.deviceID},
        log := r.log + [Out(h)])
  }

  predicate CanRun(w: World, r: Relay, es: seq<Event>)
    decreases |es|
  {
    es == [] || (Enabled(r, es[0]) && CanRun(w, Step(w, r, es[0]), es[1..]))
  }

  function RunFrom(w: World, r: Relay, es: seq<Event>): Relay
    requires CanRun(w, r, es)
    decreases |es|
  {
    if es == [] then r else RunFrom(w, Step(w, r, es[0]), es[1..])
  }

  // ----- The session registry -----

  function Device(r: Relay, h: nat): string
    requires h < |r.handlers|
  {
    r.handlers[h].auth.deviceID
  }

  predicate LogOk(r: Relay) {
    forall i | 0 <= i < |r.log| :: r.log[i].h < |r.handlers|
  }

  /** The last entry about device d among the first n. */
  function LastAbout(r: Relay, d: string, n: nat): Option<Entry>
    requires LogOk(r) && n <= |r.log|
  {
    if n == 0 then None
    else if Device(r, r.log[n - 1].h) == d then Some(r.log[n - 1])
    else LastAbout(r, d, n - 1)
  }

  /** Every listed session belongs to a handler of that device that has not cleaned up. */
  ghost predicate ListedLive(r: Relay) {
    forall d | d in r.sessions ::
      var h := r.sessions[d];
      h < |r.handlers| && Device(r, h) == d && !r.handlers[h].stage.Gone?
  }

  /** What `sessions` should hold for device d when x is the last entry about it. */
  predicate ListedAs(r: Relay, d: string, x: Option<Entry>) {
    if d in r.sessions then x == Some(In(r.sessions[d])) else x.None? || x.value.Out?
  }

  ghost predicate ListedLast(r: Relay)
    requires LogOk(r)
  {
    forall d :: ListedAs(r, d, LastAbout(r, d, |r.log|))
  }

  ghost predicate RegistryOk(r: Relay) {
    LogOk(r) && ListedLive(r) && ListedLast(r)
  }

  /** Old entries read the same in a longer history. */
  lemma {:induction false} LastAboutKept(r: Relay, r': Relay, d: string, n: nat)
    requires LogOk(r) && LogOk(r') && n <= |r.log| && r.log <= r'.log && |r.handlers| <= |r'.handlers|
    requires forall h | 0 <= h < |r.handlers| :: r'.handlers[h].auth == r.handlers[h].auth
    ensures LastAbout(r', d, n) == LastAbout(r, d, n)
  {
    if n > 0 {
      LastAboutKept(r, r', d, n - 1);
    }
  }

  lemma StepKeepsLive(w: World, r: Relay, e: Event)
    requires LogOk(r) && ListedLive(r) && Enabled(r, e)
    ensures LogOk(Step(w, r, e)) && ListedLive(Step(w, r, e))
  {
  }

  lemma StepKeepsLog(w: World, r: Relay, e: Event)
    requires LogOk(r) && Enabled(r, e)
    ensures var r' := Step(w, r, e);
            && LogOk(r') && r.log <= r'.log && |r.handlers| <= |r'.handlers|
            && (forall h | 0 <= h < |r.handlers| :: r'.handlers[h].auth == r.handlers[h].auth)
  {
  }

  lemma StepKeepsListedAs(w: World, r: Relay, e: Event, d: string, x: Option<Entry>)
    requires LogOk(r) && Enabled(r, e) && LogOk(Step(w, r, e)) && ListedAs(r, d, x)
    requires LastAbout(Step(w, r, e), d, |r.log|) == x && |r.log| <= |Step(w, r, e).log|
    ensures ListedAs(Step(w, r, e), d, LastAbout(Step(w, r, e), d, |Step(w, r, e).log|))
  {
  }

  lemma StepKeepsLast(w: World, r: Relay, e: Event)
    requires LogOk(r) && ListedLast(r) && Enabled(r, e) && LogOk(Step(w, r, e))
    ensures ListedLast(Step(w, r, e))
  {
    StepKeepsLog(w, r, e);
    forall d ensures ListedAs(Step(w, r, e), d, LastAbout(Step(w, r, e), d, |Step(w, r, e).log|)) {
      LastAboutKept(r, Step(w, r, e), d, |r.log|);
      StepKeepsListedAs(w, r, e, d, LastAbout(r, d, |r.log|));
    }
  }

  lemma StepKeepsRegistry(w: World, r: Relay, e: Event)
    requires RegistryOk(r) && Enabled(r, e)
    ensures RegistryOk(Step(w, r, e))
  {
    StepKeepsLive(w, r, e);
    StepKeepsLast(w, r, e);
  }

  lemma {:induction false} RunKeepsRegistry(w: World, r: Relay, es: seq<Event>)
    requires RegistryOk(r) && CanRun(w, r, es)
    ensures RegistryOk(RunFrom(w, r, es))
    decreases |es|
  {
    if es != [] {
      StepKeepsRegistry(w, r, es[0]);
      RunKeepsRegistry(w, Step(w, r, es[0]), es[1..]);
    }
  }

  /**
   * Registry liveness under overlapping reconnects: what is listed for a device is live, it is exactly the handler
   * whose registration is the last thing that happened to the device's entry, and nothing is listed once all
   * handlers have gone.
   */
  lemma RegistryIsLive(w: World, es: seq<Event>, d: string, h: nat)
    requires CanRun(w, Start(w), es)
    ensures var r := RunFrom(w, Start(w), es);
            && LogOk(r)
            && ((d in r.sessions && r.sessions[d] == h) <==> LastAbout(r, d, |r.log|) == Some(In(h)))
            && (d in r.sessions && r.sessions[d] == h ==>
                  h < |r.handlers| && Device(r, h) == d && !r.handlers[h].stage.Gone?)
            && ((forall k | 0 <= k < |r.handlers| :: r.handlers[k].stage.Gone?) ==> r.sessions == map[])
  {
    RunKeepsRegistry(w, Start(w), es);
    var r := RunFrom(w, Start(w), es);
    assert ListedAs(r, d, LastAbout(r, d, |r.log|));
    if forall k | 0 <= k < |r.handlers| :: r.handlers[k].stage.Gone? {
      assert r.sessions.Keys == {};
    }
  }

  /** A device connects only when its earlier handlers are gone. */
  predicate Apart(w: World, r: Relay, e: Event, d: string) {
    e.Connect? && Verdict(w, r, e).Ok? && Verdict(w, r, e).value.deviceID == d ==>
      forall h: nat | h < |r.handlers| && Device(r, h) == d :: r.handlers[h].stage.Gone?
  }

  predicate RunsApart(w: World, r: Relay, es: seq<Event>, d: string)
    requires CanRun(w, r, es)
    decreases |es|
  {
    es == [] || (Apart(w, r, es[0], d) && RunsApart(w, Step(w, r, es[0]), es[1..], d))
  }

  ghost predicate ListedIffLive(r: Relay, d: string) {
    forall h: nat :: (d in r.sessions && r.sessions[d] == h) <==> LiveFor(r, h, d)
  }

  predicate LiveFor(r: Relay, h: nat, d: string) {
    h < |r.handlers| && Device(r, h) == d && !r.handlers[h].stage.Gone?
  }

  lemma StepKeepsListed(w: World, r: Relay, e: Event, d: string)
    requires ListedIffLive(r, d) && Enabled(r, e) && Apart(w, r, e, d)
    ensures ListedIffLive(Step(w, r, e), d)
  {
    var r' := Step(w, r, e);
    forall h: nat
      ensures (d in r'.sessions && r'.sessions[d] == h) <==> LiveFor(r', h, d)
    {
      assert (d in r.sessions && r.sessions[d] == h) <==> LiveFor(r, h, d);
      if e.CleanUp? {
        assert (d in r.sessions && r.sessions[d] == e.h) <==> LiveFor(r, e.h, d);
      }
    }
  }

  /** A device whose connections never overlap is listed exactly while its handler is between registration and cleanup. */
  lemma {:induction false} ApartMeansListed(w: World, r: Relay, es: seq<Event>, d: string)
    requires ListedIffLive(r, d) && CanRun(w, r, es) && RunsApart(w, r, es, d)
    ensures ListedIffLive(RunFrom(w, r, es), d)
    decreases |es|
  {
    if es != [] {
      StepKeepsListed(w, r, es[0], d);
      ApartMeansListed(w, Step(w, r, es[0]), es[1..], d);
    }
  }

  /** In particular over every run of the relay from its start. */
  lemma NeverOverlappingIsListed(w: World, es: seq<Event>, d: string)
    requires CanRun(w, Start(w), es) && RunsApart(w, Start(w), es, d)
    ensures ListedIffLive(RunFrom(w, Start(w), es), d)
  {
    ApartMeansListed(w, Start(w), es, d);
  }

  /**
   * Live handlers need not be listed: whatever greeting the relay accepts, if the device connects with it a second
   * time before its first handler has finished, that handler's cleanup unlists the live second connection.
   */
  lemma ReconnectCanUnlist(w: World, m: H.Frame, now: int, later: int) returns (es: seq<Event>)
    requires H.Check(w.scheme, w.format, w.loaded.devices, m, now, later).Ok?
    ensures CanRun(w, Start(w), es)
    ensures var r := RunFrom(w, Start(w), es);
            && |r.handlers| == 2 && r.handlers[1].stage.Reading? && Device(r, 1) == m.payload.deviceID
            && m.payload.deviceID !in r.sessions
  {
    es := [Connect(m, now, later), Connect(m, now, later), EndRead(0), CleanUp(0)];
    var r1 := Step(w, Start(w), es[0]);
    var r2 := Step(w, r1, es[1]);
    var r3 := Step(w, r2, es[2]);
    var r4 := Step(w, r3, es[3]);
    assert es[1..][1..][1..] == [CleanUp(0)] && es[1..][1..] == [EndRead(0), CleanUp(0)] && es[1..] == es[1..];
    assert RunFrom(w, r4, []) == r4;
    assert CanRun(w, r3, [CleanUp(0)]) && RunFrom(w, r3, [CleanUp(0)]) == r4;
    assert CanRun(w, r2, es[1..][1..]) && RunFrom(w, r2, es[1..][1..]) == r4;
    assert CanRun(w, r1, es[1..]) && RunFrom(w, r1, es[1..]) == r4;
  }

  // ----- Who may be registered -----

  /** What the relay had checked when it registered handler h. */
  ghost predicate Vouched(w: World, r: Relay, h: nat)
    requires h < |r.handlers|
  {
    var a := r.handlers[h].auth;
    && r.handlers[h].after <= |r.posts|
    && H.Complete(a) && H.Proven(w.scheme, w.format, a, r.handlers[h].now, r.handlers[h].later)
    && var then' := P.After(w.loaded, r.posts[..r.handlers[h].after]).devices;
    a.deviceID in then' && then'[a.deviceID] == a.pubKey
  }

  ghost predicate AuthorityOk(w: World, r: Relay) {
    && r.store == P.After(w.loaded, r.posts)
    && forall h: nat | h < |r.handlers| :: Vouched(w, r, h)
  }

  lemma StepKeepsAuthority(w: World, r: Relay, e: Event)
    requires AuthorityOk(w, r) && Enabled(r, e)
    ensures AuthorityOk(w, Step(w, r, e))
  {
    var r' := Step(w, r, e);
    if e.Post? {
      assert r'.posts[..|r'.posts| - 1] == r.posts;
    }
    forall h: nat | h < |r'.handlers| ensures Vouched(w, r', h) {
      if h < |r.handlers| {
        assert Vouched(w, r, h);
        assert r'.posts[..r.handlers[h].after] == r.posts[..r.handlers[h].after];
      } else {
        H.AdmittedExactlyWhenProven(w.scheme, w.format, r.store.devices, e.m, e.now, e.later);
        assert r.posts[..|r.posts|] == r.posts;
      }
    }
  }

  lemma {:induction false} RunKeepsAuthority(w: World, r: Relay, es: seq<Event>)
    requires AuthorityOk(w, r) && CanRun(w, r, es)
    ensures AuthorityOk(w, RunFrom(w, r, es))
    decreases |es|
  {
    if es != [] {
      StepKeepsAuthority(w, r, es[0]);
      RunKeepsAuthority(w, Step(w, r, es[0]), es[1..]);
    }
  }

  // ----- The run as the state records it -----

  lemma {:induction false} RunSplitsLast(w: World, r: Relay, es: seq<Event>)
    requires es != [] && CanRun(w, r, es)
    ensures var front := es[..|es| - 1];
            && CanRun(w, r, front) && Enabled(RunFrom(w, r, front), es[|es| - 1])
            && RunFrom(w, r, es) == Step(w, RunFrom(w, r, front), es[|es| - 1])
    decreases |es|
  {
    var front := es[..|es| - 1];
    if |es| == 1 {
      assert es[1..] == [];
    } else {
      RunSplitsLast(w, Step(w, r, es[0]), es[1..]);
      assert front[1..] == es[1..][..|es| - 2];
    }
  }

  /** The provision requests of a run, in order. */
  function Posts(es: seq<Event>): seq<P.Post> {
    if es == [] then []
    else
      var e, rest := es[|es| - 1], Posts(es[..|es| - 1]);
      if e.Post? then rest + [e.post] else rest
  }

  /** The relay's verdict on a greeting after these events, said with their provision requests alone. */
  function VerdictAfter(w: World, es: seq<Event>, e: Event): Result<H.AuthPayload, H.Refusal>
    requires e.Connect?
  {
    H.Check(w.scheme, w.format, P.After(w.loaded, Posts(es)).devices, e.m, e.now, e.later)
  }

  /** The greetings of a run that were accepted, in order, as their handlers start out. */
  function Admitted(w: World, es: seq<Event>): seq<Handler> {
    if es == [] then []
    else
      var front, e := es[..|es| - 1], es[|es| - 1];
      if e.Connect? && VerdictAfter(w, front, e).Ok?
      then Admitted(w, front) + [Handler(VerdictAfter(w, front, e).value, Reading, |Posts(front)|, e.now, e.later)]
      else Admitted(w, front)
  }

  function Entries(w: World, es: seq<Event>): seq<Entry> {
    if es == [] then []
    else
      var front, e := es[..|es| - 1], es[|es| - 1];
      if e.Connect? && VerdictAfter(w, front, e).Ok? then Entries(w, front) + [In(|Admitted(w, front)|)]
      else if e.CleanUp? then Entries(w, front) + [Out(e.h)]
      else Entries(w, front)
  }

  function StageAfter(es: seq<Event>, h: nat): Stage {
    if CleanUp(h) in es then Gone else if EndRead(h) in es then Ended else Reading
  }

  predicate HandlersAre(r: Relay, hs: seq<Handler>, es: seq<Event>) {
    && |r.handlers| == |hs|
    && (forall h: nat | h < |hs| :: r.handlers[h] == hs[h].(stage := StageAfter(es, h)))
    && (forall e | e in es && (e.EndRead? || e.CleanUp?) :: e.h < |hs|)
    && (forall h: nat | h < |hs| && CleanUp(h) in es :: EndRead(h) in es)
  }

  predicate Records(w: World, r: Relay, es: seq<Event>) {
    && r.posts == Posts(es) && r.store == P.After(w.loaded, Posts(es))
    && HandlersAre(r, Admitted(w, es), es) && r.log == Entries(w, es)
  }

  lemma ReadNext(w: World, es: seq<Event>, e: Event)
    ensures Posts(es + [e]) == Posts(es) + (if e.Post? then [e.post] else [])
    ensures Admitted(w, es + [e]) ==
            Admitted(w, es) +
            (if e.Connect? && VerdictAfter(w, es, e).Ok?
             then [Handler(VerdictAfter(w, es, e).value, Reading, |Posts(es)|, e.now, e.later)] else [])
    ensures Entries(w, es + [e]) ==
            Entries(w, es) +
            (if e.Connect? && VerdictAfter(w, es, e).Ok? then [In(|Admitted(w, es)|)]
             else if e.CleanUp? then [Out(e.h)] else [])
  {
    assert (es + [e])[..|es|] == es;
  }

  lemma StagesNext(r: Relay, hs: seq<Handler>, es: seq<Event>, e: Event)
    requires HandlersAre(r, hs, es) && Enabled(r, e) && (e.EndRead? || e.CleanUp?)
    ensures HandlersAre(SetStage(r, e.h, if e.EndRead? then Ended else Gone), hs, es + [e])
  {
  }

  lemma OtherEventKeepsStages(r: Relay, hs: seq<Handler>, es: seq<Event>, e: Event)
    requires HandlersAre(r, hs, es) && !e.EndRead? && !e.CleanUp?
    ensures HandlersAre(r, hs, es + [e])
  {
  }

  lemma AdmissionKeepsStages(r: Relay, hs: seq<Handler>, es: seq<Event>, k: Handler)
    requires HandlersAre(r, hs, es) && k.stage.Reading?
    ensures HandlersAre(r.(handlers := r.handlers + [k]), hs + [k], es)
  {
    assert EndRead(|hs|) !in es && CleanUp(|hs|) !in es;
  }

  lemma StepRecords(w: World, r: Relay, es: seq<Event>, e: Event)
    requires Records(w, r, es) && Enabled(r, e)
    ensures Records(w, Step(w, r, e), es + [e])
  {
    ReadNext(w, es, e);
    match e
    case Post(post) =>
      assert (Posts(es) + [post])[..|Posts(es)|] == Posts(es);
      OtherEventKeepsStages(r, Admitted(w, es), es, e);
    case Connect(_, now, later) =>
      OtherEventKeepsStages(r, Admitted(w, es), es, e);
      if Verdict(w, r, e).Ok? {
        AdmissionKeepsStages(r, Admitted(w, es), es + [e], Handler(Verdict(w, r, e).value, Reading, |r.posts|, now, later));
      }
    case EndRead(_) => StagesNext(r, Admitted(w, es), es, e);
    case CleanUp(_) => StagesNext(r, Admitted(w, es), es, e);
  }

  /**
   * The records are the run's: every provision request is applied, in order; there is one handler for each greeting
   * that passes the checks against the device map of that moment, with its identity and clock readings; its stage tells
   * whether its read loop has ended and its cleanup run; and the registry's history is theirs, in order.
   */
  lemma {:induction false} RecordsAreTheRun(w: World, es: seq<Event>)
    requires CanRun(w, Start(w), es)
    ensures Records(w, RunFrom(w, Start(w), es), es)
    decreases |es|
  {
    if es != [] {
      var front, e := es[..|es| - 1], es[|es| - 1];
      RunSplitsLast(w, Start(w), es);
      RecordsAreTheRun(w, front);
      StepRecords(w, RunFrom(w, Start(w), front), front, e);
      assert es == front + [e];
    }
  }

  /**
   * What was signed is unambiguous over a whole run: two sessions registered with the same signed text, that is by a
   * replayed greeting, are of the same device and time, and the clock readings that admitted them lie within 240 s.
   */
  lemma SameTextSameSession(w: World, es: seq<Event>, g: nat, h: nat)
    requires H.Faithful(w.format) && CanRun(w, Start(w), es)
    requires var r := RunFrom(w, Start(w), es);
             && g < |r.handlers| && h < |r.handlers|
             && H.Signed(r.handlers[g].auth) == H.Signed(r.handlers[h].auth)
    ensures var r := RunFrom(w, Start(w), es); var a, b := r.handlers[g], r.handlers[h];
            && a.auth.deviceID == b.auth.deviceID && a.auth.timestamp == b.auth.timestamp
            && b.now - a.later <= 2 * H.WINDOW && a.now - b.later <= 2 * H.WINDOW
  {
    RunKeepsAuthority(w, Start(w), es);
    var r := RunFrom(w, Start(w), es);
    assert Vouched(w, r, g) && Vouched(w, r, h);
    var a, b := r.handlers[g], r.handlers[h];
    H.SameTextSameClaim(w.scheme, w.format, a.auth, a.now, a.later, b.auth, b.now, b.later);
  }

  /**
   * Every session ever registered is traceable: its greeting was recent by the relay's clock and carries a verified
   * signature over its own device and time, under a key that came either from the loaded device file or from the first
   * request of this run that presented the device's loaded setup token.
   */
  lemma RegisteredKeysAreTraceable(w: World, es: seq<Event>, h: nat)
    requires CanRun(w, Start(w), es) && h < |RunFrom(w, Start(w), es).handlers|
    ensures var r := RunFrom(w, Start(w), es); var a := r.handlers[h].auth;
            && Vouched(w, r, h)
            && ((a.deviceID in w.loaded.devices && w.loaded.devices[a.deviceID] == a.pubKey)
                || exists i: nat :: i < |r.posts| && P.Wins(w.loaded.tokens, r.posts, i)
                     && r.posts[i].p.deviceID == a.deviceID && r.posts[i].p.publicKey == a.pubKey)
  {
    RunKeepsAuthority(w, Start(w), es);
    var r := RunFrom(w, Start(w), es);
    assert Vouched(w, r, h);
    var a, posts := r.handlers[h].auth, r.posts[..r.handlers[h].after];
    P.KeyAfter(w.loaded, posts, a.deviceID);
    if P.Spent(w.loaded.tokens, posts, a.deviceID) {
      var i := P.FirstSpender(w.loaded.tokens, posts, a.deviceID);
      assert forall k | 0 <= k <= i :: r.posts[k] == posts[k];
      assert P.Wins(w.loaded.tokens, r.posts, i);
    }
  }
}
