/**
 * Agent and relay over crashes: key store before registration (agent/provision.go), automatic provisioning at start
 * (agent/main.go:64-82) and re-synchronisation before every connection (agent/runtime.go:46-107), against the relay
 * store of Provisioning.dfy.
 */
module KeyAgreement {
  import opened Common
  import opened B = Base64
  import P = Provisioning
  import H = Handshake
  import T = Text

  type Bytes = seq<Byte>

  /** The process environment; it is the same for every start of the agent. */
  datatype Env = Env(disableKeyring: bool, allowKeyFile: bool)

  /** The keyring holds base64 text, the fallback file raw bytes. */
  datatype KeyStore = KeyStore(keyring: Option<string>, file: Option<Bytes>)

  /** `storePrivateKey`: keyring first, file only as a permitted fallback. The flags say which writes succeed. */
  function StoreKey(env: Env, ks: KeyStore, priv: Bytes, ringOk: bool, fileOk: bool): (KeyStore, bool) {
    if !env.disableKeyring && ringOk then (ks.(keyring := Some(Encode(priv))), true)
    else if env.allowKeyFile && fileOk then (ks.(file := Some(priv)), true)
    else (ks, false)
  }

  /** `loadPrivateKey`: a keyring entry decides, even if it does not decode; without one the file may serve. */
  function LoadKey(env: Env, ks: KeyStore): Option<Bytes> {
    if !env.disableKeyring && ks.keyring.Some? then Decode(ks.keyring.value)
    else if env.allowKeyFile then ks.file
    else None
  }

  /**
   * Where a key goes: to a keyring that works, and nowhere else; only if there is none, or its write fails, to the
   * permitted file; and otherwise nowhere at all.
   */
  lemma StoreGoesTo(env: Env, ks: KeyStore, priv: Bytes, ringOk: bool, fileOk: bool)
    ensures var (ks', ok) := StoreKey(env, ks, priv, ringOk, fileOk);
            if !env.disableKeyring && ringOk
            then ok && ks'.keyring.Some? && Decode(ks'.keyring.value) == Some(priv) && ks'.file == ks.file
            else if env.allowKeyFile && fileOk then ok && ks'.file == Some(priv) && ks'.keyring == ks.keyring
            else !ok && ks' == ks
  {
    RoundTrip(priv);
  }

  /** Which key is loaded: an enabled keyring that has an entry hides the file, even with an entry that does not decode. */
  lemma LoadsExactlyWhen(env: Env, ks: KeyStore, k: Bytes)
    ensures LoadKey(env, ks) == Some(k) <==>
            || (!env.disableKeyring && ks.keyring.Some? && Decode(ks.keyring.value) == Some(k))
            || ((env.disableKeyring || ks.keyring.None?) && env.allowKeyFile && ks.file == Some(k))
  {
  }

  /** Both places hold whole private keys or nothing. */
  ghost predicate Sound(ks: KeyStore) {
    && (ks.keyring.Some? ==> Decode(ks.keyring.value).Some? && |Decode(ks.keyring.value).value| == H.PRIVATE_KEY_SIZE)
    && (ks.file.Some? ==> |ks.file.value| == H.PRIVATE_KEY_SIZE)
  }

  /** A key that is stored lands where later loads look first. */
  predicate LandsWhereRead(env: Env, ks: KeyStore, ringOk: bool) {
    env.disableKeyring || ringOk || ks.keyring.None?
  }

  lemma StoredWhereRead(env: Env, ks: KeyStore, priv: Bytes, ringOk: bool, fileOk: bool)
    requires |priv| == H.PRIVATE_KEY_SIZE
    ensures var (ks', ok) := StoreKey(env, ks, priv, ringOk, fileOk);
            && (ok && LandsWhereRead(env, ks, ringOk) ==> LoadKey(env, ks') == Some(priv))
            && (Sound(ks) ==> Sound(ks') && (LoadKey(env, ks).None? && ok ==> LandsWhereRead(env, ks, ringOk)))
  {
    RoundTrip(priv);
  }

  /** A key stored when none could be loaded is the key loaded from then on, wherever it went. */
  lemma StoredKeyIsLoaded(env: Env, ks: KeyStore, priv: Bytes, ringOk: bool, fileOk: bool)
    requires Sound(ks) && LoadKey(env, ks).None? && |priv| == H.PRIVATE_KEY_SIZE
    ensures var (ks', ok) := StoreKey(env, ks, priv, ringOk, fileOk);
            Sound(ks') && LoadKey(env, ks') == if ok then Some(priv) else None
  {
    RoundTrip(priv);
  }

  /** The text an agent registers for a private key. */
  function KeyText(priv: Bytes): string
    requires |priv| == H.PRIVATE_KEY_SIZE
  {
    Encode(H.Public(priv))
  }

  /** Where the agent process stands. Down also covers every fatal exit: the service manager starts it again. */
  datatype Agent =
    | Down
    | Starting
    | Unprovisioned
    | Generated(priv: Bytes)
    | Stored(priv: Bytes)
    | Registering
    | Loading
    | Serving(priv: Bytes)

  /** The settings of the theorem: one device, its configured token, and the agent's environment. */
  datatype Setup = Setup(env: Env, deviceID: string, token: string)

  /** `net` is every provision request the agent ever sent; the network may deliver any of them at any later time. */
  datatype System = System(store: P.Store, keys: KeyStore, agent: Agent, net: seq<P.Request>)

  datatype Event =
    | Start
    | Check
    | Generate(priv: Bytes)
    | Keep(ringOk: bool, fileOk: bool)
    | Register
    | Answered(ok: bool)
    | Load
    | Sync
    | Die
    | Deliver(i: nat, saveOk: bool)
    | Foreign(p: P.Request, saveOk: bool)
    | Restart(tokens: map<string, string>, keepFile: bool)

  /** Whoever else posts, nobody else presents this device's token; and no relay start configures another one for it. */
  predicate Outsider(u: Setup, p: P.Request) { p.deviceID != u.deviceID || p.setupToken != u.token }

  predicate TokensOk(u: Setup, tokens: map<string, string>) {
    u.deviceID in tokens ==> tokens[u.deviceID] == u.token
  }

  predicate Enabled(u: Setup, s: System, e: Event) {
    match e
    case Start => s.agent.Down?
    case Check => s.agent.Starting?
    case Generate(priv) => s.agent.Unprovisioned? && |priv| == H.PRIVATE_KEY_SIZE
    case Keep(_, _) => s.agent.Generated?
    case Register => s.agent.Stored? && |s.agent.priv| == H.PRIVATE_KEY_SIZE
    case Answered(_) => s.agent.Registering?
    case Load => s.agent.Loading?
    case Sync => s.agent.Serving? && |s.agent.priv| == H.PRIVATE_KEY_SIZE && !T.IsBlank(u.token)
    case Die => true
    case Deliver(i, _) => i < |s.net|
    case Foreign(p, _) => Outsider(u, p)
    case Restart(tokens, _) => TokensOk(u, tokens)
  }

  function RegistrationOf(u: Setup, priv: Bytes): P.Request
    requires |priv| == H.PRIVATE_KEY_SIZE
  {
    P.Request(u.deviceID, KeyText(priv), u.token)
  }

  function Step(u: Setup, s: System, e: Event): System
    requires Enabled(u, s, e)
  {
    match e
    case Start => s.(agent := Starting)
    case Check => s.(agent := if LoadKey(u.env, s.keys).Some? then Loading else Unprovisioned)
    case Generate(priv) => s.(agent := Generated(priv))
    case Keep(ringOk, fileOk) =>
      var (keys, ok) := StoreKey(u.env, s.keys, s.agent.priv, ringOk, fileOk);
      s.(keys := keys, agent := if ok then Stored(s.agent.priv) else Down)
    case Register => s.(net := s.net + [RegistrationOf(u, s.agent.priv)], agent := Registering)
    case Answered(ok) => s.(agent := if ok then Loading else Down)
    case Load =>
      s.(agent := match LoadKey(u.env, s.keys) case Some(priv) => Serving(priv) case None => Down)
    case Sync => s.(net := s.net + [RegistrationOf(u, s.agent.priv)])
    case Die => s.(agent := Down)
    case Deliver(i, saveOk) => s.(store := P.Provision(s.store, s.net[i], saveOk).0)
    case Foreign(p, saveOk) => s.(store := P.Provision(s.store, p, saveOk).0)
    case Restart(tokens, keepFile) =>
      s.(store := P.Boot(if keepFile then s.store.disk else None, tokens))
  }

  predicate CanRun(u: Setup, s: System, es: seq<Event>)
    decreases |es|
  {
    es == [] || (Enabled(u, s, es[0]) && CanRun(u, Step(u, s, es[0]), es[1..]))
  }

  function RunFrom(u: Setup, s: System, es: seq<Event>): System
    requires CanRun(u, s, es)
    decreases |es|
  {
    if es == [] then s else RunFrom(u, Step(u, s, es[0]), es[1..])
  }

  /** This map gives the device no key, or the public half of the key the agent would load. */
  ghost predicate Agrees(u: Setup, ks: KeyStore, devices: map<string, string>) {
    u.deviceID in devices ==>
      var k := LoadKey(u.env, ks);
      k.Some? && |k.value| == H.PRIVATE_KEY_SIZE && devices[u.deviceID] == KeyText(k.value)
  }

  ghost predicate Initial(u: Setup, s: System) {
    && s.agent.Down? && s.net == [] && Sound(s.keys) && TokensOk(u, s.store.tokens)
    && Agrees(u, s.keys, s.store.devices)
    && (s.store.disk.Some? ==> Agrees(u, s.keys, s.store.disk.value))
  }

  ghost predicate AgentOk(u: Setup, s: System) {
    match s.agent
    case Unprovisioned => LoadKey(u.env, s.keys).None?
    case Generated(priv) => LoadKey(u.env, s.keys).None? && |priv| == H.PRIVATE_KEY_SIZE
    case Stored(priv) => LoadKey(u.env, s.keys) == Some(priv)
    case Serving(priv) => LoadKey(u.env, s.keys) == Some(priv)
    case _ => true
  }

  ghost predicate Inv(u: Setup, s: System) {
    && Sound(s.keys) && TokensOk(u, s.store.tokens) && AgentOk(u, s)
    && Agrees(u, s.keys, s.store.devices)
    && (s.store.disk.Some? ==> Agrees(u, s.keys, s.store.disk.value))
    && (forall p | p in s.net :: IsOwnRegistration(u, s.keys, p))
  }

  /** The request registers the key the agent would load. */
  ghost predicate IsOwnRegistration(u: Setup, ks: KeyStore, p: P.Request) {
    var k := LoadKey(u.env, ks);
    k.Some? && |k.value| == H.PRIVATE_KEY_SIZE && p == RegistrationOf(u, k.value)
  }

  lemma SoundKeyIsWhole(env: Env, ks: KeyStore)
    requires Sound(ks) && LoadKey(env, ks).Some?
    ensures |LoadKey(env, ks).value| == H.PRIVATE_KEY_SIZE
  {
  }

  lemma StepKeepsInv(u: Setup, s: System, e: Event)
    requires Inv(u, s) && Enabled(u, s, e)
    ensures Inv(u, Step(u, s, e))
  {
    if LoadKey(u.env, s.keys).Some? {
      SoundKeyIsWhole(u.env, s.keys);
    }
    match e
    case Keep(ringOk, fileOk) => StoredKeyIsLoaded(u.env, s.keys, s.agent.priv, ringOk, fileOk);
    case Deliver(i, _) => assert s.net[i] in s.net;
    case _ =>
  }

  lemma {:induction false} RunKeepsInv(u: Setup, s: System, es: seq<Event>)
    requires Inv(u, s) && CanRun(u, s, es)
    ensures Inv(u, RunFrom(u, s, es))
    decreases |es|
  {
    if es != [] {
      StepKeepsInv(u, s, es[0]);
      RunKeepsInv(u, Step(u, s, es[0]), es[1..]);
    }
  }

  /**
   * Crash-safe key agreement: over any run of starts, crashes at any point, late and repeated deliveries, other
   * devices' requests and relay restarts, a key the relay holds for the device, in memory or on disk, is the public
   * half of the key the agent would load.
   */
  lemma KeysAgree(u: Setup, s: System, es: seq<Event>)
    requires Initial(u, s) && CanRun(u, s, es)
    ensures var t := RunFrom(u, s, es);
            && Agrees(u, t.keys, t.store.devices)
            && (t.store.disk.Some? ==> Agrees(u, t.keys, t.store.disk.value))
            && (t.agent.Serving? ==> LoadKey(u.env, t.keys) == Some(t.agent.priv))
  {
    RunKeepsInv(u, s, es);
  }

  /** No keyring write of the run fails. */
  predicate RingWorks(es: seq<Event>) { forall e | e in es && e.Keep? :: e.ringOk }

  /**
   * Which places a run can touch: a disabled keyring never changes; the key file changes neither where it is not
   * permitted nor as long as an enabled keyring works.
   */
  lemma {:induction false} PlacesLeftAlone(u: Setup, s: System, es: seq<Event>)
    requires CanRun(u, s, es)
    ensures u.env.disableKeyring ==> RunFrom(u, s, es).keys.keyring == s.keys.keyring
    ensures !u.env.allowKeyFile || (!u.env.disableKeyring && RingWorks(es)) ==> RunFrom(u, s, es).keys.file == s.keys.file
    decreases |es|
  {
    if es != [] {
      if es[0].Keep? {
        StoreGoesTo(u.env, s.keys, s.agent.priv, es[0].ringOk, es[0].fileOk);
        assert es[0] in es;
      }
      assert forall e | e in es[1..] :: e in es;
      PlacesLeftAlone(u, Step(u, s, es[0]), es[1..]);
    }
  }

  /** The automatic path never replaces a key: once one can be loaded, nothing is stored again, over any run. */
  lemma {:induction false} KeyNeverReplaced(u: Setup, s: System, es: seq<Event>)
    requires Inv(u, s) && LoadKey(u.env, s.keys).Some? && CanRun(u, s, es)
    ensures RunFrom(u, s, es).keys == s.keys
    decreases |es|
  {
    if es != [] {
      StepKeepsInv(u, s, es[0]);
      KeyNeverReplaced(u, Step(u, s, es[0]), es[1..]);
    }
  }

  /** The requests that reach the relay in a run, own and foreign, in order. */
  function Reaching(u: Setup, s: System, es: seq<Event>): seq<P.Post>
    requires CanRun(u, s, es)
    decreases |es|
  {
    if es == [] then []
    else
      var rest := Reaching(u, Step(u, s, es[0]), es[1..]);
      match es[0]
      case Deliver(i, saveOk) => [P.Post(s.net[i], saveOk)] + rest
      case Foreign(p, saveOk) => [P.Post(p, saveOk)] + rest
      case _ => rest
  }

  /** Until it restarts, the relay's store is what Provisioning makes of the requests that reach it. */
  lemma {:induction false} StoreFollowsRequests(u: Setup, s: System, es: seq<Event>)
    requires CanRun(u, s, es) && forall e | e in es :: !e.Restart?
    ensures RunFrom(u, s, es).store == P.After(s.store, Reaching(u, s, es))
    decreases |es|
  {
    if es != [] {
      var s1 := Step(u, s, es[0]);
      StoreFollowsRequests(u, s1, es[1..]);
      match es[0]
      case Deliver(i, saveOk) => P.AfterFirst(s.store, P.Post(s.net[i], saveOk), Reaching(u, s1, es[1..]));
      case Foreign(p, saveOk) => P.AfterFirst(s.store, P.Post(p, saveOk), Reaching(u, s1, es[1..]));
      case _ =>
    }
  }

  lemma Before(u: Setup, s: System, e: Event, es: seq<Event>) returns (all: seq<Event>)
    requires Enabled(u, s, e) && CanRun(u, Step(u, s, e), es)
    ensures all == [e] + es && CanRun(u, s, all) && RunFrom(u, s, all) == RunFrom(u, Step(u, s, e), es)
  {
    all := [e] + es;
    assert all[1..] == es;
  }

  /**
   * First start: an agent without a key, whose key store takes one and whose relay has its token, can come to serve
   * with the fresh key, registered and on disk.
   */
  lemma FreshAgentGetsServing(u: Setup, s: System, priv: Bytes, ringOk: bool, fileOk: bool) returns (es: seq<Event>)
    requires Inv(u, s) && s.agent.Down? && LoadKey(u.env, s.keys).None? && u.deviceID in s.store.tokens
    requires |priv| == H.PRIVATE_KEY_SIZE && StoreKey(u.env, s.keys, priv, ringOk, fileOk).1
    ensures CanRun(u, s, es)
    ensures var t := RunFrom(u, s, es);
            && t.agent == Serving(priv) && LoadKey(u.env, t.keys) == Some(priv)
            && t.store.devices == s.store.devices[u.deviceID := KeyText(priv)] && t.store.disk == Some(t.store.devices)
            && t.store.tokens == s.store.tokens - {u.deviceID}
  {
    StoredKeyIsLoaded(u.env, s.keys, priv, ringOk, fileOk);
    var s1 := Step(u, Step(u, s, Start), Check);
    var s2 := Step(u, Step(u, s1, Generate(priv)), Keep(ringOk, fileOk));
    var s3 := Step(u, s2, Register);
    assert s3.net[|s.net|] == RegistrationOf(u, priv);
    var s4 := Step(u, s3, Deliver(|s.net|, true));
    var s5 := Step(u, Step(u, s4, Answered(true)), Load);
    assert RunFrom(u, s5, []) == s5;
    es := Before(u, Step(u, s4, Answered(true)), Load, []);
    es := Before(u, s4, Answered(true), es);
    es := Before(u, s3, Deliver(|s.net|, true), es);
    es := Before(u, s2, Register, es);
    es := Before(u, Step(u, s1, Generate(priv)), Keep(ringOk, fileOk), es);
    es := Before(u, s1, Generate(priv), es);
    es := Before(u, Step(u, s, Start), Check, es);
    es := Before(u, s, Start, es);
  }

  lemma {:induction false} RunSplitsLast(u: Setup, s: System, es: seq<Event>)
    requires es != [] && CanRun(u, s, es)
    ensures var front := es[..|es| - 1];
            && CanRun(u, s, front) && Enabled(u, RunFrom(u, s, front), es[|es| - 1])
            && RunFrom(u, s, es) == Step(u, RunFrom(u, s, front), es[|es| - 1])
    decreases |es|
  {
    var front := es[..|es| - 1];
    if |es| == 1 {
      assert es[1..] == [];
    } else {
      RunSplitsLast(u, Step(u, s, es[0]), es[1..]);
      assert front[1..] == es[1..][..|es| - 2];
    }
  }

  /** The events since the agent was last started. */
  function SinceStart(es: seq<Event>): seq<Event> {
    if es == [] || es[|es| - 1].Start? then []
    else SinceStart(es[..|es| - 1]) + [es[|es| - 1]]
  }

  /** Failure is fatal: an agent that is up has not, since its last start, failed to register, nor died. */
  lemma {:induction false} FailureIsFatal(u: Setup, s: System, es: seq<Event>)
    requires CanRun(u, s, es) && s.agent.Down? && !RunFrom(u, s, es).agent.Down?
    ensures Answered(false) !in SinceStart(es) && Die !in SinceStart(es)
    decreases |es|
  {
    var front, e := es[..|es| - 1], es[|es| - 1];
    RunSplitsLast(u, s, es);
    if !e.Start? {
      FailureIsFatal(u, s, front);
    }
  }

  /** From wherever a run has got to, an agent with a key can be restarted into serving with it; nothing else changes. */
  lemma AgentComesBack(u: Setup, s: System, k: Bytes) returns (es: seq<Event>)
    requires LoadKey(u.env, s.keys) == Some(k)
    ensures CanRun(u, s, es) && RunFrom(u, s, es) == s.(agent := Serving(k))
  {
    var s1 := Step(u, s, Die);
    var s2 := Step(u, s1, Start);
    var s3 := Step(u, s2, Check);
    var s4 := Step(u, s3, Load);
    assert RunFrom(u, s4, []) == s4;
    es := Before(u, s3, Load, []);
    es := Before(u, s2, Check, es);
    es := Before(u, s1, Start, es);
    es := Before(u, s, Die, es);
  }

  /** A serving agent whose device the relay knows passes the relay's handshake, clocks permitting. */
  lemma KnownAgentConnects(u: Setup, s: System, es: seq<Event>, x: H.Scheme, f: H.Format, at: int, now: int, later: int)
    requires Initial(u, s) && CanRun(u, s, es)
    requires H.Lawful(x) && H.Faithful(f) && H.Printable(at) && u.deviceID != ""
    requires var t := RunFrom(u, s, es); t.agent.Serving? && x.isKey(t.agent.priv) && u.deviceID in t.store.devices
    requires -120 * H.SECOND <= later - at && now - at <= 119 * H.SECOND
    ensures var t := RunFrom(u, s, es);
            && |t.agent.priv| == H.PRIVATE_KEY_SIZE
            && H.Check(x, f, t.store.devices, H.Auth(H.Greeting(x, f, u.deviceID, t.agent.priv, at)), now, later).Ok?
  {
    RunKeepsInv(u, s, es);
    var t := RunFrom(u, s, es);
    H.HonestAgentAccepted(x, f, t.store.devices, u.deviceID, t.agent.priv, at, now, later);
  }

  // ----- Re-synchronisation -----

  /** What the agent sees of one registration: an HTTP reply, or no reply at all. */
  datatype Reply = Http(status: nat, body: string) | NoReply(note: string)

  /** The relay's replies, relay/main.go:260-275; http.Error ends the text with a line break. */
  function ReplyTo(st: P.Status): Reply {
    match st
    case Accepted => Http(200, "")
    case InvalidToken => Http(401, "invalid setup token\n")
    case PersistFailed => Http(500, "persist devices failed\n")
  }

  /** The error of `registerPublicKey`. */
  function RegisterError(r: Reply): Option<string> {
    match r
    case Http(status, body) => if status == 200 then None else Some("provision failed: " + body)
    case NoReply(note) => Some("post provision: " + note)
  }

  /** The error of `syncProvisionedDevice`: a used-up token is not one. */
  function SyncError(token: string, r: Reply): Option<string> {
    if T.IsBlank(token) then None
    else match RegisterError(r)
      case None => None
      case Some(e) => if T.Contains(e, "invalid setup token") then None else Some(e)
  }

  /**
   * What the agent makes of every reply, or of none: a registration succeeded exactly on status 200; a sync reports
   * anything else, unless the body, or the note of the network error, says that the token was invalid.
   */
  lemma SyncErrsExactlyWhen(token: string, r: Reply)
    ensures RegisterError(r).None? <==> r.Http? && r.status == 200
    ensures SyncError(token, r).Some? <==>
            && !T.IsBlank(token) && !(r.Http? && r.status == 200)
            && !T.Contains(if r.Http? then r.body else r.note, "invalid setup token")
    ensures SyncError(token, r).Some? ==> SyncError(token, r) == RegisterError(r)
  {
    match r
    case Http(_, body) => T.ContainsBehind("provision failed: ", body, "invalid setup token");
    case NoReply(note) => T.ContainsBehind("post provision: ", note, "invalid setup token");
  }

  /** A sync that reached the relay reports an error exactly when the relay could not save. */
  lemma SyncReports(token: string, st: P.Status)
    requires !T.IsBlank(token)
    ensures SyncError(token, ReplyTo(st)).Some? <==> st.PersistFailed?
  {
    match st
    case Accepted =>
    case InvalidToken =>
      T.ContainsMiddle("provision failed: ", "invalid setup token", "\n");
      assert "provision failed: " + "invalid setup token\n" == "provision failed: " + "invalid setup token" + "\n";
    case PersistFailed =>
      if T.Contains("provision failed: " + "persist devices failed\n", "invalid setup token") {
        T.ContainsChars("provision failed: " + "persist devices failed\n", "invalid setup token", 'k');
        assert false;
      }
  }

  /** With a used-up token nothing that happens before a relay restart touches the device's entry. */
  lemma {:induction false} SpentStays(u: Setup, s: System, es: seq<Event>)
    requires CanRun(u, s, es) && u.deviceID !in s.store.tokens && (forall e | e in es :: !e.Restart?)
    ensures var t := RunFrom(u, s, es).store;
            && u.deviceID !in t.tokens
            && (u.deviceID in t.devices <==> u.deviceID in s.store.devices)
            && (u.deviceID in t.devices ==> t.devices[u.deviceID] == s.store.devices[u.deviceID])
    decreases |es|
  {
    if es != [] {
      SpentStays(u, Step(u, s, es[0]), es[1..]);
    }
  }

  /** One delivered registration, however old, registers the agent's key if the token is unspent, saved or not. */
  lemma DeliveryRegisters(u: Setup, s: System, i: nat, saveOk: bool)
    requires Inv(u, s) && i < |s.net| && u.deviceID in s.store.tokens
    ensures LoadKey(u.env, s.keys).Some? && |LoadKey(u.env, s.keys).value| == H.PRIVATE_KEY_SIZE
    ensures var t := Step(u, s, Deliver(i, saveOk)).store;
            && t.devices == s.store.devices[u.deviceID := KeyText(LoadKey(u.env, s.keys).value)]
            && t.tokens == s.store.tokens - {u.deviceID}
            && t.disk == if saveOk then Some(t.devices) else s.store.disk
  {
    assert s.net[i] in s.net;
    assert IsOwnRegistration(u, s.keys, s.net[i]);
  }

  /**
   * Recovery: whatever was lost, after a relay restart with the token configured again one sync brings the device back,
   * in memory and on disk; the other devices are those of the file if it was kept, and gone if it was not.
   */
  lemma RestartThenSync(u: Setup, s: System, tokens: map<string, string>, keepFile: bool) returns (es: seq<Event>)
    requires Inv(u, s) && s.agent.Serving? && !T.IsBlank(u.token) && TokensOk(u, tokens) && u.deviceID in tokens
    ensures es == [Restart(tokens, keepFile), Sync, Deliver(|s.net|, true)] && CanRun(u, s, es)
    ensures var t := RunFrom(u, s, es).store;
            && |s.agent.priv| == H.PRIVATE_KEY_SIZE && t.disk == Some(t.devices)
            && u.deviceID in t.devices && t.devices[u.deviceID] == KeyText(s.agent.priv)
            && forall d | d != u.deviceID ::
                 && (d in t.devices <==> keepFile && s.store.disk.Some? && d in s.store.disk.value)
                 && (d in t.devices ==> t.devices[d] == s.store.disk.value[d])
  {
    SoundKeyIsWhole(u.env, s.keys);
    var s1 := Step(u, s, Restart(tokens, keepFile));
    var s2 := Step(u, s1, Sync);
    StepKeepsInv(u, s, Restart(tokens, keepFile));
    StepKeepsInv(u, s1, Sync);
    DeliveryRegisters(u, s2, |s.net|, true);
    RunOfOne(u, s2, Deliver(|s.net|, true));
    es := Before(u, s1, Sync, [Deliver(|s.net|, true)]);
    es := Before(u, s, Restart(tokens, keepFile), es);
  }

  lemma OtherStepsKeepToken(u: Setup, s: System, e: Event)
    requires Inv(u, s) && Enabled(u, s, e) && u.deviceID in s.store.tokens && !e.Restart? && !e.Deliver?
    ensures u.deviceID in Step(u, s, e).store.tokens
  {
  }

  /**
   * Convergence: if the relay has this device's token unspent, say after a restart that lost the device file, then
   * whatever else happens short of another restart, once any registration of the agent was delivered the relay holds
   * the key the agent would load, even if no save ever succeeds.
   */
  lemma {:induction false} AnyDeliveryConverges(u: Setup, s: System, es: seq<Event>)
    requires Inv(u, s) && CanRun(u, s, es) && u.deviceID in s.store.tokens
    requires (forall e | e in es :: !e.Restart?) && exists e :: e in es && e.Deliver?
    ensures var t := RunFrom(u, s, es); var k := LoadKey(u.env, t.keys);
            && k.Some? && |k.value| == H.PRIVATE_KEY_SIZE
            && u.deviceID in t.store.devices && t.store.devices[u.deviceID] == KeyText(k.value)
            && u.deviceID !in t.store.tokens
    decreases |es|
  {
    StepKeepsInv(u, s, es[0]);
    if es[0].Deliver? {
      DeliveryRegisters(u, s, es[0].i, es[0].saveOk);
      SpentStays(u, Step(u, s, es[0]), es[1..]);
      RunKeepsInv(u, Step(u, s, es[0]), es[1..]);
    } else {
      OtherStepsKeepToken(u, s, es[0]);
      var e :| e in es && e.Deliver?;
      assert e in es[1..];
      AnyDeliveryConverges(u, Step(u, s, es[0]), es[1..]);
    }
  }

  /**
   * Idempotence: with the token spent, any number of further syncs, deliveries, agent crashes and foreign posts leave
   * the device's key alone until the relay restarts, and each registration for it is answered by a rejection that
   * the agent takes for success.
   */
  lemma FurtherSyncsChangeNothing(u: Setup, s: System, es: seq<Event>, p: P.Request)
    requires CanRun(u, s, es) && u.deviceID !in s.store.tokens && !T.IsBlank(u.token) && p.deviceID == u.deviceID
    requires forall e | e in es :: !e.Restart?
    ensures var t := RunFrom(u, s, es).store;
            && u.deviceID !in t.tokens
            && (u.deviceID in t.devices <==> u.deviceID in s.store.devices)
            && (u.deviceID in t.devices ==> t.devices[u.deviceID] == s.store.devices[u.deviceID])
            && P.Provision(t, p, true) == P.Provision(t, p, false) == (t, P.InvalidToken)
            && SyncError(u.token, ReplyTo(P.InvalidToken)) == None
  {
    SpentStays(u, s, es);
    SyncReports(u.token, P.InvalidToken);
  }

  // ----- Explicit re-provisioning, which the automatic path never does -----

  /** What becomes of the one request: none was sent, it is still under way or lost, or the relay has handled it. */
  datatype Sending = Unsent | InTransit | Handled(saveOk: bool)

  /**
   * `agent --provision` with a key already stored: store the new key, then register it. It is a process of its own,
   * beside the running agent.
   */
  function Reprovision(u: Setup, s: System, priv: Bytes, ringOk: bool, fileOk: bool, sending: Sending): System
    requires |priv| == H.PRIVATE_KEY_SIZE
  {
    var (keys, ok) := StoreKey(u.env, s.keys, priv, ringOk, fileOk);
    if !ok then s
    else
      s.(keys := keys,
         net := if sending.Unsent? then s.net else s.net + [RegistrationOf(u, priv)],
         store := if sending.Handled? then P.Provision(s.store, RegistrationOf(u, priv), sending.saveOk).0 else s.store)
  }

  /** In memory and in the file, the relay's key for the device is the one the agent would load, or there is none. */
  ghost predicate BothAgree(u: Setup, s: System) {
    && Agrees(u, s.keys, s.store.devices)
    && (s.store.disk.Some? ==> Agrees(u, s.keys, s.store.disk.value))
  }

  predicate FileFree(u: Setup, st: P.Store) { st.disk.None? || u.deviceID !in st.disk.value }

  predicate Takes(u: Setup, s: System, sending: Sending) { sending.Handled? && u.deviceID in s.store.tokens }

  lemma LoadedAfterwards(u: Setup, s: System, old': Bytes, priv: Bytes, ringOk: bool, fileOk: bool, sending: Sending)
    requires Sound(s.keys) && LoadKey(u.env, s.keys) == Some(old') && |old'| == |priv| == H.PRIVATE_KEY_SIZE
    requires StoreKey(u.env, s.keys, priv, ringOk, fileOk).1
    ensures var t := Reprovision(u, s, priv, ringOk, fileOk, sending);
            Sound(t.keys) && LoadKey(u.env, t.keys) == Some(if LandsWhereRead(u.env, s.keys, ringOk) then priv else old')
  {
    RoundTrip(priv);
  }

  lemma SameTextSameKey(a: Bytes, b: Bytes)
    requires |a| == |b| == H.PRIVATE_KEY_SIZE
    ensures KeyText(a) == KeyText(b) <==> H.Public(a) == H.Public(b)
  {
    if KeyText(a) == KeyText(b) {
      EncodeInjective(H.Public(a), H.Public(b));
    }
  }

  /**
   * Key agreement does not survive every explicit re-provisioning. Exactly when relay memory and device file still
   * agree with the agent right after it: the store refused the new key; or its public half is the old one; or the
   * relay took the new key, later loads find it, and the file either got it too or has none; or the relay did not take
   * it, and either later loads still find the old key or the relay has none in memory and in the file.
   */
  lemma ReprovisionAgreesIff(
      u: Setup, s: System, old': Bytes, priv: Bytes, ringOk: bool, fileOk: bool, sending: Sending)
    requires Inv(u, s) && LoadKey(u.env, s.keys) == Some(old') && |old'| == |priv| == H.PRIVATE_KEY_SIZE
    ensures BothAgree(u, Reprovision(u, s, priv, ringOk, fileOk, sending)) <==>
            || !StoreKey(u.env, s.keys, priv, ringOk, fileOk).1
            || H.Public(priv) == H.Public(old')
            || (if Takes(u, s, sending)
                then LandsWhereRead(u.env, s.keys, ringOk) && (sending.saveOk || FileFree(u, s.store))
                else !LandsWhereRead(u.env, s.keys, ringOk) || (u.deviceID !in s.store.devices && FileFree(u, s.store)))
  {
    SameTextSameKey(priv, old');
    if StoreKey(u.env, s.keys, priv, ringOk, fileOk).1 {
      LoadedAfterwards(u, s, old', priv, ringOk, fileOk, sending);
    }
  }

  // ----- What late deliveries do after a re-provisioning -----

  /** Whatever happens next, agent restarts and late deliveries of every request ever sent included, they agree. */
  ghost predicate AgreeForever(u: Setup, s: System) {
    forall es :: CanRun(u, s, es) ==> BothAgree(u, RunFrom(u, s, es))
  }

  /** A running agent process will register the key it holds, on its first registration or at its next sync. */
  predicate WillSend(u: Setup, a: Agent) { a.Stored? || (a.Serving? && !T.IsBlank(u.token)) }

  /** Everything that can still reach the relay carries the text of key k, which is the one the agent would load. */
  ghost predicate Converged(u: Setup, s: System, k: Bytes) {
    && |k| == H.PRIVATE_KEY_SIZE && LoadKey(u.env, s.keys) == Some(k)
    && TokensOk(u, s.store.tokens) && BothAgree(u, s)
    && (forall p | p in s.net :: p == RegistrationOf(u, k))
    && !s.agent.Unprovisioned? && !s.agent.Generated?
    && (WillSend(u, s.agent) ==> |s.agent.priv| == H.PRIVATE_KEY_SIZE && KeyText(s.agent.priv) == KeyText(k))
  }

  lemma StepKeepsConverged(u: Setup, s: System, k: Bytes, e: Event)
    requires Converged(u, s, k) && Enabled(u, s, e)
    ensures Converged(u, Step(u, s, e), k)
  {
    if e.Deliver? {
      assert s.net[e.i] in s.net;
    }
  }

  lemma {:induction false} RunKeepsConverged(u: Setup, s: System, k: Bytes, es: seq<Event>)
    requires Converged(u, s, k) && CanRun(u, s, es)
    ensures Converged(u, RunFrom(u, s, es), k)
    decreases |es|
  {
    if es != [] {
      StepKeepsConverged(u, s, k, es[0]);
      RunKeepsConverged(u, Step(u, s, es[0]), k, es[1..]);
    }
  }

  /** After a relay restart with the token configured again, a request that carries another key breaks agreement. */
  lemma OldRequestBreaks(u: Setup, s: System, k: Bytes, p: Bytes, i: nat)
    requires |k| == |p| == H.PRIVATE_KEY_SIZE && LoadKey(u.env, s.keys) == Some(k)
    requires i < |s.net| && s.net[i] == RegistrationOf(u, p) && KeyText(p) != KeyText(k)
    ensures !AgreeForever(u, s)
  {
    var e1, e2 := Restart(map[u.deviceID := u.token], true), Deliver(i, true);
    RunOfTwo(u, s, e1, e2);
    assert !BothAgree(u, RunFrom(u, s, [e1, e2]));
  }

  lemma RunOfOne(u: Setup, s: System, e: Event)
    requires Enabled(u, s, e)
    ensures CanRun(u, s, [e]) && RunFrom(u, s, [e]) == Step(u, s, e)
  {
    assert [e][1..] == [];
  }

  lemma RunOfTwo(u: Setup, s: System, e1: Event, e2: Event)
    requires Enabled(u, s, e1) && Enabled(u, Step(u, s, e1), e2)
    ensures CanRun(u, s, [e1, e2]) && RunFrom(u, s, [e1, e2]) == Step(u, Step(u, s, e1), e2)
  {
    RunOfOne(u, Step(u, s, e1), e2);
    assert [e1, e2][1..] == [e2];
  }

  lemma AgreeForeverSteps(u: Setup, s: System, e: Event)
    requires Enabled(u, s, e) && AgreeForever(u, s)
    ensures AgreeForever(u, Step(u, s, e))
  {
    forall es | CanRun(u, Step(u, s, e), es) ensures BothAgree(u, RunFrom(u, Step(u, s, e), es)) {
      assert ([e] + es)[1..] == es;
      assert CanRun(u, s, [e] + es);
    }
  }

  lemma OldProcessBreaks(u: Setup, s: System, k: Bytes)
    requires |k| == H.PRIVATE_KEY_SIZE && LoadKey(u.env, s.keys) == Some(k)
    requires WillSend(u, s.agent) && |s.agent.priv| == H.PRIVATE_KEY_SIZE && KeyText(s.agent.priv) != KeyText(k)
    ensures !AgreeForever(u, s)
  {
    var e := if s.agent.Stored? then Register else Sync;
    OldRequestBreaks(u, Step(u, s, e), k, s.agent.priv, |s.net|);
    if AgreeForever(u, s) {
      AgreeForeverSteps(u, s, e);
    }
  }

  /**
   * Exactly when agreement holds for good after an explicit re-provisioning: the store refused the new key, or its
   * public half is the old one. Or later loads find the new key, and nothing is left that carries the old one: no
   * earlier registration was ever sent, no running process will send one, and relay memory and file had none or were
   * overwritten. Or later loads still find the old key, and the new one was never sent. In every other case the keys
   * differ already, or a relay restart and one late delivery make them differ.
   */
  lemma ReprovisionAgreesForeverIff(
      u: Setup, s: System, old': Bytes, priv: Bytes, ringOk: bool, fileOk: bool, sending: Sending)
    requires Inv(u, s) && LoadKey(u.env, s.keys) == Some(old') && |old'| == |priv| == H.PRIVATE_KEY_SIZE
    ensures AgreeForever(u, Reprovision(u, s, priv, ringOk, fileOk, sending)) <==>
            || !StoreKey(u.env, s.keys, priv, ringOk, fileOk).1
            || H.Public(priv) == H.Public(old')
            || (if LandsWhereRead(u.env, s.keys, ringOk)
                then && s.net == [] && !WillSend(u, s.agent)
                     && (FileFree(u, s.store) || (Takes(u, s, sending) && sending.saveOk))
                     && (Takes(u, s, sending) || u.deviceID !in s.store.devices)
                else sending.Unsent?)
  {
    var t := Reprovision(u, s, priv, ringOk, fileOk, sending);
    SameTextSameKey(priv, old');
    assert forall p | p in s.net :: p == RegistrationOf(u, old');
    ReprovisionAgreesIff(u, s, old', priv, ringOk, fileOk, sending);
    if !StoreKey(u.env, s.keys, priv, ringOk, fileOk).1 {
      ConvergedAgreesForever(u, t, old');
    } else {
      LoadedAfterwards(u, s, old', priv, ringOk, fileOk, sending);
      var k := LoadKey(u.env, t.keys).value;
      if KeyText(priv) == KeyText(old') {
        ConvergedAgreesForever(u, t, k);
      } else if LandsWhereRead(u.env, s.keys, ringOk) {
        NewKeyForeverIff(u, s, t, old', priv);
      } else {
        OldKeyForeverIff(u, s, t, old', priv, sending);
      }
    }
  }

  lemma ConvergedAgreesForever(u: Setup, s: System, k: Bytes)
    requires Converged(u, s, k)
    ensures AgreeForever(u, s)
  {
    forall es | CanRun(u, s, es) ensures BothAgree(u, RunFrom(u, s, es)) {
      RunKeepsConverged(u, s, k, es);
    }
  }

  lemma NewKeyForeverIff(u: Setup, s: System, t: System, old': Bytes, priv: Bytes)
    requires |old'| == |priv| == H.PRIVATE_KEY_SIZE && KeyText(priv) != KeyText(old') && AgentOk(u, s)
    requires LoadKey(u.env, s.keys) == Some(old') && LoadKey(u.env, t.keys) == Some(priv) && t.agent == s.agent
    requires TokensOk(u, t.store.tokens) && (forall p | p in s.net :: p == RegistrationOf(u, old'))
    requires t.net == s.net || t.net == s.net + [RegistrationOf(u, priv)]
    ensures AgreeForever(u, t) <==> BothAgree(u, t) && s.net == [] && !WillSend(u, s.agent)
  {
    if s.net != [] {
      assert s.net[0] in s.net;
      OldRequestBreaks(u, t, priv, old', 0);
    } else if WillSend(u, s.agent) {
      OldProcessBreaks(u, t, priv);
    } else if BothAgree(u, t) {
      ConvergedAgreesForever(u, t, priv);
    } else {
      assert CanRun(u, t, []) && RunFrom(u, t, []) == t;
    }
  }

  lemma OldKeyForeverIff(u: Setup, s: System, t: System, old': Bytes, priv: Bytes, sending: Sending)
    requires |old'| == |priv| == H.PRIVATE_KEY_SIZE && KeyText(priv) != KeyText(old') && AgentOk(u, s)
    requires LoadKey(u.env, s.keys) == Some(old') == LoadKey(u.env, t.keys) && t.agent == s.agent
    requires TokensOk(u, t.store.tokens) && (forall p | p in s.net :: p == RegistrationOf(u, old'))
    requires t.net == if sending.Unsent? then s.net else s.net + [RegistrationOf(u, priv)]
    requires sending.Unsent? ==> BothAgree(u, t)
    ensures AgreeForever(u, t) <==> sending.Unsent?
  {
    if sending.Unsent? {
      ConvergedAgreesForever(u, t, old');
    } else {
      OldRequestBreaks(u, t, old', priv, |s.net|);
    }
  }
}
