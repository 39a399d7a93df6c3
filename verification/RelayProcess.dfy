/** The relay process: the global maps of relay/main.go:39-49 as fields that its functions update in place. */
module RelayProcess {
  import opened Common
  import opened Wire
  import opened AgentSession
  import A = Bearer
  import H = Handshake
  import P = Provisioning
  import T = SetupTokens
  import Text
  import W = Waiters

  /** What a controller request comes back with. */
  datatype Outcome = Refused(why: A.Verdict) | Offline | Failed(error: SendError) | Answered(m: Message)

  /** A file of string pairs as the process finds it; Unreadable covers every error, of reading or parsing. */
  datatype File = Missing | Unreadable | Content(entries: map<string, string>)

  function Entries(file: File): Option<map<string, string>> {
    if file.Content? then Some(file.entries) else None
  }

  lemma OneEntryMore(m: map<string, string>, entries: map<string, string>, todo: set<string>, id: string)
    requires todo <= entries.Keys && id in todo
    ensures (m + (entries - todo))[id := entries[id]] == m + (entries - (todo - {id}))
  {
  }

  class Relay {
    /** The trimmed RELAY_CONTROLLER_TOKEN. */
    const controllerToken: string
    var devices: map<string, string>
    var setupTokens: map<string, string>
    var sessions: map<string, AgentSession>
    /** The device file; None while there is none. */
    var disk: Option<map<string, string>>

    ghost predicate Valid()
      reads this, sessions.Values
    {
      forall d | d in sessions :: sessions[d].Valid() && sessions[d].deviceID == d
    }

    ghost function Store(): P.Store
      reads this
    {
      P.Store(devices, setupTokens, disk)
    }

    constructor (file: File, token: string)
      ensures Valid() && sessions == map[] && controllerToken == Text.Trim(token)
      ensures Store() == P.Store(map[], map[], Entries(file))
    {
      controllerToken := Text.Trim(token);
      devices := map[];
      setupTokens := map[];
      sessions := map[];
      disk := Entries(file);
    }

    /**
     * The part of `main` that restores state: the device file, then the token file if one is named, then the token
     * variable. The process ends, here without a relay, when one of the two files cannot be loaded or the controller
     * token is blank; a missing device file is fine, a missing token file is not.
     */
    static method StartUp(file: File, tokenFile: Option<File>, tokenText: string, token: string) returns (relay: Relay?)
      ensures relay == null <==>
              file.Unreadable? || (tokenFile.Some? && !tokenFile.value.Content?) || Text.IsBlank(token)
      ensures relay != null ==>
                && fresh(relay) && relay.Valid() && relay.sessions == map[]
                && relay.controllerToken == Text.Trim(token) != ""
                && relay.Store() ==
                   P.Boot(Entries(file), T.Load(if tokenFile.Some? then tokenFile.value.entries else map[], tokenText))
    {
      var r := new Relay(file, token);
      var ok := r.LoadDevicesFromFile(file);
      if !ok {
        return null;
      }
      if tokenFile.Some? {
        ok := r.LoadSetupTokensFromFile(tokenFile.value);
        if !ok {
          return null;
        }
        assert map[] + tokenFile.value.entries == tokenFile.value.entries;
      }
      r.LoadSetupTokensFromEnv(tokenText);
      A.BlankTrims(token);
      relay := if r.controllerToken == "" then null else r;
    }

    method LoadDevicesFromFile(file: File) returns (ok: bool)
      modifies this`devices
      ensures ok <==> !file.Unreadable?
      ensures devices == if file.Content? then file.entries else old(devices)
    {
      if file.Content? {
        devices := file.entries;
      }
      ok := !file.Unreadable?;
    }

    /** Copies every entry of the parsed file, in whatever order the map yields them. */
    method LoadSetupTokensFromFile(file: File) returns (ok: bool)
      modifies this`setupTokens
      ensures ok <==> file.Content?
      ensures setupTokens == if file.Content? then old(setupTokens) + file.entries else old(setupTokens)
    {
      if !file.Content? {
        return false;
      }
      ghost var before := setupTokens;
      var tokens := file.entries;
      var todo := tokens.Keys;
      while todo != {}
        invariant todo <= tokens.Keys
        invariant setupTokens == before + (tokens - todo)
        decreases |todo|
      {
        var id :| id in todo;
        OneEntryMore(before, tokens, todo, id);
        setupTokens := setupTokens[id := tokens[id]];
        todo := todo - {id};
      }
      assert tokens - todo == tokens;
      ok := true;
    }

    method LoadSetupTokensFromEnv(text: string)
      modifies this`setupTokens
      ensures setupTokens == T.Load(old(setupTokens), text)
    {
      ghost var before := setupTokens;
      var pairs := Text.Split(text, ',');
      for i := 0 to |pairs|
        invariant setupTokens == T.AddPieces(before, pairs[..i])
      {
        T.AddNext(before, pairs, i);
        if Text.Trim(pairs[i]) != "" {
          var n := Text.Find(pairs[i], '=');
          if n < |pairs[i]| {
            var deviceID := Text.Trim(pairs[i][..n]);
            var token := Text.Trim(pairs[i][n + 1..]);
            if deviceID != "" && token != "" {
              setupTokens := setupTokens[deviceID := token];
            }
          }
        }
      }
      assert pairs[..|pairs|] == pairs;
    }

    /** Copies the device map and writes it out; the write replaces the file or fails. */
    method SaveDevicesToFile(writeOk: bool) returns (ok: bool)
      modifies this`disk
      ensures ok == writeOk && Store() == P.Save(old(Store()), writeOk)
    {
      var stored: map<string, string> := map[];
      var todo := devices.Keys;
      while todo != {}
        invariant todo <= devices.Keys
        invariant stored.Keys == devices.Keys - todo
        invariant forall id | id in stored :: stored[id] == devices[id]
        decreases |todo|
      {
        var id :| id in todo;
        stored := stored[id := devices[id]];
        todo := todo - {id};
      }
      assert stored == devices;
      ok := writeOk;
      if ok {
        disk := Some(stored);
      }
    }

    method HandleProvision(p: P.Request, writeOk: bool) returns (st: P.Status)
      modifies this`devices, this`setupTokens, this`disk
      ensures (Store(), st) == P.Provision(old(Store()), p, writeOk)
    {
      if p.deviceID !in setupTokens || setupTokens[p.deviceID] != p.setupToken {
        return P.InvalidToken;
      }
      setupTokens := setupTokens - {p.deviceID};
      devices := devices[p.deviceID := p.publicKey];
      var ok := SaveDevicesToFile(writeOk);
      st := if ok then P.Accepted else P.PersistFailed;
    }

    /** `handleAgentConn` up to the read loop: check the greeting, and list a new session. */
    method Admit(x: H.Scheme, f: H.Format, m: H.Frame, now: int, later: int)
      returns (verdict: Result<H.AuthPayload, H.Refusal>, s: AgentSession?)
      requires Valid()
      modifies this`sessions
      ensures Valid() && verdict == H.Check(x, f, devices, m, now, later)
      ensures verdict.Err? ==> s == null && sessions == old(sessions)
      ensures verdict.Ok? ==>
                && s != null && fresh(s) && s.Valid() && s.Table() == W.Empty() && s.sent == []
                && sessions == old(sessions)[m.payload.deviceID := s]
    {
      s := null;
      verdict := H.Check(x, f, devices, m, now, later);
      if verdict.Ok? {
        s := new AgentSession(verdict.value.deviceID);
        sessions := sessions[verdict.value.deviceID := s];
      }
    }

    /** `handleAgentConn` after the read loop: it deletes by device, whoever is listed there by now. */
    method CleanUp(deviceID: string)
      requires Valid()
      modifies this`sessions
      ensures Valid() && sessions == old(sessions) - {deviceID}
    {
      sessions := sessions - {deviceID};
    }

    /** The part of a handler that has found its session. */
    static method Forward(s: AgentSession, req: Request, writeOk: bool, arrivals: seq<Message>, timerFirst: bool)
      returns (r: Outcome)
      requires s.Valid() && req.id != ""
      modifies s`responses, s`made, s`sent, s.made
      ensures s.Valid() && s.sent == old(s.sent) + (if writeOk then [req] else [])
      ensures s.Table() == AfterSend(old(s.Table()), req.id, if writeOk then arrivals else [], timerFirst)
      ensures r.Answered? || r == Failed(WriteFailed) || r == Failed(TimedOut)
      ensures r == Failed(WriteFailed) <==> !writeOk
      ensures r == Failed(TimedOut) <==> writeOk && (timerFirst || !HasAnswer(arrivals, req.id))
      ensures r.Answered? ==> IsAnswer(arrivals, req.id, r.m)
    {
      var sent := s.SendRequest(req, writeOk, arrivals, timerFirst);
      match sent
      case Ok(m) => r := Answered(m);
      case Err(e) => r := Failed(e);
    }

    /** The request carries the controller token and its device has a session. */
    ghost predicate Reached(header: string, deviceID: string)
      reads this`sessions
    {
      A.Carries(controllerToken, header) && deviceID in sessions
    }

    /**
     * `handleExec` and `handleSimpleAction`: authorise, find the session, send with the constant id. `header` is the
     * Authorization header, `arrivals` what the reader dispatches while the handler waits.
     */
    method HandleAction(header: string, deviceID: string, action: string, cmd: string, writeOk: bool,
            arrivals: seq<Message>, timerFirst: bool)
      returns (r: Outcome)
      requires Valid()
      modifies if deviceID in sessions then {sessions[deviceID]} else {}
      modifies if deviceID in sessions then sessions[deviceID].made else []
      ensures Valid()
      ensures r.Refused? <==> !A.Carries(controllerToken, header)
      ensures r.Refused? ==> r.why == A.Authorize(controllerToken, header)
      ensures r.Offline? <==> A.Carries(controllerToken, header) && deviceID !in sessions
      ensures r == Failed(WriteFailed) <==> Reached(header, deviceID) && !writeOk
      ensures r == Failed(TimedOut) <==>
              Reached(header, deviceID) && writeOk && (timerFirst || !HasAnswer(arrivals, "1"))
      ensures r.Answered? <==> Reached(header, deviceID) && writeOk && !timerFirst && HasAnswer(arrivals, "1")
      ensures r.Answered? ==> IsAnswer(arrivals, "1", r.m)
      ensures Reached(header, deviceID) ==>
                && sessions[deviceID].sent ==
                   old(sessions[deviceID].sent) + (if writeOk then [Request(action, "1", cmd)] else [])
                && sessions[deviceID].Table() ==
                   AfterSend(old(sessions[deviceID].Table()), "1", if writeOk then arrivals else [], timerFirst)
      ensures !Reached(header, deviceID) && deviceID in sessions ==>
                && sessions[deviceID].sent == old(sessions[deviceID].sent)
                && sessions[deviceID].Table() == old(sessions[deviceID].Table())
    {
      A.AllowedCarries(controllerToken, header);
      var verdict := A.Authorize(controllerToken, header);
      if !verdict.Allowed? {
        return Refused(verdict);
      }
      if deviceID !in sessions {
        return Offline;
      }
      var s := sessions[deviceID];
      r := Forward(s, Request(action, "1", cmd), writeOk, arrivals, timerFirst);
      assert forall d | d in sessions && d != deviceID :: sessions[d] != s;
    }
  }
}
