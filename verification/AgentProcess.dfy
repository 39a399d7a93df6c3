/** The agent's provisioning code as it runs: agent/provision.go:25-96 and 138-199, agent/main.go:75-82. */
module AgentProcess {
  import opened Common
  import B = Base64
  import H = Handshake
  import K = KeyAgreement
  import P = Provisioning
  import R = RelayProcess
  import T = Text

  /** What the network makes of one request; a request can be handled and its reply still be lost. */
  datatype Link = Undelivered(note: string) | Delivered(writeOk: bool) | ReplyLost(writeOk: bool, note: string)

  predicate Reaches(l: Link) { !l.Undelivered? }

  /** What comes back to an agent that sends request p through link l to a relay with store s. */
  function ReplyThrough(s: P.Store, p: P.Request, l: Link): K.Reply {
    match l
    case Undelivered(note) => K.NoReply(note)
    case ReplyLost(_, note) => K.NoReply(note)
    case Delivered(writeOk) => K.ReplyTo(P.Provision(s, p, writeOk).1)
  }

  function AfterLink(s: P.Store, p: P.Request, l: Link): P.Store {
    if Reaches(l) then P.Provision(s, p, l.writeOk).0 else s
  }

  class Agent {
    const env: K.Env
    const deviceID: string
    const setupToken: string
    /** The operating system's keyring entry and the fallback key file for this device. */
    var keyring: Option<string>
    var keyFile: Option<K.Bytes>

    constructor (env: K.Env, deviceID: string, setupToken: string, keyring: Option<string>, keyFile: Option<K.Bytes>)
      ensures this.env == env && this.deviceID == deviceID && this.setupToken == setupToken
      ensures Keys() == K.KeyStore(keyring, keyFile)
    {
      this.env, this.deviceID, this.setupToken := env, deviceID, setupToken;
      this.keyring, this.keyFile := keyring, keyFile;
    }

    ghost function Keys(): K.KeyStore
      reads this
    {
      K.KeyStore(keyring, keyFile)
    }

    method StorePrivateKey(priv: K.Bytes, ringOk: bool, fileOk: bool) returns (ok: bool)
      modifies this
      ensures (Keys(), ok) == K.StoreKey(env, old(Keys()), priv, ringOk, fileOk)
      ensures !env.disableKeyring && ringOk ==>
                ok && keyring.Some? && B.Decode(keyring.value) == Some(priv) && keyFile == old(keyFile)
      ensures (env.disableKeyring || !ringOk) && env.allowKeyFile && fileOk ==>
                ok && keyFile == Some(priv) && keyring == old(keyring)
      ensures (env.disableKeyring || !ringOk) && !(env.allowKeyFile && fileOk) ==>
                !ok && keyring == old(keyring) && keyFile == old(keyFile)
    {
      K.StoreGoesTo(env, Keys(), priv, ringOk, fileOk);
      if !env.disableKeyring {
        if ringOk {
          keyring := Some(B.Encode(priv));
          return true;
        }
      }
      if env.allowKeyFile {
        if fileOk {
          keyFile := Some(priv);
        }
        return fileOk;
      }
      ok := false;
    }

    method LoadPrivateKey() returns (key: Option<K.Bytes>)
      ensures key == K.LoadKey(env, Keys())
    {
      if !env.disableKeyring {
        if keyring.Some? {
          return B.Decode(keyring.value);
        }
      }
      if env.allowKeyFile {
        return keyFile;
      }
      key := None;
    }

    function Registration(pub: K.Bytes): P.Request {
      P.Request(deviceID, B.Encode(pub), setupToken)
    }

    method RegisterPublicKey(pub: K.Bytes, relay: R.Relay, l: Link) returns (err: Option<string>)
      modifies relay`devices, relay`setupTokens, relay`disk
      ensures relay.Store() == AfterLink(old(relay.Store()), Registration(pub), l)
      ensures err == K.RegisterError(ReplyThrough(old(relay.Store()), Registration(pub), l))
    {
      match l
      case Undelivered(note) =>
        err := K.RegisterError(K.NoReply(note));
      case Delivered(writeOk) =>
        var st := relay.HandleProvision(Registration(pub), writeOk);
        err := K.RegisterError(K.ReplyTo(st));
      case ReplyLost(writeOk, note) =>
        var st := relay.HandleProvision(Registration(pub), writeOk);
        err := K.RegisterError(K.NoReply(note));
    }

    /**
     * Store the fresh key, then register it; with `--provision` also when there is a key already. If the relay's store
     * changed at all, the new key is stored, and later starts will load it unless it went to the file behind a keyring
     * entry, which cannot be when no key was loadable and the stores were sound.
     */
    method Provision(priv: K.Bytes, ringOk: bool, fileOk: bool, relay: R.Relay, l: Link) returns (err: Option<string>)
      requires |priv| == H.PRIVATE_KEY_SIZE
      modifies this, relay`devices, relay`setupTokens, relay`disk
      ensures Keys() == K.StoreKey(env, old(Keys()), priv, ringOk, fileOk).0
      ensures var stored := K.StoreKey(env, old(Keys()), priv, ringOk, fileOk).1;
              && relay.Store() == (if stored then AfterLink(old(relay.Store()), Registration(H.Public(priv)), l)
                                   else old(relay.Store()))
              && (err.None? <==> stored && l.Delivered? && l.writeOk &&
                                 P.TokenFits(old(relay.setupTokens), Registration(H.Public(priv))))
      ensures err.None? || relay.Store() != old(relay.Store()) ==>
                (K.LandsWhereRead(env, old(Keys()), ringOk) ==> K.LoadKey(env, Keys()) == Some(priv))
      ensures err.None? ==>
                && deviceID in relay.devices && relay.devices[deviceID] == K.KeyText(priv)
                && relay.disk == Some(relay.devices)
      ensures old(K.Sound(Keys())) ==>
                && K.Sound(Keys())
                && (old(K.LoadKey(env, Keys()).None?) && (err.None? || relay.Store() != old(relay.Store())) ==>
                      K.LandsWhereRead(env, old(Keys()), ringOk))
    {
      K.StoredWhereRead(env, Keys(), priv, ringOk, fileOk);
      var ok := StorePrivateKey(priv, ringOk, fileOk);
      if !ok {
        return Some("secure key storage unavailable and fallback not enabled");
      }
      err := RegisterPublicKey(H.Public(priv), relay, l);
    }

    /**
     * Provision only if no key can be loaded; `priv` is the key a generation would yield. Success means that a key can
     * be loaded, unless the keyring holds a malformed entry and the fresh key could go only to the file.
     */
    method EnsureProvisioned(priv: K.Bytes, ringOk: bool, fileOk: bool, relay: R.Relay, l: Link)
      returns (err: Option<string>)
      requires |priv| == H.PRIVATE_KEY_SIZE
      modifies this, relay`devices, relay`setupTokens, relay`disk
      ensures old(K.LoadKey(env, Keys())).Some? ==>
                err == None && Keys() == old(Keys()) && relay.Store() == old(relay.Store())
      ensures old(K.LoadKey(env, Keys())).None? ==>
                && Keys() == K.StoreKey(env, old(Keys()), priv, ringOk, fileOk).0
                && relay.Store() == if K.StoreKey(env, old(Keys()), priv, ringOk, fileOk).1
                                    then AfterLink(old(relay.Store()), Registration(H.Public(priv)), l)
                                    else old(relay.Store())
      ensures K.LandsWhereRead(env, old(Keys()), ringOk) || old(K.Sound(Keys())) ==>
                && (err.None? ==> K.LoadKey(env, Keys()).Some?)
                && (relay.Store() != old(relay.Store()) ==> K.LoadKey(env, Keys()) == Some(priv))
      ensures old(K.Sound(Keys())) ==> K.Sound(Keys())
    {
      var key := LoadPrivateKey();
      if key.Some? {
        return None;
      }
      err := Provision(priv, ringOk, fileOk, relay, l);
    }

    /** Re-registration before each connection; only a blank token keeps it from being sent. */
    method SyncProvisionedDevice(pub: K.Bytes, relay: R.Relay, l: Link) returns (err: Option<string>)
      modifies relay`devices, relay`setupTokens, relay`disk
      ensures err == K.SyncError(setupToken, ReplyThrough(old(relay.Store()), Registration(pub), l))
      ensures T.IsBlank(setupToken) ==> err == None && relay.Store() == old(relay.Store())
      ensures !T.IsBlank(setupToken) ==> relay.Store() == AfterLink(old(relay.Store()), Registration(pub), l)
      ensures !T.IsBlank(setupToken) && l.Delivered? ==>
                (err.Some? <==> P.Provision(old(relay.Store()), Registration(pub), l.writeOk).1.PersistFailed?)
      ensures P.TokenFits(old(relay.setupTokens), Registration(pub)) && !T.IsBlank(setupToken) && Reaches(l) ==>
                deviceID in relay.devices && relay.devices[deviceID] == B.Encode(pub)
    {
      var lo, hi := T.TrimIsStretch(setupToken);
      if T.Trim(setupToken) == "" {
        return None;
      }
      ghost var before := relay.Store();
      err := RegisterPublicKey(pub, relay, l);
      if l.Delivered? {
        K.SyncReports(setupToken, P.Provision(before, Registration(pub), l.writeOk).1);
      }
      if err.Some? && T.Contains(err.value, "invalid setup token") {
        err := None;
      }
    }
  }
}
