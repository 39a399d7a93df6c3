/**
 * The signed greeting: what the agent sends (agent/runtime.go:134-147) against what the relay checks
 * (relay/main.go:352-426).
 */
module Handshake {
  import opened Common
  import opened B = Base64

  type Bytes = seq<Byte>

  const PUBLIC_KEY_SIZE := 32
  const SIGNATURE_SIZE := 64
  const PRIVATE_KEY_SIZE := 64
  const SECOND := 1_000_000_000
  const WINDOW := 120 * SECOND

  /** The public half of an Ed25519 private key is its last 32 bytes. */
  function Public(priv: Bytes): Bytes
    requires |priv| == PRIVATE_KEY_SIZE
  {
    priv[32..]
  }

  /** A signature scheme: which byte strings are generated keys, how to sign, how to verify. */
  datatype Scheme = Scheme(isKey: Bytes -> bool, sign: (Bytes, string) -> Bytes, verify: (Bytes, string, Bytes) -> bool)

  /** The correctness law of section 5.1 of RFC 8032, with its sizes. */
  ghost predicate Lawful(x: Scheme) {
    && (forall priv :: x.isKey(priv) ==> |priv| == PRIVATE_KEY_SIZE)
    && (forall priv, m :: x.isKey(priv) ==>
          |x.sign(priv, m)| == SIGNATURE_SIZE && x.verify(Public(priv), m, x.sign(priv, m)))
  }

  /** A timestamp text format; instants are nanoseconds. */
  datatype Format = Format(show: int -> string, parse: string -> Option<int>)

  function WholeSeconds(t: int): int { t / SECOND * SECOND }

  /** From the start of year 0 to the end of year 9999: the instants whose year has four digits. */
  predicate Printable(t: int) { -62_167_219_200 * SECOND <= t < 253_402_300_800 * SECOND }

  /** Section 5.6 of RFC 3339 as far as it matters: printing keeps whole seconds, and no accepted text holds a bar. */
  ghost predicate Faithful(f: Format) {
    && (forall t | Printable(t) :: f.show(t) != "" && f.parse(f.show(t)) == Some(WholeSeconds(t)))
    && (forall s :: f.parse(s).Some? ==> '|' !in s)
  }

  datatype AuthPayload = AuthPayload(deviceID: string, pubKey: string, sig: string, timestamp: string)

  /** The first message of a connection, as the relay's decoder sees it. */
  datatype Frame = OtherType | NoPayload | BadFields | Auth(payload: AuthPayload)

  datatype Refusal =
    | ExpectedAuth
    | InvalidPayload
    | Incomplete
    | KeyEncoding
    | KeySize
    | SigEncoding
    | SigSize
    | BadSignature
    | TimestampFormat
    | OutOfRange
    | Unauthorized

  function Signed(a: AuthPayload): string { a.deviceID + "|" + a.timestamp }

  /**
   * The relay's checks in order. `now` and `later` are its two clock readings: the second is taken only when the first
   * comparison did not already refuse.
   */
  function Check(x: Scheme, f: Format, devices: map<string, string>, m: Frame, now: int, later: int)
    : Result<AuthPayload, Refusal>
  {
    if m.OtherType? then Err(ExpectedAuth)
    else if m.NoPayload? || m.BadFields? then Err(InvalidPayload)
    else
      var a := m.payload;
      if a.deviceID == "" || a.pubKey == "" || a.sig == "" || a.timestamp == "" then Err(Incomplete)
      else if Decode(a.pubKey).None? then Err(KeyEncoding)
      else if |Decode(a.pubKey).value| != PUBLIC_KEY_SIZE then Err(KeySize)
      else if Decode(a.sig).None? then Err(SigEncoding)
      else if |Decode(a.sig).value| != SIGNATURE_SIZE then Err(SigSize)
      else if !x.verify(Decode(a.pubKey).value, Signed(a), Decode(a.sig).value) then Err(BadSignature)
      else if f.parse(a.timestamp).None? then Err(TimestampFormat)
      else
        var ts := f.parse(a.timestamp).value;
        if now - ts > WINDOW || ts - later > WINDOW then Err(OutOfRange)
        else if a.deviceID !in devices || devices[a.deviceID] != a.pubKey then Err(Unauthorized)
        else Ok(a)
  }

  /** What the agent sends, signing at instant `at`. */
  function Greeting(x: Scheme, f: Format, deviceID: string, priv: Bytes, at: int): AuthPayload
    requires |priv| == PRIVATE_KEY_SIZE
  {
    var ts := f.show(at);
    AuthPayload(deviceID, Encode(Public(priv)), Encode(x.sign(priv, deviceID + "|" + ts)), ts)
  }

  /** Every text and signature check is passed by construction; what remains is identity, registration and clocks. */
  lemma HonestAgentVerdict(
      x: Scheme, f: Format, devices: map<string, string>, deviceID: string, priv: Bytes, at: int, now: int, later: int)
    requires Lawful(x) && Faithful(f) && x.isKey(priv) && Printable(at)
    ensures Check(x, f, devices, Auth(Greeting(x, f, deviceID, priv, at)), now, later) ==
            if deviceID == "" then Err(Incomplete)
            else if now - WholeSeconds(at) > WINDOW || WholeSeconds(at) - later > WINDOW then Err(OutOfRange)
            else if deviceID !in devices || devices[deviceID] != Encode(Public(priv)) then Err(Unauthorized)
            else Ok(Greeting(x, f, deviceID, priv, at))
  {
    var a := Greeting(x, f, deviceID, priv, at);
    var sig := x.sign(priv, deviceID + "|" + a.timestamp);
    assert |Public(priv)| == 32;
    RoundTrip(Public(priv));
    RoundTrip(sig);
    EncodeNonEmpty(Public(priv));
    EncodeNonEmpty(sig);
  }

  /**
   * Handshake completeness: an honest agent with a device id and a registered key passes whenever the relay's clock
   * at each reading is at most 120 s behind and at most 119 s ahead of the agent's clock at signing.
   */
  lemma HonestAgentAccepted(
      x: Scheme, f: Format, devices: map<string, string>, deviceID: string, priv: Bytes, at: int, now: int, later: int)
    requires Lawful(x) && Faithful(f) && x.isKey(priv) && deviceID != "" && Printable(at)
    requires deviceID in devices && devices[deviceID] == Encode(Public(priv))
    requires -120 * SECOND <= later - at && now - at <= 119 * SECOND
    ensures Check(x, f, devices, Auth(Greeting(x, f, deviceID, priv, at)), now, later).Ok?
  {
    HonestAgentVerdict(x, f, devices, deviceID, priv, at, now, later);
  }

  /** Which devices are registered matters only to a greeting that has passed every other check. */
  lemma RegistrationIsCheckedLast(
      x: Scheme, f: Format, d1: map<string, string>, d2: map<string, string>, m: Frame, now: int, later: int)
    ensures var v1, v2 := Check(x, f, d1, m, now, later), Check(x, f, d2, m, now, later);
            v1 == v2 || (m.Auth? && Proven(x, f, m.payload, now, later) && {v1, v2} == {Ok(m.payload), Err(Unauthorized)})
  {
  }

  /** The greeting is signed by the key it names and is recent by both clock readings. */
  predicate Proven(x: Scheme, f: Format, a: AuthPayload, now: int, later: int) {
    && Decode(a.pubKey).Some? && |Decode(a.pubKey).value| == PUBLIC_KEY_SIZE
    && Decode(a.sig).Some? && |Decode(a.sig).value| == SIGNATURE_SIZE
    && x.verify(Decode(a.pubKey).value, Signed(a), Decode(a.sig).value)
    && f.parse(a.timestamp).Some?
    && now - f.parse(a.timestamp).value <= WINDOW && f.parse(a.timestamp).value - later <= WINDOW
  }

  /** All four fields are there. */
  predicate Complete(a: AuthPayload) { a.deviceID != "" && a.pubKey != "" && a.sig != "" && a.timestamp != "" }

  lemma AdmittedExactlyWhenProven(
      x: Scheme, f: Format, devices: map<string, string>, m: Frame, now: int, later: int)
    ensures Check(x, f, devices, m, now, later).Ok? <==>
            && m.Auth? && Complete(m.payload) && Proven(x, f, m.payload, now, later)
            && m.payload.deviceID in devices && devices[m.payload.deviceID] == m.payload.pubKey
  {
  }

  predicate AcceptedWithSkew(
      x: Scheme, f: Format, devices: map<string, string>, deviceID: string, priv: Bytes, at: int, skew: int)
    requires |priv| == PRIVATE_KEY_SIZE
  {
    Check(x, f, devices, Auth(Greeting(x, f, deviceID, priv, at)), at + skew, at + skew).Ok?
  }

  /**
   * Exactly which clock skews let a registered agent in at every signing instant: because the timestamp drops
   * fractions of a second, the relay may run 120 s behind but just over 119 s ahead.
   */
  lemma ToleratedSkew(x: Scheme, f: Format, devices: map<string, string>, deviceID: string, priv: Bytes, skew: int)
    requires Lawful(x) && Faithful(f) && x.isKey(priv) && deviceID != ""
    requires deviceID in devices && devices[deviceID] == Encode(Public(priv))
    ensures (forall at | Printable(at) :: AcceptedWithSkew(x, f, devices, deviceID, priv, at, skew)) <==>
            -120 * SECOND <= skew <= 119 * SECOND + 1
  {
    var accepted := (at: int) requires |priv| == PRIVATE_KEY_SIZE =>
      AcceptedWithSkew(x, f, devices, deviceID, priv, at, skew);
    forall at | Printable(at) ensures accepted(at) <==> SkewFits(at % SECOND, skew) {
      SkewVerdict(x, f, devices, deviceID, priv, at, skew);
    }
    SkewsThatFit(accepted, skew);
  }

  lemma SkewsThatFit(accepted: int --> bool, skew: int)
    requires forall at :: accepted.requires(at)
    requires forall at | Printable(at) :: accepted(at) <==> SkewFits(at % SECOND, skew)
    ensures (forall at | Printable(at) :: accepted(at)) <==> -120 * SECOND <= skew <= 119 * SECOND + 1
  {
    assert accepted(0) <==> SkewFits(0, skew);
    assert accepted(SECOND - 1) <==> SkewFits(SECOND - 1, skew);
  }

  /** The part of a second that the timestamp drops counts against the relay's lead. */
  predicate SkewFits(fraction: int, skew: int) { -WINDOW <= fraction + skew <= WINDOW }

  lemma SkewVerdict(
      x: Scheme, f: Format, devices: map<string, string>, deviceID: string, priv: Bytes, at: int, skew: int)
    requires Lawful(x) && Faithful(f) && x.isKey(priv) && deviceID != "" && Printable(at)
    requires deviceID in devices && devices[deviceID] == Encode(Public(priv))
    ensures AcceptedWithSkew(x, f, devices, deviceID, priv, at, skew) <==>
            SkewFits(at % SECOND, skew)
  {
    HonestAgentVerdict(x, f, devices, deviceID, priv, at, at + skew, at + skew);
    assert at == WholeSeconds(at) + at % SECOND;
  }

  lemma LastBar(a: string, b: string)
    requires '|' !in b
    ensures (a + "|" + b)[|a|] == '|'
    ensures forall i | |a| < i < |a + "|" + b| :: (a + "|" + b)[i] != '|'
  {
    forall i | |a| < i < |a + "|" + b| ensures (a + "|" + b)[i] != '|' {
      assert (a + "|" + b)[i] == b[i - |a| - 1];
    }
  }

  /** A bar splits text in only one way when what follows it holds none. */
  lemma SplitAtLastBar(a: string, b: string, c: string, d: string)
    requires a + "|" + b == c + "|" + d && '|' !in b && '|' !in d
    ensures a == c && b == d
  {
    LastBar(a, b);
    LastBar(c, d);
    assert |a| == |c|;
    var s := a + "|" + b;
    assert a == s[..|a|] && c == s[..|a|] && b == s[|a| + 1..] && d == s[|a| + 1..];
  }

  /**
   * Two proven greetings with the same signed text name the same device and the same instant, so a greeting can be
   * used again only for twice the window: the clock reading that admits it again is at most 240 s past the one that
   * admitted it before.
   */
  lemma SameTextSameClaim(x: Scheme, f: Format, a: AuthPayload, n1: int, l1: int, b: AuthPayload, n2: int, l2: int)
    requires Faithful(f) && Proven(x, f, a, n1, l1) && Proven(x, f, b, n2, l2) && Signed(a) == Signed(b)
    ensures a.deviceID == b.deviceID && a.timestamp == b.timestamp
    ensures n2 - l1 <= 2 * WINDOW && n1 - l2 <= 2 * WINDOW
  {
    SplitAtLastBar(a.deviceID, a.timestamp, b.deviceID, b.timestamp);
  }

  /** So do two accepted greetings, whatever devices were registered at either time. */
  lemma AcceptedTextIsUnambiguous(
      x: Scheme, f: Format, d1: map<string, string>, d2: map<string, string>,
      m1: Frame, m2: Frame, n1: int, l1: int, n2: int, l2: int)
    requires Faithful(f) && Check(x, f, d1, m1, n1, l1).Ok? && Check(x, f, d2, m2, n2, l2).Ok?
    requires Signed(m1.payload) == Signed(m2.payload)
    ensures m1.payload.deviceID == m2.payload.deviceID && m1.payload.timestamp == m2.payload.timestamp
    ensures n2 - l1 <= 2 * WINDOW && n1 - l2 <= 2 * WINDOW
  {
    AdmittedExactlyWhenProven(x, f, d1, m1, n1, l1);
    AdmittedExactlyWhenProven(x, f, d2, m2, n2, l2);
    SameTextSameClaim(x, f, m1.payload, n1, l1, m2.payload, n2, l2);
  }
}
