/** The controller's token on its way to the relay, in the form of section 2.1 of RFC 6750. */
module Bearer {
  import opened Text

  const PREFIX := "Bearer "

  /** The headers of an outgoing request. */
  class Request {
    var headers: map<string, string>

    constructor ()
      ensures headers == map[]
    {
      headers := map[];
    }

    /** The part of `call` and `listDevices` that sets the header. */
    method Authorize(token: string)
      modifies this
      ensures headers == old(headers) + AuthorizationFor(token)
      ensures HeaderOf(headers, "Authorization") ==
              if IsBlank(token) then old(HeaderOf(headers, "Authorization")) else "Bearer " + Trim(token)
    {
      var t := Trim(token);
      BlankTrims(token);
      if t != "" {
        headers := headers["Authorization" := PREFIX + t];
      }
    }
  }

  /** A header as the relay reads it: an absent one is empty. */
  function HeaderOf(headers: map<string, string>, name: string): string {
    if name in headers then headers[name] else ""
  }

  /** The header that carries a token, or none. */
  function AuthorizationFor(token: string): map<string, string> {
    if IsBlank(token) then map[] else map["Authorization" := PREFIX + Trim(token)]
  }

  /** The command-line token, or the environment's. */
  function ControllerToken(flag: string, env: string): string {
    if Trim(flag) != "" then Trim(flag) else Trim(env)
  }

  datatype Verdict = Allowed | NotConfigured | Missing | BadForm | MissingToken | Wrong

  /** The relay's check; `configured` is its trimmed token. */
  function Authorize(configured: string, header: string): Verdict {
    if configured == "" then NotConfigured
    else
      var h := Trim(header);
      if h == "" then Missing
      else if !HasPrefix(h, PREFIX) then BadForm
      else
        var provided := Trim(h[|PREFIX|..]);
        if provided == "" then MissingToken
        else if provided != configured then Wrong
        else Allowed
  }

  lemma BlankTrims(s: string)
    ensures Trim(s) == "" <==> IsBlank(s)
  {
    var lo, hi := TrimIsStretch(s);
  }

  lemma HeaderIsTrimmed(t: string)
    requires t != "" && Trimmed(t)
    ensures Trimmed(PREFIX + t) && Trim(PREFIX + t) == PREFIX + t
  {
    assert (PREFIX + t)[|PREFIX + t| - 1] == t[|t| - 1];
    TrimTrimmed(PREFIX + t);
  }

  /** The header, trimmed, is the prefix followed by this text. */
  predicate Bears(header: string, text: string) { Trim(header) == "Bearer " + text }

  /** The header carries the configured token, which is not empty, behind the prefix. */
  ghost predicate Carries(configured: string, header: string) {
    configured != "" && exists t :: Bears(header, t) && Trim(t) == configured
  }

  lemma BearsRest(header: string, text: string)
    ensures Bears(header, text) <==> HasPrefix(Trim(header), PREFIX) && Trim(header)[|PREFIX|..] == text
  {
    var h := Trim(header);
    assert ("Bearer " + text)[7..] == text;
    if HasPrefix(h, PREFIX) {
      assert h == h[..7] + h[7..];
    }
  }

  /** The last character of a trimmed header is no space, so the prefix alone is not recognised. */
  lemma BorneTextIsNotBlank(header: string, text: string)
    requires Bears(header, text)
    ensures !IsBlank(text)
  {
    var lo, hi := TrimIsStretch(header);
    var h := Trim(header);
    assert h[|h| - 1] == ("Bearer " + text)[|text| + 6];
    assert text != "" ==> h[|h| - 1] == text[|text| - 1];
  }

  /**
   * The relay's decision on every header: it lets in exactly those that carry its token behind the prefix. A blank
   * header is missing, one without the prefix and some text has the wrong form, any other text is wrong; the reply
   * for a missing token can never be given, because a header that ends with the prefix has lost its last space.
   */
  lemma AuthorizesExactlyWhen(configured: string, header: string)
    ensures Authorize(configured, header).Allowed? <==> Carries(configured, header)
    ensures Authorize(configured, header).NotConfigured? <==> configured == ""
    ensures Authorize(configured, header).Missing? <==> configured != "" && IsBlank(header)
    ensures Authorize(configured, header).BadForm? <==>
            configured != "" && !IsBlank(header) && !exists t :: Bears(header, t)
    ensures Authorize(configured, header).Wrong? <==>
            configured != "" && exists t :: Bears(header, t) && Trim(t) != configured
    ensures !Authorize(configured, header).MissingToken?
  {
    BlankTrims(header);
    var h := Trim(header);
    forall t ensures Bears(header, t) <==> HasPrefix(h, PREFIX) && h[|PREFIX|..] == t {
      BearsRest(header, t);
    }
    if HasPrefix(h, PREFIX) {
      var t := h[|PREFIX|..];
      assert Bears(header, t);
      BorneTextIsNotBlank(header, t);
      BlankTrims(t);
    }
  }

  lemma AllowedCarries(configured: string, header: string)
    ensures Authorize(configured, header).Allowed? <==> Carries(configured, header)
  {
    AuthorizesExactlyWhen(configured, header);
  }

  /** A controller that sends a token is let in exactly when it is the relay's, both trimmed. */
  lemma TokenAgrees(token: string, relayVariable: string)
    requires !IsBlank(relayVariable)
    ensures Authorize(Trim(relayVariable), HeaderOf(AuthorizationFor(token), "Authorization")) ==
            if Trim(token) == Trim(relayVariable) then Allowed else if IsBlank(token) then Missing else Wrong
  {
    BlankTrims(token);
    BlankTrims(relayVariable);
    TrimTwice(token);
    if !IsBlank(token) {
      var lo, hi := TrimIsStretch(token);
      HeaderIsTrimmed(Trim(token));
    } else {
      BlankTrims("");
    }
  }

  /**
   * Bearer agreement, for all token strings: a controller configured with `flag` and `env`, sending to a relay whose
   * token variable is not blank, is let in exactly when the two trimmed tokens are equal. A controller without a token
   * is told that the header is missing, one with another token that it is wrong.
   */
  lemma AgreesOnToken(flag: string, env: string, relayVariable: string, sent: map<string, string>)
    requires !IsBlank(relayVariable)
    requires sent == AuthorizationFor(ControllerToken(flag, env))
    ensures var t := if IsBlank(flag) then Trim(env) else Trim(flag);
            Authorize(Trim(relayVariable), HeaderOf(sent, "Authorization")) ==
            if t == Trim(relayVariable) then Allowed else if t == "" then Missing else Wrong
  {
    BlankTrims(flag);
    TrimTwice(flag);
    TrimTwice(env);
    BlankTrims(ControllerToken(flag, env));
    TokenAgrees(ControllerToken(flag, env), relayVariable);
  }
}
