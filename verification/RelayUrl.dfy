/** The controller's `normalizeRelayURL` (controller/main.go:92-102) and its double use behind the GUI (398-414). */
module RelayUrl {
  import opened Text

  const DEFAULT := "http://localhost:8080"

  predicate IsSlash(c: char) { c == '/' }

  predicate HasScheme(s: string) { HasPrefix(s, "http://") || HasPrefix(s, "https://") }

  function Normalize(raw: string): string {
    var value := Trim(raw);
    if value == "" then DEFAULT
    else if HasScheme(value) then TrimRight(value, IsSlash)
    else "http://" + TrimRight(value, IsSlash)
  }

  /** An address with the scheme it has, or else the plain one. */
  function WithScheme(s: string): string {
    if "http://" <= s || "https://" <= s then s else "http://" + s
  }

  /**
   * What normalising does to every text: a blank one becomes the local relay's address; any other is trimmed, keeps its
   * scheme or gets the plain one, and loses slashes at its end, all of them but those of a scheme put in front.
   */
  lemma NormalizeMeans(raw: string) returns (n: nat)
    ensures IsBlank(raw) ==> Normalize(raw) == "http://localhost:8080"
    ensures !IsBlank(raw) ==>
              && n <= |WithScheme(Trim(raw))| && Normalize(raw) == WithScheme(Trim(raw))[..n]
              && (forall i | n <= i < |WithScheme(Trim(raw))| :: WithScheme(Trim(raw))[i] == '/')
              && (n > 0 && Normalize(raw)[n - 1] == '/' ==> Normalize(raw) == "http://" != Trim(raw))
  {
    var lo, hi := TrimIsStretch(raw);
    var value := Trim(raw);
    var k := TrimRightIsPrefix(value, IsSlash);
    n := |WithScheme(value)| - |value| + k;
    if !HasScheme(value) {
      assert WithScheme(value)[..n] == "http://" + value[..k];
      assert forall i | n <= i < |WithScheme(value)| :: WithScheme(value)[i] == value[i - 7];
      if k > 0 {
        assert WithScheme(value)[n - 1] == value[k - 1];
      }
    }
  }

  /** Length of the scheme that the text already has. */
  function SchemeLength(s: string): (n: nat)
    ensures n <= |s|
  {
    if HasPrefix(s, "http://") then 7 else if HasPrefix(s, "https://") then 8 else 0
  }

  /** Position after the last character that is not a slash. */
  function BodyEnd(s: string): (n: nat)
    ensures n <= |s| && (n > 0 ==> s[n - 1] != '/') && forall i | n <= i < |s| :: s[i] == '/'
  {
    if s == "" then 0 else if s[|s| - 1] == '/' then BodyEnd(s[..|s| - 1]) else |s|
  }

  lemma {:induction false} TrimSlashes(s: string)
    ensures TrimRight(s, IsSlash) == s[..BodyEnd(s)]
  {
    if s != "" && s[|s| - 1] == '/' {
      TrimSlashes(s[..|s| - 1]);
    }
  }

  /** There is a host to speak of, and cutting the slashes behind it exposes no white space. */
  predicate Stable(raw: string) {
    var value := Trim(raw);
    value == "" || (SchemeLength(value) < BodyEnd(value) && !IsSpace(value[BodyEnd(value) - 1]))
  }

  lemma BodyEndIs(s: string, n: nat)
    requires 0 < n <= |s| && s[n - 1] != '/' && forall i | n <= i < |s| :: s[i] == '/'
    ensures BodyEnd(s) == n
  {
  }

  /** The shape of a normalised address: a scheme, then something that neither ends in a slash nor in white space. */
  predicate Canonical(s: string) {
    && HasScheme(s) && SchemeLength(s) < |s| && !IsSpace(s[|s| - 1]) && s[|s| - 1] != '/'
  }

  lemma CanonicalIsFixed(s: string)
    requires Canonical(s)
    ensures Normalize(s) == s
  {
    assert s[0] == 'h';
    TrimTrimmed(s);
    TrimSlashes(s);
    BodyEndIs(s, |s|);
  }

  /** Trimming an address that starts with a scheme leaves the scheme, and shortens it if white space ends it. */
  lemma TrimKeepsScheme(s: string)
    requires HasScheme(s)
    ensures HasScheme(Trim(s)) && |Trim(s)| <= |s|
    ensures IsSpace(s[|s| - 1]) ==> |Trim(s)| < |s|
  {
    var lo, hi := TrimIsStretch(s);
    assert s[0] == 'h' && s[SchemeLength(s) - 1] == '/';
    assert lo == 0 && SchemeLength(s) <= hi;
  }

  lemma TrimRightShortens(s: string)
    ensures |TrimRight(s, IsSlash)| <= |s|
    ensures s != "" && s[|s| - 1] == '/' ==> |TrimRight(s, IsSlash)| < |s|
  {
    var n := TrimRightIsPrefix(s, IsSlash);
  }

  lemma StableIsCanonical(raw: string)
    requires Stable(raw)
    ensures Canonical(Normalize(raw))
  {
    var value := Trim(raw);
    TrimSlashes(value);
    var n := BodyEnd(value);
    if value != "" && !HasScheme(value) {
      assert ("http://" + value[..n])[7 + n - 1] == value[n - 1];
    }
  }

  /** A scheme with nothing but slashes behind it loses its slashes, and then no longer reads as a scheme. */
  lemma SchemeAloneIsLost(value: string)
    requires HasScheme(value) && Trimmed(value) && BodyEnd(value) <= SchemeLength(value)
    ensures !HasScheme(value[..BodyEnd(value)]) && Trim(value[..BodyEnd(value)]) == value[..BodyEnd(value)] != ""
  {
    var n := BodyEnd(value);
    var r := value[..n];
    if HasPrefix(value, "http://") {
      assert value[4] == ':' && value[5] == '/' && value[6] == '/';
      assert n == 5;
      assert r == "http:";
    } else {
      assert value[5] == ':' && value[6] == '/' && value[7] == '/';
      assert n == 6;
      assert r == "https:";
    }
    TrimTrimmed(r);
  }

  lemma UnstableChanges(raw: string)
    requires !Stable(raw)
    ensures Normalize(Normalize(raw)) != Normalize(raw)
  {
    var value := Trim(raw);
    var lo, hi := TrimIsStretch(raw);
    TrimSlashes(value);
    var n := BodyEnd(value);
    var r := Normalize(raw);
    if HasScheme(value) && n <= SchemeLength(value) {
      SchemeAloneIsLost(value);
      assert HasScheme(Normalize(r));
    } else {
      if HasScheme(value) {
        assert r[|r| - 1] == value[n - 1];
      } else if n == 0 {
        assert r == "http://";
      } else {
        assert r[|r| - 1] == value[n - 1];
      }
      assert HasScheme(r) && (IsSpace(r[|r| - 1]) || r[|r| - 1] == '/');
      TrimKeepsScheme(r);
      TrimRightShortens(Trim(r));
      if r[|r| - 1] == '/' {
        TrimTrimmed(r);
      }
    }
  }

  /**
   * Normalising twice, as the GUI path does, changes nothing exactly when there is a host behind the scheme and no
   * white space stands before the trailing slashes; then the result is a scheme and a host with no slash at the end.
   */
  lemma TwiceIsOnceExactlyWhenStable(raw: string)
    ensures Normalize(Normalize(raw)) == Normalize(raw) <==> Stable(raw)
    ensures Stable(raw) ==> Canonical(Normalize(raw))
  {
    if Stable(raw) {
      StableIsCanonical(raw);
      CanonicalIsFixed(Normalize(raw));
    } else {
      UnstableChanges(raw);
    }
  }
}
