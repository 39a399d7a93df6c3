/** Setup tokens in the environment variable RELAY_SETUP_TOKENS: relay/main.go:145-151, 468-485 and 525-539. */
module SetupTokens {
  import opened Common
  import opened Text

  type Tokens = map<string, string>

  datatype Pair = Pair(id: string, token: string)

  /** One comma-separated piece: `id=token`, trimmed, both parts non-empty; anything else is skipped. */
  function ParsePiece(piece: string): Option<Pair> {
    if Trim(piece) == "" then None
    else
      var n := Find(piece, '=');
      if n == |piece| then None
      else
        var p := Pair(Trim(piece[..n]), Trim(piece[n + 1..]));
        if p.id != "" && p.token != "" then Some(p) else None
  }

  function AddPiece(t: Tokens, piece: string): Tokens {
    match ParsePiece(piece)
    case Some(p) => t[p.id := p.token]
    case None => t
  }

  function AddPieces(t: Tokens, pieces: seq<string>): Tokens {
    if pieces == [] then t else AddPiece(AddPieces(t, pieces[..|pieces| - 1]), pieces[|pieces| - 1])
  }

  lemma AddNext(t: Tokens, pieces: seq<string>, i: nat)
    requires i < |pieces|
    ensures AddPieces(t, pieces[..i + 1]) == AddPiece(AddPieces(t, pieces[..i]), pieces[i])
  {
    assert pieces[..i + 1][..i] == pieces[..i];
  }

  /** What loading the variable's text makes of the table. */
  function Load(t: Tokens, text: string): Tokens { AddPieces(t, Split(text, ',')) }

  // ----- Printing and parsing -----

  /** An entry the variable can express. */
  predicate Expressible(p: Pair) {
    && p.id != "" && Trimmed(p.id) && ',' !in p.id && '=' !in p.id
    && p.token != "" && Trimmed(p.token) && ',' !in p.token
  }

  function PrintPair(p: Pair): string { p.id + "=" + p.token }

  function PrintAll(ps: seq<Pair>): string
  {
    Join(seq(|ps|, i requires 0 <= i < |ps| => PrintPair(ps[i])), ',')
  }

  /** The table that a list of entries writes, later entries overriding earlier ones. */
  function AddPairs(t: Tokens, ps: seq<Pair>): Tokens {
    if ps == [] then t else AddPairs(t, ps[..|ps| - 1])[ps[|ps| - 1].id := ps[|ps| - 1].token]
  }

  lemma PieceRoundTrip(p: Pair)
    requires Expressible(p)
    ensures ParsePiece(PrintPair(p)) == Some(p) && ',' !in PrintPair(p)
  {
    var s := PrintPair(p);
    FindIs(p.id, '=', p.token);
    assert s == p.id + ['='] + p.token;
    assert s[..|p.id|] == p.id && s[|p.id| + 1..] == p.token;
    TrimTrimmed(p.id);
    TrimTrimmed(p.token);
    var lo, hi := TrimIsStretch(s);
    assert !IsSpace(s[0]);
  }

  /** An entry with white space around any of its parts. */
  ghost predicate Padded(piece: string, p: Pair) {
    exists a, b, c, d ::
      && IsBlank(a) && IsBlank(b) && IsBlank(c) && IsBlank(d)
      && piece == (a + p.id + b) + "=" + (c + p.token + d)
  }

  lemma NoBlankHolds(s: string, c: char)
    requires IsBlank(s) && !IsSpace(c)
    ensures c !in s
  {
  }

  lemma PaddedParts(piece: string, p: Pair) returns (left: string, right: string)
    requires Expressible(p) && Padded(piece, p)
    ensures piece == left + "=" + right && '=' !in left && ',' !in left && ',' !in right
    ensures Trim(left) == p.id && Trim(right) == p.token && ',' !in piece
  {
    var a, b, c, d :|
      && IsBlank(a) && IsBlank(b) && IsBlank(c) && IsBlank(d)
      && piece == (a + p.id + b) + "=" + (c + p.token + d);
    left, right := a + p.id + b, c + p.token + d;
    TrimPadded(a, p.id, b);
    TrimPadded(c, p.token, d);
    NoBlankHolds(a, '=');
    NoBlankHolds(b, '=');
    NoBlankHolds(a, ',');
    NoBlankHolds(b, ',');
    NoBlankHolds(c, ',');
    NoBlankHolds(d, ',');
  }

  lemma SplitAtEquals(left: string, right: string)
    requires '=' !in left
    ensures var s := left + "=" + right;
            Find(s, '=') == |left| && s[..|left|] == left && s[|left| + 1..] == right && |left| < |s|
  {
    FindIs(left, '=', right);
    assert left + "=" + right == left + ['='] + right;
  }

  /** A piece with an equals sign gives its two sides, trimmed, or nothing if one of them is blank. */
  lemma ParseSides(left: string, right: string)
    requires '=' !in left
    ensures ParsePiece(left + "=" + right) ==
            if IsBlank(left) || IsBlank(right) then None else Some(Pair(Trim(left), Trim(right)))
  {
    var s := left + "=" + right;
    SplitAtEquals(left, right);
    var lo, hi := TrimIsStretch(left);
    var lo', hi' := TrimIsStretch(right);
    var lo'', hi'' := TrimIsStretch(s);
    assert s[|left|] == '=';
  }

  /**
   * Which pieces give which entry: exactly those that are the entry with white space around its parts. In particular
   * spaces after the commas or around the equals signs of the variable do no harm.
   */
  lemma ParsesExactlyWhenPadded(piece: string, p: Pair)
    requires ',' !in piece
    ensures ParsePiece(piece) == Some(p) <==> Expressible(p) && Padded(piece, p)
  {
    if Expressible(p) && Padded(piece, p) {
      PaddedParses(piece, p);
    }
    if ParsePiece(piece) == Some(p) {
      ParsedPieceIsExpressible(piece);
      ParsedIsPadded(piece, p);
    }
  }

  lemma PaddedParses(piece: string, p: Pair)
    requires Expressible(p) && Padded(piece, p)
    ensures ParsePiece(piece) == Some(p) && ',' !in piece
  {
    var left, right := PaddedParts(piece, p);
    ParseSides(left, right);
    var lo, hi := TrimIsStretch(left);
    var lo', hi' := TrimIsStretch(right);
  }

  lemma TrimLeavesBlanks(s: string) returns (a: string, b: string)
    ensures s == a + Trim(s) + b && IsBlank(a) && IsBlank(b)
  {
    var lo, hi := TrimIsStretch(s);
    a, b := s[..lo], s[hi..];
  }

  lemma ParsedIsPadded(piece: string, p: Pair)
    requires ParsePiece(piece) == Some(p)
    ensures Padded(piece, p)
  {
    var n := Find(piece, '=');
    var a, b := TrimLeavesBlanks(piece[..n]);
    var c, d := TrimLeavesBlanks(piece[n + 1..]);
    assert piece == piece[..n] + "=" + piece[n + 1..];
    assert piece == (a + p.id + b) + "=" + (c + p.token + d);
  }

  lemma FirstIsFirst(s: string, c: char, n: nat, m: nat)
    requires n < |s| && m < |s| && s[n] == s[m] == c
    requires (forall k | 0 <= k < n :: s[k] != c) && (forall k | 0 <= k < m :: s[k] != c)
    ensures n == m
  {
  }

  lemma NotInFront(s: string, c: char, n: nat)
    requires n <= |s| && c !in s[..n]
    ensures forall k | 0 <= k < n :: s[k] != c
  {
    forall k | 0 <= k < n ensures s[k] != c {
      assert s[..n][k] == s[k];
    }
  }

  /** Which pieces give nothing: those without an equals sign, and those with a blank side before or after the first. */
  lemma SkippedExactlyWhen(piece: string)
    ensures ParsePiece(piece).None? <==>
            '=' !in piece || exists n ::
              && 0 <= n < |piece| && piece[n] == '=' && '=' !in piece[..n]
              && (IsBlank(piece[..n]) || IsBlank(piece[n + 1..]))
  {
    if '=' in piece {
      var n := Find(piece, '=');
      assert piece == piece[..n] + "=" + piece[n + 1..];
      ParseSides(piece[..n], piece[n + 1..]);
      forall m | 0 <= m < |piece| && piece[m] == '=' && '=' !in piece[..m] ensures m == n {
        NotInFront(piece, '=', n);
        NotInFront(piece, '=', m);
        FirstIsFirst(piece, '=', n, m);
      }
    }
  }

  lemma {:induction false} PaddedPiecesAdd(t: Tokens, ps: seq<Pair>, pieces: seq<string>)
    requires |pieces| == |ps| && forall i | 0 <= i < |ps| :: Expressible(ps[i]) && Padded(pieces[i], ps[i])
    ensures AddPieces(t, pieces) == AddPairs(t, ps)
  {
    if ps != [] {
      PaddedPiecesAdd(t, ps[..|ps| - 1], pieces[..|ps| - 1]);
      PaddedParses(pieces[|ps| - 1], ps[|ps| - 1]);
    }
  }

  /** A list of entries, with any white space anywhere around ids and tokens, loads to exactly those entries in order. */
  lemma PaddedEntriesLoad(t: Tokens, ps: seq<Pair>, pieces: seq<string>)
    requires ps != [] && |pieces| == |ps|
    requires forall i | 0 <= i < |ps| :: Expressible(ps[i]) && Padded(pieces[i], ps[i])
    ensures Load(t, Join(pieces, ',')) == AddPairs(t, ps)
  {
    PaddedPiecesAdd(t, ps, pieces);
    forall i | 0 <= i < |ps| ensures ',' !in pieces[i] {
      PaddedParses(pieces[i], ps[i]);
    }
    SplitJoin(pieces, ',');
  }

  lemma {:induction false} PairsRoundTrip(t: Tokens, ps: seq<Pair>, pieces: seq<string>)
    requires |pieces| == |ps| && forall i | 0 <= i < |ps| :: Expressible(ps[i]) && pieces[i] == PrintPair(ps[i])
    ensures AddPieces(t, pieces) == AddPairs(t, ps)
  {
    if ps != [] {
      PairsRoundTrip(t, ps[..|ps| - 1], pieces[..|ps| - 1]);
      PieceRoundTrip(ps[|ps| - 1]);
    }
  }

  /** Loading printed entries writes exactly those entries, the last one winning, over whatever the file had loaded. */
  lemma PrintedEntriesLoad(t: Tokens, ps: seq<Pair>)
    requires forall i | 0 <= i < |ps| :: Expressible(ps[i])
    ensures Load(t, PrintAll(ps)) == AddPairs(t, ps)
  {
    var pieces := seq(|ps|, i requires 0 <= i < |ps| => PrintPair(ps[i]));
    if ps == [] {
      assert Split("", ',') == [""];
      assert AddPieces(t, [""]) == AddPiece(AddPieces(t, []), "");
    } else {
      forall i | 0 <= i < |pieces| ensures ',' !in pieces[i] {
        PieceRoundTrip(ps[i]);
      }
      SplitJoin(pieces, ',');
      PairsRoundTrip(t, ps, pieces);
    }
  }

  predicate Named(ps: seq<Pair>, id: string) {
    exists i :: 0 <= i < |ps| && ps[i].id == id
  }

  /** `ps` lists the table, in some order. */
  ghost predicate Lists(ps: seq<Pair>, t: Tokens) {
    && (forall i | 0 <= i < |ps| :: ps[i].id in t && t[ps[i].id] == ps[i].token)
    && (forall id | id in t :: Named(ps, id))
  }

  lemma NamedSnoc(ps: seq<Pair>, p: Pair, id: string)
    ensures Named(ps + [p], id) <==> Named(ps, id) || p.id == id
  {
    if Named(ps, id) {
      var i :| 0 <= i < |ps| && ps[i].id == id;
      assert (ps + [p])[i].id == id;
    }
    assert (ps + [p])[|ps|] == p;
  }

  lemma {:induction false} AddPairsLookup(t: Tokens, ps: seq<Pair>, m: Tokens, id: string)
    requires forall i | 0 <= i < |ps| :: ps[i].id in m && m[ps[i].id] == ps[i].token
    ensures id in AddPairs(t, ps) <==> id in t || Named(ps, id)
    ensures Named(ps, id) ==> id in m
    ensures id in AddPairs(t, ps) ==> AddPairs(t, ps)[id] == if Named(ps, id) then m[id] else t[id]
  {
    if ps != [] {
      var front, last := ps[..|ps| - 1], ps[|ps| - 1];
      AddPairsLookup(t, front, m, id);
      NamedSnoc(front, last, id);
      assert ps == front + [last];
    }
  }

  lemma AddPairsLists(file: Tokens, ps: seq<Pair>, t: Tokens)
    requires Lists(ps, t)
    ensures AddPairs(file, ps) == file + t
  {
    forall id | id in AddPairs(file, ps) || id in file + t
      ensures id in AddPairs(file, ps) && id in file + t && AddPairs(file, ps)[id] == (file + t)[id]
    {
      AddPairsLookup(file, ps, t, id);
    }
  }

  /**
   * The round trip: for every expressible table, printed in any order, loading gives the table back, on top of what
   * was loaded from the file, whose other entries stay.
   */
  lemma TableRoundTrip(file: Tokens, t: Tokens, ps: seq<Pair>)
    requires Lists(ps, t) && forall id | id in t :: Expressible(Pair(id, t[id]))
    ensures Load(file, PrintAll(ps)) == file + t
    ensures Load(map[], PrintAll(ps)) == t
  {
    forall i | 0 <= i < |ps| ensures Expressible(ps[i]) {
      assert ps[i] == Pair(ps[i].id, t[ps[i].id]);
    }
    PrintedEntriesLoad(file, ps);
    PrintedEntriesLoad(map[], ps);
    AddPairsLists(file, ps, t);
    AddPairsLists(map[], ps, t);
    assert map[] + t == t;
  }

  lemma ParsedPieceIsExpressible(piece: string)
    requires ',' !in piece && ParsePiece(piece).Some?
    ensures Expressible(ParsePiece(piece).value)
  {
    var n := Find(piece, '=');
    var lo, hi := TrimIsStretch(piece[..n]);
    var lo', hi' := TrimIsStretch(piece[n + 1..]);
    assert forall c | c in piece[..n][lo..hi] :: c in piece[..n] && c in piece;
    assert forall c | c in piece[n + 1..][lo'..hi'] :: c in piece;
  }

  lemma {:induction false} LoadedAreExpressible(pieces: seq<string>, id: string)
    requires forall i | 0 <= i < |pieces| :: ',' !in pieces[i]
    ensures id in AddPieces(map[], pieces) ==> Expressible(Pair(id, AddPieces(map[], pieces)[id]))
  {
    if pieces != [] {
      LoadedAreExpressible(pieces[..|pieces| - 1], id);
      if ParsePiece(pieces[|pieces| - 1]).Some? {
        ParsedPieceIsExpressible(pieces[|pieces| - 1]);
      }
    }
  }

  lemma {:induction false} Listing(t: Tokens) returns (ps: seq<Pair>)
    ensures Lists(ps, t)
    decreases |t|
  {
    if t == map[] {
      ps := [];
    } else {
      var id :| id in t;
      var rest := t - {id};
      assert rest.Keys < t.Keys && |rest| == |rest.Keys| && |t| == |t.Keys|;
      SmallerSet(rest.Keys, t.Keys);
      var qs := Listing(rest);
      ps := qs + [Pair(id, t[id])];
      forall x | x in t ensures Named(ps, x) {
        NamedSnoc(qs, Pair(id, t[id]), x);
      }
    }
  }

  lemma SmallerSet(a: set<string>, b: set<string>)
    requires a < b
    ensures |a| < |b|
  {
    assert |b - a| > 0;
    assert b == a + (b - a);
  }

  /** Conversely every text, however malformed, means the same as some printed list of entries. */
  lemma EveryTextHasANormalForm(text: string) returns (ps: seq<Pair>)
    ensures forall i | 0 <= i < |ps| :: Expressible(ps[i])
    ensures Lists(ps, Load(map[], text)) && Load(map[], PrintAll(ps)) == Load(map[], text)
  {
    var t := Load(map[], text);
    ps := Listing(t);
    SplitPieces(text, ',');
    forall id | id in t ensures Expressible(Pair(id, t[id])) {
      LoadedAreExpressible(Split(text, ','), id);
    }
    forall i | 0 <= i < |ps| ensures Expressible(ps[i]) {
      assert ps[i] == Pair(ps[i].id, t[ps[i].id]);
    }
    TableRoundTrip(map[], t, ps);
  }
}
