/** The standard padded alphabet of section 4 of RFC 4648, as Go's StdEncoding reads and writes it. */
module Base64 {
  import opened Common

  type Byte = b: int | 0 <= b < 256

  type Digit = d: int | 0 <= d < 64

  function Symbol(d: Digit): char {
    if d < 26 then ('A' as int + d) as char
    else if d < 52 then ('a' as int + (d - 26)) as char
    else if d < 62 then ('0' as int + (d - 52)) as char
    else if d == 62 then '+'
    else '/'
  }

  function Value(c: char): Option<Digit> {
    if 'A' <= c <= 'Z' then Some(c as int - 'A' as int)
    else if 'a' <= c <= 'z' then Some(c as int - 'a' as int + 26)
    else if '0' <= c <= '9' then Some(c as int - '0' as int + 52)
    else if c == '+' then Some(62)
    else if c == '/' then Some(63)
    else None
  }

  /** The alphabet, as table 1 in section 4 of RFC 4648 has it. */
  lemma CapitalSymbols()
    ensures [
              Symbol(0), Symbol(1), Symbol(2), Symbol(3), Symbol(4), Symbol(5), Symbol(6), Symbol(7), Symbol(8),
              Symbol(9), Symbol(10), Symbol(11), Symbol(12), Symbol(13), Symbol(14), Symbol(15), Symbol(16),
              Symbol(17), Symbol(18), Symbol(19), Symbol(20), Symbol(21), Symbol(22), Symbol(23), Symbol(24),
              Symbol(25)] ==
            "ABCDEFGHIJKLMNOPQRSTUVWXYZ"
  {
  }

  lemma SmallSymbols()
    ensures [
              Symbol(26), Symbol(27), Symbol(28), Symbol(29), Symbol(30), Symbol(31), Symbol(32), Symbol(33),
              Symbol(34), Symbol(35), Symbol(36), Symbol(37), Symbol(38), Symbol(39), Symbol(40), Symbol(41),
              Symbol(42), Symbol(43), Symbol(44), Symbol(45), Symbol(46), Symbol(47), Symbol(48), Symbol(49),
              Symbol(50), Symbol(51)] ==
            "abcdefghijklmnopqrstuvwxyz"
  {
  }

  lemma OtherSymbols()
    ensures [
              Symbol(52), Symbol(53), Symbol(54), Symbol(55), Symbol(56), Symbol(57), Symbol(58), Symbol(59),
              Symbol(60), Symbol(61), Symbol(62), Symbol(63)] ==
            "0123456789+/"
  {
  }

  /** The test vectors of section 10 of RFC 4648 up to three bytes. */
  lemma TestVectors()
    ensures Encode([]) == ""
    ensures Encode(['f' as int]) == "Zg==" && Encode(['f' as int, 'o' as int]) == "Zm8="
    ensures Encode(['f' as int, 'o' as int, 'o' as int]) == "Zm9v"
  {
    assert ['f' as int, 'o' as int, 'o' as int][3..] == [];
  }

  lemma SymbolValue(d: Digit)
    ensures Value(Symbol(d)) == Some(d)
    ensures Symbol(d) != '=' && Symbol(d) != '\r' && Symbol(d) != '\n'
  {
  }

  function D0(a: Byte): Digit { a / 4 }

  function D1(a: Byte, b: Byte): Digit { a % 4 * 16 + b / 16 }

  function D2(b: Byte, c: Byte): Digit { b % 16 * 4 + c / 64 }

  function D3(c: Byte): Digit { c % 64 }

  function Group(a: Byte, b: Byte, c: Byte): string {
    [Symbol(D0(a)), Symbol(D1(a, b)), Symbol(D2(b, c)), Symbol(D3(c))]
  }

  function Encode(bs: seq<Byte>): string {
    if |bs| == 0 then ""
    else if |bs| == 1 then [Symbol(D0(bs[0])), Symbol(D1(bs[0], 0)), '=', '=']
    else if |bs| == 2 then [Symbol(D0(bs[0])), Symbol(D1(bs[0], bs[1])), Symbol(D2(bs[1], 0)), '=']
    else Group(bs[0], bs[1], bs[2]) + Encode(bs[3..])
  }

  /** The decoder skips line breaks wherever they stand. */
  function WithoutBreaks(s: string): string {
    if s == "" then ""
    else if s[0] == '\r' || s[0] == '\n' then WithoutBreaks(s[1..])
    else [s[0]] + WithoutBreaks(s[1..])
  }

  function First(a: Digit, b: Digit): Byte { a * 4 + b / 16 }

  function Second(b: Digit, c: Digit): Byte { b % 16 * 16 + c / 4 }

  function Third(c: Digit, d: Digit): Byte { c % 4 * 64 + d }

  /** Groups of four; padding only in the last group, whose spare bits are ignored. */
  function DecodeGroups(s: string): Option<seq<Byte>> {
    if s == "" then Some([])
    else if |s| < 4 then None
    else
      var a, b := Value(s[0]), Value(s[1]);
      if a.None? || b.None? then None
      else if s[2] == '=' then
        if s[3] == '=' && |s| == 4 then Some([First(a.value, b.value)]) else None
      else
        var c := Value(s[2]);
        if c.None? then None
        else if s[3] == '=' then
          if |s| == 4 then Some([First(a.value, b.value), Second(b.value, c.value)]) else None
        else
          var d := Value(s[3]);
          var rest := DecodeGroups(s[4..]);
          if d.None? || rest.None? then None
          else Some([First(a.value, b.value), Second(b.value, c.value), Third(c.value, d.value)] + rest.value)
  }

  function Decode(s: string): Option<seq<Byte>> { DecodeGroups(WithoutBreaks(s)) }

  lemma {:induction false} EncodeHasNoBreaks(bs: seq<Byte>)
    ensures forall i | 0 <= i < |Encode(bs)| :: Encode(bs)[i] != '\r' && Encode(bs)[i] != '\n'
  {
    if |bs| > 2 {
      EncodeHasNoBreaks(bs[3..]);
    }
  }

  lemma {:induction false} NothingToSkip(s: string)
    requires forall i | 0 <= i < |s| :: s[i] != '\r' && s[i] != '\n'
    ensures WithoutBreaks(s) == s
  {
    if s != "" {
      NothingToSkip(s[1..]);
    }
  }

  lemma DigitsJoin(a: Byte, b: Byte, c: Byte)
    ensures First(D0(a), D1(a, b)) == a && Second(D1(a, b), D2(b, c)) == b && Third(D2(b, c), D3(c)) == c
  {
  }

  /** A full group decodes to its three bytes, followed by whatever the rest decodes to. */
  lemma GroupDecodes(a: Byte, b: Byte, c: Byte, rest: string, bs: seq<Byte>)
    requires DecodeGroups(rest) == Some(bs)
    ensures DecodeGroups(Group(a, b, c) + rest) == Some([a, b, c] + bs)
  {
    SymbolValue(D0(a));
    SymbolValue(D1(a, b));
    SymbolValue(D2(b, c));
    SymbolValue(D3(c));
    DigitsJoin(a, b, c);
    assert (Group(a, b, c) + rest)[4..] == rest;
  }

  lemma OneByteDecodes(a: Byte)
    ensures DecodeGroups([Symbol(D0(a)), Symbol(D1(a, 0)), '=', '=']) == Some([a])
  {
    var x, y := D0(a), D1(a, 0);
    assert First(x, y) == a;
    PaddedPair(x, y);
  }

  lemma PaddedPair(x: Digit, y: Digit)
    ensures DecodeGroups([Symbol(x), Symbol(y), '=', '=']) == Some([First(x, y)])
  {
    SymbolValue(x);
    SymbolValue(y);
  }

  lemma TwoBytesDecode(a: Byte, b: Byte)
    ensures DecodeGroups([Symbol(D0(a)), Symbol(D1(a, b)), Symbol(D2(b, 0)), '=']) == Some([a, b])
  {
    SymbolValue(D0(a));
    SymbolValue(D1(a, b));
    SymbolValue(D2(b, 0));
    DigitsJoin(a, b, 0);
  }

  lemma {:induction false} GroupsRoundTrip(bs: seq<Byte>)
    ensures DecodeGroups(Encode(bs)) == Some(bs)
  {
    if |bs| == 1 {
      OneByteDecodes(bs[0]);
      assert bs == [bs[0]];
    } else if |bs| == 2 {
      TwoBytesDecode(bs[0], bs[1]);
      assert bs == [bs[0], bs[1]];
    } else if |bs| > 2 {
      GroupsRoundTrip(bs[3..]);
      GroupDecodes(bs[0], bs[1], bs[2], Encode(bs[3..]), bs[3..]);
      assert bs == [bs[0], bs[1], bs[2]] + bs[3..];
    }
  }

  /** Whole groups of symbols, of which the last may end in one or two padding characters. */
  predicate Shaped(t: string, pad: nat) {
    && |t| % 4 == 0 && pad <= 2 && pad <= |t|
    && (forall i | 0 <= i < |t| - pad :: Value(t[i]).Some?)
    && (forall i | |t| - pad <= i < |t| :: t[i] == '=')
  }

  ghost predicate WellShaped(t: string) { exists pad: nat :: Shaped(t, pad) }

  /** The text is the encoding of the bytes, but for the symbol before the padding, whose spare bits do not count. */
  predicate Denotes(t: string, pad: nat, bs: seq<Byte>) {
    && |Encode(bs)| == |t| && |bs| + pad == |t| / 4 * 3
    && forall i | 0 <= i < |t| && !(pad > 0 && i == |t| - pad - 1) :: Encode(bs)[i] == t[i]
  }

  lemma SymbolOfValue(c: char)
    requires Value(c).Some?
    ensures Symbol(Value(c).value) == c && c != '='
  {
  }

  lemma DigitsSplit(x: Digit, y: Digit, z: Digit, v: Digit)
    ensures D0(First(x, y)) == x && D1(First(x, y), Second(y, z)) == y
    ensures D2(Second(y, z), Third(z, v)) == z && D3(Third(z, v)) == v
  {
  }

  predicate FourSymbols(g: string) {
    |g| == 4 && Value(g[0]).Some? && Value(g[1]).Some? && Value(g[2]).Some? && Value(g[3]).Some?
  }

  lemma ShapedBehind(g: string, rest: string, pad: nat)
    requires FourSymbols(g) && Shaped(rest, pad)
    ensures Shaped(g + rest, pad)
  {
  }

  lemma EncodeBehind(a: Byte, b: Byte, c: Byte, bs: seq<Byte>)
    ensures Encode([a, b, c] + bs) == Group(a, b, c) + Encode(bs)
  {
    assert ([a, b, c] + bs)[3..] == bs;
  }

  lemma DenotesBehind(g: string, rest: string, pad: nat, a: Byte, b: Byte, c: Byte, bs: seq<Byte>)
    requires g == Group(a, b, c) && Denotes(rest, pad, bs) && pad <= |rest|
    ensures Denotes(g + rest, pad, [a, b, c] + bs)
  {
    EncodeBehind(a, b, c, bs);
    assert |g + rest| / 4 == |rest| / 4 + 1;
    forall i | 0 <= i < |g + rest| && !(pad > 0 && i == |g + rest| - pad - 1)
      ensures Encode([a, b, c] + bs)[i] == (g + rest)[i]
    {
      assert i >= 4 ==> Encode(bs)[i - 4] == rest[i - 4];
    }
  }

  /** A group of four symbols decodes to three bytes, whose group it is. */
  lemma SymbolsDecode(g: string, rest: string) returns (a: Byte, b: Byte, c: Byte)
    requires FourSymbols(g)
    ensures g == Group(a, b, c)
    ensures DecodeGroups(g + rest) ==
            if DecodeGroups(rest).Some? then Some([a, b, c] + DecodeGroups(rest).value) else None
  {
    var x, y, z, v := Value(g[0]).value, Value(g[1]).value, Value(g[2]).value, Value(g[3]).value;
    SymbolOfValue(g[0]);
    SymbolOfValue(g[1]);
    SymbolOfValue(g[2]);
    SymbolOfValue(g[3]);
    DigitsSplit(x, y, z, v);
    a, b, c := First(x, y), Second(y, z), Third(z, v);
    assert (g + rest)[4..] == rest;
  }

  lemma FourSymbolsFirst(s: string)
    requires DecodeGroups(s).Some? && s != ""
    ensures |s| >= 4 && (s[3] == '=' ==> |s| == 4)
    ensures s[3] != '=' ==> DecodeGroups(s[4..]).Some? && FourSymbols(s[..4])
  {
  }

  lemma TwoPads(x: Digit, y: Digit)
    ensures var s := [Symbol(x), Symbol(y), '=', '=']; Shaped(s, 2) && Denotes(s, 2, [First(x, y)])
  {
    SymbolValue(x);
    SymbolValue(y);
    assert D0(First(x, y)) == x;
  }

  lemma OnePad(x: Digit, y: Digit, z: Digit)
    ensures var s := [Symbol(x), Symbol(y), Symbol(z), '=']; Shaped(s, 1) && Denotes(s, 1, [First(x, y), Second(y, z)])
  {
    SymbolValue(x);
    SymbolValue(y);
    SymbolValue(z);
    DigitsSplit(x, y, z, 0);
  }

  lemma PaddedGroupShape(s: string) returns (pad: nat)
    requires |s| == 4 && s[3] == '=' && DecodeGroups(s).Some?
    ensures Shaped(s, pad) && Denotes(s, pad, DecodeGroups(s).value)
  {
    SymbolOfValue(s[0]);
    SymbolOfValue(s[1]);
    var x, y := Value(s[0]).value, Value(s[1]).value;
    if s[2] == '=' {
      TwoPads(x, y);
      assert s == [Symbol(x), Symbol(y), '=', '='];
      pad := 2;
    } else {
      SymbolOfValue(s[2]);
      OnePad(x, y, Value(s[2]).value);
      assert s == [Symbol(x), Symbol(y), Symbol(Value(s[2]).value), '='];
      pad := 1;
    }
  }

  lemma {:induction false} DecodedIsShaped(s: string) returns (pad: nat)
    requires DecodeGroups(s).Some?
    ensures Shaped(s, pad) && Denotes(s, pad, DecodeGroups(s).value)
  {
    if s == "" {
      pad := 0;
    } else {
      FourSymbolsFirst(s);
      if s[3] == '=' {
        pad := PaddedGroupShape(s);
      } else {
        var g, rest := s[..4], s[4..];
        pad := DecodedIsShaped(rest);
        var a, b, c := SymbolsDecode(g, rest);
        ShapedBehind(g, rest, pad);
        DenotesBehind(g, rest, pad, a, b, c, DecodeGroups(rest).value);
        assert s == g + rest;
      }
    }
  }

  lemma {:induction false} ShapedDecodes(s: string, pad: nat)
    requires Shaped(s, pad)
    ensures DecodeGroups(s).Some?
  {
    if |s| > 4 || (|s| == 4 && pad == 0) {
      SymbolOfValue(s[2]);
      SymbolOfValue(s[3]);
      forall i | 0 <= i < |s[4..]| ensures s[4..][i] == s[i + 4] {
      }
      ShapedDecodes(s[4..], pad);
    } else if |s| == 4 {
      SymbolOfValue(s[0]);
      SymbolOfValue(s[1]);
    }
  }

  /**
   * Which texts decode, and to what: exactly those that, without line breaks, are whole groups of symbols with one or
   * two padding characters at the end or none; and they are the encoding of the result, but for spare bits.
   */
  lemma DecodesExactlyWhen(s: string)
    ensures Decode(s).Some? <==> WellShaped(WithoutBreaks(s))
    ensures Decode(s).Some? ==>
            exists pad: nat :: Shaped(WithoutBreaks(s), pad) && Denotes(WithoutBreaks(s), pad, Decode(s).value)
  {
    var t := WithoutBreaks(s);
    if Decode(s).Some? {
      var pad := DecodedIsShaped(t);
      assert Shaped(WithoutBreaks(s), pad) && Denotes(WithoutBreaks(s), pad, Decode(s).value);
    } else {
      forall pad: nat ensures !Shaped(t, pad) {
        if Shaped(t, pad) {
          ShapedDecodes(t, pad);
        }
      }
    }
  }

  /** Decoding what was encoded gives it back, for byte strings of every length. */
  lemma RoundTrip(bs: seq<Byte>)
    ensures Decode(Encode(bs)) == Some(bs)
  {
    EncodeHasNoBreaks(bs);
    NothingToSkip(Encode(bs));
    GroupsRoundTrip(bs);
  }

  /** Different byte strings have different encodings. */
  lemma EncodeInjective(a: seq<Byte>, b: seq<Byte>)
    requires Encode(a) == Encode(b)
    ensures a == b
  {
    RoundTrip(a);
    RoundTrip(b);
  }

  lemma EncodeNonEmpty(bs: seq<Byte>)
    requires bs != []
    ensures Encode(bs) != ""
  {
    RoundTrip(bs);
  }
}
