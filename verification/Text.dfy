/** The string functions of Go's `strings` package that the programs use. */
module Text {
  /** The white space of Go's unicode.IsSpace. */
  predicate IsSpace(c: char) {
    c == '\t' || c == '\n' || c == '\U{0B}' || c == '\U{0C}' || c == '\r' || c == ' ' || c == '\U{85}' || c == '\U{A0}'
    || c == '\U{1680}' || '\U{2000}' <= c <= '\U{200A}' || c == '\U{2028}' || c == '\U{2029}' || c == '\U{202F}'
    || c == '\U{205F}' || c == '\U{3000}'
  }

  /** The 25 code points with the White_Space property in the Unicode Character Database. */
  const WHITE_SPACE: set<int> :=
    {9, 10, 11, 12, 13, 32, 0x85, 0xA0, 0x1680, 0x2000, 0x2001, 0x2002, 0x2003, 0x2004, 0x2005, 0x2006, 0x2007, 0x2008,
     0x2009, 0x200A, 0x2028, 0x2029, 0x202F, 0x205F, 0x3000}

  lemma SpacesAreWhiteSpace(c: char)
    ensures IsSpace(c) <==> c as int in WHITE_SPACE
  {
  }

  predicate IsBlank(s: string) { forall i | 0 <= i < |s| :: IsSpace(s[i]) }

  function TrimLeft(s: string, drop: char -> bool): string {
    if s != "" && drop(s[0]) then TrimLeft(s[1..], drop) else s
  }

  function TrimRight(s: string, drop: char -> bool): string {
    if s != "" && drop(s[|s| - 1]) then TrimRight(s[..|s| - 1], drop) else s
  }

  /** `strings.TrimSpace`. */
  function Trim(s: string): string { TrimRight(TrimLeft(s, IsSpace), IsSpace) }

  /** No white space at either end. */
  predicate Trimmed(s: string) {
    s == "" || (!IsSpace(s[0]) && !IsSpace(s[|s| - 1]))
  }

  lemma {:induction false} TrimLeftIsSuffix(s: string, drop: char -> bool) returns (n: nat)
    ensures n <= |s| && TrimLeft(s, drop) == s[n..]
    ensures forall i | 0 <= i < n :: drop(s[i])
    ensures n < |s| ==> !drop(s[n])
  {
    if s != "" && drop(s[0]) {
      var m := TrimLeftIsSuffix(s[1..], drop);
      n := m + 1;
      assert s[1..][m..] == s[n..];
      assert forall i | 1 <= i < n :: s[i] == s[1..][i - 1];
    } else {
      n := 0;
    }
  }

  lemma {:induction false} TrimRightIsPrefix(s: string, drop: char -> bool) returns (n: nat)
    ensures n <= |s| && TrimRight(s, drop) == s[..n]
    ensures forall i | n <= i < |s| :: drop(s[i])
    ensures 0 < n ==> !drop(s[n - 1])
  {
    if s != "" && drop(s[|s| - 1]) {
      n := TrimRightIsPrefix(s[..|s| - 1], drop);
      assert s[..|s| - 1][..n] == s[..n];
    } else {
      n := |s|;
    }
  }

  /** Trimming keeps one stretch of the text, cuts white space only, and leaves none at the ends. */
  lemma TrimIsStretch(s: string) returns (lo: nat, hi: nat)
    ensures lo <= hi <= |s| && Trim(s) == s[lo..hi] && Trimmed(Trim(s))
    ensures forall i | 0 <= i < |s| && !(lo <= i < hi) :: IsSpace(s[i])
    ensures Trim(s) == "" <==> IsBlank(s)
  {
    lo := TrimLeftIsSuffix(s, IsSpace);
    var t := s[lo..];
    var n := TrimRightIsPrefix(t, IsSpace);
    hi := lo + n;
    assert t[..n] == s[lo..hi];
    assert forall i | hi <= i < |s| :: s[i] == t[i - lo];
    if 0 < n {
      assert t[n - 1] == s[hi - 1];
    }
  }

  lemma TrimTrimmed(s: string)
    requires Trimmed(s)
    ensures Trim(s) == s
  {
  }

  lemma StretchIsTrim(s: string, i: nat, j: nat)
    requires i < j <= |s| && !IsSpace(s[i]) && !IsSpace(s[j - 1])
    requires forall k | 0 <= k < |s| && !(i <= k < j) :: IsSpace(s[k])
    ensures Trim(s) == s[i..j]
  {
    var lo, hi := TrimIsStretch(s);
    assert lo <= i && j <= hi;
    assert Trim(s)[0] == s[lo] && Trim(s)[hi - lo - 1] == s[hi - 1];
    assert lo == i && hi == j;
  }

  /** White space around a text with none at its ends is what trimming cuts. */
  lemma TrimPadded(a: string, s: string, b: string)
    requires IsBlank(a) && IsBlank(b) && s != "" && Trimmed(s)
    ensures Trim(a + s + b) == s
  {
    var t := a + s + b;
    assert t[|a|] == s[0] && t[|a| + |s| - 1] == s[|s| - 1];
    StretchIsTrim(t, |a|, |a| + |s|);
    assert t[|a|..|a| + |s|] == s;
  }

  lemma TrimTwice(s: string)
    ensures Trim(Trim(s)) == Trim(s)
  {
    var lo, hi := TrimIsStretch(s);
    TrimTrimmed(Trim(s));
  }

  /** `strings.Split` with a one-character separator. */
  function Split(s: string, sep: char): (parts: seq<string>)
    ensures parts != []
  {
    if s == "" then [""]
    else
      var rest := Split(s[1..], sep);
      if s[0] == sep then [""] + rest else [[s[0]] + rest[0]] + rest[1..]
  }

  function Join(parts: seq<string>, sep: char): string {
    if parts == [] then ""
    else if |parts| == 1 then parts[0]
    else parts[0] + [sep] + Join(parts[1..], sep)
  }

  lemma {:induction false} SplitFirst(a: string, rest: string, sep: char)
    requires sep !in a
    ensures Split(a + [sep] + rest, sep) == [a] + Split(rest, sep)
  {
    var s := a + [sep] + rest;
    if a == "" {
      assert s[1..] == rest;
    } else {
      SplitFirst(a[1..], rest, sep);
      assert s[1..] == a[1..] + [sep] + rest;
      assert [a[0]] + a[1..] == a;
    }
  }

  lemma {:induction false} SplitWhole(a: string, sep: char)
    requires sep !in a
    ensures Split(a, sep) == [a]
  {
    if a != "" {
      SplitWhole(a[1..], sep);
      assert [a[0]] + a[1..] == a;
    }
  }

  /** Joining texts free of the separator and splitting again gives them back. */
  lemma {:induction false} SplitJoin(parts: seq<string>, sep: char)
    requires parts != [] && forall i | 0 <= i < |parts| :: sep !in parts[i]
    ensures Split(Join(parts, sep), sep) == parts
  {
    if |parts| == 1 {
      SplitWhole(parts[0], sep);
    } else {
      SplitJoin(parts[1..], sep);
      SplitFirst(parts[0], Join(parts[1..], sep), sep);
      assert [parts[0]] + parts[1..] == parts;
    }
  }

  lemma {:induction false} SplitPieces(s: string, sep: char)
    ensures forall i | 0 <= i < |Split(s, sep)| :: sep !in Split(s, sep)[i]
  {
    if s != "" {
      SplitPieces(s[1..], sep);
    }
  }

  /** The position of the first `c`, or the length. */
  function Find(s: string, c: char): (n: nat)
    ensures n <= |s| && c !in s[..n] && (n < |s| ==> s[n] == c)
  {
    if s == "" then 0
    else if s[0] == c then 0
    else
      var n := Find(s[1..], c) + 1;
      assert s[..n] == [s[0]] + s[1..][..n - 1];
      n
  }

  lemma {:induction false} FindIs(a: string, c: char, b: string)
    requires c !in a
    ensures Find(a + [c] + b, c) == |a|
  {
    if a != "" {
      FindIs(a[1..], c, b);
      assert (a + [c] + b)[1..] == a[1..] + [c] + b;
    }
  }

  predicate HasPrefix(s: string, p: string) { p <= s }

  predicate Contains(s: string, sub: string) {
    sub <= s || (s != "" && Contains(s[1..], sub))
  }

  lemma {:induction false} ContainsMiddle(a: string, sub: string, b: string)
    ensures Contains(a + sub + b, sub)
  {
    if a == "" {
      assert a + sub + b == sub + b;
    } else {
      ContainsMiddle(a[1..], sub, b);
      assert (a + sub + b)[1..] == a[1..] + sub + b;
    }
  }

  lemma {:induction false} ContainsChars(s: string, sub: string, c: char)
    requires Contains(s, sub) && c in sub
    ensures c in s
  {
    if !(sub <= s) {
      ContainsChars(s[1..], sub, c);
    }
  }

  /** Containment by position. */
  lemma {:induction false} ContainsExactlyWhen(s: string, sub: string)
    ensures Contains(s, sub) <==> exists i :: 0 <= i <= |s| && sub <= s[i..]
  {
    if sub <= s {
      assert s[0..] == s;
    } else if s != "" {
      ContainsExactlyWhen(s[1..], sub);
      if Contains(s[1..], sub) {
        var i :| 0 <= i <= |s[1..]| && sub <= s[1..][i..];
        assert s[i + 1..] == s[1..][i..];
      }
      if i :| 0 <= i <= |s| && sub <= s[i..] {
        assert s[0..] == s;
        assert 0 < i && s[1..][i - 1..] == s[i..];
      }
    }
  }

  /** A text put in front plays no part when its characters cannot begin the one that is looked for. */
  lemma {:induction false} ContainsBehind(a: string, s: string, sub: string)
    requires |sub| >= 2 && (a != "" ==> a[|a| - 1] != sub[0])
    requires forall i | 0 <= i < |a| - 1 :: !(a[i] == sub[0] && a[i + 1] == sub[1])
    ensures Contains(a + s, sub) <==> Contains(s, sub)
  {
    if a == "" {
      assert a + s == s;
    } else {
      assert (a + s)[1..] == a[1..] + s;
      assert |a| > 1 ==> (a + s)[1] == a[1];
      ContainsBehind(a[1..], s, sub);
      assert !(sub <= a + s);
    }
  }
}
