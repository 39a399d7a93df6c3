/** Types and counting facts used by every other module. */
module Common {
  datatype Option<+T> = None | Some(value: T)

  datatype Result<+T, +E> = Ok(value: T) | Err(error: E)

  /** How many elements of `s` satisfy `p`. */
  function Count<T>(s: seq<T>, p: T -> bool): nat {
    if |s| == 0 then 0
    else Count(s[..|s| - 1], p) + (if p(s[|s| - 1]) then 1 else 0)
  }

  lemma CountAppend<T>(s: seq<T>, a: T, p: T -> bool)
    ensures Count(s + [a], p) == Count(s, p) + (if p(a) then 1 else 0)
  {
    assert (s + [a])[..|s|] == s;
  }

  /** Extending a prefix by one element. */
  lemma CountNext<T>(s: seq<T>, i: nat, p: T -> bool)
    requires i < |s|
    ensures Count(s[..i + 1], p) == Count(s[..i], p) + (if p(s[i]) then 1 else 0)
  {
    assert s[..i + 1] == s[..i] + [s[i]];
    CountAppend(s[..i], s[i], p);
  }

  lemma {:induction false} CountMonotone<T>(s: seq<T>, i: nat, j: nat, p: T -> bool)
    requires i <= j <= |s|
    ensures Count(s[..i], p) <= Count(s[..j], p)
  {
    if i < j {
      CountMonotone(s, i, j - 1, p);
      CountNext(s, j - 1, p);
    }
  }

  lemma {:induction false} CountSplit<T>(s: seq<T>, i: nat, p: T -> bool)
    requires i <= |s|
    ensures Count(s, p) == Count(s[..i], p) + Count(s[i..], p)
  {
    if i == |s| {
      assert s[..i] == s && s[i..] == [];
    } else {
      var t := s[..|s| - 1];
      CountSplit(t, i, p);
      assert t[..i] == s[..i];
      assert s[i..][..|s| - i - 1] == t[i..];
    }
  }

  /** Two elements that satisfy `p` and have equally many such elements before them are the same one. */
  lemma CountInjective<T>(s: seq<T>, i: nat, j: nat, p: T -> bool)
    requires i < |s| && j < |s| && p(s[i]) && p(s[j])
    requires Count(s[..i], p) == Count(s[..j], p)
    ensures i == j
  {
    if i < j {
      CountNext(s, i, p);
      CountMonotone(s, i + 1, j, p);
    } else if j < i {
      CountNext(s, j, p);
      CountMonotone(s, j + 1, i, p);
    }
  }
}
