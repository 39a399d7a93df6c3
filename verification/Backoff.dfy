/** The agent's reconnect loop, agent/runtime.go:101-127: the pauses, in seconds, that a sequence of dials produces. */
module Backoff {
  function Pow2(n: nat): (p: nat)
    ensures p > 0
  {
    if n == 0 then 1 else 2 * Pow2(n - 1)
  }

  /** How many dials in a row had failed, ending with the n-th. */
  function Streak(dials: seq<bool>, n: nat): nat
    requires n <= |dials|
  {
    if n == 0 || dials[n - 1] then 0 else Streak(dials, n - 1) + 1
  }

  /** The pause after the k-th failure in a row. */
  function Pause(k: nat): nat
    requires 0 < k
  {
    if k <= 5 then Pow2(k - 1) else 30
  }

  /** What each dial is followed by: two seconds after a connection, the streak's pause after a failure. */
  predicate FollowsAt(dials: seq<bool>, i: nat, pause: nat)
    requires i < |dials|
  {
    pause == if dials[i] then 2 else Pause(Streak(dials, i + 1))
  }

  predicate Follows(dials: seq<bool>, pauses: seq<nat>) {
    |pauses| == |dials| && forall i: nat | i < |dials| :: FollowsAt(dials, i, pauses[i])
  }

  /** The loop, over the outcomes of its first dials. Each dial is followed by exactly one pause. */
  method Reconnect(dials: seq<bool>) returns (pauses: seq<nat>)
    ensures Follows(dials, pauses)
  {
    var backoff := 1;
    pauses := [];
    for i := 0 to |dials|
      invariant |pauses| == i
      invariant backoff == Pause(Streak(dials, i) + 1)
      invariant forall h: nat | h < i :: FollowsAt(dials, h, pauses[h])
    {
      if !dials[i] {
        pauses := pauses + [backoff];
        NextPause(Streak(dials, i) + 1);
        backoff := backoff * 2;
        if backoff > 30 {
          backoff := 30;
        }
      } else {
        backoff := 1;
        pauses := pauses + [2];
      }
    }
  }

  lemma SmallPowers()
    ensures Pow2(0) == 1 && Pow2(1) == 2 && Pow2(2) == 4 && Pow2(3) == 8 && Pow2(4) == 16 && Pow2(5) == 32
  {
    assert Pow2(1) == 2 * Pow2(0);
    assert Pow2(2) == 2 * Pow2(1);
    assert Pow2(3) == 2 * Pow2(2);
    assert Pow2(4) == 2 * Pow2(3);
  }

  lemma NextPause(k: nat)
    requires 0 < k
    ensures Pause(k + 1) == if 2 * Pause(k) > 30 then 30 else 2 * Pause(k)
  {
    SmallPowers();
    if k < 5 {
      assert Pow2(k) == 2 * Pow2(k - 1);
    }
  }

  function Min(a: nat, b: nat): nat { if a < b then a else b }

  lemma {:induction false} PowGrows(n: nat)
    requires 5 <= n
    ensures 32 <= Pow2(n)
  {
    SmallPowers();
    if n > 5 {
      PowGrows(n - 1);
    }
  }

  /** The n-th failure in a row pauses for 2^(n-1) seconds, but never more than 30. */
  lemma PauseIsCappedDoubling(n: nat)
    requires 0 < n
    ensures Pause(n) == Min(Pow2(n - 1), 30)
  {
    SmallPowers();
    if n > 5 {
      PowGrows(n - 1);
    } else {
      assert n - 1 == 0 || n - 1 == 1 || n - 1 == 2 || n - 1 == 3 || n - 1 == 4;
    }
  }

  function Sum(ps: seq<nat>): nat { if ps == [] then 0 else Sum(ps[..|ps| - 1]) + ps[|ps| - 1] }

  /** The pauses of failures in a row, from the first. */
  predicate IsStreak(ps: seq<nat>) {
    forall k: nat | k < |ps| :: ps[k] == Pause(k + 1)
  }

  function Total(n: nat): nat
  {
    if n <= 5 then Pow2(n) - 1 else 31 + 30 * (n - 5)
  }

  /** n failures in a row pause for 2^n - 1 seconds in all while n is at most 5, and for 30 more each from then on. */
  lemma {:induction false} TotalPause(ps: seq<nat>)
    requires IsStreak(ps)
    ensures Sum(ps) == Total(|ps|)
  {
    SmallPowers();
    if ps != [] {
      TotalPause(ps[..|ps| - 1]);
    }
  }

  lemma {:induction false} StreakCounts(dials: seq<bool>, m: nat, k: nat)
    requires m + k <= |dials| && (m == 0 || dials[m - 1])
    requires forall i | m <= i < m + k :: !dials[i]
    ensures Streak(dials, m + k) == k
  {
    if k > 0 {
      StreakCounts(dials, m, k - 1);
    }
  }

  lemma PauseInStreak(dials: seq<bool>, pauses: seq<nat>, m: nat, k: nat)
    requires Follows(dials, pauses) && m + k < |dials| && (m == 0 || dials[m - 1])
    requires forall i | m <= i <= m + k :: !dials[i]
    ensures pauses[m + k] == Pause(k + 1)
  {
    assert FollowsAt(dials, m + k, pauses[m + k]);
    StreakCounts(dials, m, k + 1);
  }

  lemma StreakPauses(dials: seq<bool>, pauses: seq<nat>, m: nat, n: nat)
    requires Follows(dials, pauses)
    requires m + n <= |dials| && (m == 0 || dials[m - 1]) && forall i | m <= i < m + n :: !dials[i]
    ensures IsStreak(pauses[m..m + n])
  {
    var ps := pauses[m..m + n];
    forall k: nat | k < |ps| ensures ps[k] == Pause(k + 1) {
      PauseInStreak(dials, pauses, m, k);
    }
  }

  /** 1, 2, 4, 8, 16 and then 30 seconds each. */
  predicate CappedDoubling(ps: seq<nat>) {
    forall k: nat | k < |ps| :: ps[k] == Min(Pow2(k), 30)
  }

  lemma StreakIsCapped(ps: seq<nat>)
    requires IsStreak(ps)
    ensures CappedDoubling(ps)
  {
    forall k: nat | k < |ps| ensures ps[k] == Min(Pow2(k), 30) {
      PauseIsCappedDoubling(k + 1);
    }
  }

  /**
   * Backoff in closed form, over any outcomes: the n failures that follow a success, or the start, pause for 1, 2, 4,
   * 8, 16 and then 30 seconds each, and the total is as above; whatever happened before the success plays no part.
   */
  lemma FailuresAfterSuccess(dials: seq<bool>, pauses: seq<nat>, m: nat, n: nat)
    requires Follows(dials, pauses)
    requires m + n <= |dials| && (m == 0 || dials[m - 1]) && forall i | m <= i < m + n :: !dials[i]
    ensures var ps := pauses[m..m + n];
            |ps| == n && CappedDoubling(ps) && Sum(ps) == Total(n)
  {
    StreakPauses(dials, pauses, m, n);
    var ps := pauses[m..m + n];
    StreakIsCapped(ps);
    TotalPause(ps);
  }
}
