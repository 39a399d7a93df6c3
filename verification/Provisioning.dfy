/** One-time tokens, the device map and its file: relay/main.go:39-48, 136-151, 250-276 and 487-539. */
module Provisioning {
  import opened Common

  datatype Request = Request(deviceID: string, publicKey: string, setupToken: string)

  /** `disk` is the device file, None while there is none. */
  datatype Store = Store(devices: map<string, string>, tokens: map<string, string>, disk: Option<map<string, string>>)

  datatype Status = Accepted | InvalidToken | PersistFailed

  predicate TokenFits(tokens: map<string, string>, p: Request) {
    p.deviceID in tokens && tokens[p.deviceID] == p.setupToken
  }

  /** A file write either replaces the file or leaves it. */
  function Save(s: Store, ok: bool): Store {
    if ok then s.(disk := Some(s.devices)) else s
  }

  /** One provision request, handled under the lock. */
  function Provision(s: Store, p: Request, saveOk: bool): (Store, Status) {
    if !TokenFits(s.tokens, p) then (s, InvalidToken)
    else
      var t := s.(tokens := s.tokens - {p.deviceID}, devices := s.devices[p.deviceID := p.publicKey]);
      (Save(t, saveOk), if saveOk then Accepted else PersistFailed)
  }

  /** A fresh relay process: devices from the file, tokens from its configuration. */
  function Boot(disk: Option<map<string, string>>, tokens: map<string, string>): Store {
    Store(if disk.Some? then disk.value else map[], tokens, disk)
  }

  // ----- One relay run: any sequence of provision requests -----

  datatype Post = Post(p: Request, saveOk: bool)

  function After(s: Store, posts: seq<Post>): Store {
    if posts == [] then s
    else Provision(After(s, posts[..|posts| - 1]), posts[|posts| - 1].p, posts[|posts| - 1].saveOk).0
  }

  lemma {:induction false} AfterFirst(s: Store, x: Post, posts: seq<Post>)
    ensures After(s, [x] + posts) == After(Provision(s, x.p, x.saveOk).0, posts)
  {
    var all := [x] + posts;
    if posts == [] {
      assert all[..0] == [];
    } else {
      AfterFirst(s, x, posts[..|posts| - 1]);
      assert all[..|all| - 1] == [x] + posts[..|posts| - 1];
    }
  }

  function StatusAt(s: Store, posts: seq<Post>, i: nat): Status
    requires i < |posts|
  {
    Provision(After(s, posts[..i]), posts[i].p, posts[i].saveOk).1
  }

  /** Post i is the first to present the loaded token of its device. */
  predicate Wins(tokens: map<string, string>, posts: seq<Post>, i: nat)
    requires i < |posts|
  {
    && TokenFits(tokens, posts[i].p)
    && forall h | 0 <= h < i :: !(posts[h].p.deviceID == posts[i].p.deviceID && TokenFits(tokens, posts[h].p))
  }

  predicate Spent(tokens: map<string, string>, posts: seq<Post>, d: string) {
    exists i :: 0 <= i < |posts| && posts[i].p.deviceID == d && TokenFits(tokens, posts[i].p)
  }

  lemma SpentSnoc(tokens: map<string, string>, posts: seq<Post>, x: Post, d: string)
    ensures Spent(tokens, posts + [x], d) <==> Spent(tokens, posts, d) || (x.p.deviceID == d && TokenFits(tokens, x.p))
  {
    if Spent(tokens, posts, d) {
      var i :| 0 <= i < |posts| && posts[i].p.deviceID == d && TokenFits(tokens, posts[i].p);
      assert (posts + [x])[i] == posts[i];
    }
    assert (posts + [x])[|posts|] == x;
  }

  /** Tokens left are the loaded ones that nobody has presented; the rest are spent. */
  lemma {:induction false} TokensLeft(s: Store, posts: seq<Post>, d: string)
    ensures d in After(s, posts).tokens <==> d in s.tokens && !Spent(s.tokens, posts, d)
    ensures d in After(s, posts).tokens ==> After(s, posts).tokens[d] == s.tokens[d]
  {
    if posts != [] {
      var front, last := posts[..|posts| - 1], posts[|posts| - 1];
      TokensLeft(s, front, d);
      TokensLeft(s, front, last.p.deviceID);
      SpentSnoc(s.tokens, front, last, d);
      assert front + [last] == posts;
    }
  }

  /** A post is accepted, its save succeeding or not, exactly when it is the first with the right token. */
  lemma AcceptedExactlyOnce(s: Store, posts: seq<Post>, i: nat)
    requires i < |posts|
    ensures StatusAt(s, posts, i) ==
            if !Wins(s.tokens, posts, i) then InvalidToken else if posts[i].saveOk then Accepted else PersistFailed
  {
    var d := posts[i].p.deviceID;
    TokensLeft(s, posts[..i], d);
    if Spent(s.tokens, posts[..i], d) {
      var h :| 0 <= h < i && posts[..i][h].p.deviceID == d && TokenFits(s.tokens, posts[..i][h].p);
      assert posts[h].p.deviceID == d && TokenFits(s.tokens, posts[h].p);
    } else {
      forall h | 0 <= h < i ensures !(posts[h].p.deviceID == d && TokenFits(s.tokens, posts[h].p)) {
        assert posts[..i][h] == posts[h];
      }
    }
  }

  /** The key of a device after any run: the one of its first valid post, or else the one it had. */
  lemma {:induction false} KeyAfter(s: Store, posts: seq<Post>, d: string)
    ensures !Spent(s.tokens, posts, d) ==>
              && (d in After(s, posts).devices <==> d in s.devices)
              && (d in s.devices ==> After(s, posts).devices[d] == s.devices[d])
    ensures forall i: nat | i < |posts| && posts[i].p.deviceID == d && Wins(s.tokens, posts, i) ::
              d in After(s, posts).devices && After(s, posts).devices[d] == posts[i].p.publicKey
  {
    if posts != [] {
      var n := |posts| - 1;
      var front, last := posts[..n], posts[n];
      assert front + [last] == posts;
      KeyAfter(s, front, d);
      SpentSnoc(s.tokens, front, last, d);
      AcceptedExactlyOnce(s, posts, n);
      forall i: nat | i < |posts| && posts[i].p.deviceID == d && Wins(s.tokens, posts, i)
        ensures d in After(s, posts).devices && After(s, posts).devices[d] == posts[i].p.publicKey
      {
        if i < n {
          assert front[i] == posts[i];
          assert Wins(s.tokens, front, i);
          assert last.p.deviceID == d ==> !Wins(s.tokens, posts, n);
        }
      }
    }
  }

  function KeyOf(s: Store, d: string): Option<string> {
    if d in s.devices then Some(s.devices[d]) else None
  }

  /** Within a run a device's key changes at most once: once it differs from the loaded one it stays. */
  lemma KeyChangesAtMostOnce(s: Store, posts: seq<Post>, i: nat, j: nat, d: string)
    requires i <= j <= |posts|
    ensures || KeyOf(After(s, posts[..i]), d) == KeyOf(s, d)
            || KeyOf(After(s, posts[..j]), d) == KeyOf(After(s, posts[..i]), d)
  {
    KeyAfter(s, posts[..i], d);
    KeyAfter(s, posts[..j], d);
    if Spent(s.tokens, posts[..i], d) {
      var k := FirstSpender(s.tokens, posts[..i], d);
      assert forall h | 0 <= h <= k :: posts[..i][h] == posts[..j][h];
      assert Wins(s.tokens, posts[..j], k);
    }
  }

  /** If a device's token was presented at all, some post was the first to do so. */
  lemma {:induction false} FirstSpender(tokens: map<string, string>, posts: seq<Post>, d: string) returns (i: nat)
    requires Spent(tokens, posts, d)
    ensures i < |posts| && posts[i].p.deviceID == d && Wins(tokens, posts, i)
  {
    i :| i < |posts| && posts[i].p.deviceID == d && TokenFits(tokens, posts[i].p);
    if !Wins(tokens, posts, i) {
      var front := posts[..i];
      var h :| 0 <= h < i && posts[h].p.deviceID == d && TokenFits(tokens, posts[h].p);
      assert front[h] == posts[h];
      i := FirstSpender(tokens, front, d);
    }
  }

  function AcceptedCount(s: Store, posts: seq<Post>): nat {
    if posts == [] then 0
    else AcceptedCount(s, posts[..|posts| - 1]) +
         (if StatusAt(s, posts, |posts| - 1).InvalidToken? then 0 else 1)
  }

  /** Every acceptance, failed saves included, costs one loaded token; known devices are never forgotten. */
  lemma {:induction false} TokensConserved(s: Store, posts: seq<Post>)
    ensures AcceptedCount(s, posts) + |After(s, posts).tokens| == |s.tokens|
    ensures After(s, posts).tokens.Keys <= s.tokens.Keys && s.devices.Keys <= After(s, posts).devices.Keys
  {
    if posts != [] {
      var front, last := posts[..|posts| - 1], posts[|posts| - 1];
      TokensConserved(s, front);
      var t := After(s, front);
      if TokenFits(t.tokens, last.p) {
        RemoveOne(t.tokens, last.p.deviceID);
      }
    }
  }

  lemma RemoveOne(m: map<string, string>, k: string)
    requires k in m
    ensures |m - {k}| == |m| - 1
  {
    assert m.Keys == (m - {k}).Keys + {k};
    assert |m.Keys| == |(m - {k}).Keys| + 1;
  }

  // ----- Many relay runs: crashes and restarts between any two requests -----

  /** Crash stands for losing the process at any moment and starting another with some token configuration. */
  datatype Event = Handle(post: Post) | Crash(tokens: map<string, string>)

  function Step(s: Store, e: Event): Store {
    match e
    case Handle(x) => Provision(s, x.p, x.saveOk).0
    case Crash(tokens) => Boot(s.disk, tokens)
  }

  function RunFrom(s: Store, es: seq<Event>): Store {
    if es == [] then s else Step(RunFrom(s, es[..|es| - 1]), es[|es| - 1])
  }

  /** The event accepts a key for device d. */
  predicate Accepts(s: Store, e: Event, d: string) {
    e.Handle? && e.post.p.deviceID == d && TokenFits(s.tokens, e.post.p)
  }

  predicate NoneAccepted(s: Store, es: seq<Event>, d: string) {
    forall i | 0 <= i < |es| :: !Accepts(RunFrom(s, es[..i]), es[i], d)
  }

  predicate Durable(s: Store, d: string, k: string) {
    && d in s.devices && s.devices[d] == k
    && s.disk.Some? && d in s.disk.value && s.disk.value[d] == k
  }

  lemma NoneAcceptedFront(s: Store, es: seq<Event>, d: string)
    requires es != [] && NoneAccepted(s, es, d)
    ensures NoneAccepted(s, es[..|es| - 1], d) && !Accepts(RunFrom(s, es[..|es| - 1]), es[|es| - 1], d)
  {
    var front := es[..|es| - 1];
    forall i | 0 <= i < |front| ensures !Accepts(RunFrom(s, front[..i]), front[i], d) {
      assert front[..i] == es[..i];
    }
  }

  lemma {:induction false} DurableStays(s: Store, es: seq<Event>, d: string, k: string)
    requires Durable(s, d, k) && NoneAccepted(s, es, d)
    ensures Durable(RunFrom(s, es), d, k)
  {
    if es != [] {
      NoneAcceptedFront(s, es, d);
      DurableStays(s, es[..|es| - 1], d, k);
    }
  }

  /**
   * Durability: once a post for d was answered 200, its key is in force, in memory and after any crash, whatever
   * requests and crashes follow, until another post for d is accepted.
   */
  lemma AcceptedKeyIsDurable(s: Store, p: Request, es: seq<Event>, tokens: map<string, string>)
    requires Provision(s, p, true).1.Accepted? && NoneAccepted(Provision(s, p, true).0, es, p.deviceID)
    ensures var t := RunFrom(Provision(s, p, true).0, es);
            Durable(t, p.deviceID, p.publicKey) && Durable(Boot(t.disk, tokens), p.deviceID, p.publicKey)
  {
    DurableStays(Provision(s, p, true).0, es, p.deviceID, p.publicKey);
  }

  /**
   * A post whose save failed is not lost while the process lives: its token is spent, so no later post in the run can
   * replace the key, and the next successful save of any device makes it durable.
   */
  lemma LaterSaveCatchesUp(s: Store, p: Request, posts: seq<Post>, q: Request)
    requires Provision(s, p, false).1.PersistFailed?
    requires Provision(After(Provision(s, p, false).0, posts), q, true).1.Accepted?
    ensures Durable(Provision(After(Provision(s, p, false).0, posts), q, true).0, p.deviceID, p.publicKey)
  {
    var t := Provision(s, p, false).0;
    assert !Spent(t.tokens, posts, p.deviceID);
    KeyAfter(t, posts, p.deviceID);
    TokensLeft(t, posts, p.deviceID);
  }

  /** What is on disk is always a device map the relay once had, from the first boot on. */
  lemma {:induction false} DiskIsSomePastMap(disk: Option<map<string, string>>, tokens: map<string, string>, es: seq<Event>)
    returns (n: nat)
    ensures n <= |es|
    ensures var s := RunFrom(Boot(disk, tokens), es); var past := RunFrom(Boot(disk, tokens), es[..n]);
            if s.disk.None? then disk.None? && past.devices == map[] else s.disk == Some(past.devices)
  {
    if es == [] {
      n := 0;
    } else {
      var front, e := es[..|es| - 1], es[|es| - 1];
      n := DiskIsSomePastMap(disk, tokens, front);
      assert front[..n] == es[..n];
      if RunFrom(Boot(disk, tokens), es).disk != RunFrom(Boot(disk, tokens), front).disk {
        n := |es|;
        assert es[..n] == es;
      }
    }
  }
}
