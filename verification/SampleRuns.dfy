/**
 * Complete runs of the model. An undisturbed call returns its command's result; and three runs show why the theorems
 * need their conditions: with the handlers' constant id "1", a call can return another command's result or lose its
 * place in the table.
 */
module SampleRuns {
  import opened Common
  import opened Wire
  import opened Connection
  import opened Matching
  import S = Session
  import D = Delivery
  import W = Waiters

  function Exec(cmd: string): Request { Request("exec", "1", cmd) }

  /** Adds one event to a run. */
  lemma Then(es: seq<Event>, j: Joint, e: Event) returns (fs: seq<Event>, k: Joint)
    requires CanRun(START, es) && RunFrom(START, es) == j && Enabled(j, e)
    ensures CanRun(START, fs) && RunFrom(START, fs) == k == Step(j, e)
    ensures CanRunAlone(START, es) && Alone(j, e) ==> CanRunAlone(START, fs)
  {
    fs, k := es + [e], Step(j, e);
    RunOfOne(j, e);
    RunAppends(START, es, [e]);
    AloneExtends(START, es, e);
  }

  lemma {:induction false} AloneExtends(j: Joint, es: seq<Event>, e: Event)
    requires CanRun(j, es) && Enabled(RunFrom(j, es), e)
    ensures CanRunAlone(j, es) && Alone(RunFrom(j, es), e) ==> CanRunAlone(j, es + [e])
    decreases |es|
  {
    if es != [] {
      AloneExtends(Step(j, es[0]), es[1..], e);
      assert (es + [e])[1..] == es[1..] + [e];
    }
  }

  lemma Open() returns (es: seq<Event>)
    ensures CanRunAlone(START, es) && RunFrom(START, es) == OPENED
  {
    var j;
    es, j := Then([], START, Greet(true));
    es, j := Then(es, j, Buffer(1));
    es, j := Then(es, j, HandOver);
    assert j.relay.wire == [Hello];
  }

  const SENT_BOTH := [Sent(Exec("a"), 0), Sent(Exec("b"), 1)]

  const ANSWER_A := RunResult("A", 0, "")

  const ONE_BY_ONE := [S.Put(0), S.Cut(0), S.Put(1)]

  const AT_ONCE := [S.Put(0), S.Put(1)]

  // ----- Calls one after the other -----

  const FIRST_WAITS := S.Call(Exec("a"), S.Waiting, Some(0), 0, 1)

  const FIRST_GAVE_UP := S.Call(Exec("a"), S.Done(S.TimedOut), Some(0), 0, 1)

  /** After the first call's request was written. */
  const FIRST_SENT := OPENED.(relay :=
    S.Relay([FIRST_WAITS], W.Table(map["1" := 0], [None]), S.Reading, false,
      [Sent(Exec("a"), 0)], [Hello], 1, [S.Put(0)]))

  lemma FirstCallWaits() returns (es: seq<Event>)
    ensures CanRunAlone(START, es) && RunFrom(START, es) == FIRST_SENT
  {
    es := Open();
    var j := OPENED;
    es, j := Then(es, j, OfRelay(S.Begin(Exec("a"))));
    assert j.relay.calls == [S.Call(Exec("a"), S.Registered, None, 0, 1)];
    es, j := Then(es, j, OfRelay(S.Write(0, true)));
    assert j.relay.table.responses == map["1" := 0];
  }

  lemma FirstCallTimesOut() returns (es: seq<Event>)
    ensures CanRunAlone(START, es)
    ensures RunFrom(START, es) == OPENED.(relay :=
              S.Relay([FIRST_GAVE_UP], W.Table(map[], [None]), S.Reading, false,
                [Sent(Exec("a"), 0)], [Hello], 1, [S.Put(0), S.Cut(0)]))
  {
    es := FirstCallWaits();
    var j := FIRST_SENT;
    es, j := Then(es, j, OfRelay(S.TimeOut(0)));
    es, j := Then(es, j, OfRelay(S.Finish(0)));
    assert j.relay.table.responses == map[];
  }

  /** Both requests are written and call 1 is the one listed under the id. */
  function SecondListed(first: S.Call, seen: nat, log: seq<S.Touch>): Joint {
    OPENED.(relay := S.Relay([first, S.Call(Exec("b"), S.Waiting, Some(1), seen, 1)],
      W.Table(map["1" := 1], [None, None]), S.Reading, false, SENT_BOTH, [Hello], 1, log))
  }

  lemma SecondCallWaits() returns (es: seq<Event>)
    ensures CanRunAlone(START, es) && RunFrom(START, es) == SecondListed(FIRST_GAVE_UP, 1, ONE_BY_ONE)
  {
    es := FirstCallTimesOut();
    var j := RunFrom(START, es);
    es, j := Then(es, j, OfRelay(S.Begin(Exec("b"))));
    es, j := Then(es, j, OfRelay(S.Write(1, true)));
    assert j.relay.table.responses == map["1" := 1];
  }

  function FirstAnswered(j: Joint): Joint {
    j.(taken := 1, runs := [Run(0, "a", ANSWER_A)], relay := j.relay.(wire := [Hello, Resp("1", ANSWER_A)]))
  }

  lemma AgentAnswersFirst(es: seq<Event>, first: S.Call, seen: nat, log: seq<S.Touch>) returns (fs: seq<Event>)
    requires CanRun(START, es) && RunFrom(START, es) == SecondListed(first, seen, log)
    ensures CanRun(START, fs) && (CanRunAlone(START, es) ==> CanRunAlone(START, fs))
    ensures RunFrom(START, fs) == FirstAnswered(SecondListed(first, seen, log))
  {
    var j := SecondListed(first, seen, log);
    fs, j := Then(es, j, Take(true));
    fs, j := Then(fs, j, Ran(Succeeded("A")));
    fs, j := Then(fs, j, Reply(true));
  }

  lemma ReaderFindsSecond(es: seq<Event>, first: S.Call, seen: nat, log: seq<S.Touch>) returns (fs: seq<Event>, j: Joint)
    requires CanRun(START, es) && RunFrom(START, es) == FirstAnswered(SecondListed(first, seen, log))
    ensures CanRun(START, fs) && (CanRunAlone(START, es) ==> CanRunAlone(START, fs)) && RunFrom(START, fs) == j
    ensures var k := FirstAnswered(SecondListed(first, seen, log));
            j == k.(relay := k.relay.(reader := S.Sending(1), read := 2))
  {
    j := FirstAnswered(SecondListed(first, seen, log));
    fs, j := Then(es, j, OfRelay(S.Decode));
    fs, j := Then(fs, j, OfRelay(S.LookUp));
  }

  lemma SecondTakesIt(es: seq<Event>, first: S.Call, seen: nat, log: seq<S.Touch>) returns (fs: seq<Event>)
    requires CanRun(START, es) && RunFrom(START, es) == FirstAnswered(SecondListed(first, seen, log))
    ensures CanRun(START, fs) && (CanRunAlone(START, es) ==> CanRunAlone(START, fs))
    ensures var j := RunFrom(START, fs);
            && |j.relay.calls| == 2 && D.IsExec(j.relay.calls[1]) && D.TookAny(j.relay.calls[1]) && !GotOwn(j, 1)
  {
    var j;
    fs, j := ReaderFindsSecond(es, first, seen, log);
    fs, j := Then(fs, j, OfRelay(S.Send));
    fs, j := Then(fs, j, OfRelay(S.Receive(1)));
    assert j.relay.calls[1] == S.Call(Exec("b"), S.Leaving(S.Got(1)), Some(1), seen, 1);
    assert |j.runs| == 1 && j.runs[0].slot == 0;
  }

  /** Two calls one after the other: the first times out, and the second takes its late answer. */
  lemma LateAnswerGoesToTheNextCall() returns (es: seq<Event>)
    ensures CanRunAlone(START, es)
    ensures var j := RunFrom(START, es);
            && |j.relay.calls| == 2 && D.IsExec(j.relay.calls[1]) && D.TookAny(j.relay.calls[1]) && !GotOwn(j, 1)
  {
    es := SecondCallWaits();
    es := AgentAnswersFirst(es, FIRST_GAVE_UP, 1, ONE_BY_ONE);
    es := SecondTakesIt(es, FIRST_GAVE_UP, 1, ONE_BY_ONE);
  }

  // ----- Overlapping calls -----

  lemma BothCallsRegister() returns (es: seq<Event>)
    ensures CanRun(START, es)
    ensures RunFrom(START, es) == OPENED.(relay :=
              S.Relay([S.Call(Exec("a"), S.Registered, None, 0, 1), S.Call(Exec("b"), S.Registered, None, 0, 1)],
                      W.Table(map["1" := 1], [None, None]), S.Reading, false, [], [Hello], 1, AT_ONCE))
  {
    es := Open();
    var j := OPENED;
    es, j := Then(es, j, OfRelay(S.Begin(Exec("a"))));
    es, j := Then(es, j, OfRelay(S.Begin(Exec("b"))));
    assert j.relay.table.responses == map["1" := 1];
  }

  lemma BothCallsWait() returns (es: seq<Event>)
    ensures CanRun(START, es) && RunFrom(START, es) == SecondListed(FIRST_WAITS, 0, AT_ONCE)
  {
    es := BothCallsRegister();
    var j := RunFrom(START, es);
    es, j := Then(es, j, OfRelay(S.Write(0, true)));
    es, j := Then(es, j, OfRelay(S.Write(1, true)));
  }

  /** Two overlapping calls: the second one's channel displaces the first one's and takes its answer. */
  lemma OverlappingCallsMix() returns (es: seq<Event>)
    ensures CanRun(START, es)
    ensures var j := RunFrom(START, es);
            && |j.relay.calls| == 2 && D.IsExec(j.relay.calls[1]) && D.TookAny(j.relay.calls[1]) && !GotOwn(j, 1)
  {
    es := BothCallsWait();
    es := AgentAnswersFirst(es, FIRST_WAITS, 0, AT_ONCE);
    es := SecondTakesIt(es, FIRST_WAITS, 0, AT_ONCE);
  }

  /** The first of two overlapping calls gives up, and its deferred delete unlists the second, still waiting one. */
  lemma OverlappingDeleteUnlists() returns (es: seq<Event>)
    ensures CanRun(START, es)
    ensures var r := RunFrom(START, es).relay;
            |r.calls| == 2 && r.calls[1].pc.Waiting? && r.calls[1].slot.Some? && r.table.responses == map[]
  {
    es := BothCallsWait();
    var j := SecondListed(FIRST_WAITS, 0, AT_ONCE);
    es, j := Then(es, j, OfRelay(S.TimeOut(0)));
    es, j := Then(es, j, OfRelay(S.Finish(0)));
    assert j.relay.table.responses == map[];
  }

  // ----- An undisturbed call -----

  function OneWaits(cmd: string): Joint {
    OPENED.(relay := S.Relay([S.Call(Exec(cmd), S.Waiting, Some(0), 0, 1)],
      W.Table(map["1" := 0], [None]), S.Reading, false, [Sent(Exec(cmd), 0)], [Hello], 1, [S.Put(0)]))
  }

  lemma OneCallWaits(cmd: string) returns (es: seq<Event>)
    ensures CanRunAlone(START, es) && RunFrom(START, es) == OneWaits(cmd)
  {
    es := Open();
    var j := OPENED;
    es, j := Then(es, j, OfRelay(S.Begin(Exec(cmd))));
    assert j.relay.calls == [S.Call(Exec(cmd), S.Registered, None, 0, 1)];
    es, j := Then(es, j, OfRelay(S.Write(0, true)));
    assert j.relay.table.responses == map["1" := 0];
  }

  function OneAnswered(cmd: string, result: RunResult): Joint {
    var j := OneWaits(cmd);
    j.(taken := 1, runs := [Run(0, cmd, result)], relay := j.relay.(wire := [Hello, Resp("1", result)]))
  }

  lemma OneCallIsAnswered(cmd: string, shell: Shell) returns (es: seq<Event>)
    requires Plausible(shell)
    ensures CanRunAlone(START, es) && RunFrom(START, es) == OneAnswered(cmd, CommandResult(cmd, shell))
  {
    es := OneCallWaits(cmd);
    var j := OneWaits(cmd);
    es, j := Then(es, j, Take(true));
    es, j := Then(es, j, Ran(shell));
    es, j := Then(es, j, Reply(true));
  }

  lemma ReaderFindsOne(es: seq<Event>, cmd: string, result: RunResult) returns (fs: seq<Event>, j: Joint)
    requires CanRunAlone(START, es) && RunFrom(START, es) == OneAnswered(cmd, result)
    ensures CanRunAlone(START, fs) && RunFrom(START, fs) == j
    ensures var k := OneAnswered(cmd, result); j == k.(relay := k.relay.(reader := S.Sending(0), read := 2))
  {
    j := OneAnswered(cmd, result);
    fs, j := Then(es, j, OfRelay(S.Decode));
    fs, j := Then(fs, j, OfRelay(S.LookUp));
  }

  lemma OneTakesIt(es: seq<Event>, cmd: string, result: RunResult) returns (fs: seq<Event>)
    requires CanRunAlone(START, es) && RunFrom(START, es) == OneAnswered(cmd, result)
    ensures CanRunAlone(START, fs)
    ensures var j := RunFrom(START, fs);
            && |j.relay.calls| == 1 && GotOwn(j, 0)
            && j.relay.wire[j.relay.calls[0].pc.out.k].result == result
  {
    var j;
    fs, j := ReaderFindsOne(es, cmd, result);
    fs, j := Then(fs, j, OfRelay(S.Send));
    fs, j := Then(fs, j, OfRelay(S.Receive(0)));
    assert j.relay.calls == [S.Call(Exec(cmd), S.Leaving(S.Got(1)), Some(0), 0, 1)];
    assert [Hello, Resp("1", result)][..1] == [Hello];
    assert AllResps(j, 1) == 0;
  }

  /** Every command, however its shell ends, can be run and have its result returned to its caller. */
  lemma OneCallGetsItsResult(cmd: string, shell: Shell) returns (es: seq<Event>)
    requires Plausible(shell)
    ensures CanRunAlone(START, es)
    ensures var j := RunFrom(START, es);
            && |j.relay.calls| == 1 && GotOwn(j, 0)
            && j.relay.wire[j.relay.calls[0].pc.out.k].result == CommandResult(cmd, shell)
  {
    es := OneCallIsAnswered(cmd, shell);
    es := OneTakesIt(es, cmd, CommandResult(cmd, shell));
  }
}
