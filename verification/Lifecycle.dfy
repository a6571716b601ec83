/** The life of a test over every run: it starts once, stops once and stays stopped, and the periodic cleanup
    bounds how long it runs. */
module Lifecycle {
  import opened Options
  import opened TestIds
  import opened Records
  import opened Posting
  import opened Tables
  import opened Machine

  // Stopping is final

  /** Nothing a step can do disturbs a test row, except for setting an unset stop time to the current time. */
  lemma StepKeepsTest(cfg: Config, s: State, l: Label, t: TestID)
    requires t in s.db.tests
    ensures var before, after := s.db.tests[t], Apply(cfg, s, l).db.tests;
            && t in after && after[t].startedAt == before.startedAt
            && (before.stoppedAt.Some? ==> after[t] == before)
            && (before.stoppedAt.None? ==> after[t].stoppedAt in {None, Some(s.clock)})
  {
  }

  /** Over any interleaving of starts, stops, cleanups and handlers: no test row disappears, its start time is
      fixed, the first stop time is never changed, and a stopped test never runs again. */
  lemma {:induction false} StopIsFinal(cfg: Config, s: State, ls: seq<Label>, t: TestID)
    requires t in s.db.tests
    ensures var before, after := s.db.tests[t], Run(cfg, s, ls).db.tests;
            && t in after && after[t].startedAt == before.startedAt
            && (before.stoppedAt.Some? ==> after[t] == before)
    decreases |ls|
  {
    if ls != [] {
      StepKeepsTest(cfg, s, ls[0], t);
      StopIsFinal(cfg, Apply(cfg, s, ls[0]), ls[1..], t);
    }
  }

  /** A test starts running only by a start under an unused ID: a collision changes nothing. */
  lemma StartsOnce(cfg: Config, s: State, l: Label, t: TestID)
    requires !Running(s.db, t) && Running(Apply(cfg, s, l).db, t)
    ensures l == StartTest(t, true) && t !in s.db.tests
    ensures Apply(cfg, s, l).db == s.db.(tests := s.db.tests[t := TestRow(s.clock, None)])
  {
  }

  /** A test found running that was not running before was started in between: by a start under an ID that no test
      had, at the time that its row shows. A collision of IDs starts nothing. */
  lemma {:induction false} StartedInBetween(cfg: Config, s: State, ls: seq<Label>, t: TestID) returns (k: nat)
    requires !Running(s.db, t) && Running(Run(cfg, s, ls).db, t)
    ensures k < |ls| && ls[k] == StartTest(t, true)
    ensures t !in Run(cfg, s, ls[..k]).db.tests
    ensures Run(cfg, s, ls).db.tests[t].startedAt == Run(cfg, s, ls[..k]).clock
    decreases |ls|
  {
    var next := Apply(cfg, s, ls[0]);
    if Running(next.db, t) {
      k := 0;
      StartsOnce(cfg, s, ls[0], t);
      StopIsFinal(cfg, next, ls[1..], t);
    } else {
      k := StartedInBetween(cfg, next, ls[1..], t);
      RunLater(cfg, s, ls, k);
      k := k + 1;
    }
  }

  /** The step stops the test: a cleanup more than six hours after its start, or the handler of a stop form posted
      from its page. */
  ghost predicate Stops(cfg: Config, s: State, l: Label, t: TestID) {
    && Running(s.db, t)
    && (|| (l == Cleanup(true) && s.clock - s.db.tests[t].startedAt > 6 * 60 * 60)
        || (&& l.Advance? && l.ok && l.h in s.handlers && s.handlers[l.h].PageHandler?
            && s.handlers[l.h].pageTest == t && s.handlers[l.h].pagePhase == PageChecked(Action.Stop)))
  }

  lemma StopStatement(cfg: Config, db: Tables, handler: Handler, ok: bool, id: nat, t: TestID)
    ensures NextStep(cfg, db, handler, ok, id).stmt == StopTest(t)
       <==> && ok && handler.PageHandler? && handler.pageTest == t && handler.pagePhase == PageChecked(Action.Stop)
  {
  }

  /** A running test goes on running through every step but those that stop it, which set its stop time. */
  lemma StopsExactly(cfg: Config, s: State, l: Label, t: TestID)
    requires Running(s.db, t)
    ensures !Running(Apply(cfg, s, l).db, t) <==> Stops(cfg, s, l, t)
    ensures Stops(cfg, s, l, t) ==> Apply(cfg, s, l).db.tests[t].stoppedAt == Some(s.clock)
  {
    if l.Advance? && l.h in s.handlers {
      StopStatement(cfg, s.db, s.handlers[l.h], l.ok, l.id, t);
    }
  }

  /** A test found stopped that was running before was stopped in between, by its owner or because it was more than
      six hours old, at the time that its row shows. */
  lemma {:induction false} StoppedInBetween(cfg: Config, s: State, ls: seq<Label>, t: TestID) returns (k: nat)
    requires Running(s.db, t) && !Running(Run(cfg, s, ls).db, t)
    ensures k < |ls| && Stops(cfg, Run(cfg, s, ls[..k]), ls[k], t)
    ensures t in Run(cfg, s, ls).db.tests
    ensures Run(cfg, s, ls).db.tests[t].stoppedAt == Some(Run(cfg, s, ls[..k]).clock)
    decreases |ls|
  {
    var next := Apply(cfg, s, ls[0]);
    StopsExactly(cfg, s, ls[0], t);
    StepKeepsTest(cfg, s, ls[0], t);
    if Running(next.db, t) {
      k := StoppedInBetween(cfg, next, ls[1..], t);
      RunLater(cfg, s, ls, k);
      k := k + 1;
    } else {
      k := 0;
      StopIsFinal(cfg, next, ls[1..], t);
    }
  }

  // The cleanup bound

  predicate Timely(s: State) {
    s.clock <= s.lastCleanup + 60 * 60
  }

  /** In every state along the run, the last successful cleanup is at most an hour old. */
  predicate TimelyRun(cfg: Config, s: State, ls: seq<Label>)
    decreases |ls|
  {
    Timely(s) && (ls == [] || TimelyRun(cfg, Apply(cfg, s, ls[0]), ls[1..]))
  }

  ghost predicate AgeInv(s: State) {
    forall t :: t in s.db.tests && s.db.tests[t].stoppedAt.None? ==>
      s.lastCleanup - MAX_AGE <= s.db.tests[t].startedAt
  }

  lemma StepKeepsAge(cfg: Config, s: State, l: Label)
    requires AgeInv(s) && s.lastCleanup <= s.clock
    ensures AgeInv(Apply(cfg, s, l)) && Apply(cfg, s, l).lastCleanup <= Apply(cfg, s, l).clock
  {
  }

  lemma {:induction false} RunKeepsAge(cfg: Config, s: State, ls: seq<Label>)
    requires AgeInv(s) && s.lastCleanup <= s.clock && TimelyRun(cfg, s, ls)
    ensures AgeInv(Run(cfg, s, ls)) && Timely(Run(cfg, s, ls))
    decreases |ls|
  {
    if ls != [] {
      StepKeepsAge(cfg, s, ls[0]);
      RunKeepsAge(cfg, Apply(cfg, s, ls[0]), ls[1..]);
    }
  }

  /** With a successful cleanup at least every hour, no test is found running more than seven hours after
      its start. */
  lemma NoTestRunsLonger(cfg: Config, now: int, ls: seq<Label>, t: TestID)
    requires TimelyRun(cfg, Initial(now), ls)
    requires Running(Run(cfg, Initial(now), ls).db, t)
    ensures var s := Run(cfg, Initial(now), ls); s.clock - s.db.tests[t].startedAt <= 7 * 60 * 60
  {
    RunKeepsAge(cfg, Initial(now), ls);
  }

  function Hourly(n: nat): seq<Label> {
    if n == 0 then [] else Hourly(n - 1) + [Tick(HOUR), Cleanup(true)]
  }

  function OneTest(start: int, clock: int, lastCleanup: int, t: TestID): State {
    State(clock, lastCleanup, EMPTY_TABLES.(tests := map[t := TestRow(start, None)]), map[])
  }

  lemma TimelyConcat(cfg: Config, s: State, a: seq<Label>, b: seq<Label>)
    requires TimelyRun(cfg, s, a) && TimelyRun(cfg, Run(cfg, s, a), b)
    ensures TimelyRun(cfg, s, a + b)
    decreases |a|
  {
    if a == [] {
      assert a + b == b;
    } else {
      assert (a + b)[1..] == a[1..] + b;
      TimelyConcat(cfg, Apply(cfg, s, a[0]), a[1..], b);
    }
  }

  lemma HourStep(cfg: Config, n: nat, t: TestID)
    requires n < 6
    ensures var s, hour := OneTest(0, n * HOUR, n * HOUR, t), [Tick(HOUR), Cleanup(true)];
            && ValidRun(cfg, s, hour) && TimelyRun(cfg, s, hour)
            && Run(cfg, s, hour) == OneTest(0, (n + 1) * HOUR, (n + 1) * HOUR, t)
  {
    var s := OneTest(0, n * HOUR, n * HOUR, t);
    var ticked := OneTest(0, (n + 1) * HOUR, n * HOUR, t);
    var cleaned := OneTest(0, (n + 1) * HOUR, (n + 1) * HOUR, t);
    assert Apply(cfg, s, Tick(HOUR)) == ticked;
    assert StoppedBefore(ticked.db.tests, ticked.clock, ticked.clock - MAX_AGE) == ticked.db.tests;
    assert Apply(cfg, ticked, Cleanup(true)) == cleaned;
    assert [Tick(HOUR), Cleanup(true)][1..] == [Cleanup(true)] && [Cleanup(true)][1..] == [];
    assert TimelyRun(cfg, cleaned, []) && TimelyRun(cfg, ticked, [Cleanup(true)]);
    assert [Tick(HOUR)] + [Cleanup(true)] == [Tick(HOUR), Cleanup(true)] && [Cleanup(true)] + [] == [Cleanup(true)];
    RunCons(cfg, s, Tick(HOUR), [Cleanup(true)]);
    RunCons(cfg, ticked, Cleanup(true), []);
  }

  /** Six hourly cleanups spare a test started at time zero. */
  lemma {:induction false} SparedFor(cfg: Config, n: nat, t: TestID)
    requires n <= 6
    ensures var s := OneTest(0, 0, 0, t);
            && ValidRun(cfg, s, Hourly(n)) && TimelyRun(cfg, s, Hourly(n))
            && Run(cfg, s, Hourly(n)) == OneTest(0, n * HOUR, n * HOUR, t)
  {
    if n > 0 {
      SparedFor(cfg, n - 1, t);
      HourStep(cfg, n - 1, t);
      RunConcat(cfg, OneTest(0, 0, 0, t), Hourly(n - 1), [Tick(HOUR), Cleanup(true)]);
      TimelyConcat(cfg, OneTest(0, 0, 0, t), Hourly(n - 1), [Tick(HOUR), Cleanup(true)]);
    }
  }

  /** Seven hours are reached: the bound cannot be lowered, because the comparison with six hours is strict. */
  lemma SevenHoursAreReached(cfg: Config, t: TestID) returns (ls: seq<Label>)
    ensures ValidRun(cfg, Initial(0), ls) && TimelyRun(cfg, Initial(0), ls)
    ensures var s := Run(cfg, Initial(0), ls);
            Running(s.db, t) && s.clock - s.db.tests[t].startedAt == 7 * 60 * 60
  {
    var started := OneTest(0, 0, 0, t);
    assert Apply(cfg, Initial(0), StartTest(t, true)) == started;
    SparedFor(cfg, 6, t);
    var spared := OneTest(0, 6 * HOUR, 6 * HOUR, t);
    var tick := [Tick(HOUR)];
    assert tick[1..] == [];
    assert Apply(cfg, spared, tick[0]) == OneTest(0, 7 * HOUR, 6 * HOUR, t);
    assert TimelyRun(cfg, spared, tick) && ValidRun(cfg, spared, tick);
    var rest := Hourly(6) + tick;
    RunConcat(cfg, started, Hourly(6), tick);
    TimelyConcat(cfg, started, Hourly(6), tick);
    ls := [StartTest(t, true)] + rest;
    assert ls[1..] == rest;
  }
}
