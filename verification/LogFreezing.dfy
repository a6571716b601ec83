/** What the logs of a test keep although handlers check and insert in separate statements. */
module LogFreezing {
  import opened TestIds
  import opened Records
  import opened Tables
  import opened Machine
  import opened Invariants
  import opened Lifecycle

  /** The rows logged for a test. */
  datatype Logs = Logs(dns: Table<DnsEntry>, http: Table<HttpEntry>, smtp: Table<Envelope>)

  function LogsOf(db: Tables, t: TestID): Logs {
    Logs(OfTest(db.dnsRequests, t), OfTest(db.httpRequests, t), OfTest(db.smtpRequests, t))
  }

  function Logged(db: Tables, t: TestID): nat {
    var logs := LogsOf(db, t);
    |logs.dns| + |logs.http| + |logs.smtp|
  }

  /** The handlers that have passed the test's running check and have not yet reached their insert. */
  function InFlight(s: State, t: TestID): set<nat> {
    set h | h in s.handlers && PastCheck(s.handlers[h], t)
  }

  predicate IsLog(stmt: Statement, t: TestID) {
    match stmt
    case LogDns(_, u, _) => u == t
    case LogHttp(_, u, _) => u == t
    case LogSmtp(_, u, _) => u == t
    case _ => false
  }

  /** Only a log statement of the test changes its logs, and only by one row at the end. */
  lemma ExecuteLogs(db: Tables, now: int, stmt: Statement, t: TestID)
    ensures var before, after := LogsOf(db, t), LogsOf(Execute(db, now, stmt), t);
            && before.dns <= after.dns && before.http <= after.http && before.smtp <= after.smtp
            && (!IsLog(stmt, t) ==> after == before)
            && Logged(Execute(db, now, stmt), t) <= Logged(db, t) + if IsLog(stmt, t) then 1 else 0
  {
    match stmt
    case LogDns(id, u, e) => OfTestAppend(db.dnsRequests, Row(id, u, e), t);
    case LogHttp(id, u, e) => OfTestAppend(db.httpRequests, Row(id, u, e), t);
    case LogSmtp(id, u, e) => OfTestAppend(db.smtpRequests, Row(id, u, e), t);
    case _ =>
  }

  /** The three things a handler's step can do about a test: pass its check, which needs the test to be running;
      leave the window between check and insert, which is where log rows come from; or neither. */
  lemma AdvanceAndTest(cfg: Config, db: Tables, handler: Handler, ok: bool, id: nat, t: TestID)
    ensures var step := NextStep(cfg, db, handler, ok, id);
            && (PastCheck(step.next, t) && !PastCheck(handler, t) ==> ok && Running(db, t) && !IsLog(step.stmt, t))
            && (IsLog(step.stmt, t) ==> PastCheck(handler, t) && (step.next.SmtpHandler? || !PastCheck(step.next, t)))
            && (IsLog(step.stmt, t) ==> !PastCheck(step.next, t))
  {
  }

  lemma ArrivalsAreNotPastCheck(cfg: Config, s: State, l: Label, t: TestID)
    requires Enabled(cfg, s, l) && !l.Advance?
    ensures InFlight(Apply(cfg, s, l), t) == InFlight(s, t)
  {
  }

  lemma SetShrinks(a: set<nat>, b: set<nat>)
    requires a <= b
    ensures |a| <= |b|
    ensures forall x :: x in b && x !in a ==> |a| + 1 <= |b|
  {
    if a != b {
      var x :| x in b && x !in a;
      var rest := b - {x};
      assert a <= rest;
      SetShrinks(a, rest);
    }
  }

  /** While the test is not running, rows plus handlers in flight never increase; with no handler in flight,
      neither changes at all. */
  lemma StepDrains(cfg: Config, s: State, l: Label, t: TestID)
    requires Enabled(cfg, s, l) && !Running(s.db, t)
    ensures var after := Apply(cfg, s, l);
            && Logged(after.db, t) + |InFlight(after, t)| <= Logged(s.db, t) + |InFlight(s, t)|
            && (InFlight(s, t) == {} ==> InFlight(after, t) == {} && LogsOf(after.db, t) == LogsOf(s.db, t))
  {
    var after := Apply(cfg, s, l);
    var stmt := StatementOf(cfg, s, l);
    ExecuteLogs(s.db, s.clock, stmt, t);
    if l.Advance? {
      AdvanceAndTest(cfg, s.db, s.handlers[l.h], l.ok, l.id, t);
      assert InFlight(after, t) <= InFlight(s, t);
      SetShrinks(InFlight(after, t), InFlight(s, t));
      if IsLog(stmt, t) {
        assert l.h in InFlight(s, t) && l.h !in InFlight(after, t);
      }
    } else {
      ArrivalsAreNotPastCheck(cfg, s, l, t);
    }
  }

  /** The test is running in no state along the run, the last included. */
  predicate NeverRunning(cfg: Config, s: State, ls: seq<Label>, t: TestID)
    decreases |ls|
  {
    !Running(s.db, t) && (ls == [] || NeverRunning(cfg, Apply(cfg, s, ls[0]), ls[1..], t))
  }

  /** Over any stretch in which the test is not running, its log grows by at most the handlers that were in
      flight when the stretch began. */
  lemma {:induction false} LogIsBounded(cfg: Config, s: State, ls: seq<Label>, t: TestID)
    requires ValidRun(cfg, s, ls) && NeverRunning(cfg, s, ls, t)
    ensures var after := Run(cfg, s, ls);
            && Logged(after.db, t) + |InFlight(after, t)| <= Logged(s.db, t) + |InFlight(s, t)|
            && (InFlight(s, t) == {} ==> InFlight(after, t) == {} && LogsOf(after.db, t) == LogsOf(s.db, t))
    decreases |ls|
  {
    if ls != [] {
      StepDrains(cfg, s, ls[0], t);
      LogIsBounded(cfg, Apply(cfg, s, ls[0]), ls[1..], t);
    }
  }

  lemma {:induction false} StoppedNeverRuns(cfg: Config, s: State, ls: seq<Label>, t: TestID)
    requires t in s.db.tests && !Running(s.db, t)
    ensures NeverRunning(cfg, s, ls, t)
    decreases |ls|
  {
    if ls != [] {
      StepKeepsTest(cfg, s, ls[0], t);
      StoppedNeverRuns(cfg, Apply(cfg, s, ls[0]), ls[1..], t);
    }
  }

  /** After a stop: the rows still to come are bounded by the handlers in flight at the stop,
      and once these have drained the logs never change again. */
  lemma LogFreezesAfterStop(cfg: Config, s: State, ls: seq<Label>, t: TestID)
    requires t in s.db.tests && !Running(s.db, t) && ValidRun(cfg, s, ls)
    ensures var after := Run(cfg, s, ls);
            && Logged(after.db, t) <= Logged(s.db, t) + |InFlight(s, t)|
            && (InFlight(s, t) == {} ==> LogsOf(after.db, t) == LogsOf(s.db, t))
  {
    StoppedNeverRuns(cfg, s, ls, t);
    LogIsBounded(cfg, s, ls, t);
  }

  /** Logs are append-only over every run. */
  lemma {:induction false} LogsOnlyGrow(cfg: Config, s: State, ls: seq<Label>, t: TestID)
    ensures var before, after := LogsOf(s.db, t), LogsOf(Run(cfg, s, ls).db, t);
            before.dns <= after.dns && before.http <= after.http && before.smtp <= after.smtp
    decreases |ls|
  {
    if ls != [] {
      ExecuteLogs(s.db, s.clock, StatementOf(cfg, s, ls[0]), t);
      LogsOnlyGrow(cfg, Apply(cfg, s, ls[0]), ls[1..], t);
    }
  }

  /** A handler found in flight for a test passed its own check at some earlier step,
      at which the test was running. */
  lemma {:induction false} CheckedWhileRunning(cfg: Config, s: State, ls: seq<Label>, h: nat, t: TestID)
    returns (k: nat)
    requires ValidRun(cfg, s, ls)
    requires h !in InFlight(s, t) && h in InFlight(Run(cfg, s, ls), t)
    ensures k < |ls| && ls[k].Advance? && ls[k].h == h
    ensures Running(Run(cfg, s, ls[..k]).db, t)
    ensures h !in InFlight(Run(cfg, s, ls[..k]), t) && h in InFlight(Run(cfg, s, ls[..k + 1]), t)
    decreases |ls|
  {
    var next := Apply(cfg, s, ls[0]);
    if h in InFlight(next, t) {
      k := 0;
      assert ls[..1][1..] == [];
      if ls[0].Advance? {
        AdvanceAndTest(cfg, s.db, s.handlers[ls[0].h], ls[0].ok, ls[0].id, t);
      } else {
        ArrivalsAreNotPastCheck(cfg, s, ls[0], t);
      }
    } else {
      k := CheckedWhileRunning(cfg, next, ls[1..], h, t);
      assert ls[..k + 1][1..] == ls[1..][..k];
      assert ls[..k + 2][1..] == ls[1..][..k + 1];
      k := k + 1;
    }
  }

  lemma LoggingStep(cfg: Config, s: State, l: Label, t: TestID)
    requires Enabled(cfg, s, l) && Logged(Apply(cfg, s, l).db, t) > Logged(s.db, t)
    ensures l.Advance? && l.h in InFlight(s, t)
  {
    ExecuteLogs(s.db, s.clock, StatementOf(cfg, s, l), t);
    if l.Advance? {
      AdvanceAndTest(cfg, s.db, s.handlers[l.h], l.ok, l.id, t);
    }
  }

  lemma OwnCheckBefore(cfg: Config, s: State, ls: seq<Label>, l: Label, t: TestID) returns (j: nat)
    requires ValidRun(cfg, s, ls) && InFlight(s, t) == {} && Enabled(cfg, Run(cfg, s, ls), l)
    requires Logged(Apply(cfg, Run(cfg, s, ls), l).db, t) > Logged(Run(cfg, s, ls).db, t)
    ensures j < |ls| && l.Advance? && ls[j].Advance? && ls[j].h == l.h
    ensures Running(Run(cfg, s, ls[..j]).db, t)
    ensures l.h !in InFlight(Run(cfg, s, ls[..j]), t) && l.h in InFlight(Run(cfg, s, ls[..j + 1]), t)
  {
    LoggingStep(cfg, Run(cfg, s, ls), l, t);
    j := CheckedWhileRunning(cfg, s, ls, l.h, t);
  }

  /** Every row ever logged for a test was preceded by a state in which the test was running: the state in which
      the handler that logged it passed its check. */
  lemma LoggedAfterOwnCheck(cfg: Config, now: int, ls: seq<Label>, k: nat, t: TestID) returns (j: nat)
    requires ValidRun(cfg, Initial(now), ls) && k < |ls|
    requires Logged(Run(cfg, Initial(now), ls[..k + 1]).db, t) > Logged(Run(cfg, Initial(now), ls[..k]).db, t)
    ensures j < k && ls[k].Advance? && ls[j].Advance? && ls[j].h == ls[k].h
    ensures Running(Run(cfg, Initial(now), ls[..j]).db, t)
    ensures ls[k].h !in InFlight(Run(cfg, Initial(now), ls[..j]), t)
    ensures ls[k].h in InFlight(Run(cfg, Initial(now), ls[..j + 1]), t)
  {
    RunPrefix(cfg, Initial(now), ls, k);
    j := OwnCheckBefore(cfg, Initial(now), ls[..k], ls[k], t);
    assert ls[..k][..j] == ls[..j] && ls[..k][..j + 1] == ls[..j + 1];
  }
}
