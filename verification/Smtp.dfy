/** smtp.go: the state of an SMTP session, and the delivery of a message to the tests among its recipients. */
module Smtp {
  import opened Options
  import opened TestIds
  import opened Records
  import opened Tables
  import opened Machine
  import opened Invariants
  import opened Sequential
  import opened Store

  /** After the first i recipients: the tests seen are theirs, and those pending are the other distinct tests. */
  ghost predicate Pending(ids: seq<TestID>, i: nat, seen: set<TestID>, pending: seq<TestID>) {
    && i <= |ids|
    && Distinct(ids) == Distinct(ids[..i]) + pending
    && forall t :: t in seen <==> t in Distinct(ids[..i])
  }

  lemma NothingHandled(ids: seq<TestID>)
    ensures Pending(ids, 0, {}, Distinct(ids))
  {
    assert ids[..0] == [];
  }

  lemma {:induction false} DistinctPrefix(ids: seq<TestID>, n: nat)
    requires n <= |ids|
    ensures Distinct(ids[..n]) <= Distinct(ids)
    decreases |ids|
  {
    if n < |ids| {
      var front := ids[..|ids| - 1];
      DistinctPrefix(front, n);
      assert front[..n] == ids[..n];
    } else {
      assert ids[..n] == ids;
    }
  }

  lemma NextRecipient(ids: seq<TestID>, i: nat, seen: set<TestID>, pending: seq<TestID>)
    requires i < |ids| && Pending(ids, i, seen, pending)
    ensures ids[i] in seen ==> Pending(ids, i + 1, seen, pending)
    ensures ids[i] !in seen ==>
              pending != [] && pending[0] == ids[i] && Pending(ids, i + 1, seen + {ids[i]}, pending[1..])
  {
    var before, after := Distinct(ids[..i]), Distinct(ids[..i + 1]);
    assert ids[..i + 1][..i] == ids[..i];
    DistinctPrefix(ids, i + 1);
    if ids[i] !in seen {
      assert after == before + [ids[i]];
      assert Distinct(ids)[|before|] == ids[i];
      assert Distinct(ids) == after + pending[1..];
    }
  }

  /** recordSMTPRequest: check, then insert. It takes the pending delivery past its first test. */
  method RecordSMTPRequest(
    cfg: Config, db: Database, t: TestID, envelope: Envelope,
    ghost recipients: seq<TestID>, ghost pending: seq<TestID>, results: seq<bool>, k: nat)
    returns (next: nat)
    requires pending != [] && pending[0] == t
    modifies db`smtpRequests
    ensures Complete(cfg, db.now, old(db.Contents()), SmtpHandler(envelope, recipients, pending, false), results, k)
         == Complete(cfg, db.now, db.Contents(), SmtpHandler(envelope, recipients, pending[1..], false), results, next)
  {
    var isRunning := db.IsRunningTest(t);
    if !Succeeds(results, k) || !isRunning {
      return k + 1;
    }
    if Succeeds(results, k + 1) {
      db.InsertSMTPRequest(t, envelope);
    }
    return k + 2;
  }

  /** Delivery: with no failing statement and no stop during the loop, a message to a session's recipients leaves
      exactly one row for each distinct running test among them, in order of first occurrence, each with the
      full recipient list; every such test was addressed by some recipient. */
  lemma DataDelivers(cfg: Config, now: int, db: Tables, envelope: Envelope, testIDs: seq<TestID>)
    ensures var done := Complete(cfg, now, db, ArriveSmtp(envelope, testIDs), [], 0);
            done.db == db.(smtpRequests := db.smtpRequests
              + Deliveries(NextId(db.smtpRequests), RunningOnly(db, Distinct(testIDs)), envelope))
    ensures forall t :: t in RunningOnly(db, Distinct(testIDs)) <==> t in testIDs && Running(db, t)
    ensures forall i, j :: 0 <= i < j < |RunningOnly(db, Distinct(testIDs))| ==>
              RunningOnly(db, Distinct(testIDs))[i] != RunningOnly(db, Distinct(testIDs))[j]
  {
    DeliversToEach(cfg, now, db, envelope, Distinct(testIDs), Distinct(testIDs), 0);
    DistinctMembers(testIDs);
    RunningOnlyMembers(db, Distinct(testIDs));
  }

  // What a message leaves in the log

  /** The envelope says who sent what to whom, and how. */
  predicate Says(
    e: Envelope, remote: string, helo: string, from: string, to: seq<string>, data: string, starttls: bool)
  {
    e.remote == remote && e.helo == helo && e.mailFrom == from && e.rcptTo == to && e.data == data
    && e.starttls == starttls
  }

  /** One row for each of the tests that is running, in order of first occurrence, and no other. */
  ghost predicate OnePerTest(rows: Table<Envelope>, ids: seq<TestID>, tests: map<TestID, TestRow>) {
    && (forall i :: 0 <= i < |rows| ==>
          rows[i].test in ids && rows[i].test in tests && tests[rows[i].test].stoppedAt == None)
    && (forall t :: t in ids && t in tests && tests[t].stoppedAt == None ==>
          exists i :: 0 <= i < |rows| && rows[i].test == t)
    && (forall i, j :: 0 <= i < j < |rows| && rows[i].test in ids && rows[j].test in ids ==>
          FirstIndex(ids, rows[i].test) < FirstIndex(ids, rows[j].test))
  }

  /** The log is longer by rows of this envelope, and nothing else is different. */
  predicate Delivered(before: Tables, after: Tables, envelope: Envelope) {
    && after == before.(smtpRequests := after.smtpRequests)
    && before.smtpRequests <= after.smtpRequests
    && forall i :: |before.smtpRequests| <= i < |after.smtpRequests| ==> after.smtpRequests[i].value == envelope
  }

  lemma {:induction false} DeliversEnvelope(
    cfg: Config, now: int, db: Tables, envelope: Envelope, recipients: seq<TestID>, pending: seq<TestID>,
    checked: bool, results: seq<bool>, k: nat)
    ensures Delivered(db, Complete(cfg, now, db, SmtpHandler(envelope, recipients, pending, checked), results, k).db,
                      envelope)
    decreases |pending|, !checked
  {
    if pending != [] {
      var handler := SmtpHandler(envelope, recipients, pending, checked);
      var step := NextStep(cfg, db, handler, Succeeds(results, k), IdFor(db, handler));
      var after := Execute(db, now, step.stmt);
      assert Complete(cfg, now, db, handler, results, k) == Complete(cfg, now, after, step.next, results, k + 1);
      DeliversEnvelope(cfg, now, after, envelope, recipients, step.next.pending, step.next.checked, results, k + 1);
    }
  }

  lemma {:induction false} AllSucceed(
    cfg: Config, now: int, db: Tables, handler: Handler, results: seq<bool>, k: nat)
    requires forall i :: 0 <= i < |results| ==> results[i]
    ensures Complete(cfg, now, db, handler, results, k) == Complete(cfg, now, db, handler, [], k)
    decreases StepsLeft(handler)
  {
    if !Finished(handler) {
      var step := NextStep(cfg, db, handler, true, IdFor(db, handler));
      StepsDecrease(cfg, db, handler, true, IdFor(db, handler));
      AllSucceed(cfg, now, Execute(db, now, step.stmt), step.next, results, k + 1);
    }
  }

  lemma {:induction false} RunningInOrder(db: Tables, all: seq<TestID>, ids: seq<TestID>)
    requires forall i :: 0 <= i < |ids| ==> ids[i] in all
    requires forall i, j :: 0 <= i < j < |ids| ==> FirstIndex(all, ids[i]) < FirstIndex(all, ids[j])
    ensures forall i :: 0 <= i < |RunningOnly(db, ids)| ==> RunningOnly(db, ids)[i] in ids
    ensures forall i, j :: 0 <= i < j < |RunningOnly(db, ids)| && RunningOnly(db, ids)[i] in all
                           && RunningOnly(db, ids)[j] in all ==>
              FirstIndex(all, RunningOnly(db, ids)[i]) < FirstIndex(all, RunningOnly(db, ids)[j])
  {
    if ids != [] {
      RunningInOrder(db, all, ids[1..]);
      var rest := RunningOnly(db, ids[1..]);
      forall j | 0 <= j < |rest| ensures rest[j] in ids && FirstIndex(all, ids[0]) < FirstIndex(all, rest[j]) {
        var m :| 0 <= m < |ids[1..]| && ids[1..][m] == rest[j];
        assert ids[m + 1] == rest[j];
      }
    }
  }

  lemma RunningDistinct(db: Tables, ids: seq<TestID>) returns (running: seq<TestID>)
    ensures running == RunningOnly(db, Distinct(ids))
    ensures forall t :: t in running <==> t in ids && Running(db, t)
    ensures forall i, j :: 0 <= i < j < |running| && running[i] in ids && running[j] in ids ==>
              FirstIndex(ids, running[i]) < FirstIndex(ids, running[j])
  {
    running := RunningOnly(db, Distinct(ids));
    DistinctMembers(ids);
    forall i, j | 0 <= i < j < |Distinct(ids)|
      ensures FirstIndex(ids, Distinct(ids)[i]) < FirstIndex(ids, Distinct(ids)[j])
    {
      DistinctOrder(ids, i, j);
    }
    RunningOnlyMembers(db, Distinct(ids));
    RunningInOrder(db, ids, Distinct(ids));
  }

  lemma RowsPerTest(first: nat, running: seq<TestID>, ids: seq<TestID>, db: Tables, envelope: Envelope)
    requires forall t :: t in running <==> t in ids && Running(db, t)
    requires forall i, j :: 0 <= i < j < |running| && running[i] in ids && running[j] in ids ==>
               FirstIndex(ids, running[i]) < FirstIndex(ids, running[j])
    ensures OnePerTest(Deliveries(first, running, envelope), ids, db.tests)
  {
    var rows := Deliveries(first, running, envelope);
    assert forall i :: 0 <= i < |rows| ==> rows[i].test == running[i] && running[i] in running;
    forall t | t in ids && t in db.tests && db.tests[t].stoppedAt == None
      ensures exists i :: 0 <= i < |rows| && rows[i].test == t
    {
      assert t in running;
      var i :| 0 <= i < |running| && running[i] == t;
      assert rows[i].test == t;
    }
  }

  lemma DeliveriesPerTest(first: nat, db: Tables, ids: seq<TestID>, envelope: Envelope)
    ensures OnePerTest(Deliveries(first, RunningOnly(db, Distinct(ids)), envelope), ids, db.tests)
  {
    var running := RunningDistinct(db, ids);
    RowsPerTest(first, running, ids, db, envelope);
  }

  /** A message of a session: whatever fails, the rows it adds say what was sent; if nothing fails, there is one for
      each running test among the recipients. */
  lemma MessageLeaves(cfg: Config, now: int, db: Tables, envelope: Envelope, ids: seq<TestID>, results: seq<bool>)
    ensures var after := Complete(cfg, now, db, ArriveSmtp(envelope, ids), results, 0).db;
            && Delivered(db, after, envelope)
            && ((forall i :: 0 <= i < |results| ==> results[i]) ==>
                  OnePerTest(after.smtpRequests[|db.smtpRequests|..], ids, db.tests))
  {
    DeliversEnvelope(cfg, now, db, envelope, Distinct(ids), Distinct(ids), false, results, 0);
    if forall i :: 0 <= i < |results| ==> results[i] {
      var rows := Deliveries(NextId(db.smtpRequests), RunningOnly(db, Distinct(ids)), envelope);
      AllSucceed(cfg, now, db, ArriveSmtp(envelope, ids), results, 0);
      DataDelivers(cfg, now, db, envelope, ids);
      DeliveriesPerTest(NextId(db.smtpRequests), db, ids, envelope);
      assert (db.smtpRequests + rows)[|db.smtpRequests|..] == rows;
    }
  }

  class Session {
    var mailFrom: string
    var rcptTo: seq<string>
    var testIDs: seq<TestID>

    /** The two lists grow together: each accepted address stands beside the test it belongs to. */
    ghost predicate Valid(domain: string)
      reads this
    {
      && |rcptTo| == |testIDs|
      && forall i :: 0 <= i < |rcptTo| ==> ParseEmailAddress(domain, rcptTo[i]) == Some(testIDs[i])
    }

    constructor ()
      ensures mailFrom == "" && rcptTo == [] && testIDs == []
    {
      mailFrom, rcptTo, testIDs := "", [], [];
    }

    method Reset()
      modifies this
      ensures mailFrom == "" && rcptTo == [] && testIDs == []
    {
      mailFrom, rcptTo, testIDs := "", [], [];
    }

    method Mail(from: string)
      modifies this`mailFrom
      ensures mailFrom == from
    {
      mailFrom := from;
    }

    /** An address outside the test zone is refused and leaves no trace. */
    method Rcpt(domain: string, to: string) returns (accepted: bool)
      requires Valid(domain)
      modifies this`rcptTo, this`testIDs
      ensures Valid(domain)
      ensures accepted <==> ParseEmailAddress(domain, to).Some?
      ensures rcptTo == old(rcptTo) + if accepted then [to] else []
      ensures testIDs == old(testIDs) + if accepted then [ParseEmailAddress(domain, to).value] else []
    {
      var parsed := ParseEmailAddress(domain, to);
      if parsed.None? {
        return false;
      }
      testIDs := testIDs + [parsed.value];
      rcptTo := rcptTo + [to];
      return true;
    }

    function EnvelopeOf(remote: string, helo: string, data: string, starttls: bool): Envelope
      reads this
    {
      Envelope(remote, helo, mailFrom, rcptTo, data, starttls)
    }

    /** The loop over the recipients, skipping tests already seen. The results say which SQL statements fail. */
    method Data(
      cfg: Config, db: Database, remote: string, helo: string, data: string, starttls: bool, results: seq<bool>)
      modifies db`smtpRequests
      ensures var envelope := old(EnvelopeOf(remote, helo, data, starttls));
              db.Contents()
              == Complete(cfg, db.now, old(db.Contents()), ArriveSmtp(envelope, old(testIDs)), results, 0).db
      ensures old(db.smtpRequests) <= db.smtpRequests
      ensures forall i :: |old(db.smtpRequests)| <= i < |db.smtpRequests| ==>
                Says(db.smtpRequests[i].value, remote, helo, old(mailFrom), old(rcptTo), data, starttls)
      ensures (forall i :: 0 <= i < |results| ==> results[i]) ==>
                OnePerTest(db.smtpRequests[|old(db.smtpRequests)|..], old(testIDs), db.tests)
    {
      MessageLeaves(cfg, db.now, db.Contents(), EnvelopeOf(remote, helo, data, starttls), testIDs, results);
      var envelope := EnvelopeOf(remote, helo, data, starttls);
      ghost var all := Distinct(testIDs);
      ghost var done := Complete(cfg, db.now, db.Contents(), SmtpHandler(envelope, all, all, false), results, 0);
      var seen: set<TestID> := {};
      var k := 0;
      ghost var pending := all;
      NothingHandled(testIDs);
      for i := 0 to |testIDs|
        invariant Pending(testIDs, i, seen, pending)
        invariant done == Complete(cfg, db.now, db.Contents(), SmtpHandler(envelope, all, pending, false), results, k)
      {
        var t := testIDs[i];
        NextRecipient(testIDs, i, seen, pending);
        if t !in seen {
          seen := seen + {t};
          k := RecordSMTPRequest(cfg, db, t, envelope, all, pending, results, k);
          pending := pending[1..];
        }
      }
      assert testIDs[..|testIDs|] == testIDs;
    }
  }

  /** A valid session's message can always be delivered: each of its tests is addressed by one of its recipients. */
  lemma SessionArrives(cfg: Config, s: State, h: nat, session: Session, envelope: Envelope)
    requires session.Valid(cfg.domain) && envelope.rcptTo == session.rcptTo && h !in s.handlers
    ensures Enabled(cfg, s, SmtpArrive(h, envelope, session.testIDs))
  {
    forall i | 0 <= i < |session.testIDs| ensures Addressed(cfg, envelope, session.testIDs[i]) {
      assert ParseEmailAddress(cfg.domain, envelope.rcptTo[i]) == Some(session.testIDs[i]);
    }
  }
}
