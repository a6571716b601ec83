/** What the published records and files of a test keep although the dashboard, too, checks and writes in
    separate statements. */
module Edits {
  import opened TestIds
  import opened Records
  import opened Tables
  import opened Machine
  import opened LogFreezing

  /** What is published for a test. */
  datatype Published = Published(records: Table<PublishedRecord>, files: Table<PublishedFile>)

  function PublishedOf(db: Tables, t: TestID): Published {
    Published(OfTest(db.dnsRecords, t), OfTest(db.httpFiles, t))
  }

  /** The posts that have found the test running and have not yet carried out their action. */
  predicate Editing(handler: Handler, t: TestID) {
    handler.PageHandler? && handler.pageTest == t && handler.pagePhase.PageChecked?
  }

  function EditsInFlight(s: State, t: TestID): set<nat> {
    set h | h in s.handlers && Editing(s.handlers[h], t)
  }

  predicate IsEdit(stmt: Statement, t: TestID) {
    match stmt
    case InsertRecord(_, u, _) => u == t
    case DeleteRecord(u, _) => u == t
    case InsertFile(_, u, _) => u == t
    case DeleteFile(u, _) => u == t
    case _ => false
  }

  /** Nothing but an edit of the test changes what is published for it. */
  lemma OnlyEditsPublish(db: Tables, now: int, stmt: Statement, t: TestID)
    requires !IsEdit(stmt, t)
    ensures PublishedOf(Execute(db, now, stmt), t) == PublishedOf(db, t)
  {
    match stmt
    case InsertRecord(id, u, record) => OfTestAppend(db.dnsRecords, Row(id, u, record), t);
    case DeleteRecord(u, id) => OfTestWithout(db.dnsRecords, u, id, t);
    case InsertFile(id, u, file) => OfTestAppend(db.httpFiles, Row(id, u, file), t);
    case DeleteFile(u, id) => OfTestWithout(db.httpFiles, u, id, t);
    case _ =>
  }

  /** A handler edits at its last step only, and comes to editing only by finding the test running. */
  lemma AdvanceAndEdit(cfg: Config, db: Tables, handler: Handler, ok: bool, id: nat, t: TestID)
    ensures var step := NextStep(cfg, db, handler, ok, id);
            && (Editing(step.next, t) && !Editing(handler, t) ==> Running(db, t))
            && (IsEdit(step.stmt, t) ==> Editing(handler, t) && !Editing(step.next, t))
  {
  }

  /** The number of steps of a run that change what is published for a test. */
  function Changes(cfg: Config, s: State, ls: seq<Label>, t: TestID): nat
    decreases |ls|
  {
    if ls == [] then 0
    else
      var next := Apply(cfg, s, ls[0]);
      (if PublishedOf(next.db, t) == PublishedOf(s.db, t) then 0 else 1) + Changes(cfg, next, ls[1..], t)
  }

  lemma ArrivalsDoNotEdit(cfg: Config, s: State, l: Label, t: TestID)
    requires Enabled(cfg, s, l) && !l.Advance?
    ensures EditsInFlight(Apply(cfg, s, l), t) == EditsInFlight(s, t)
  {
  }

  lemma StepUsesEdit(cfg: Config, s: State, l: Label, t: TestID)
    requires Enabled(cfg, s, l) && !Running(s.db, t)
    ensures var after := Apply(cfg, s, l);
            |EditsInFlight(after, t)| + (if PublishedOf(after.db, t) == PublishedOf(s.db, t) then 0 else 1)
            <= |EditsInFlight(s, t)|
  {
    var after := Apply(cfg, s, l);
    var stmt := StatementOf(cfg, s, l);
    if !IsEdit(stmt, t) {
      OnlyEditsPublish(s.db, s.clock, stmt, t);
    }
    if l.Advance? {
      AdvanceAndEdit(cfg, s.db, s.handlers[l.h], l.ok, l.id, t);
      assert EditsInFlight(after, t) <= EditsInFlight(s, t);
      SetShrinks(EditsInFlight(after, t), EditsInFlight(s, t));
      if IsEdit(stmt, t) {
        assert l.h in EditsInFlight(s, t) && l.h !in EditsInFlight(after, t);
      }
    } else {
      ArrivalsDoNotEdit(cfg, s, l, t);
    }
  }

  lemma {:induction false} EditsAreBounded(cfg: Config, s: State, ls: seq<Label>, t: TestID)
    requires ValidRun(cfg, s, ls) && NeverRunning(cfg, s, ls, t)
    ensures Changes(cfg, s, ls, t) + |EditsInFlight(Run(cfg, s, ls), t)| <= |EditsInFlight(s, t)|
    decreases |ls|
  {
    if ls != [] {
      StepUsesEdit(cfg, s, ls[0], t);
      EditsAreBounded(cfg, Apply(cfg, s, ls[0]), ls[1..], t);
    }
  }

  lemma {:induction false} NoChangesNoDifference(cfg: Config, s: State, ls: seq<Label>, t: TestID)
    requires Changes(cfg, s, ls, t) == 0
    ensures PublishedOf(Run(cfg, s, ls).db, t) == PublishedOf(s.db, t)
    decreases |ls|
  {
    if ls != [] {
      NoChangesNoDifference(cfg, Apply(cfg, s, ls[0]), ls[1..], t);
    }
  }

  /** After a stop, what is published changes at most once for each post that was in flight,
      and never again once none is. */
  lemma PublishedFreezesAfterStop(cfg: Config, s: State, ls: seq<Label>, t: TestID)
    requires t in s.db.tests && !Running(s.db, t) && ValidRun(cfg, s, ls)
    ensures Changes(cfg, s, ls, t) <= |EditsInFlight(s, t)|
    ensures EditsInFlight(s, t) == {} ==> PublishedOf(Run(cfg, s, ls).db, t) == PublishedOf(s.db, t)
  {
    StoppedNeverRuns(cfg, s, ls, t);
    EditsAreBounded(cfg, s, ls, t);
    if EditsInFlight(s, t) == {} {
      NoChangesNoDifference(cfg, s, ls, t);
    }
  }
}
