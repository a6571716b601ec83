/** Tests do not interfere: what other tests do leaves no trace in a test's own part of the system. */
module Noninterference {
  import opened TestIds
  import opened Records
  import opened Tables
  import opened Dns
  import opened Http
  import opened Machine
  import opened Invariants

  // A test's own part of the system

  function TablesOf(db: Tables, t: TestID): Tables {
    Tables(if t in db.tests then map[t := db.tests[t]] else map[],
           OfTest(db.dnsRecords, t), OfTest(db.httpFiles, t),
           OfTest(db.dnsRequests, t), OfTest(db.httpRequests, t), OfTest(db.smtpRequests, t))
  }

  function Only(ids: seq<TestID>, t: TestID): seq<TestID> {
    if ids == [] then []
    else if ids[0] == t then [t] + Only(ids[1..], t)
    else Only(ids[1..], t)
  }

  /** The handler has to do with the test. */
  predicate Involves(handler: Handler, t: TestID) {
    match handler
    case DnsHandler(_, target, _) => target.id == t
    case HttpHandler(_, target, _) => target.id == t
    case PageHandler(_, u, _) => u == t
    case SmtpHandler(_, recipients, _, _) => t in recipients
    case AnsweredDns(_, _) => false
    case AnsweredHttp(_) => false
  }

  /** The handler's next statement is about the test. */
  predicate ActsOn(handler: Handler, t: TestID) {
    match handler
    case SmtpHandler(_, _, pending, _) => pending != [] && pending[0] == t
    case _ => Involves(handler, t)
  }

  /** A Data call as the test sees it: the message with its full recipient list, delivered to this test alone. */
  function HandlerOf(handler: Handler, t: TestID): Handler {
    match handler
    case SmtpHandler(envelope, recipients, pending, checked) =>
      SmtpHandler(envelope, Only(recipients, t), Only(pending, t), checked && pending != [] && pending[0] == t)
    case _ => handler
  }

  function HandlersOf(handlers: map<nat, Handler>, t: TestID): map<nat, Handler> {
    map h | h in handlers && Involves(handlers[h], t) :: HandlerOf(handlers[h], t)
  }

  function StateOf(s: State, t: TestID): State {
    State(s.clock, s.lastCleanup, TablesOf(s.db, t), HandlersOf(s.handlers, t))
  }

  // A test's own steps

  predicate Concerns(cfg: Config, s: State, l: Label, t: TestID) {
    match l
    case DnsArrive(_, _) => Involves(Arrival(cfg, l), t)
    case HttpArrive(_, _) => Involves(Arrival(cfg, l), t)
    case SmtpArrive(_, _, ids) => t in ids
    case Advance(h, _, _) => h in s.handlers && ActsOn(s.handlers[h], t)
    case StartTest(u, _) => u == t
    case Cleanup(_) => true
    case Tick(_) => true
  }

  function LabelOf(l: Label, t: TestID): Label {
    match l
    case SmtpArrive(h, envelope, ids) => SmtpArrive(h, envelope, Only(ids, t))
    case _ => l
  }

  /** The run with every step of other tests dropped. */
  function Purge(cfg: Config, s: State, ls: seq<Label>, t: TestID): seq<Label>
    decreases |ls|
  {
    if ls == [] then []
    else
      var rest := Purge(cfg, Apply(cfg, s, ls[0]), ls[1..], t);
      if Concerns(cfg, s, ls[0], t) then [LabelOf(ls[0], t)] + rest else rest
  }

  // Selecting a test commutes with reading

  lemma {:induction false} SelectOfTest(rows: Table<PublishedRecord>, t: TestID, subdomain: string, qtype: nat)
    ensures SelectRecords(OfTest(rows, t), t, subdomain, qtype) == SelectRecords(rows, t, subdomain, qtype)
  {
    if rows != [] {
      var front, last := rows[..|rows| - 1], rows[|rows| - 1];
      SelectOfTest(front, t, subdomain, qtype);
      assert last.test == t ==> OfTest(rows, t)[..|OfTest(rows, t)| - 1] == OfTest(front, t);
    }
  }

  // Selecting a test commutes with executing

  predicate Touches(stmt: Statement, t: TestID) {
    match stmt
    case Nothing => true
    case StopOldTests => true
    case InsertTest(u) => u == t
    case StopTest(u) => u == t
    case InsertRecord(_, u, _) => u == t
    case DeleteRecord(u, _) => u == t
    case InsertFile(_, u, _) => u == t
    case DeleteFile(u, _) => u == t
    case LogDns(_, u, _) => u == t
    case LogHttp(_, u, _) => u == t
    case LogSmtp(_, u, _) => u == t
  }

  predicate OnTests(stmt: Statement) {
    stmt.Nothing? || stmt.InsertTest? || stmt.StopTest? || stmt.StopOldTests?
  }

  lemma TestsOfTest(db: Tables, now: int, stmt: Statement, t: TestID)
    requires OnTests(stmt)
    ensures TablesOf(Execute(db, now, stmt), t)
         == if Touches(stmt, t) then Execute(TablesOf(db, t), now, stmt) else TablesOf(db, t)
  {
    var mine := TablesOf(db, t);
    assert TablesOf(Execute(db, now, stmt), t).tests
        == (if Touches(stmt, t) then Execute(mine, now, stmt) else mine).tests;
  }

  lemma RecordsOfTest(db: Tables, now: int, stmt: Statement, t: TestID)
    requires stmt.InsertRecord? || stmt.DeleteRecord?
    ensures TablesOf(Execute(db, now, stmt), t)
         == if Touches(stmt, t) then Execute(TablesOf(db, t), now, stmt) else TablesOf(db, t)
  {
    match stmt
    case InsertRecord(id, u, record) => OfTestAppend(db.dnsRecords, Row(id, u, record), t);
    case DeleteRecord(u, id) => OfTestWithout(db.dnsRecords, u, id, t);
  }

  lemma InsertedFileOfTest(db: Tables, now: int, id: nat, u: TestID, file: PublishedFile, t: TestID)
    ensures TablesOf(Execute(db, now, InsertFile(id, u, file)), t)
         == if u == t then Execute(TablesOf(db, t), now, InsertFile(id, u, file)) else TablesOf(db, t)
  {
    OfTestAppend(db.httpFiles, Row(id, u, file), t);
    FindFileOfTest(db.httpFiles, t, file.scheme, file.subdomain, file.path);
  }

  lemma DeletedFileOfTest(db: Tables, now: int, u: TestID, id: nat, t: TestID)
    ensures TablesOf(Execute(db, now, DeleteFile(u, id)), t)
         == if u == t then Execute(TablesOf(db, t), now, DeleteFile(u, id)) else TablesOf(db, t)
  {
    OfTestWithout(db.httpFiles, u, id, t);
  }

  lemma DnsLogOfTest(db: Tables, now: int, id: nat, u: TestID, e: DnsEntry, t: TestID)
    ensures TablesOf(Execute(db, now, LogDns(id, u, e)), t)
         == if u == t then Execute(TablesOf(db, t), now, LogDns(id, u, e)) else TablesOf(db, t)
  {
    OfTestAppend(db.dnsRequests, Row(id, u, e), t);
  }

  lemma HttpLogOfTest(db: Tables, now: int, id: nat, u: TestID, e: HttpEntry, t: TestID)
    ensures TablesOf(Execute(db, now, LogHttp(id, u, e)), t)
         == if u == t then Execute(TablesOf(db, t), now, LogHttp(id, u, e)) else TablesOf(db, t)
  {
    OfTestAppend(db.httpRequests, Row(id, u, e), t);
  }

  lemma SmtpLogOfTest(db: Tables, now: int, id: nat, u: TestID, e: Envelope, t: TestID)
    ensures TablesOf(Execute(db, now, LogSmtp(id, u, e)), t)
         == if u == t then Execute(TablesOf(db, t), now, LogSmtp(id, u, e)) else TablesOf(db, t)
  {
    OfTestAppend(db.smtpRequests, Row(id, u, e), t);
  }

  /** Executing a test's own statement on its own tables gives its part of the result; a statement of another
      test, whatever row id it names, leaves that part as it was. */
  lemma ExecuteOfTest(db: Tables, now: int, stmt: Statement, t: TestID)
    ensures TablesOf(Execute(db, now, stmt), t)
         == if Touches(stmt, t) then Execute(TablesOf(db, t), now, stmt) else TablesOf(db, t)
  {
    match stmt
    case LogDns(id, u, e) => DnsLogOfTest(db, now, id, u, e, t);
    case LogHttp(id, u, e) => HttpLogOfTest(db, now, id, u, e, t);
    case LogSmtp(id, u, e) => SmtpLogOfTest(db, now, id, u, e, t);
    case InsertRecord(_, _, _) => RecordsOfTest(db, now, stmt, t);
    case DeleteRecord(_, _) => RecordsOfTest(db, now, stmt, t);
    case InsertFile(id, u, file) => InsertedFileOfTest(db, now, id, u, file, t);
    case DeleteFile(u, id) => DeletedFileOfTest(db, now, u, id, t);
    case _ => TestsOfTest(db, now, stmt, t);
  }

  lemma FreshForOfTest(db: Tables, stmt: Statement, t: TestID)
    requires FreshFor(db, stmt)
    ensures FreshFor(TablesOf(db, t), stmt)
  {
    match stmt
    case InsertRecord(id, _, _) => FreshOfTest(db.dnsRecords, t, id);
    case InsertFile(id, _, _) => FreshOfTest(db.httpFiles, t, id);
    case LogDns(id, _, _) => FreshOfTest(db.dnsRequests, t, id);
    case LogHttp(id, _, _) => FreshOfTest(db.httpRequests, t, id);
    case LogSmtp(id, _, _) => FreshOfTest(db.smtpRequests, t, id);
    case _ =>
  }

  // Selecting a test commutes with advancing a handler

  lemma DnsStepOfTest(cfg: Config, db: Tables, query: DnsQuery, target: Target, phase: DnsPhase, ok: bool, id: nat)
    ensures DnsStep(cfg, TablesOf(db, target.id), query, target, phase, ok, id)
         == DnsStep(cfg, db, query, target, phase, ok, id)
  {
    SelectOfTest(db.dnsRecords, target.id, target.subdomain, query.question.qtype);
  }

  lemma HttpStepOfTest(db: Tables, req: HttpRequest, target: Target, phase: HttpPhase, ok: bool, id: nat)
    ensures HttpStep(TablesOf(db, target.id), req, target, phase, ok, id) == HttpStep(db, req, target, phase, ok, id)
  {
    FindFileOfTest(db.httpFiles, target.id, RequestScheme(req), target.subdomain, req.path);
  }

  lemma PageStepOfTest(cfg: Config, db: Tables, req: HttpRequest, t: TestID, phase: PagePhase, ok: bool, id: nat)
    ensures PageStep(cfg, TablesOf(db, t), req, t, phase, ok, id) == PageStep(cfg, db, req, t, phase, ok, id)
  {
    if phase.PageChecked? && phase.action.AddFile? {
      var file := phase.action.file;
      FindFileOfTest(db.httpFiles, t, file.scheme, file.subdomain, file.path);
    }
  }

  lemma SmtpStepOfTest(cfg: Config, db: Tables, handler: Handler, ok: bool, id: nat, t: TestID)
    requires handler.SmtpHandler? && handler.pending != [] && handler.pending[0] == t
    ensures var step := NextStep(cfg, db, handler, ok, id);
            NextStep(cfg, TablesOf(db, t), HandlerOf(handler, t), ok, id) == Step(step.stmt, HandlerOf(step.next, t))
  {
    assert Only(handler.pending, t)[0] == t;
    assert Only(handler.pending, t)[1..] == Only(handler.pending[1..], t);
  }

  /** A handler acting on a test takes the same step on the test's own tables. */
  lemma NextStepOfTest(cfg: Config, db: Tables, handler: Handler, ok: bool, id: nat, t: TestID)
    requires ActsOn(handler, t)
    ensures var step := NextStep(cfg, db, handler, ok, id);
            && NextStep(cfg, TablesOf(db, t), HandlerOf(handler, t), ok, id) == Step(step.stmt, HandlerOf(step.next, t))
            && Touches(step.stmt, t)
  {
    match handler
    case DnsHandler(query, target, phase) => DnsStepOfTest(cfg, db, query, target, phase, ok, id);
    case HttpHandler(req, target, phase) => HttpStepOfTest(db, req, target, phase, ok, id);
    case PageHandler(req, u, phase) => PageStepOfTest(cfg, db, req, u, phase, ok, id);
    case SmtpHandler(_, _, _, _) => SmtpStepOfTest(cfg, db, handler, ok, id, t);
  }

  /** A handler acting on another test, or on none, does nothing this test can see. */
  lemma NextStepOfOthers(cfg: Config, db: Tables, handler: Handler, ok: bool, id: nat, t: TestID)
    requires !ActsOn(handler, t)
    ensures var step := NextStep(cfg, db, handler, ok, id);
            && (Touches(step.stmt, t) ==> step.stmt == Nothing)
            && (Involves(step.next, t) <==> Involves(handler, t))
            && (Involves(handler, t) ==> HandlerOf(step.next, t) == HandlerOf(handler, t))
  {
  }

  lemma StaysInvolved(cfg: Config, db: Tables, handler: Handler, ok: bool, id: nat, t: TestID)
    ensures Involves(NextStep(cfg, db, handler, ok, id).next, t) <==> Involves(handler, t)
  {
  }

  lemma {:induction false} OnlyConcat(a: seq<TestID>, b: seq<TestID>, t: TestID)
    ensures Only(a + b, t) == Only(a, t) + Only(b, t)
  {
    if a == [] {
      assert a + b == b;
    } else {
      assert (a + b)[1..] == a[1..] + b;
      OnlyConcat(a[1..], b, t);
    }
  }

  lemma {:induction false} OnlyMembers(ids: seq<TestID>, t: TestID)
    ensures forall i :: 0 <= i < |Only(ids, t)| ==> Only(ids, t)[i] == t
    ensures t in Only(ids, t) <==> t in ids
  {
    if ids != [] { OnlyMembers(ids[1..], t); }
  }

  lemma {:induction false} OnlyOfDistinct(ids: seq<TestID>, t: TestID)
    ensures Only(Distinct(ids), t) == Distinct(Only(ids, t))
  {
    if ids != [] {
      var front, last := ids[..|ids| - 1], ids[|ids| - 1];
      OnlyOfDistinct(front, t);
      assert ids == front + [last];
      OnlyConcat(front, [last], t);
      OnlyConcat(Distinct(front), [last], t);
      assert Only([last], t) == if last == t then [t] else [];
      OnlyMembers(Distinct(front), t);
      OnlyMembers(front, t);
      DistinctMembers(Only(front, t));
      if last == t {
        assert Only(ids, t)[..|Only(ids, t)| - 1] == Only(front, t);
      } else {
        assert Only(ids, t) == Only(front, t);
      }
    }
  }

  lemma ArriveSmtpOfTest(envelope: Envelope, ids: seq<TestID>, t: TestID)
    ensures Involves(ArriveSmtp(envelope, ids), t) <==> t in ids
    ensures HandlerOf(ArriveSmtp(envelope, ids), t) == ArriveSmtp(envelope, Only(ids, t))
  {
    DistinctMembers(ids);
    OnlyOfDistinct(ids, t);
  }

  lemma HandlersOfUpdate(handlers: map<nat, Handler>, h: nat, handler: Handler, t: TestID)
    ensures Involves(handler, t) ==>
              HandlersOf(handlers[h := handler], t) == HandlersOf(handlers, t)[h := HandlerOf(handler, t)]
    ensures !Involves(handler, t) && h !in HandlersOf(handlers, t) ==>
              HandlersOf(handlers[h := handler], t) == HandlersOf(handlers, t)
    ensures h in HandlersOf(handlers, t) && HandlersOf(handlers, t)[h] == HandlerOf(handler, t) ==>
              (Involves(handler, t) ==> HandlersOf(handlers[h := handler], t) == HandlersOf(handlers, t))
  {
    if Involves(handler, t) {
      assert HandlersOf(handlers[h := handler], t) == HandlersOf(handlers, t)[h := HandlerOf(handler, t)];
    } else if h !in HandlersOf(handlers, t) {
      assert HandlersOf(handlers[h := handler], t) == HandlersOf(handlers, t);
    }
  }

  // Steps

  /** The handler an arrival creates, as the test sees it, is the one its own arrival creates. */
  lemma ArrivalOfTest(cfg: Config, l: Label, t: TestID)
    requires IsArrival(l)
    ensures HandlerOf(Arrival(cfg, l), t) == Arrival(cfg, LabelOf(l, t))
    ensures l.SmtpArrive? ==> (Involves(Arrival(cfg, l), t) <==> t in l.ids)
  {
    match l
    case DnsArrive(_, req) => assert !ArriveDns(cfg, req).SmtpHandler?;
    case HttpArrive(_, req) => assert !ArriveHttp(cfg, req).SmtpHandler?;
    case SmtpArrive(_, envelope, ids) => ArriveSmtpOfTest(envelope, ids, t);
  }

  /** A step that does not concern the test leaves the test's part of the system as it was. */
  lemma OthersAreInvisible(cfg: Config, s: State, l: Label, t: TestID)
    requires Enabled(cfg, s, l) && !Concerns(cfg, s, l, t)
    ensures StateOf(Apply(cfg, s, l), t) == StateOf(s, t)
  {
    ExecuteOfTest(s.db, s.clock, StatementOf(cfg, s, l), t);
    match l
    case Advance(h, ok, id) =>
      NextStepOfOthers(cfg, s.db, s.handlers[h], ok, id, t);
      HandlersOfUpdate(s.handlers, h, NextStep(cfg, s.db, s.handlers[h], ok, id).next, t);
    case StartTest(_, _) =>
    case Cleanup(_) =>
    case Tick(_) =>
    case _ =>
      ArrivalOfTest(cfg, l, t);
      HandlersOfUpdate(s.handlers, l.h, Arrival(cfg, l), t);
  }

  lemma AdvanceOfTest(cfg: Config, s: State, h: nat, ok: bool, id: nat, t: TestID)
    requires Inv(cfg, s) && Enabled(cfg, s, Advance(h, ok, id)) && ActsOn(s.handlers[h], t)
    ensures var mine, step := StateOf(s, t), NextStep(cfg, s.db, s.handlers[h], ok, id);
            && h in mine.handlers && Enabled(cfg, mine, Advance(h, ok, id))
            && NextStep(cfg, mine.db, mine.handlers[h], ok, id) == Step(step.stmt, HandlerOf(step.next, t))
            && Touches(step.stmt, t) && Involves(step.next, t)
  {
    var handler := s.handlers[h];
    assert HandlerInv(cfg, s.db, handler);
    assert Involves(handler, t);
    NextStepOfTest(cfg, s.db, handler, ok, id, t);
    StaysInvolved(cfg, s.db, handler, ok, id, t);
    FreshForOfTest(s.db, NextStep(cfg, s.db, handler, ok, id).stmt, t);
    if handler.SmtpHandler? {
      assert Only(handler.pending, t)[0] == t;
    }
  }

  lemma OwnAdvanceCommutes(cfg: Config, s: State, h: nat, ok: bool, id: nat, t: TestID)
    requires Inv(cfg, s) && Enabled(cfg, s, Advance(h, ok, id)) && ActsOn(s.handlers[h], t)
    ensures Enabled(cfg, StateOf(s, t), Advance(h, ok, id))
    ensures StateOf(Apply(cfg, s, Advance(h, ok, id)), t) == Apply(cfg, StateOf(s, t), Advance(h, ok, id))
  {
    var l := Advance(h, ok, id);
    AdvanceOfTest(cfg, s, h, ok, id, t);
    ExecuteOfTest(s.db, s.clock, StatementOf(cfg, s, l), t);
    HandlersOfUpdate(s.handlers, h, NextStep(cfg, s.db, s.handlers[h], ok, id).next, t);
  }

  lemma ArrivalStep(cfg: Config, s: State, l: Label)
    requires IsArrival(l)
    ensures Apply(cfg, s, l) == s.(handlers := s.handlers[l.h := Arrival(cfg, l)])
  {
  }

  lemma OwnArrivalCommutes(cfg: Config, s: State, l: Label, t: TestID)
    requires Enabled(cfg, s, l) && Concerns(cfg, s, l, t) && IsArrival(l)
    ensures Enabled(cfg, StateOf(s, t), LabelOf(l, t))
    ensures StateOf(Apply(cfg, s, l), t) == Apply(cfg, StateOf(s, t), LabelOf(l, t))
  {
    ArrivalOfTest(cfg, l, t);
    HandlersOfUpdate(s.handlers, l.h, Arrival(cfg, l), t);
    ArrivalStep(cfg, s, l);
    ArrivalStep(cfg, StateOf(s, t), LabelOf(l, t));
    if l.SmtpArrive? {
      OnlyMembers(l.ids, t);
    }
  }

  lemma OwnTestStepCommutes(cfg: Config, s: State, l: Label, t: TestID)
    requires Concerns(cfg, s, l, t) && (l.StartTest? || l.Cleanup? || l.Tick?)
    ensures StateOf(Apply(cfg, s, l), t) == Apply(cfg, StateOf(s, t), LabelOf(l, t))
  {
    ExecuteOfTest(s.db, s.clock, StatementOf(cfg, s, l), t);
  }

  /** A step that concerns the test is possible in the test's part of the system, and does there what it does
      in the whole. */
  lemma OwnStepsCommute(cfg: Config, s: State, l: Label, t: TestID)
    requires Inv(cfg, s) && Enabled(cfg, s, l) && Concerns(cfg, s, l, t)
    ensures Enabled(cfg, StateOf(s, t), LabelOf(l, t))
    ensures StateOf(Apply(cfg, s, l), t) == Apply(cfg, StateOf(s, t), LabelOf(l, t))
  {
    if l.Advance? {
      OwnAdvanceCommutes(cfg, s, l.h, l.ok, l.id, t);
    } else if l.StartTest? || l.Cleanup? || l.Tick? {
      OwnTestStepCommutes(cfg, s, l, t);
    } else {
      OwnArrivalCommutes(cfg, s, l, t);
    }
  }

  // Runs

  /** Dropping every step of other tests from a run leaves a run, and it leaves the test's part of the final
      state unchanged: its DNS records and answers, its files and replies, its start and stop times, its logs,
      down to the row ids. */
  lemma {:induction false} PurgedRunAgrees(cfg: Config, s: State, ls: seq<Label>, t: TestID)
    requires Inv(cfg, s) && ValidRun(cfg, s, ls)
    ensures ValidRun(cfg, StateOf(s, t), Purge(cfg, s, ls, t))
    ensures Run(cfg, StateOf(s, t), Purge(cfg, s, ls, t)) == StateOf(Run(cfg, s, ls), t)
    decreases |ls|
  {
    if ls != [] {
      var next, rest := Apply(cfg, s, ls[0]), Purge(cfg, Apply(cfg, s, ls[0]), ls[1..], t);
      ApplyKeepsInv(cfg, s, ls[0]);
      PurgedRunAgrees(cfg, next, ls[1..], t);
      if Concerns(cfg, s, ls[0], t) {
        OwnStepsCommute(cfg, s, ls[0], t);
        assert Purge(cfg, s, ls, t) == [LabelOf(ls[0], t)] + rest;
        assert ([LabelOf(ls[0], t)] + rest)[1..] == rest;
      } else {
        OthersAreInvisible(cfg, s, ls[0], t);
        assert Purge(cfg, s, ls, t) == rest;
      }
    }
  }
}
