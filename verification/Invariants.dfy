/** What holds of the tables and the handlers in every reachable state. */
module Invariants {
  import opened Options
  import opened Ascii
  import opened TestIds
  import opened Records
  import opened Posting
  import opened Tables
  import opened Dns
  import opened Http
  import opened Machine

  ghost predicate OfKnownTests<T>(tests: map<TestID, TestRow>, rows: Table<T>) {
    forall i :: 0 <= i < |rows| ==> rows[i].test in tests
  }

  /** One of the six tables' row invariants: ids are positive and ascend, and every row belongs to a test. */
  ghost predicate Sound<T>(tests: map<TestID, TestRow>, rows: Table<T>) {
    Ordered(rows) && OfKnownTests(tests, rows)
  }

  /** Every file is within the posted bounds, and no two files of a test share scheme, subdomain and path. */
  ghost predicate GoodFiles(rows: Table<PublishedFile>) {
    && (forall i :: 0 <= i < |rows| ==> GoodFile(rows[i].value))
    && (forall i, j :: 0 <= i < j < |rows| && rows[i].test == rows[j].test ==> !SameKey(rows[i].value, rows[j].value))
  }

  /** Every logged message names a recipient in the test it is logged for. */
  ghost predicate AddressedRows(cfg: Config, rows: Table<Envelope>) {
    forall i :: 0 <= i < |rows| ==> Addressed(cfg, rows[i].value, rows[i].test)
  }

  ghost predicate TablesInv(cfg: Config, db: Tables) {
    && Sound(db.tests, db.dnsRecords)
    && Sound(db.tests, db.httpFiles)
    && Sound(db.tests, db.dnsRequests)
    && Sound(db.tests, db.httpRequests)
    && Sound(db.tests, db.smtpRequests)
    && GoodRecords(cfg, db.dnsRecords)
    && GoodFiles(db.httpFiles)
    && AddressedRows(cfg, db.smtpRequests)
  }

  /** What a statement must carry for the tables to stay in order. */
  ghost predicate GoodStatement(cfg: Config, db: Tables, stmt: Statement) {
    && FreshFor(db, stmt)
    && (stmt.InsertRecord? ==> GoodRecord(cfg, stmt.record))
    && (stmt.InsertFile? ==> GoodFile(stmt.file))
    && (stmt.LogSmtp? ==> Addressed(cfg, stmt.smtp, stmt.test))
  }

  /** The handler has passed the running check of the test and has not yet reached its insert. */
  predicate PastCheck(handler: Handler, t: TestID) {
    match handler
    case DnsHandler(_, target, phase) => target.id == t && (phase.DnsChecked? || phase.DnsLookedUp?)
    case HttpHandler(_, target, phase) => target.id == t && (phase.HttpChecked? || phase.HttpRead?)
    case PageHandler(_, _, _) => false
    case SmtpHandler(_, _, pending, checked) => checked && pending != [] && pending[0] == t
    case AnsweredDns(_, _) => false
    case AnsweredHttp(_) => false
  }

  /** What a test's host may serve: at most 512 bytes, and nothing outside the two validation paths. */
  predicate BoundedBody(req: HttpRequest, body: string) {
    && |body| <= MAX_CONTENT
    && (body != "" ==> HasPrefix(req.path, PKI_VALIDATION) || HasPrefix(req.path, ACME_CHALLENGE))
  }

  ghost predicate HandlerInv(cfg: Config, db: Tables, handler: Handler) {
    match handler
    case DnsHandler(query, target, phase) =>
      && Served(cfg, query.question) && NamedTest(cfg, Fqdn(query.question)) == Some(target)
      && (PastCheck(handler, target.id) ==> target.id in db.tests)
      && (phase.DnsArrived? || phase.DnsChecked? ==>
            phase.answers == BuiltinAnswers(cfg, Fqdn(query.question), query.question.qtype))
    case HttpHandler(req, target, phase) =>
      && (PastCheck(handler, target.id) ==> target.id in db.tests)
      && (phase.HttpRead? ==> BoundedBody(req, phase.content))
      && (phase.HttpDone? ==> BoundedBody(req, phase.reply.body))
      && (phase.HttpDone? && phase.reply.status != 200 ==> phase.reply.body == "")
    case PageHandler(req, t, phase) =>
      phase.PageChecked? ==> t in db.tests && phase.action == DecodeAction(cfg, req.form)
    case SmtpHandler(envelope, recipients, pending, checked) =>
      && (forall i :: 0 <= i < |pending| ==> pending[i] in recipients && Addressed(cfg, envelope, pending[i]))
      && (checked ==> pending != [] && pending[0] in db.tests)
    case AnsweredDns(_, _) => true
    case AnsweredHttp(_) => true
  }

  ghost predicate Inv(cfg: Config, s: State) {
    && TablesInv(cfg, s.db)
    && forall h :: h in s.handlers ==> HandlerInv(cfg, s.db, s.handlers[h])
  }

  // Statements keep the table invariants

  lemma AppendIsSound<T>(tests: map<TestID, TestRow>, rows: Table<T>, row: Row<T>)
    requires Sound(tests, rows) && Fresh(rows, row.id) && row.test in tests
    ensures Sound(tests, rows + [row])
  {
    AppendKeepsOrder(rows, row);
  }

  lemma WithoutIsSound<T>(tests: map<TestID, TestRow>, rows: Table<T>, t: TestID, id: nat)
    requires Sound(tests, rows)
    ensures Sound(tests, Without(rows, t, id))
  {
    WithoutKeepsOrder(rows, t, id);
    var kept := Without(rows, t, id);
    forall i | 0 <= i < |kept| ensures kept[i].test in tests {
      WithoutMember(rows, t, id, kept[i]);
    }
  }

  lemma WithoutKeepsRecords(cfg: Config, rows: Table<PublishedRecord>, t: TestID, id: nat)
    requires GoodRecords(cfg, rows)
    ensures GoodRecords(cfg, Without(rows, t, id))
  {
    var kept := Without(rows, t, id);
    forall i | 0 <= i < |kept| ensures GoodRecord(cfg, kept[i].value) {
      WithoutMember(rows, t, id, kept[i]);
    }
  }

  lemma {:induction false} WithoutKeepsFiles(rows: Table<PublishedFile>, t: TestID, id: nat)
    requires GoodFiles(rows)
    ensures GoodFiles(Without(rows, t, id))
  {
    if rows != [] {
      var front, last := rows[..|rows| - 1], rows[|rows| - 1];
      assert rows == front + [last];
      WithoutKeepsFiles(front, t, id);
      var kept := Without(front, t, id);
      forall i | 0 <= i < |kept| ensures kept[i].test == last.test ==> !SameKey(kept[i].value, last.value) {
        WithoutMember(front, t, id, kept[i]);
        var j :| 0 <= j < |front| && front[j] == kept[i];
        assert rows[j] == kept[i];
      }
    }
  }

  lemma InsertKeepsFiles(rows: Table<PublishedFile>, id: nat, t: TestID, file: PublishedFile)
    requires GoodFiles(rows) && GoodFile(file) && !HasFile(rows, t, file)
    ensures GoodFiles(rows + [Row(id, t, file)])
  {
    FindFileMembers(rows, t, file.scheme, file.subdomain, file.path);
    forall i | 0 <= i < |rows| && rows[i].test == t ensures !SameKey(rows[i].value, file) {
      assert rows[i] in rows;
    }
  }

  /** No test row ever disappears. */
  lemma TestsRemain(db: Tables, now: int, stmt: Statement)
    ensures db.tests.Keys <= Execute(db, now, stmt).tests.Keys
  {
  }

  lemma MoreTests<T>(tests: map<TestID, TestRow>, more: map<TestID, TestRow>, rows: Table<T>)
    requires Sound(tests, rows) && tests.Keys <= more.Keys
    ensures Sound(more, rows)
  {
  }

  lemma SoundWithMoreTests(cfg: Config, db: Tables, after: Tables)
    requires TablesInv(cfg, db) && after == db.(tests := after.tests) && db.tests.Keys <= after.tests.Keys
    ensures TablesInv(cfg, after)
  {
    MoreTests(db.tests, after.tests, db.dnsRecords);
    MoreTests(db.tests, after.tests, db.httpFiles);
    MoreTests(db.tests, after.tests, db.dnsRequests);
    MoreTests(db.tests, after.tests, db.httpRequests);
    MoreTests(db.tests, after.tests, db.smtpRequests);
  }

  lemma ExecuteKeepsTables(cfg: Config, db: Tables, now: int, stmt: Statement)
    requires TablesInv(cfg, db) && GoodStatement(cfg, db, stmt)
    ensures TablesInv(cfg, Execute(db, now, stmt))
  {
    if Permitted(db, stmt) {
      match stmt
      case Nothing =>
      case InsertTest(_) => SoundWithMoreTests(cfg, db, Execute(db, now, stmt));
      case StopTest(_) => SoundWithMoreTests(cfg, db, Execute(db, now, stmt));
      case StopOldTests => SoundWithMoreTests(cfg, db, Execute(db, now, stmt));
      case InsertRecord(id, t, record) => AppendIsSound(db.tests, db.dnsRecords, Row(id, t, record));
      case DeleteRecord(t, id) =>
        WithoutIsSound(db.tests, db.dnsRecords, t, id);
        WithoutKeepsRecords(cfg, db.dnsRecords, t, id);
      case InsertFile(id, t, file) =>
        if !HasFile(db.httpFiles, t, file) {
          AppendIsSound(db.tests, db.httpFiles, Row(id, t, file));
          InsertKeepsFiles(db.httpFiles, id, t, file);
        }
      case DeleteFile(t, id) =>
        WithoutIsSound(db.tests, db.httpFiles, t, id);
        WithoutKeepsFiles(db.httpFiles, t, id);
      case LogDns(id, t, e) => AppendIsSound(db.tests, db.dnsRequests, Row(id, t, e));
      case LogHttp(id, t, e) => AppendIsSound(db.tests, db.httpRequests, Row(id, t, e));
      case LogSmtp(id, t, e) => AppendIsSound(db.tests, db.smtpRequests, Row(id, t, e));
    }
  }

  // Steps keep the handler invariants

  lemma HandlerInvWithMoreTests(cfg: Config, db: Tables, after: Tables, handler: Handler)
    requires HandlerInv(cfg, db, handler) && db.tests.Keys <= after.tests.Keys
    ensures HandlerInv(cfg, after, handler)
  {
  }

  lemma DnsStepIsGood(cfg: Config, db: Tables, handler: Handler, ok: bool, id: nat)
    requires handler.DnsHandler? && HandlerInv(cfg, db, handler)
    requires FreshFor(db, NextStep(cfg, db, handler, ok, id).stmt)
    ensures GoodStatement(cfg, db, NextStep(cfg, db, handler, ok, id).stmt)
    ensures HandlerInv(cfg, db, NextStep(cfg, db, handler, ok, id).next)
  {
    var phase := handler.dnsPhase;
    var next := DnsStep(cfg, db, handler.query, handler.dnsTarget, phase, ok, id).1;
    assert NextStep(cfg, db, handler, ok, id).next == handler.(dnsPhase := next);
    assert !next.DnsArrived? || next == phase;
    assert next.DnsChecked? ==> phase.DnsArrived? && next.answers == phase.answers;
  }

  lemma HttpStepIsGood(cfg: Config, db: Tables, handler: Handler, ok: bool, id: nat)
    requires handler.HttpHandler? && HandlerInv(cfg, db, handler) && GoodFiles(db.httpFiles)
    requires FreshFor(db, NextStep(cfg, db, handler, ok, id).stmt)
    ensures GoodStatement(cfg, db, NextStep(cfg, db, handler, ok, id).stmt)
    ensures HandlerInv(cfg, db, NextStep(cfg, db, handler, ok, id).next)
  {
    var req, target := handler.httpReq, handler.httpTarget;
    FindFileMembers(db.httpFiles, target.id, RequestScheme(req), target.subdomain, req.path);
  }

  lemma NextStepIsGood(cfg: Config, db: Tables, handler: Handler, ok: bool, id: nat)
    requires HandlerInv(cfg, db, handler) && GoodFiles(db.httpFiles)
    requires FreshFor(db, NextStep(cfg, db, handler, ok, id).stmt)
    ensures GoodStatement(cfg, db, NextStep(cfg, db, handler, ok, id).stmt)
    ensures HandlerInv(cfg, db, NextStep(cfg, db, handler, ok, id).next)
  {
    match handler
    case DnsHandler(_, _, _) => DnsStepIsGood(cfg, db, handler, ok, id);
    case HttpHandler(_, _, _) => HttpStepIsGood(cfg, db, handler, ok, id);
    case PageHandler(req, _, _) => DecodedActionIsGood(cfg, req.form);
    case _ =>
  }

  lemma {:induction false} DistinctMembers(ids: seq<TestID>)
    ensures forall i :: 0 <= i < |Distinct(ids)| ==> Distinct(ids)[i] in ids
    ensures forall i :: 0 <= i < |ids| ==> ids[i] in Distinct(ids)
    ensures forall i, j :: 0 <= i < j < |Distinct(ids)| ==> Distinct(ids)[i] != Distinct(ids)[j]
  {
    if ids != [] {
      DistinctMembers(ids[..|ids| - 1]);
      assert ids == ids[..|ids| - 1] + [ids[|ids| - 1]];
    }
  }

  lemma ArrivalIsGood(cfg: Config, s: State, l: Label)
    requires Enabled(cfg, s, l) && IsArrival(l)
    ensures l.h in HandlersAfter(cfg, s, l) && HandlerInv(cfg, s.db, HandlersAfter(cfg, s, l)[l.h])
  {
    if l.SmtpArrive? {
      DistinctMembers(l.ids);
    }
  }

  lemma StatementIsGood(cfg: Config, s: State, l: Label)
    requires Inv(cfg, s) && Enabled(cfg, s, l)
    ensures GoodStatement(cfg, s.db, StatementOf(cfg, s, l))
  {
    if l.Advance? {
      NextStepIsGood(cfg, s.db, s.handlers[l.h], l.ok, l.id);
    }
  }

  lemma ApplyKeepsInv(cfg: Config, s: State, l: Label)
    requires Inv(cfg, s) && Enabled(cfg, s, l)
    ensures Inv(cfg, Apply(cfg, s, l))
  {
    var after := Apply(cfg, s, l);
    StatementIsGood(cfg, s, l);
    ExecuteKeepsTables(cfg, s.db, s.clock, StatementOf(cfg, s, l));
    TestsRemain(s.db, s.clock, StatementOf(cfg, s, l));
    forall h | h in after.handlers ensures HandlerInv(cfg, after.db, after.handlers[h]) {
      if h in s.handlers && after.handlers[h] == s.handlers[h] {
        HandlerInvWithMoreTests(cfg, s.db, after.db, s.handlers[h]);
      } else if l.Advance? {
        NextStepIsGood(cfg, s.db, s.handlers[h], l.ok, l.id);
        HandlerInvWithMoreTests(cfg, s.db, after.db, after.handlers[h]);
      } else {
        ArrivalIsGood(cfg, s, l);
      }
    }
  }

  /** The invariant holds along every run. */
  lemma {:induction false} RunKeepsInv(cfg: Config, s: State, ls: seq<Label>)
    requires Inv(cfg, s) && ValidRun(cfg, s, ls)
    ensures Inv(cfg, Run(cfg, s, ls))
    decreases |ls|
  {
    if ls != [] {
      ApplyKeepsInv(cfg, s, ls[0]);
      RunKeepsInv(cfg, Apply(cfg, s, ls[0]), ls[1..]);
    }
  }

  lemma InitialInv(cfg: Config, now: int)
    ensures Inv(cfg, Initial(now))
  {
  }

  /** A state some run from an empty database leads to. */
  ghost predicate Reachable(cfg: Config, s: State) {
    exists now: int, ls: seq<Label> :: ValidRun(cfg, Initial(now), ls) && Run(cfg, Initial(now), ls) == s
  }

  /** In every reachable state every stored record is one lookupDNSRecords can read, within its posted bounds,
      and every file is unique at its key, bounded, and under one of the validation paths. */
  lemma ReachableInv(cfg: Config, s: State)
    requires Reachable(cfg, s)
    ensures Inv(cfg, s)
  {
    var now, ls :| ValidRun(cfg, Initial(now), ls) && Run(cfg, Initial(now), ls) == s;
    InitialInv(cfg, now);
    RunKeepsInv(cfg, Initial(now), ls);
  }
}
