/** The servers as one concurrent machine. Every request is a handler: a small program whose every step is one
    SQL statement. Handlers advance in any order, between starts of tests, cleanups and the passing of time. */
module Machine {
  import opened Options
  import opened TestIds
  import opened Records
  import opened Posting
  import opened Tables
  import opened Dns
  import opened Http

  datatype DnsPhase =
    | DnsArrived(answers: Answers)
    | DnsChecked(answers: Answers)
    | DnsLookedUp(answers: Answers)
    | DnsDone(reply: DnsReply)

  datatype HttpPhase = HttpArrived | HttpChecked | HttpRead(content: string) | HttpDone(reply: HttpReply)

  datatype PagePhase = PageArrived | PageChecked(action: Action) | PageDone(status: nat)

  /** A request being served. SmtpHandler is a Data call: the distinct tests among its recipients, those still to be
      recorded in order, and whether the first of these has passed its running check. */
  datatype Handler =
    | DnsHandler(query: DnsQuery, dnsTarget: Target, dnsPhase: DnsPhase)
    | HttpHandler(httpReq: HttpRequest, httpTarget: Target, httpPhase: HttpPhase)
    | PageHandler(pageReq: HttpRequest, pageTest: TestID, pagePhase: PagePhase)
    | SmtpHandler(envelope: Envelope, recipients: seq<TestID>, pending: seq<TestID>, checked: bool)
    | AnsweredDns(dnsReq: DnsRequest, reply: DnsReply)
    | AnsweredHttp(route: Route)

  datatype State = State(clock: int, lastCleanup: int, db: Tables, handlers: map<nat, Handler>)

  /** What can happen next. In Advance, ok says whether the handler's next statement succeeds, and id is the
      row id the database picks if that statement inserts. StartTest draws an arbitrary test ID. */
  datatype Label =
    | DnsArrive(h: nat, dnsReq: DnsRequest)
    | HttpArrive(h: nat, httpReq: HttpRequest)
    | SmtpArrive(h: nat, envelope: Envelope, ids: seq<TestID>)
    | Advance(h: nat, ok: bool, id: nat)
    | StartTest(test: TestID, ok: bool)
    | Cleanup(ok: bool)
    | Tick(seconds: nat)

  // Arrivals

  function ArriveDns(cfg: Config, req: DnsRequest): Handler {
    if req.questions == [] || !Served(cfg, req.questions[0]) then AnsweredDns(req, Refuse())
    else
      var question := req.questions[0];
      var built := BuiltinAnswers(cfg, Fqdn(question), question.qtype);
      match NamedTest(cfg, Fqdn(question))
      case None => AnsweredDns(req, Finish(cfg, built))
      case Some(target) => DnsHandler(DnsQuery(req.remote, question), target, DnsArrived(built))
  }

  function ArriveHttp(cfg: Config, req: HttpRequest): Handler {
    match RouteOf(cfg, req)
    case ToTest(target) => HttpHandler(req, target, HttpArrived)
    case ToTestPage(t) => PageHandler(req, t, PageArrived)
    case other => AnsweredHttp(other)
  }

  /** The test IDs in order of first occurrence. */
  function Distinct(ids: seq<TestID>): seq<TestID> {
    if ids == [] then []
    else
      var earlier := Distinct(ids[..|ids| - 1]);
      var last := ids[|ids| - 1];
      if last in earlier then earlier else earlier + [last]
  }

  function ArriveSmtp(envelope: Envelope, ids: seq<TestID>): Handler {
    SmtpHandler(envelope, Distinct(ids), Distinct(ids), false)
  }

  predicate IsArrival(l: Label) {
    l.DnsArrive? || l.HttpArrive? || l.SmtpArrive?
  }

  /** The handler of a request that has just come in. */
  function Arrival(cfg: Config, l: Label): Handler
    requires IsArrival(l)
  {
    match l
    case DnsArrive(_, req) => ArriveDns(cfg, req)
    case HttpArrive(_, req) => ArriveHttp(cfg, req)
    case SmtpArrive(_, envelope, ids) => ArriveSmtp(envelope, ids)
  }

  /** Some recipient's address belongs to the test. */
  ghost predicate Addressed(cfg: Config, envelope: Envelope, t: TestID) {
    exists i :: 0 <= i < |envelope.rcptTo| && ParseEmailAddress(cfg.domain, envelope.rcptTo[i]) == Some(t)
  }

  // Steps of a handler

  /** One statement and the handler after it. */
  datatype Step = Step(stmt: Statement, next: Handler)

  predicate Finished(handler: Handler) {
    match handler
    case DnsHandler(_, _, phase) => phase.DnsDone?
    case HttpHandler(_, _, phase) => phase.HttpDone?
    case PageHandler(_, _, phase) => phase.PageDone?
    case SmtpHandler(_, _, pending, _) => pending == []
    case AnsweredDns(_, _) => true
    case AnsweredHttp(_) => true
  }

  /** serveDNS after the name is known to belong to a test: check, look up, record. */
  function DnsStep(cfg: Config, db: Tables, query: DnsQuery, target: Target, phase: DnsPhase, ok: bool, id: nat)
    : (Statement, DnsPhase)
  {
    var question := query.question;
    match phase
    case DnsArrived(answers) =>
      (Nothing, if ok && Running(db, target.id) then DnsChecked(answers) else DnsDone(Finish(cfg, answers)))
    case DnsChecked(answers) =>
      var records := SelectRecords(db.dnsRecords, target.id, target.subdomain, question.qtype);
      (Nothing, DnsLookedUp(if ok then Lookup(cfg, target.id, records, answers).answers else answers))
    case DnsLookedUp(answers) =>
      var entry := DnsEntry(query.remote, question.name, question.qtype);
      (if ok then LogDns(id, target.id, entry) else Nothing, DnsDone(Finish(cfg, answers)))
    case DnsDone(_) => (Nothing, phase)
  }

  function HttpEntryOf(req: HttpRequest): HttpEntry {
    HttpEntry(if req.remote.Some? then req.remote.value else "", req.host, req.tls, req.httpMethod, req.url)
  }

  /** serveTestHTTP: check, read the file, record. */
  function HttpStep(db: Tables, req: HttpRequest, target: Target, phase: HttpPhase, ok: bool, id: nat)
    : (Statement, HttpPhase)
  {
    match phase
    case HttpArrived =>
      (Nothing, if !ok then HttpDone(HttpReply(500, "")) else if Running(db, target.id) then HttpChecked
                else HttpDone(HttpReply(404, "")))
    case HttpChecked =>
      (Nothing, if !ok then HttpDone(HttpReply(500, ""))
                else
                  match FindFile(db.httpFiles, target.id, RequestScheme(req), target.subdomain, req.path)
                  case Some(content) => HttpRead(content)
                  case None => HttpRead(""))
    case HttpRead(content) =>
      var stmt := LogHttp(id, target.id, HttpEntryOf(req));
      if ok && Permitted(db, stmt) then (stmt, HttpDone(HttpReply(200, content)))
      else (Nothing, HttpDone(HttpReply(500, "")))
    case HttpDone(_) => (Nothing, phase)
  }

  /** The statement a posted action comes down to. */
  function ActionStatement(t: TestID, action: Action, id: nat): Statement {
    match action
    case Stop => StopTest(t)
    case AddRecord(record) => InsertRecord(id, t, record)
    case RemoveRecord(Some(recordId)) => DeleteRecord(t, recordId)
    case RemoveFile(Some(fileId)) => DeleteFile(t, fileId)
    case AddFile(file) => InsertFile(id, t, file)
    case _ => Nothing
  }

  /** serveTest: load the test, then carry out what was posted if it is running. */
  function PageStep(cfg: Config, db: Tables, req: HttpRequest, t: TestID, phase: PagePhase, ok: bool, id: nat)
    : (Statement, PagePhase)
  {
    match phase
    case PageArrived =>
      (Nothing,
       if !ok then PageDone(500)
       else if t !in db.tests then PageDone(404)
       else if !Running(db, t) || req.httpMethod != "POST" then PageDone(200)
       else
         match DecodeAction(cfg, req.form)
         case BadRequest => PageDone(400)
         case NoAction => PageDone(303)
         case action => PageChecked(action))
    case PageChecked(action) =>
      var stmt := ActionStatement(t, action, id);
      if !ok || !Permitted(db, stmt) then (Nothing, PageDone(500))
      else if action.AddFile? && HasFile(db.httpFiles, t, action.file) then (stmt, PageDone(400))
      else (stmt, PageDone(303))
    case PageDone(_) => (Nothing, phase)
  }

  function NextStep(cfg: Config, db: Tables, handler: Handler, ok: bool, id: nat): Step {
    match handler
    case DnsHandler(query, target, phase) =>
      var (stmt, next) := DnsStep(cfg, db, query, target, phase, ok, id);
      Step(stmt, DnsHandler(query, target, next))
    case HttpHandler(req, target, phase) =>
      var (stmt, next) := HttpStep(db, req, target, phase, ok, id);
      Step(stmt, HttpHandler(req, target, next))
    case PageHandler(req, t, phase) =>
      var (stmt, next) := PageStep(cfg, db, req, t, phase, ok, id);
      Step(stmt, PageHandler(req, t, next))
    case SmtpHandler(envelope, recipients, pending, checked) =>
      if pending == [] then Step(Nothing, handler)
      else if !checked then
        if ok && Running(db, pending[0]) then Step(Nothing, SmtpHandler(envelope, recipients, pending, true))
        else Step(Nothing, SmtpHandler(envelope, recipients, pending[1..], false))
      else
        Step(if ok then LogSmtp(id, pending[0], envelope) else Nothing,
             SmtpHandler(envelope, recipients, pending[1..], false))
    case _ => Step(Nothing, handler)
  }

  // Steps of the machine

  ghost predicate Enabled(cfg: Config, s: State, l: Label) {
    match l
    case DnsArrive(h, _) => h !in s.handlers
    case HttpArrive(h, req) => h !in s.handlers && RouteOf(cfg, req) != ToStartTest
    case SmtpArrive(h, envelope, ids) =>
      h !in s.handlers && forall i :: 0 <= i < |ids| ==> Addressed(cfg, envelope, ids[i])
    case Advance(h, ok, id) =>
      h in s.handlers && !Finished(s.handlers[h])
      && FreshFor(s.db, NextStep(cfg, s.db, s.handlers[h], ok, id).stmt)
    case _ => true
  }

  function StatementOf(cfg: Config, s: State, l: Label): Statement {
    match l
    case Advance(h, ok, id) =>
      if h in s.handlers then NextStep(cfg, s.db, s.handlers[h], ok, id).stmt else Nothing
    case StartTest(t, ok) => if ok then InsertTest(t) else Nothing
    case Cleanup(ok) => if ok then StopOldTests else Nothing
    case _ => Nothing
  }

  function HandlersAfter(cfg: Config, s: State, l: Label): map<nat, Handler> {
    if IsArrival(l) then s.handlers[l.h := Arrival(cfg, l)]
    else if l.Advance? && l.h in s.handlers then
      s.handlers[l.h := NextStep(cfg, s.db, s.handlers[l.h], l.ok, l.id).next]
    else s.handlers
  }

  function Apply(cfg: Config, s: State, l: Label): State {
    State(if l.Tick? then s.clock + l.seconds else s.clock,
          if l.Cleanup? && l.ok then s.clock else s.lastCleanup,
          Execute(s.db, s.clock, StatementOf(cfg, s, l)),
          HandlersAfter(cfg, s, l))
  }

  /** The server starts with a cleanup, on an empty database. */
  function Initial(now: int): State {
    State(now, now, EMPTY_TABLES, map[])
  }

  // Runs

  function Run(cfg: Config, s: State, ls: seq<Label>): State
    decreases |ls|
  {
    if ls == [] then s else Run(cfg, Apply(cfg, s, ls[0]), ls[1..])
  }

  ghost predicate ValidRun(cfg: Config, s: State, ls: seq<Label>)
    decreases |ls|
  {
    ls == [] || (Enabled(cfg, s, ls[0]) && ValidRun(cfg, Apply(cfg, s, ls[0]), ls[1..]))
  }

  lemma {:induction false} RunConcat(cfg: Config, s: State, a: seq<Label>, b: seq<Label>)
    ensures Run(cfg, s, a + b) == Run(cfg, Run(cfg, s, a), b)
    ensures ValidRun(cfg, s, a + b) <==> ValidRun(cfg, s, a) && ValidRun(cfg, Run(cfg, s, a), b)
    decreases |a|
  {
    if a == [] {
      assert a + b == b;
    } else {
      assert (a + b)[1..] == a[1..] + b;
      RunConcat(cfg, Apply(cfg, s, a[0]), a[1..], b);
    }
  }

  /** The state before and after the k-th step of a run. */
  lemma RunPrefix(cfg: Config, s: State, ls: seq<Label>, k: nat)
    requires k < |ls|
    ensures Run(cfg, s, ls[..k + 1]) == Apply(cfg, Run(cfg, s, ls[..k]), ls[k])
    ensures ValidRun(cfg, s, ls) ==> ValidRun(cfg, s, ls[..k]) && Enabled(cfg, Run(cfg, s, ls[..k]), ls[k])
  {
    assert ls == ls[..k] + ls[k..] && ls[..k + 1] == ls[..k] + [ls[k]];
    RunConcat(cfg, s, ls[..k], ls[k..]);
    RunConcat(cfg, s, ls[..k], [ls[k]]);
    assert [ls[k]][1..] == [];
  }

  lemma RunFrom(cfg: Config, s: State, ls: seq<Label>, k: nat)
    requires k < |ls|
    ensures Run(cfg, s, ls) == Run(cfg, Run(cfg, s, ls[..k + 1]), ls[k + 1..])
    ensures ValidRun(cfg, s, ls) ==> ValidRun(cfg, Run(cfg, s, ls[..k + 1]), ls[k + 1..])
  {
    assert ls == ls[..k + 1] + ls[k + 1..];
    RunConcat(cfg, s, ls[..k + 1], ls[k + 1..]);
  }

  lemma RunCons(cfg: Config, s: State, l: Label, rest: seq<Label>)
    ensures Run(cfg, s, [l] + rest) == Run(cfg, Apply(cfg, s, l), rest)
    ensures ValidRun(cfg, s, [l] + rest) <==> Enabled(cfg, s, l) && ValidRun(cfg, Apply(cfg, s, l), rest)
  {
    assert ([l] + rest)[1..] == rest;
  }

  /** The states of a run after its first step are those of the rest of the run. */
  lemma RunLater(cfg: Config, s: State, ls: seq<Label>, k: nat)
    requires k < |ls|
    ensures Run(cfg, s, ls[..k + 1]) == Run(cfg, Apply(cfg, s, ls[0]), ls[1..][..k])
  {
    assert ls[..k + 1] == [ls[0]] + ls[1..][..k];
    RunCons(cfg, s, ls[0], ls[1..][..k]);
  }
}
