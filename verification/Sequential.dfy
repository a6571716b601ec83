/** A handler run to its end with nothing else in between: what one call of the sequential code does. */
module Sequential {
  import opened TestIds
  import opened Records
  import opened Posting
  import opened Tables
  import opened Dns
  import opened Http
  import opened Machine
  import opened Invariants

  /** Whether the k-th statement of a call succeeds; those not listed do. */
  function Succeeds(results: seq<bool>, k: nat): bool {
    k >= |results| || results[k]
  }

  function StepsLeft(handler: Handler): nat {
    match handler
    case DnsHandler(_, _, phase) =>
      if phase.DnsArrived? then 3 else if phase.DnsChecked? then 2 else if phase.DnsLookedUp? then 1 else 0
    case HttpHandler(_, _, phase) =>
      if phase.HttpArrived? then 3 else if phase.HttpChecked? then 2 else if phase.HttpRead? then 1 else 0
    case PageHandler(_, _, phase) => if phase.PageArrived? then 2 else if phase.PageChecked? then 1 else 0
    case SmtpHandler(_, _, pending, checked) =>
      if pending == [] then 0 else if checked then 2 * |pending| - 1 else 2 * |pending|
    case AnsweredDns(_, _) => 0
    case AnsweredHttp(_) => 0
  }

  lemma StepsDecrease(cfg: Config, db: Tables, handler: Handler, ok: bool, id: nat)
    requires !Finished(handler)
    ensures StepsLeft(NextStep(cfg, db, handler, ok, id).next) < StepsLeft(handler)
  {
  }

  /** The row id SQLite gives to the handler's next insert. */
  function IdFor(db: Tables, handler: Handler): nat {
    match handler
    case DnsHandler(_, _, _) => NextId(db.dnsRequests)
    case HttpHandler(_, _, _) => NextId(db.httpRequests)
    case PageHandler(_, _, PageChecked(AddRecord(_))) => NextId(db.dnsRecords)
    case PageHandler(_, _, PageChecked(AddFile(_))) => NextId(db.httpFiles)
    case SmtpHandler(_, _, _, _) => NextId(db.smtpRequests)
    case _ => 0
  }

  /** The step carries the row id that SQLite picks: one more than the largest in the table it inserts into. */
  predicate ExactId(s: State, l: Label) {
    l.Advance? ==> l.h in s.handlers && l.id == IdFor(s.db, s.handlers[l.h])
  }

  /** A run of the machine over SQLite. */
  ghost predicate ExactRun(cfg: Config, s: State, ls: seq<Label>)
    decreases |ls|
  {
    ls == [] || (Enabled(cfg, s, ls[0]) && ExactId(s, ls[0]) && ExactRun(cfg, Apply(cfg, s, ls[0]), ls[1..]))
  }

  lemma {:induction false} ExactIsValid(cfg: Config, s: State, ls: seq<Label>)
    requires ExactRun(cfg, s, ls)
    ensures ValidRun(cfg, s, ls)
    decreases |ls|
  {
    if ls != [] { ExactIsValid(cfg, Apply(cfg, s, ls[0]), ls[1..]); }
  }

  lemma ExactCons(cfg: Config, s: State, l: Label, rest: seq<Label>)
    ensures ExactRun(cfg, s, [l] + rest)
       <==> Enabled(cfg, s, l) && ExactId(s, l) && ExactRun(cfg, Apply(cfg, s, l), rest)
  {
    assert ([l] + rest)[1..] == rest;
  }

  lemma {:induction false} ExactConcat(cfg: Config, s: State, a: seq<Label>, b: seq<Label>)
    ensures ExactRun(cfg, s, a + b) <==> ExactRun(cfg, s, a) && ExactRun(cfg, Run(cfg, s, a), b)
    decreases |a|
  {
    if a == [] {
      assert a + b == b;
    } else {
      assert (a + b)[1..] == a[1..] + b;
      ExactConcat(cfg, Apply(cfg, s, a[0]), a[1..], b);
    }
  }

  /** The label without the row id that the database picked. */
  function WithoutId(l: Label): Label {
    if l.Advance? then Advance(l.h, l.ok, 0) else l
  }

  function Unnumbered(ls: seq<Label>): seq<Label> {
    seq(|ls|, i requires 0 <= i < |ls| => WithoutId(ls[i]))
  }

  lemma UnnumberedConcat(a: seq<Label>, b: seq<Label>)
    ensures Unnumbered(a + b) == Unnumbered(a) + Unnumbered(b)
  {
  }

  datatype Completed = Completed(db: Tables, handler: Handler)

  function Complete(cfg: Config, now: int, db: Tables, handler: Handler, results: seq<bool>, k: nat): Completed
    decreases StepsLeft(handler)
  {
    if Finished(handler) then Completed(db, handler)
    else
      var step := NextStep(cfg, db, handler, Succeeds(results, k), IdFor(db, handler));
      StepsDecrease(cfg, db, handler, Succeeds(results, k), IdFor(db, handler));
      Complete(cfg, now, Execute(db, now, step.stmt), step.next, results, k + 1)
  }

  /** Each kind of handler inserts into its own table, under the id it is given. */
  lemma InsertsOnce(cfg: Config, db: Tables, handler: Handler, ok: bool, id: nat)
    ensures var stmt := NextStep(cfg, db, handler, ok, id).stmt;
            && (stmt.LogDns? ==> handler.DnsHandler? && stmt.id == id)
            && (stmt.LogHttp? ==> handler.HttpHandler? && stmt.id == id)
            && (stmt.LogSmtp? ==> handler.SmtpHandler? && stmt.id == id)
            && (stmt.InsertRecord? ==> handler.PageHandler? && handler.pagePhase.PageChecked?
                                       && handler.pagePhase.action.AddRecord? && stmt.id == id)
            && (stmt.InsertFile? ==> handler.PageHandler? && handler.pagePhase.PageChecked?
                                     && handler.pagePhase.action.AddFile? && stmt.id == id)
  {
  }

  lemma IdForIsFresh(cfg: Config, db: Tables, handler: Handler, ok: bool)
    requires TablesInv(cfg, db)
    ensures FreshFor(db, NextStep(cfg, db, handler, ok, IdFor(db, handler)).stmt)
  {
    InsertsOnce(cfg, db, handler, ok, IdFor(db, handler));
    match NextStep(cfg, db, handler, ok, IdFor(db, handler)).stmt
    case LogDns(_, _, _) => NextIdIsFresh(db.dnsRequests);
    case LogHttp(_, _, _) => NextIdIsFresh(db.httpRequests);
    case LogSmtp(_, _, _) => NextIdIsFresh(db.smtpRequests);
    case InsertRecord(_, _, _) => NextIdIsFresh(db.dnsRecords);
    case InsertFile(_, _, _) => NextIdIsFresh(db.httpFiles);
    case _ =>
  }

  /** The state after the handler's next statement. */
  function Advanced(cfg: Config, s: State, h: nat, ok: bool): State
    requires h in s.handlers
  {
    var step := NextStep(cfg, s.db, s.handlers[h], ok, IdFor(s.db, s.handlers[h]));
    s.(db := Execute(s.db, s.clock, step.stmt), handlers := s.handlers[h := step.next])
  }

  lemma AdvanceOnce(cfg: Config, s: State, h: nat, ok: bool, rest: seq<Label>)
    requires Inv(cfg, s) && h in s.handlers && !Finished(s.handlers[h])
    ensures var l, next := Advance(h, ok, IdFor(s.db, s.handlers[h])), Advanced(cfg, s, h, ok);
            && Inv(cfg, next)
            && (ExactRun(cfg, s, [l] + rest) <==> ExactRun(cfg, next, rest))
            && Run(cfg, s, [l] + rest) == Run(cfg, next, rest)
  {
    var l := Advance(h, ok, IdFor(s.db, s.handlers[h]));
    IdForIsFresh(cfg, s.db, s.handlers[h], ok);
    ApplyKeepsInv(cfg, s, l);
    assert Apply(cfg, s, l) == Advanced(cfg, s, h, ok);
    RunCons(cfg, s, l, rest);
    ExactCons(cfg, s, l, rest);
  }

  lemma CompleteOnce(cfg: Config, s: State, h: nat, results: seq<bool>, k: nat)
    requires h in s.handlers && !Finished(s.handlers[h])
    ensures var next := Advanced(cfg, s, h, Succeeds(results, k));
            var done := Complete(cfg, s.clock, s.db, s.handlers[h], results, k);
            && done == Complete(cfg, next.clock, next.db, next.handlers[h], results, k + 1)
            && next.(db := done.db, handlers := next.handlers[h := done.handler])
               == s.(db := done.db, handlers := s.handlers[h := done.handler])
  {
    var next := Advanced(cfg, s, h, Succeeds(results, k));
    var done := Complete(cfg, s.clock, s.db, s.handlers[h], results, k);
    assert next.handlers[h := done.handler] == s.handlers[h := done.handler];
  }

  /** The sequential code is one of the machine's runs: the one in which the handler takes all its steps
      in a row, with the row ids that SQLite picks. */
  lemma {:induction false} CompleteIsRun(cfg: Config, s: State, h: nat, results: seq<bool>, k: nat)
    returns (ls: seq<Label>)
    requires Inv(cfg, s) && h in s.handlers
    ensures ExactRun(cfg, s, ls) && forall i :: 0 <= i < |ls| ==> ls[i].Advance? && ls[i].h == h
    ensures var done := Complete(cfg, s.clock, s.db, s.handlers[h], results, k);
            Run(cfg, s, ls) == s.(db := done.db, handlers := s.handlers[h := done.handler])
    decreases StepsLeft(s.handlers[h])
  {
    if Finished(s.handlers[h]) {
      ls := [];
      assert s.handlers[h := s.handlers[h]] == s.handlers;
    } else {
      var ok := Succeeds(results, k);
      var l, next := Advance(h, ok, IdFor(s.db, s.handlers[h])), Advanced(cfg, s, h, ok);
      StepsDecrease(cfg, s.db, s.handlers[h], ok, l.id);
      AdvanceOnce(cfg, s, h, ok, []);
      var rest := CompleteIsRun(cfg, next, h, results, k + 1);
      AdvanceOnce(cfg, s, h, ok, rest);
      ls := [l] + rest;
      CompleteOnce(cfg, s, h, results, k);
    }
  }

  // One call of each front end, spelled out

  /** How a request that is not refused starts out. */
  lemma ArrivalOfRequest(cfg: Config, req: DnsRequest)
    requires req.questions != [] && Served(cfg, req.questions[0])
    ensures var question := req.questions[0];
            var named, built := NamedTest(cfg, Fqdn(question)), BuiltinAnswers(cfg, Fqdn(question), question.qtype);
            ArriveDns(cfg, req)
            == if named.None? then AnsweredDns(req, Finish(cfg, built))
               else DnsHandler(DnsQuery(req.remote, question), named.value, DnsArrived(built))
  {
  }

  /** serveDNS for a test's name: a failed or negative check leaves the built-in answers, a failed lookup keeps
      them, and a failed insert changes nothing in the reply. */
  lemma CompleteDns(
    cfg: Config, now: int, db: Tables, query: DnsQuery, target: Target, built: Answers, results: seq<bool>)
    ensures var question := query.question;
            var records := SelectRecords(db.dnsRecords, target.id, target.subdomain, question.qtype);
            var answers := if Succeeds(results, 1) then Lookup(cfg, target.id, records, built).answers else built;
            var log := LogDns(NextId(db.dnsRequests), target.id, DnsEntry(query.remote, question.name, question.qtype));
            Complete(cfg, now, db, DnsHandler(query, target, DnsArrived(built)), results, 0)
            == if Succeeds(results, 0) && Running(db, target.id) then
                 Completed(if Succeeds(results, 2) then Execute(db, now, log) else db,
                           DnsHandler(query, target, DnsDone(Finish(cfg, answers))))
               else Completed(db, DnsHandler(query, target, DnsDone(Finish(cfg, built))))
  {
    var question := query.question;
    var records := SelectRecords(db.dnsRecords, target.id, target.subdomain, question.qtype);
    var answers := if Succeeds(results, 1) then Lookup(cfg, target.id, records, built).answers else built;
    if Succeeds(results, 0) && Running(db, target.id) {
      assert Complete(cfg, now, db, DnsHandler(query, target, DnsArrived(built)), results, 0)
          == Complete(cfg, now, db, DnsHandler(query, target, DnsChecked(built)), results, 1);
      assert Complete(cfg, now, db, DnsHandler(query, target, DnsChecked(built)), results, 1)
          == Complete(cfg, now, db, DnsHandler(query, target, DnsLookedUp(answers)), results, 2);
      var log := LogDns(NextId(db.dnsRequests), target.id, DnsEntry(query.remote, question.name, question.qtype));
      var after := if Succeeds(results, 2) then Execute(db, now, log) else db;
      assert Complete(cfg, now, db, DnsHandler(query, target, DnsLookedUp(answers)), results, 2)
          == Complete(cfg, now, after, DnsHandler(query, target, DnsDone(Finish(cfg, answers))), results, 3);
    }
  }

  lemma CompleteHttp(cfg: Config, now: int, db: Tables, req: HttpRequest, target: Target, results: seq<bool>)
    ensures var found := FindFile(db.httpFiles, target.id, RequestScheme(req), target.subdomain, req.path);
            var content := if found.Some? then found.value else "";
            var log := LogHttp(NextId(db.httpRequests), target.id, HttpEntryOf(req));
            Complete(cfg, now, db, HttpHandler(req, target, HttpArrived), results, 0)
            == if !Succeeds(results, 0) then Completed(db, HttpHandler(req, target, HttpDone(HttpReply(500, ""))))
               else if !Running(db, target.id) then
                 Completed(db, HttpHandler(req, target, HttpDone(HttpReply(404, ""))))
               else if !Succeeds(results, 1) || !Succeeds(results, 2) then
                 Completed(db, HttpHandler(req, target, HttpDone(HttpReply(500, ""))))
               else Completed(Execute(db, now, log), HttpHandler(req, target, HttpDone(HttpReply(200, content))))
  {
    var found := FindFile(db.httpFiles, target.id, RequestScheme(req), target.subdomain, req.path);
    var content := if found.Some? then found.value else "";
    if Succeeds(results, 0) && Running(db, target.id) {
      assert Complete(cfg, now, db, HttpHandler(req, target, HttpArrived), results, 0)
          == Complete(cfg, now, db, HttpHandler(req, target, HttpChecked), results, 1);
      if Succeeds(results, 1) {
        assert Complete(cfg, now, db, HttpHandler(req, target, HttpChecked), results, 1)
            == Complete(cfg, now, db, HttpHandler(req, target, HttpRead(content)), results, 2);
        var step := HttpStep(db, req, target, HttpRead(content), Succeeds(results, 2), NextId(db.httpRequests));
        assert Complete(cfg, now, db, HttpHandler(req, target, HttpRead(content)), results, 2)
            == Complete(cfg, now, Execute(db, now, step.0), HttpHandler(req, target, step.1), results, 3);
      } else {
        assert Complete(cfg, now, db, HttpHandler(req, target, HttpChecked), results, 1)
            == Complete(cfg, now, db, HttpHandler(req, target, HttpDone(HttpReply(500, ""))), results, 2);
      }
    }
  }

  lemma CompletePage(cfg: Config, now: int, db: Tables, req: HttpRequest, t: TestID, results: seq<bool>)
    requires Succeeds(results, 0) && Running(db, t) && req.httpMethod == "POST"
    requires !DecodeAction(cfg, req.form).BadRequest? && !DecodeAction(cfg, req.form).NoAction?
    ensures var action := DecodeAction(cfg, req.form);
            var id := IdFor(db, PageHandler(req, t, PageChecked(action)));
            var step := PageStep(cfg, db, req, t, PageChecked(action), Succeeds(results, 1), id);
            Complete(cfg, now, db, PageHandler(req, t, PageArrived), results, 0)
            == Completed(Execute(db, now, step.0), PageHandler(req, t, step.1))
  {
    var action := DecodeAction(cfg, req.form);
    assert Complete(cfg, now, db, PageHandler(req, t, PageArrived), results, 0)
        == Complete(cfg, now, db, PageHandler(req, t, PageChecked(action)), results, 1);
    var id := IdFor(db, PageHandler(req, t, PageChecked(action)));
    var step := PageStep(cfg, db, req, t, PageChecked(action), Succeeds(results, 1), id);
    assert Complete(cfg, now, db, PageHandler(req, t, PageChecked(action)), results, 1)
        == Complete(cfg, now, Execute(db, now, step.0), PageHandler(req, t, step.1), results, 2);
  }

  // Delivery of mail

  function RunningOnly(db: Tables, ids: seq<TestID>): seq<TestID> {
    if ids == [] then []
    else if Running(db, ids[0]) then [ids[0]] + RunningOnly(db, ids[1..])
    else RunningOnly(db, ids[1..])
  }

  lemma {:induction false} RunningOnlyMembers(db: Tables, ids: seq<TestID>)
    requires forall i, j :: 0 <= i < j < |ids| ==> ids[i] != ids[j]
    ensures forall t :: t in RunningOnly(db, ids) <==> t in ids && Running(db, t)
    ensures forall i, j :: 0 <= i < j < |RunningOnly(db, ids)| ==> RunningOnly(db, ids)[i] != RunningOnly(db, ids)[j]
  {
    if ids != [] {
      RunningOnlyMembers(db, ids[1..]);
      assert ids == [ids[0]] + ids[1..];
    }
  }

  /** One row per test, in order. */
  function Deliveries(first: nat, ids: seq<TestID>, envelope: Envelope): Table<Envelope> {
    seq(|ids|, i requires 0 <= i < |ids| => Row(first + i, ids[i], envelope))
  }

  lemma DeliverOne(
    cfg: Config, now: int, db: Tables, envelope: Envelope, recipients: seq<TestID>, pending: seq<TestID>, k: nat)
    requires pending != []
    ensures var row := Row(NextId(db.smtpRequests), pending[0], envelope);
            var after := db.(smtpRequests := db.smtpRequests + [row]);
            Complete(cfg, now, db, SmtpHandler(envelope, recipients, pending, false), [], k)
            == if Running(db, pending[0]) then
                 Complete(cfg, now, after, SmtpHandler(envelope, recipients, pending[1..], false), [], k + 2)
               else Complete(cfg, now, db, SmtpHandler(envelope, recipients, pending[1..], false), [], k + 1)
  {
    if Running(db, pending[0]) {
      assert Complete(cfg, now, db, SmtpHandler(envelope, recipients, pending, false), [], k)
          == Complete(cfg, now, db, SmtpHandler(envelope, recipients, pending, true), [], k + 1);
    }
  }

  lemma {:induction false} RunningSame(db: Tables, after: Tables, ids: seq<TestID>)
    requires db.tests == after.tests
    ensures RunningOnly(after, ids) == RunningOnly(db, ids)
  {
    if ids != [] { RunningSame(db, after, ids[1..]); }
  }

  lemma DeliveriesFrom(rows: Table<Envelope>, row: Row<Envelope>, ids: seq<TestID>, envelope: Envelope)
    requires row.value == envelope
    ensures (rows + [row]) + Deliveries(row.id + 1, ids, envelope)
         == rows + Deliveries(row.id, [row.test] + ids, envelope)
  {
    assert Deliveries(row.id, [row.test] + ids, envelope) == [row] + Deliveries(row.id + 1, ids, envelope);
  }

  /** A Data call with no failing statement and no stop during its loop adds exactly one row for each running test
      still pending, in order, each with the full recipient list, and changes nothing else. */
  lemma {:induction false} DeliversToEach(
    cfg: Config, now: int, db: Tables, envelope: Envelope, recipients: seq<TestID>, pending: seq<TestID>, k: nat)
    ensures Complete(cfg, now, db, SmtpHandler(envelope, recipients, pending, false), [], k)
         == Completed(
              db.(smtpRequests := db.smtpRequests
                    + Deliveries(NextId(db.smtpRequests), RunningOnly(db, pending), envelope)),
              SmtpHandler(envelope, recipients, [], false))
    decreases |pending|
  {
    if pending == [] {
      assert db.smtpRequests + [] == db.smtpRequests;
    } else {
      var t, rest := pending[0], pending[1..];
      DeliverOne(cfg, now, db, envelope, recipients, pending, k);
      if Running(db, t) {
        var row := Row(NextId(db.smtpRequests), t, envelope);
        var after := db.(smtpRequests := db.smtpRequests + [row]);
        DeliversToEach(cfg, now, after, envelope, recipients, rest, k + 2);
        RunningSame(db, after, rest);
        DeliveriesFrom(db.smtpRequests, row, RunningOnly(db, rest), envelope);
      } else {
        DeliversToEach(cfg, now, db, envelope, recipients, rest, k + 1);
      }
    }
  }

  /** The position of the first occurrence. */
  function FirstIndex(ids: seq<TestID>, t: TestID): (k: nat)
    requires t in ids
    ensures k < |ids| && ids[k] == t
    ensures forall i :: 0 <= i < k ==> ids[i] != t
  {
    if ids[0] == t then 0 else 1 + FirstIndex(ids[1..], t)
  }

  lemma FirstIndexInFront(front: seq<TestID>, last: TestID, t: TestID)
    requires t in front
    ensures FirstIndex(front + [last], t) == FirstIndex(front, t)
  {
    var ids := front + [last];
    assert ids[FirstIndex(front, t)] == t;
    assert forall i :: 0 <= i < |front| ==> ids[i] == front[i];
  }

  /** The deduplicated recipients are ordered by first occurrence. */
  lemma {:induction false} DistinctOrder(ids: seq<TestID>, i: nat, j: nat)
    requires i < j < |Distinct(ids)|
    ensures Distinct(ids)[i] in ids && Distinct(ids)[j] in ids
    ensures FirstIndex(ids, Distinct(ids)[i]) < FirstIndex(ids, Distinct(ids)[j])
  {
    var front, last := ids[..|ids| - 1], ids[|ids| - 1];
    assert ids == front + [last];
    DistinctMembers(ids);
    DistinctMembers(front);
    assert Distinct(ids) == if last in Distinct(front) then Distinct(front) else Distinct(front) + [last];
    var a, b := Distinct(ids)[i], Distinct(ids)[j];
    assert a in Distinct(front) && a in front;
    FirstIndexInFront(front, last, a);
    if j < |Distinct(front)| {
      assert b in front;
      FirstIndexInFront(front, last, b);
      DistinctOrder(front, i, j);
    }
  }
}
