/** Tests share only the counters of row ids: over SQLite, dropping the steps of the other tests renumbers a test's
    rows in the same order, once its removals are aimed at the rows under their new ids. */
module RowIds {
  import opened Options
  import opened TestIds
  import opened Records
  import opened Posting
  import opened Tables
  import opened Dns
  import opened Http
  import opened Machine
  import opened Invariants
  import opened Sequential
  import opened Noninterference

  // Tables that differ in their row ids

  /** The same rows in the same order, except for their ids. */
  ghost predicate Alike<T>(a: Table<T>, b: Table<T>) {
    && |a| == |b|
    && forall i :: 0 <= i < |a| ==> a[i].test == b[i].test && a[i].value == b[i].value
  }

  /** An order-preserving renumbering of the rows. */
  ghost predicate Renumbered<T>(a: Table<T>, b: Table<T>) {
    && Alike(a, b)
    && forall i, j :: 0 <= i < |a| && 0 <= j < |a| ==> (a[i].id < a[j].id <==> b[i].id < b[j].id)
  }

  lemma AlikeIsRenumbered<T>(a: Table<T>, b: Table<T>)
    requires Alike(a, b) && Ordered(a) && Ordered(b)
    ensures Renumbered(a, b)
  {
  }

  /** The position of the row with this test and id, or the length of the table. */
  function IndexOf<T>(rows: Table<T>, t: TestID, id: nat): (k: nat)
    ensures k <= |rows|
    ensures forall i :: 0 <= i < k ==> !(rows[i].test == t && rows[i].id == id)
    ensures k < |rows| ==> rows[k].test == t && rows[k].id == id
  {
    if rows == [] || (rows[0].test == t && rows[0].id == id) then 0 else 1 + IndexOf(rows[1..], t, id)
  }

  /** The id in b of the row that has this test and id in a; an id that no row of b has, if there is no such row. */
  function Corresponding<T>(a: Table<T>, b: Table<T>, t: TestID, id: nat): nat {
    var k := IndexOf(a, t, id);
    if k < |b| then b[k].id else NextId(b)
  }

  ghost predicate OnlyAt<T>(rows: Table<T>, t: TestID, id: nat, k: nat) {
    && k <= |rows|
    && forall i :: 0 <= i < |rows| ==> (rows[i].test == t && rows[i].id == id <==> i == k)
  }

  lemma CutAppend<T>(front: Table<T>, last: Row<T>, k: nat)
    requires k < |front|
    ensures (front + [last])[..k] + (front + [last])[k + 1..] == (front[..k] + front[k + 1..]) + [last]
  {
  }

  lemma {:induction false} WithoutAt<T>(rows: Table<T>, t: TestID, id: nat, k: nat)
    requires OnlyAt(rows, t, id, k)
    ensures Without(rows, t, id) == if k < |rows| then rows[..k] + rows[k + 1..] else rows
  {
    if rows != [] {
      var front, last := rows[..|rows| - 1], rows[|rows| - 1];
      assert rows == front + [last];
      WithoutAt(front, t, id, if k < |front| then k else |front|);
      WithoutAppend(front, last, t, id);
      if k < |front| {
        CutAppend(front, last, k);
      }
    }
  }

  /** The removal of a row and of the corresponding row hit the same position, or both hit nothing. */
  ghost predicate SameHits<T>(a: Table<T>, id: nat, b: Table<T>, other: nat, t: TestID) {
    && |a| == |b|
    && forall i :: 0 <= i < |a| ==> (a[i].test == t && a[i].id == id <==> b[i].test == t && b[i].id == other)
  }

  lemma CorrespondingHits<T>(a: Table<T>, b: Table<T>, t: TestID, id: nat)
    requires Alike(a, b) && Ordered(a) && Ordered(b)
    ensures OnlyAt(a, t, id, IndexOf(a, t, id))
    ensures OnlyAt(b, t, Corresponding(a, b, t, id), IndexOf(a, t, id))
    ensures SameHits(a, id, b, Corresponding(a, b, t, id), t)
  {
    NextIdIsFresh(b);
    assert OnlyAt(a, t, id, IndexOf(a, t, id));
    assert OnlyAt(b, t, Corresponding(a, b, t, id), IndexOf(a, t, id));
  }

  lemma CutAlike<T>(a: Table<T>, b: Table<T>, k: nat)
    requires Alike(a, b) && k < |a|
    ensures Alike(a[..k] + a[k + 1..], b[..k] + b[k + 1..])
  {
  }

  /** Removing a row and removing the corresponding row leave tables that are again alike. */
  lemma RemoveAlike<T>(a: Table<T>, b: Table<T>, t: TestID, id: nat)
    requires Alike(a, b) && Ordered(a) && Ordered(b)
    ensures Alike(Without(a, t, id), Without(b, t, Corresponding(a, b, t, id)))
  {
    var k := IndexOf(a, t, id);
    CorrespondingHits(a, b, t, id);
    WithoutAt(a, t, id, k);
    WithoutAt(b, t, Corresponding(a, b, t, id), k);
    if k < |a| {
      CutAlike(a, b, k);
    }
  }

  lemma AppendAlike<T>(a: Table<T>, b: Table<T>, t: TestID, value: T, id: nat, other: nat)
    requires Alike(a, b)
    ensures Alike(a + [Row(id, t, value)], b + [Row(other, t, value)])
  {
  }

  ghost predicate TablesAlike(a: Tables, b: Tables) {
    && a.tests == b.tests
    && Alike(a.dnsRecords, b.dnsRecords) && Alike(a.httpFiles, b.httpFiles)
    && Alike(a.dnsRequests, b.dnsRequests) && Alike(a.httpRequests, b.httpRequests)
    && Alike(a.smtpRequests, b.smtpRequests)
  }

  // Reading does not see row ids

  lemma {:induction false} SelectAlike(
    a: Table<PublishedRecord>, b: Table<PublishedRecord>, t: TestID, subdomain: string, qtype: nat)
    requires Alike(a, b)
    ensures SelectRecords(a, t, subdomain, qtype) == SelectRecords(b, t, subdomain, qtype)
  {
    if a != [] {
      SelectAlike(a[..|a| - 1], b[..|b| - 1], t, subdomain, qtype);
    }
  }

  lemma {:induction false} FindAlike(
    a: Table<PublishedFile>, b: Table<PublishedFile>, t: TestID, scheme: string, subdomain: string, path: string)
    requires Alike(a, b)
    ensures FindFile(a, t, scheme, subdomain, path) == FindFile(b, t, scheme, subdomain, path)
  {
    if a != [] {
      FindAlike(a[..|a| - 1], b[..|b| - 1], t, scheme, subdomain, path);
    }
  }

  // Statements

  /** The statement for the other tables: inserts get the next id there, removals the corresponding one. */
  function Renumber(stmt: Statement, a: Tables, b: Tables): Statement {
    match stmt
    case InsertRecord(_, t, record) => InsertRecord(NextId(b.dnsRecords), t, record)
    case DeleteRecord(t, id) => DeleteRecord(t, Corresponding(a.dnsRecords, b.dnsRecords, t, id))
    case InsertFile(_, t, file) => InsertFile(NextId(b.httpFiles), t, file)
    case DeleteFile(t, id) => DeleteFile(t, Corresponding(a.httpFiles, b.httpFiles, t, id))
    case LogDns(_, t, e) => LogDns(NextId(b.dnsRequests), t, e)
    case LogHttp(_, t, e) => LogHttp(NextId(b.httpRequests), t, e)
    case LogSmtp(_, t, e) => LogSmtp(NextId(b.smtpRequests), t, e)
    case _ => stmt
  }

  lemma RecordsAlike(a: Tables, b: Tables, now: int, stmt: Statement)
    requires TablesAlike(a, b) && Ordered(a.dnsRecords) && Ordered(b.dnsRecords)
    requires stmt.InsertRecord? || stmt.DeleteRecord?
    ensures TablesAlike(Execute(a, now, stmt), Execute(b, now, Renumber(stmt, a, b)))
  {
    if stmt.InsertRecord? {
      AppendAlike(a.dnsRecords, b.dnsRecords, stmt.test, stmt.record, stmt.id, NextId(b.dnsRecords));
    } else {
      RemoveAlike(a.dnsRecords, b.dnsRecords, stmt.test, stmt.id);
    }
  }

  lemma FilesAlike(a: Tables, b: Tables, now: int, stmt: Statement)
    requires TablesAlike(a, b) && Ordered(a.httpFiles) && Ordered(b.httpFiles)
    requires stmt.InsertFile? || stmt.DeleteFile?
    ensures TablesAlike(Execute(a, now, stmt), Execute(b, now, Renumber(stmt, a, b)))
  {
    if stmt.InsertFile? {
      var file := stmt.file;
      FindAlike(a.httpFiles, b.httpFiles, stmt.test, file.scheme, file.subdomain, file.path);
      AppendAlike(a.httpFiles, b.httpFiles, stmt.test, file, stmt.id, NextId(b.httpFiles));
    } else {
      RemoveAlike(a.httpFiles, b.httpFiles, stmt.test, stmt.id);
    }
  }

  lemma LogsAlike(a: Tables, b: Tables, now: int, stmt: Statement)
    requires TablesAlike(a, b) && (stmt.LogDns? || stmt.LogHttp? || stmt.LogSmtp?)
    ensures TablesAlike(Execute(a, now, stmt), Execute(b, now, Renumber(stmt, a, b)))
  {
    match stmt
    case LogDns(id, t, e) => AppendAlike(a.dnsRequests, b.dnsRequests, t, e, id, NextId(b.dnsRequests));
    case LogHttp(id, t, e) => AppendAlike(a.httpRequests, b.httpRequests, t, e, id, NextId(b.httpRequests));
    case LogSmtp(id, t, e) => AppendAlike(a.smtpRequests, b.smtpRequests, t, e, id, NextId(b.smtpRequests));
  }

  /** Executing a statement, and its renumbered form on tables that are alike, leaves tables that are alike. */
  lemma ExecuteAlike(cfg: Config, a: Tables, b: Tables, now: int, stmt: Statement)
    requires TablesAlike(a, b) && TablesInv(cfg, a) && TablesInv(cfg, b)
    ensures TablesAlike(Execute(a, now, stmt), Execute(b, now, Renumber(stmt, a, b)))
  {
    if stmt.InsertRecord? || stmt.DeleteRecord? {
      RecordsAlike(a, b, now, stmt);
    } else if stmt.InsertFile? || stmt.DeleteFile? {
      FilesAlike(a, b, now, stmt);
    } else if stmt.LogDns? || stmt.LogHttp? || stmt.LogSmtp? {
      LogsAlike(a, b, now, stmt);
    }
  }

  // Removals with another row id

  function ReaimAction(action: Action, aim: nat): Action {
    match action
    case RemoveRecord(Some(_)) => RemoveRecord(Some(aim))
    case RemoveFile(Some(_)) => RemoveFile(Some(aim))
    case _ => action
  }

  /** The same form, asking for another row if it asks for the removal of one. */
  function ReaimForm(cfg: Config, form: Form, aim: nat): Form {
    match DecodeAction(cfg, form)
    case RemoveRecord(Some(_)) => form["rm_dns_record" := DecimalText(aim)]
    case RemoveFile(Some(_)) => form["rm_http_file" := DecimalText(aim)]
    case _ => form
  }

  lemma ReaimedFormDecodes(cfg: Config, form: Form, aim: nat)
    ensures DecodeAction(cfg, ReaimForm(cfg, form, aim)) == ReaimAction(DecodeAction(cfg, form), aim)
  {
    DecimalRoundTrip(aim);
  }

  function ReaimRequest(cfg: Config, req: HttpRequest, aim: nat): HttpRequest {
    req.(form := ReaimForm(cfg, req.form, aim))
  }

  function ReaimPhase(phase: PagePhase, aim: nat): PagePhase {
    if phase.PageChecked? then PageChecked(ReaimAction(phase.action, aim)) else phase
  }

  function ReaimHandler(cfg: Config, handler: Handler, aim: nat): Handler {
    match handler
    case PageHandler(req, t, phase) => PageHandler(ReaimRequest(cfg, req, aim), t, ReaimPhase(phase, aim))
    case _ => handler
  }

  /** The row a removal ought to name in the other tables. */
  function AimedAt(stmt: Statement, a: Tables, b: Tables): nat {
    match stmt
    case DeleteRecord(t, id) => Corresponding(a.dnsRecords, b.dnsRecords, t, id)
    case DeleteFile(t, id) => Corresponding(a.httpFiles, b.httpFiles, t, id)
    case _ => 0
  }

  predicate Removes(stmt: Statement) {
    stmt.DeleteRecord? || stmt.DeleteFile?
  }

  /** The handler does the same on both tables, if it removes the corresponding row. */
  ghost predicate SameStep(cfg: Config, a: Tables, b: Tables, handler: Handler, ok: bool, id: nat, aim: nat) {
    var step, other := NextStep(cfg, a, handler, ok, id), ReaimHandler(cfg, handler, aim);
    NextStep(cfg, b, other, ok, IdFor(b, other)) == Step(Renumber(step.stmt, a, b), ReaimHandler(cfg, step.next, aim))
  }

  lemma DnsSameStep(cfg: Config, a: Tables, b: Tables, handler: Handler, ok: bool, id: nat, aim: nat)
    requires handler.DnsHandler? && TablesAlike(a, b)
    ensures SameStep(cfg, a, b, handler, ok, id, aim)
  {
    var target := handler.dnsTarget;
    SelectAlike(a.dnsRecords, b.dnsRecords, target.id, target.subdomain, handler.query.question.qtype);
  }

  lemma HttpSameStep(cfg: Config, a: Tables, b: Tables, handler: Handler, ok: bool, id: nat, aim: nat)
    requires handler.HttpHandler? && TablesAlike(a, b)
    ensures SameStep(cfg, a, b, handler, ok, id, aim)
  {
    var req, target := handler.httpReq, handler.httpTarget;
    FindAlike(a.httpFiles, b.httpFiles, target.id, RequestScheme(req), target.subdomain, req.path);
  }

  lemma PageArrivedSameStep(cfg: Config, a: Tables, b: Tables, handler: Handler, ok: bool, id: nat, aim: nat)
    requires handler.PageHandler? && handler.pagePhase.PageArrived? && TablesAlike(a, b)
    ensures SameStep(cfg, a, b, handler, ok, id, aim)
  {
    ReaimedFormDecodes(cfg, handler.pageReq.form, aim);
  }

  lemma AddFileSameStep(cfg: Config, a: Tables, b: Tables, handler: Handler, ok: bool, id: nat, aim: nat)
    requires handler.PageHandler? && handler.pagePhase.PageChecked? && handler.pagePhase.action.AddFile?
    requires TablesAlike(a, b)
    ensures SameStep(cfg, a, b, handler, ok, id, aim)
  {
    var file := handler.pagePhase.action.file;
    FindAlike(a.httpFiles, b.httpFiles, handler.pageTest, file.scheme, file.subdomain, file.path);
  }

  lemma ActionSameStep(cfg: Config, a: Tables, b: Tables, handler: Handler, ok: bool, id: nat, aim: nat)
    requires handler.PageHandler? && handler.pagePhase.PageChecked? && !handler.pagePhase.action.AddFile?
    requires TablesAlike(a, b)
    requires Removes(NextStep(cfg, a, handler, ok, id).stmt) ==>
               aim == AimedAt(NextStep(cfg, a, handler, ok, id).stmt, a, b)
    ensures SameStep(cfg, a, b, handler, ok, id, aim)
  {
  }

  lemma AlwaysSameStep(cfg: Config, a: Tables, b: Tables, handler: Handler, ok: bool, id: nat, aim: nat)
    requires TablesAlike(a, b)
    requires Removes(NextStep(cfg, a, handler, ok, id).stmt) ==>
               aim == AimedAt(NextStep(cfg, a, handler, ok, id).stmt, a, b)
    ensures SameStep(cfg, a, b, handler, ok, id, aim)
  {
    match handler
    case DnsHandler(_, _, _) => DnsSameStep(cfg, a, b, handler, ok, id, aim);
    case HttpHandler(_, _, _) => HttpSameStep(cfg, a, b, handler, ok, id, aim);
    case PageHandler(_, _, phase) =>
      match phase {
        case PageArrived => PageArrivedSameStep(cfg, a, b, handler, ok, id, aim);
        case PageChecked(action) =>
          if action.AddFile? {
            AddFileSameStep(cfg, a, b, handler, ok, id, aim);
          } else {
            ActionSameStep(cfg, a, b, handler, ok, id, aim);
          }
        case PageDone(_) =>
      }
    case _ =>
  }

  // Steps

  type Aims = nat -> nat

  function ReaimHandlers(cfg: Config, handlers: map<nat, Handler>, aim: Aims): map<nat, Handler> {
    map h | h in handlers :: ReaimHandler(cfg, handlers[h], aim(h))
  }

  /** The same step with the row id that SQLite picks; the form of an arriving post is re-aimed. */
  function ReaimLabel(cfg: Config, p: State, l: Label, aim: Aims): Label {
    match l
    case HttpArrive(h, req) =>
      if RouteOf(cfg, req).ToTestPage? then HttpArrive(h, ReaimRequest(cfg, req, aim(h))) else l
    case Advance(h, ok, _) => Advance(h, ok, if h in p.handlers then IdFor(p.db, p.handlers[h]) else 0)
    case _ => l
  }

  /** The second state is the first, but for row ids and the forms that name them. */
  ghost predicate Mirrors(cfg: Config, s: State, p: State, aim: Aims) {
    && p.clock == s.clock && p.lastCleanup == s.lastCleanup
    && TablesAlike(s.db, p.db)
    && p.handlers == ReaimHandlers(cfg, s.handlers, aim)
  }

  lemma RouteIgnoresForm(cfg: Config, req: HttpRequest, form: Form)
    ensures RouteOf(cfg, req.(form := form)) == RouteOf(cfg, req)
  {
  }

  lemma ReaimedArrival(cfg: Config, p: State, l: Label, aim: Aims)
    requires IsArrival(l)
    ensures var m := ReaimLabel(cfg, p, l, aim);
            && IsArrival(m) && m.h == l.h
            && Arrival(cfg, m) == ReaimHandler(cfg, Arrival(cfg, l), aim(l.h))
            && (Enabled(cfg, p, m) <==> Enabled(cfg, p, l))
  {
    if l.HttpArrive? {
      RouteIgnoresForm(cfg, l.httpReq, ReaimForm(cfg, l.httpReq.form, aim(l.h)));
    }
  }

  lemma ReaimedUpdate(cfg: Config, handlers: map<nat, Handler>, h: nat, handler: Handler, aim: Aims)
    ensures ReaimHandlers(cfg, handlers[h := handler], aim)
         == ReaimHandlers(cfg, handlers, aim)[h := ReaimHandler(cfg, handler, aim(h))]
  {
  }

  lemma ArrivalMirrors(cfg: Config, s: State, p: State, l: Label, aim: Aims)
    requires Mirrors(cfg, s, p, aim) && IsArrival(l) && Enabled(cfg, s, l)
    ensures var m := ReaimLabel(cfg, p, l, aim);
            Enabled(cfg, p, m) && Mirrors(cfg, Apply(cfg, s, l), Apply(cfg, p, m), aim)
  {
    ReaimedArrival(cfg, p, l, aim);
    ReaimedUpdate(cfg, s.handlers, l.h, Arrival(cfg, l), aim);
    ArrivalStep(cfg, s, l);
    ArrivalStep(cfg, p, ReaimLabel(cfg, p, l, aim));
  }

  /** The handler that takes this step, if it removes a row, is aimed at the corresponding one. */
  ghost predicate WellAimed(cfg: Config, s: State, p: State, l: Label, aim: Aims) {
    l.Advance? && Removes(StatementOf(cfg, s, l)) ==> aim(l.h) == AimedAt(StatementOf(cfg, s, l), s.db, p.db)
  }

  lemma AdvanceMirrors(cfg: Config, s: State, p: State, l: Label, aim: Aims)
    requires Mirrors(cfg, s, p, aim) && l.Advance? && Enabled(cfg, s, l)
    requires TablesInv(cfg, s.db) && TablesInv(cfg, p.db) && WellAimed(cfg, s, p, l, aim)
    ensures var m := ReaimLabel(cfg, p, l, aim);
            && Enabled(cfg, p, m) && ExactId(p, m)
            && StatementOf(cfg, p, m) == Renumber(StatementOf(cfg, s, l), s.db, p.db)
            && Mirrors(cfg, Apply(cfg, s, l), Apply(cfg, p, m), aim)
  {
    var handler, step := s.handlers[l.h], NextStep(cfg, s.db, s.handlers[l.h], l.ok, l.id);
    AlwaysSameStep(cfg, s.db, p.db, handler, l.ok, l.id, aim(l.h));
    IdForIsFresh(cfg, p.db, p.handlers[l.h], l.ok);
    ExecuteAlike(cfg, s.db, p.db, s.clock, step.stmt);
    ReaimedUpdate(cfg, s.handlers, l.h, step.next, aim);
  }

  lemma OtherMirrors(cfg: Config, s: State, p: State, l: Label, aim: Aims)
    requires Mirrors(cfg, s, p, aim) && (l.StartTest? || l.Cleanup? || l.Tick?)
    requires TablesInv(cfg, s.db) && TablesInv(cfg, p.db)
    ensures Mirrors(cfg, Apply(cfg, s, l), Apply(cfg, p, l), aim)
  {
    ExecuteAlike(cfg, s.db, p.db, s.clock, StatementOf(cfg, s, l));
  }

  lemma StepMirrors(cfg: Config, s: State, p: State, l: Label, aim: Aims)
    requires Inv(cfg, s) && Inv(cfg, p) && Mirrors(cfg, s, p, aim)
    requires Enabled(cfg, s, l) && WellAimed(cfg, s, p, l, aim)
    ensures var m := ReaimLabel(cfg, p, l, aim);
            && Enabled(cfg, p, m) && ExactId(p, m)
            && StatementOf(cfg, p, m) == Renumber(StatementOf(cfg, s, l), s.db, p.db)
            && Mirrors(cfg, Apply(cfg, s, l), Apply(cfg, p, m), aim)
  {
    if l.Advance? {
      AdvanceMirrors(cfg, s, p, l, aim);
    } else if IsArrival(l) {
      ArrivalMirrors(cfg, s, p, l, aim);
    } else {
      OtherMirrors(cfg, s, p, l, aim);
    }
  }

  // Runs

  /** What the removal that handler h carries out later in the run has to name over the tables b:
      the row corresponding to the one it names, at the moment it is carried out. */
  function Aim(cfg: Config, s: State, b: Tables, ls: seq<Label>, h: nat): nat
    decreases |ls|
  {
    if ls == [] then 0
    else
      var stmt := StatementOf(cfg, s, ls[0]);
      if ls[0].Advance? && ls[0].h == h && Removes(stmt) then AimedAt(stmt, s.db, b)
      else Aim(cfg, Apply(cfg, s, ls[0]), Execute(b, s.clock, Renumber(stmt, s.db, b)), ls[1..], h)
  }

  /** The aims of all removals that a run from an empty database carries out. */
  function AimsOf(cfg: Config, now: int, ls: seq<Label>): Aims {
    h => Aim(cfg, Initial(now), EMPTY_TABLES, ls, h)
  }

  /** The run with SQLite's row ids, and with these aims in its removal forms. */
  function Reaimed(cfg: Config, p: State, ls: seq<Label>, aim: Aims): seq<Label>
    decreases |ls|
  {
    if ls == [] then []
    else
      var m := ReaimLabel(cfg, p, ls[0], aim);
      [m] + Reaimed(cfg, Apply(cfg, p, m), ls[1..], aim)
  }

  predicate Over(s: State, h: nat) {
    h in s.handlers && Finished(s.handlers[h])
  }

  /** Every handler that has still to act, or to arrive, is aimed right. */
  ghost predicate Aimed(cfg: Config, s: State, b: Tables, ls: seq<Label>, aim: Aims) {
    forall h: nat :: !Over(s, h) ==> aim(h) == Aim(cfg, s, b, ls, h)
  }

  lemma RemovalEnds(cfg: Config, s: State, l: Label)
    requires Enabled(cfg, s, l) && l.Advance? && Removes(StatementOf(cfg, s, l))
    ensures Over(Apply(cfg, s, l), l.h)
  {
  }

  lemma StaysOver(cfg: Config, s: State, l: Label, h: nat)
    requires Enabled(cfg, s, l) && Over(s, h)
    ensures Over(Apply(cfg, s, l), h)
  {
  }

  lemma AimedNow(cfg: Config, s: State, p: State, ls: seq<Label>, aim: Aims)
    requires ls != [] && Enabled(cfg, s, ls[0]) && Aimed(cfg, s, p.db, ls, aim)
    ensures WellAimed(cfg, s, p, ls[0], aim)
  {
    if ls[0].Advance? {
      assert !Over(s, ls[0].h);
    }
  }

  lemma AimedLater(cfg: Config, s: State, b: Tables, ls: seq<Label>, aim: Aims)
    requires ls != [] && Enabled(cfg, s, ls[0]) && Aimed(cfg, s, b, ls, aim)
    ensures Aimed(cfg, Apply(cfg, s, ls[0]), Execute(b, s.clock, Renumber(StatementOf(cfg, s, ls[0]), s.db, b)),
                  ls[1..], aim)
  {
    var l, next := ls[0], Apply(cfg, s, ls[0]);
    var after := Execute(b, s.clock, Renumber(StatementOf(cfg, s, l), s.db, b));
    forall h: nat | !Over(next, h) ensures aim(h) == Aim(cfg, next, after, ls[1..], h) {
      if Over(s, h) {
        StaysOver(cfg, s, l, h);
      } else if l.Advance? && l.h == h && Removes(StatementOf(cfg, s, l)) {
        RemovalEnds(cfg, s, l);
      }
    }
  }

  /** What every step of the two runs needs of the states before it. */
  ghost predicate InStep(cfg: Config, s: State, p: State, ls: seq<Label>, aim: Aims) {
    && Inv(cfg, s) && Inv(cfg, p) && Mirrors(cfg, s, p, aim)
    && ValidRun(cfg, s, ls) && Aimed(cfg, s, p.db, ls, aim)
  }

  lemma StaysInStep(cfg: Config, s: State, p: State, ls: seq<Label>, aim: Aims)
    requires ls != [] && InStep(cfg, s, p, ls, aim)
    ensures var m := ReaimLabel(cfg, p, ls[0], aim);
            && Enabled(cfg, p, m) && ExactId(p, m)
            && StatementOf(cfg, p, m) == Renumber(StatementOf(cfg, s, ls[0]), s.db, p.db)
            && InStep(cfg, Apply(cfg, s, ls[0]), Apply(cfg, p, m), ls[1..], aim)
  {
    var m := ReaimLabel(cfg, p, ls[0], aim);
    AimedNow(cfg, s, p, ls, aim);
    StepMirrors(cfg, s, p, ls[0], aim);
    AimedLater(cfg, s, p.db, ls, aim);
    ApplyKeepsInv(cfg, s, ls[0]);
    ApplyKeepsInv(cfg, p, m);
  }

  /** A run under any fresh row ids, with its removals re-aimed, is a run over SQLite that ends in the mirrored
      state. */
  lemma {:induction false} RunMirrors(cfg: Config, s: State, p: State, ls: seq<Label>, aim: Aims)
    requires InStep(cfg, s, p, ls, aim)
    ensures ExactRun(cfg, p, Reaimed(cfg, p, ls, aim))
    ensures Mirrors(cfg, Run(cfg, s, ls), Run(cfg, p, Reaimed(cfg, p, ls, aim)), aim)
    decreases |ls|
  {
    if ls != [] {
      var m := ReaimLabel(cfg, p, ls[0], aim);
      StaysInStep(cfg, s, p, ls, aim);
      RunMirrors(cfg, Apply(cfg, s, ls[0]), Apply(cfg, p, m), ls[1..], aim);
      ExactCons(cfg, p, m, Reaimed(cfg, Apply(cfg, p, m), ls[1..], aim));
      RunCons(cfg, p, m, Reaimed(cfg, Apply(cfg, p, m), ls[1..], aim));
    }
  }

  lemma {:induction false} ReaimedLength(cfg: Config, p: State, ls: seq<Label>, aim: Aims)
    ensures |Reaimed(cfg, p, ls, aim)| == |ls|
    decreases |ls|
  {
    if ls != [] {
      ReaimedLength(cfg, Apply(cfg, p, ReaimLabel(cfg, p, ls[0], aim)), ls[1..], aim);
    }
  }

  /** These two states mirror each other, and so do the statements executed next. */
  ghost predicate MirrorsAt(cfg: Config, a: State, b: State, l: Label, m: Label, aim: Aims) {
    && Inv(cfg, a) && Inv(cfg, b) && Mirrors(cfg, a, b, aim)
    && StatementOf(cfg, b, m) == Renumber(StatementOf(cfg, a, l), a.db, b.db)
  }

  lemma MirrorsFirst(cfg: Config, s: State, p: State, ls: seq<Label>, aim: Aims)
    requires ls != [] && InStep(cfg, s, p, ls, aim)
    ensures MirrorsAt(cfg, s, p, ls[0], ReaimLabel(cfg, p, ls[0], aim), aim)
  {
    StaysInStep(cfg, s, p, ls, aim);
  }

  lemma MirrorsLater(cfg: Config, s: State, p: State, ls: seq<Label>, ms: seq<Label>, aim: Aims, k: nat)
    requires 0 < k < |ls| == |ms|
    requires MirrorsAt(cfg, Run(cfg, Apply(cfg, s, ls[0]), ls[1..][..k - 1]),
                       Run(cfg, Apply(cfg, p, ms[0]), ms[1..][..k - 1]), ls[k], ms[k], aim)
    ensures MirrorsAt(cfg, Run(cfg, s, ls[..k]), Run(cfg, p, ms[..k]), ls[k], ms[k], aim)
  {
    RunLater(cfg, s, ls, k - 1);
    RunLater(cfg, p, ms, k - 1);
  }

  lemma ReaimedRest(cfg: Config, p: State, ls: seq<Label>, ms: seq<Label>, aim: Aims)
    requires ls != [] && ms == Reaimed(cfg, p, ls, aim)
    ensures |ms| == |ls| && ms[0] == ReaimLabel(cfg, p, ls[0], aim)
    ensures ms[1..] == Reaimed(cfg, Apply(cfg, p, ms[0]), ls[1..], aim)
  {
    ReaimedLength(cfg, p, ls, aim);
  }

  lemma NextInStep(cfg: Config, s: State, p: State, ls: seq<Label>, m: Label, aim: Aims)
    requires ls != [] && InStep(cfg, s, p, ls, aim) && m == ReaimLabel(cfg, p, ls[0], aim)
    ensures InStep(cfg, Apply(cfg, s, ls[0]), Apply(cfg, p, m), ls[1..], aim)
  {
    StaysInStep(cfg, s, p, ls, aim);
  }

  /** Step by step, the re-aimed run executes the renumbered statement. */
  lemma {:induction false} StatementsMirror(
    cfg: Config, s: State, p: State, ls: seq<Label>, ms: seq<Label>, aim: Aims, k: nat)
    requires InStep(cfg, s, p, ls, aim) && k < |ls| && ms == Reaimed(cfg, p, ls, aim)
    ensures |ms| == |ls| && MirrorsAt(cfg, Run(cfg, s, ls[..k]), Run(cfg, p, ms[..k]), ls[k], ms[k], aim)
    decreases |ls|
  {
    ReaimedRest(cfg, p, ls, ms, aim);
    if k == 0 {
      MirrorsFirst(cfg, s, p, ls, aim);
    } else {
      NextInStep(cfg, s, p, ls, ms[0], aim);
      StatementsMirror(cfg, Apply(cfg, s, ls[0]), Apply(cfg, p, ms[0]), ls[1..], ms[1..], aim, k - 1);
      MirrorsLater(cfg, s, p, ls, ms, aim, k);
    }
  }

  lemma StartsInStep(cfg: Config, now: int, ls: seq<Label>)
    requires ValidRun(cfg, Initial(now), ls)
    ensures InStep(cfg, Initial(now), Initial(now), ls, AimsOf(cfg, now, ls))
  {
    InitialInv(cfg, now);
  }

  // Dropping the other tests

  ghost predicate TablesRenumbered(a: Tables, b: Tables) {
    && a.tests == b.tests
    && Renumbered(a.dnsRecords, b.dnsRecords) && Renumbered(a.httpFiles, b.httpFiles)
    && Renumbered(a.dnsRequests, b.dnsRequests) && Renumbered(a.httpRequests, b.httpRequests)
    && Renumbered(a.smtpRequests, b.smtpRequests)
  }

  /** The second state is the first up to an order-preserving renumbering of the rows of each table; only the handlers
      of forms that remove a row may differ, in the row id they name. */
  ghost predicate SameButForIds(cfg: Config, s: State, p: State, aim: Aims) {
    && p.clock == s.clock && p.lastCleanup == s.lastCleanup
    && TablesRenumbered(s.db, p.db)
    && p.handlers == ReaimHandlers(cfg, s.handlers, aim)
  }

  lemma MirrorsOrdered(cfg: Config, s: State, p: State, aim: Aims)
    requires Mirrors(cfg, s, p, aim) && TablesInv(cfg, s.db) && TablesInv(cfg, p.db)
    ensures SameButForIds(cfg, s, p, aim)
  {
    AlikeIsRenumbered(s.db.dnsRecords, p.db.dnsRecords);
    AlikeIsRenumbered(s.db.httpFiles, p.db.httpFiles);
    AlikeIsRenumbered(s.db.dnsRequests, p.db.dnsRequests);
    AlikeIsRenumbered(s.db.httpRequests, p.db.httpRequests);
    AlikeIsRenumbered(s.db.smtpRequests, p.db.smtpRequests);
  }

  /** The steps of a test alone, with SQLite's row ids, and with its removals aimed at the rows under their new ids. */
  function OwnRun(cfg: Config, now: int, ls: seq<Label>, t: TestID): seq<Label> {
    var own := Purge(cfg, Initial(now), ls, t);
    Reaimed(cfg, Initial(now), own, AimsOf(cfg, now, own))
  }

  lemma RunIsOrdered(cfg: Config, now: int, ls: seq<Label>)
    requires ValidRun(cfg, Initial(now), ls)
    ensures TablesInv(cfg, Run(cfg, Initial(now), ls).db)
  {
    InitialInv(cfg, now);
    RunKeepsInv(cfg, Initial(now), ls);
  }

  lemma OwnPart(cfg: Config, now: int, ls: seq<Label>, t: TestID)
    requires ValidRun(cfg, Initial(now), ls)
    ensures var own := Purge(cfg, Initial(now), ls, t);
            ValidRun(cfg, Initial(now), own) && Run(cfg, Initial(now), own) == StateOf(Run(cfg, Initial(now), ls), t)
  {
    InitialInv(cfg, now);
    assert StateOf(Initial(now), t) == Initial(now);
    PurgedRunAgrees(cfg, Initial(now), ls, t);
  }

  /** Noninterference over SQLite: dropping every step of the other tests from a run, letting SQLite pick the row ids
      again, and aiming the removals of the test at the rows they hit before, gives a run over SQLite. It ends with
      the same test, records, files, logs, answers and replies, up to an order-preserving renumbering of the rows. */
  lemma OthersOnlyRenumber(cfg: Config, now: int, ls: seq<Label>, t: TestID)
    requires ValidRun(cfg, Initial(now), ls)
    ensures ExactRun(cfg, Initial(now), OwnRun(cfg, now, ls, t))
    ensures SameButForIds(cfg, StateOf(Run(cfg, Initial(now), ls), t), Run(cfg, Initial(now), OwnRun(cfg, now, ls, t)),
                          AimsOf(cfg, now, Purge(cfg, Initial(now), ls, t)))
  {
    var own := Purge(cfg, Initial(now), ls, t);
    OwnPart(cfg, now, ls, t);
    StartsInStep(cfg, now, own);
    RunMirrors(cfg, Initial(now), Initial(now), own, AimsOf(cfg, now, own));
    ExactIsValid(cfg, Initial(now), OwnRun(cfg, now, ls, t));
    RunIsOrdered(cfg, now, own);
    RunIsOrdered(cfg, now, OwnRun(cfg, now, ls, t));
    MirrorsOrdered(cfg, Run(cfg, Initial(now), own), Run(cfg, Initial(now), OwnRun(cfg, now, ls, t)),
                   AimsOf(cfg, now, own));
  }

  /** The k-th own step of the test, if it removes a row, removes the row at the same position in both runs, or
      removes nothing in both. */
  lemma RemovalsHitTheSameRow(cfg: Config, now: int, ls: seq<Label>, t: TestID, k: nat)
    requires ValidRun(cfg, Initial(now), ls) && k < |Purge(cfg, Initial(now), ls, t)|
    ensures |OwnRun(cfg, now, ls, t)| == |Purge(cfg, Initial(now), ls, t)|
    ensures var own, exact := Purge(cfg, Initial(now), ls, t), OwnRun(cfg, now, ls, t);
            var a, b := Run(cfg, Initial(now), own[..k]), Run(cfg, Initial(now), exact[..k]);
            var stmt, other := StatementOf(cfg, a, own[k]), StatementOf(cfg, b, exact[k]);
            && (stmt.DeleteRecord? ==>
                  && other.DeleteRecord? && other.test == stmt.test
                  && SameHits(a.db.dnsRecords, stmt.id, b.db.dnsRecords, other.id, stmt.test))
            && (stmt.DeleteFile? ==>
                  && other.DeleteFile? && other.test == stmt.test
                  && SameHits(a.db.httpFiles, stmt.id, b.db.httpFiles, other.id, stmt.test))
  {
    var own, exact := Purge(cfg, Initial(now), ls, t), OwnRun(cfg, now, ls, t);
    OwnPart(cfg, now, ls, t);
    StartsInStep(cfg, now, own);
    StatementsMirror(cfg, Initial(now), Initial(now), own, exact, AimsOf(cfg, now, own), k);
    var a, b := Run(cfg, Initial(now), own[..k]), Run(cfg, Initial(now), exact[..k]);
    var stmt := StatementOf(cfg, a, own[k]);
    if stmt.DeleteRecord? {
      CorrespondingHits(a.db.dnsRecords, b.db.dnsRecords, stmt.test, stmt.id);
    } else if stmt.DeleteFile? {
      CorrespondingHits(a.db.httpFiles, b.db.httpFiles, stmt.test, stmt.id);
    }
  }
}
