/** How far a test's own steps, without the row ids the database picks, decide how it ends. */
module OwnSteps {
  import opened Options
  import opened TestIds
  import opened Records
  import opened Tables
  import opened Dns
  import opened Http
  import opened Machine
  import opened Invariants
  import opened Sequential
  import opened Noninterference
  import opened Publication
  import opened RowIds

  // What handlers do whatever they read

  /** The handler without what it read or replied. */
  function Skeleton(handler: Handler): Handler {
    match handler
    case DnsHandler(query, target, phase) =>
      DnsHandler(query, target,
                 match phase
                 case DnsArrived(_) => DnsArrived(None)
                 case DnsChecked(_) => DnsChecked(None)
                 case DnsLookedUp(_) => DnsLookedUp(None)
                 case DnsDone(_) => DnsDone(Refuse()))
    case HttpHandler(req, target, phase) =>
      HttpHandler(req, target,
                  match phase
                  case HttpRead(_) => HttpRead("")
                  case HttpDone(_) => HttpDone(HttpReply(0, ""))
                  case other => other)
    case PageHandler(req, t, phase) => PageHandler(req, t, if phase.PageDone? then PageDone(0) else phase)
    case _ => handler
  }

  /** The statement without the id of the row it inserts. */
  function Anonymous(stmt: Statement): Statement {
    match stmt
    case InsertRecord(_, t, record) => InsertRecord(0, t, record)
    case InsertFile(_, t, file) => InsertFile(0, t, file)
    case LogDns(_, t, e) => LogDns(0, t, e)
    case LogHttp(_, t, e) => LogHttp(0, t, e)
    case LogSmtp(_, t, e) => LogSmtp(0, t, e)
    case _ => stmt
  }

  predicate AgreeOn(a: Tables, b: Tables, t: TestID) {
    (t in a.tests <==> t in b.tests) && (t in a.tests ==> a.tests[t] == b.tests[t])
  }

  /** Two handlers that differ in what they read take the same step on any two tables that agree on their test. */
  ghost predicate SameMoves(cfg: Config, a: Tables, b: Tables, x: Handler, y: Handler, ok: bool, i: nat, j: nat) {
    var step, other := NextStep(cfg, a, x, ok, i), NextStep(cfg, b, y, ok, j);
    Anonymous(step.stmt) == Anonymous(other.stmt) && Skeleton(step.next) == Skeleton(other.next)
  }

  lemma DnsMoves(cfg: Config, a: Tables, b: Tables, x: Handler, y: Handler, ok: bool, i: nat, j: nat)
    requires x.DnsHandler? && Skeleton(x) == Skeleton(y) && AgreeOn(a, b, x.dnsTarget.id)
    ensures SameMoves(cfg, a, b, x, y, ok, i, j)
  {
  }

  lemma HttpMoves(cfg: Config, a: Tables, b: Tables, x: Handler, y: Handler, ok: bool, i: nat, j: nat)
    requires x.HttpHandler? && Skeleton(x) == Skeleton(y) && AgreeOn(a, b, x.httpTarget.id)
    ensures SameMoves(cfg, a, b, x, y, ok, i, j)
  {
  }

  lemma PageMoves(cfg: Config, a: Tables, b: Tables, x: Handler, y: Handler, ok: bool, i: nat, j: nat)
    requires x.PageHandler? && Skeleton(x) == Skeleton(y) && AgreeOn(a, b, x.pageTest)
    ensures SameMoves(cfg, a, b, x, y, ok, i, j)
  {
  }

  lemma AlwaysSameMoves(
    cfg: Config, a: Tables, b: Tables, x: Handler, y: Handler, ok: bool, i: nat, j: nat, t: TestID)
    requires ActsOn(x, t) && Skeleton(x) == Skeleton(y) && AgreeOn(a, b, t)
    ensures SameMoves(cfg, a, b, x, y, ok, i, j) && (Finished(x) <==> Finished(y))
  {
    match x
    case DnsHandler(_, _, _) => DnsMoves(cfg, a, b, x, y, ok, i, j);
    case HttpHandler(_, _, _) => HttpMoves(cfg, a, b, x, y, ok, i, j);
    case PageHandler(_, _, _) => PageMoves(cfg, a, b, x, y, ok, i, j);
    case _ =>
  }

  lemma ExecuteAgrees(a: Tables, b: Tables, now: int, x: Statement, y: Statement, t: TestID)
    requires AgreeOn(a, b, t) && Anonymous(x) == Anonymous(y)
    ensures AgreeOn(Execute(a, now, x), Execute(b, now, y), t)
  {
  }

  // The same steps of a test in two systems

  /** The first system hosts the second, as far as the test is concerned. */
  ghost predicate Hosts(s: State, p: State, t: TestID) {
    && s.clock == p.clock && AgreeOn(s.db, p.db, t)
    && forall h :: h in p.handlers ==> h in s.handlers && Skeleton(s.handlers[h]) == Skeleton(p.handlers[h])
  }

  /** A step of the test, and of no other test. */
  predicate IsOwn(cfg: Config, p: State, l: Label, t: TestID) {
    Concerns(cfg, p, l, t) && LabelOf(l, t) == l
  }

  predicate AllOwn(cfg: Config, p: State, ls: seq<Label>, t: TestID)
    decreases |ls|
  {
    ls == [] || (IsOwn(cfg, p, ls[0], t) && AllOwn(cfg, Apply(cfg, p, ls[0]), ls[1..], t))
  }

  /** The two systems take the same step. */
  ghost predicate InParallel(cfg: Config, s: State, p: State, m: Label, l: Label, t: TestID) {
    && Hosts(Apply(cfg, s, m), Apply(cfg, p, l), t)
    && Anonymous(StatementOf(cfg, s, m)) == Anonymous(StatementOf(cfg, p, l))
  }

  lemma AdvanceInParallel(cfg: Config, s: State, p: State, m: Label, l: Label, t: TestID)
    requires Hosts(s, p, t) && WithoutId(m) == WithoutId(l) && l.Advance?
    requires Enabled(cfg, p, l) && IsOwn(cfg, p, l, t)
    ensures InParallel(cfg, s, p, m, l, t)
    ensures m.Advance? && m.h == l.h && m.h in s.handlers && !Finished(s.handlers[m.h])
  {
    AlwaysSameMoves(cfg, p.db, s.db, p.handlers[l.h], s.handlers[l.h], l.ok, l.id, m.id, t);
    ExecuteAgrees(s.db, p.db, s.clock, StatementOf(cfg, s, m), StatementOf(cfg, p, l), t);
  }

  lemma ArrivalInParallel(cfg: Config, s: State, p: State, l: Label, t: TestID)
    requires Hosts(s, p, t) && IsArrival(l)
    ensures InParallel(cfg, s, p, l, l, t)
  {
    ArrivalStep(cfg, s, l);
    ArrivalStep(cfg, p, l);
  }

  lemma OtherInParallel(cfg: Config, s: State, p: State, l: Label, t: TestID)
    requires Hosts(s, p, t) && (l.StartTest? || l.Cleanup? || l.Tick?)
    ensures InParallel(cfg, s, p, l, l, t)
  {
    ExecuteAgrees(s.db, p.db, s.clock, StatementOf(cfg, s, l), StatementOf(cfg, p, l), t);
  }

  /** A step of the test does the same in both systems, except for row ids and what is read. */
  lemma StepInParallel(cfg: Config, s: State, p: State, m: Label, l: Label, t: TestID)
    requires Hosts(s, p, t) && WithoutId(m) == WithoutId(l)
    requires Enabled(cfg, p, l) && IsOwn(cfg, p, l, t)
    ensures InParallel(cfg, s, p, m, l, t)
  {
    if l.Advance? {
      AdvanceInParallel(cfg, s, p, m, l, t);
    } else if IsArrival(l) {
      ArrivalInParallel(cfg, s, p, l, t);
    } else {
      OtherInParallel(cfg, s, p, l, t);
    }
  }

  lemma {:induction false} OnlyTwice(ids: seq<TestID>, t: TestID)
    ensures Only(Only(ids, t), t) == Only(ids, t)
  {
    if ids != [] {
      OnlyTwice(ids[1..], t);
      assert ids[0] == t ==> Only(ids, t)[1..] == Only(ids[1..], t);
    }
  }

  lemma ActsInPart(cfg: Config, db: Tables, handler: Handler, t: TestID)
    requires HandlerInv(cfg, db, handler) && ActsOn(handler, t)
    ensures Involves(handler, t) && ActsOn(HandlerOf(handler, t), t)
  {
    if handler.SmtpHandler? {
      assert Only(handler.pending, t)[0] == t;
      assert handler.pending[0] in handler.recipients;
    }
  }

  lemma OwnStepIsOwn(cfg: Config, s: State, l: Label, t: TestID)
    requires Inv(cfg, s) && Enabled(cfg, s, l) && Concerns(cfg, s, l, t)
    ensures IsOwn(cfg, StateOf(s, t), LabelOf(l, t), t)
  {
    match l
    case SmtpArrive(_, _, ids) =>
      OnlyMembers(ids, t);
      OnlyTwice(ids, t);
    case Advance(h, _, _) =>
      ActsInPart(cfg, s.db, s.handlers[h], t);
    case _ =>
  }

  lemma AllOwnCons(cfg: Config, p: State, l: Label, rest: seq<Label>, t: TestID)
    ensures AllOwn(cfg, p, [l] + rest, t) <==> IsOwn(cfg, p, l, t) && AllOwn(cfg, Apply(cfg, p, l), rest, t)
  {
    assert ([l] + rest)[1..] == rest;
  }

  /** What is left of a run when the steps of other tests are dropped are steps of the test. */
  lemma {:induction false} PurgeIsOwn(cfg: Config, s: State, ls: seq<Label>, t: TestID)
    requires Inv(cfg, s) && ValidRun(cfg, s, ls)
    ensures AllOwn(cfg, StateOf(s, t), Purge(cfg, s, ls, t), t)
    decreases |ls|
  {
    if ls != [] {
      var next := Apply(cfg, s, ls[0]);
      ApplyKeepsInv(cfg, s, ls[0]);
      PurgeIsOwn(cfg, next, ls[1..], t);
      if Concerns(cfg, s, ls[0], t) {
        OwnStepIsOwn(cfg, s, ls[0], t);
        OwnStepsCommute(cfg, s, ls[0], t);
        AllOwnCons(cfg, StateOf(s, t), LabelOf(ls[0], t), Purge(cfg, next, ls[1..], t), t);
      } else {
        OthersAreInvisible(cfg, s, ls[0], t);
      }
    }
  }

  /** Two runs with the same steps of the test, except for row ids; the second consists of nothing else. */
  ghost predicate Paired(cfg: Config, s: State, ms: seq<Label>, p: State, ls: seq<Label>, t: TestID) {
    && Inv(cfg, s) && Inv(cfg, p) && Hosts(s, p, t)
    && ValidRun(cfg, s, ms) && ValidRun(cfg, p, ls) && AllOwn(cfg, p, ls, t)
    && Unnumbered(ms) == Unnumbered(ls)
  }

  lemma UnnumberedRest(ls: seq<Label>)
    requires ls != []
    ensures |Unnumbered(ls)| == |ls| && Unnumbered(ls)[0] == WithoutId(ls[0])
    ensures Unnumbered(ls)[1..] == Unnumbered(ls[1..])
  {
  }

  lemma PairedLabels(ms: seq<Label>, ls: seq<Label>)
    requires Unnumbered(ms) == Unnumbered(ls)
    ensures |ms| == |ls|
    ensures ls != [] ==> WithoutId(ms[0]) == WithoutId(ls[0]) && Unnumbered(ms[1..]) == Unnumbered(ls[1..])
  {
    assert |ms| == |Unnumbered(ms)| == |ls|;
    if ls != [] {
      UnnumberedRest(ms);
      UnnumberedRest(ls);
    }
  }

  lemma PairedStep(cfg: Config, s: State, ms: seq<Label>, p: State, ls: seq<Label>, t: TestID)
    requires Paired(cfg, s, ms, p, ls, t) && ls != []
    ensures |ms| == |ls|
    ensures InParallel(cfg, s, p, ms[0], ls[0], t)
    ensures Paired(cfg, Apply(cfg, s, ms[0]), ms[1..], Apply(cfg, p, ls[0]), ls[1..], t)
  {
    PairedLabels(ms, ls);
    StepInParallel(cfg, s, p, ms[0], ls[0], t);
    ApplyKeepsInv(cfg, s, ms[0]);
    ApplyKeepsInv(cfg, p, ls[0]);
  }

  lemma {:induction false} PairedHosts(cfg: Config, s: State, ms: seq<Label>, p: State, ls: seq<Label>, t: TestID)
    requires Paired(cfg, s, ms, p, ls, t)
    ensures Hosts(Run(cfg, s, ms), Run(cfg, p, ls), t)
    decreases |ls|
  {
    PairedLabels(ms, ls);
    if ls != [] {
      PairedStep(cfg, s, ms, p, ls, t);
      PairedHosts(cfg, Apply(cfg, s, ms[0]), ms[1..], Apply(cfg, p, ls[0]), ls[1..], t);
    }
  }

  lemma OwnTouches(cfg: Config, p: State, l: Label, t: TestID)
    requires Enabled(cfg, p, l) && IsOwn(cfg, p, l, t)
    ensures Touches(StatementOf(cfg, p, l), t)
  {
    if l.Advance? {
      NextStepOfTest(cfg, p.db, p.handlers[l.h], l.ok, l.id, t);
    }
  }

  // Tables that stay alike

  /** No record is removed, by a positive row id, after one was inserted. */
  predicate RecordsKept(h: seq<Statement>) {
    forall i, j :: 0 <= i < j < |h| && h[i].InsertRecord? && h[j].DeleteRecord? ==> h[j].id == 0
  }

  /** No file is removed, by a positive row id, after one was inserted. */
  predicate FilesKept(h: seq<Statement>) {
    forall i, j :: 0 <= i < j < |h| && h[i].InsertFile? && h[j].DeleteFile? ==> h[j].id == 0
  }

  lemma RemoveNothing<T>(rows: Table<T>, t: TestID, id: nat)
    requires Ordered(rows) && (id == 0 || rows == [])
    ensures Without(rows, t, id) == rows
  {
    WithoutAt(rows, t, id, |rows|);
  }

  /** None of the removals to come hits one of these rows, or one that is inserted before it. */
  predicate RecordsSafe(rows: Table<PublishedRecord>, h: seq<Statement>) {
    && RecordsKept(h)
    && (rows != [] ==> forall j :: 0 <= j < |h| && h[j].DeleteRecord? ==> h[j].id == 0)
  }

  lemma RecordsSafeNext(rows: Table<PublishedRecord>, x: Statement, rest: seq<Statement>)
    requires Ordered(rows) && RecordsSafe(rows, [x] + rest)
    ensures RecordsSafe(RecordsAfter(rows, x), rest)
    ensures x.DeleteRecord? ==> x.id == 0 || rows == []
  {
    var h := [x] + rest;
    assert h[0] == x && forall j :: 0 <= j < |rest| ==> rest[j] == h[j + 1];
    if x.DeleteRecord? {
      RemoveNothing(rows, x.test, x.id);
    }
  }

  lemma RecordsStepAlike(a: Table<PublishedRecord>, b: Table<PublishedRecord>, x: Statement, y: Statement)
    requires Alike(a, b) && Ordered(a) && Ordered(b) && Anonymous(x) == Anonymous(y)
    requires y.DeleteRecord? ==> y.id == 0 || b == []
    ensures Alike(RecordsAfter(a, x), RecordsAfter(b, y))
  {
    match y
    case InsertRecord(id, t, record) => AppendAlike(a, b, t, record, x.id, id);
    case DeleteRecord(t, id) =>
      RemoveNothing(a, t, id);
      RemoveNothing(b, t, id);
    case _ =>
  }

  lemma {:induction false} RecordsStayAlike(
    cfg: Config, s: State, ms: seq<Label>, p: State, ls: seq<Label>, t: TestID)
    requires Paired(cfg, s, ms, p, ls, t) && Alike(s.db.dnsRecords, p.db.dnsRecords)
    requires RecordsSafe(p.db.dnsRecords, History(cfg, p, ls))
    ensures Alike(Run(cfg, s, ms).db.dnsRecords, Run(cfg, p, ls).db.dnsRecords)
    decreases |ls|
  {
    PairedLabels(ms, ls);
    if ls != [] {
      var x, y := StatementOf(cfg, s, ms[0]), StatementOf(cfg, p, ls[0]);
      var next := Apply(cfg, p, ls[0]);
      PairedStep(cfg, s, ms, p, ls, t);
      StepOfTable(cfg, s, ms[0]);
      StepOfTable(cfg, p, ls[0]);
      RecordsSafeNext(p.db.dnsRecords, y, History(cfg, next, ls[1..]));
      RecordsStepAlike(s.db.dnsRecords, p.db.dnsRecords, x, y);
      RecordsStayAlike(cfg, Apply(cfg, s, ms[0]), ms[1..], next, ls[1..], t);
    }
  }

  predicate FilesSafe(rows: Table<PublishedFile>, h: seq<Statement>) {
    && FilesKept(h)
    && (rows != [] ==> forall j :: 0 <= j < |h| && h[j].DeleteFile? ==> h[j].id == 0)
  }

  lemma FilesSafeNext(db: Tables, now: int, x: Statement, rest: seq<Statement>)
    requires Ordered(db.httpFiles) && FilesSafe(db.httpFiles, [x] + rest)
    ensures FilesSafe(Execute(db, now, x).httpFiles, rest)
    ensures x.DeleteFile? ==> x.id == 0 || db.httpFiles == []
  {
    var h := [x] + rest;
    assert h[0] == x && forall j :: 0 <= j < |rest| ==> rest[j] == h[j + 1];
    if x.DeleteFile? {
      RemoveNothing(db.httpFiles, x.test, x.id);
    }
  }

  lemma FilesStepAlike(a: Tables, b: Tables, now: int, x: Statement, y: Statement, t: TestID)
    requires Alike(a.httpFiles, b.httpFiles) && Ordered(a.httpFiles) && Ordered(b.httpFiles)
    requires AgreeOn(a, b, t) && Touches(y, t) && Anonymous(x) == Anonymous(y)
    requires y.DeleteFile? ==> y.id == 0 || b.httpFiles == []
    ensures Alike(Execute(a, now, x).httpFiles, Execute(b, now, y).httpFiles)
  {
    match y
    case InsertFile(id, _, file) =>
      FindAlike(a.httpFiles, b.httpFiles, t, file.scheme, file.subdomain, file.path);
      AppendAlike(a.httpFiles, b.httpFiles, t, file, x.id, id);
    case DeleteFile(_, id) =>
      RemoveNothing(a.httpFiles, t, id);
      RemoveNothing(b.httpFiles, t, id);
    case _ =>
  }

  lemma {:induction false} FilesStayAlike(
    cfg: Config, s: State, ms: seq<Label>, p: State, ls: seq<Label>, t: TestID)
    requires Paired(cfg, s, ms, p, ls, t) && Alike(s.db.httpFiles, p.db.httpFiles)
    requires FilesSafe(p.db.httpFiles, History(cfg, p, ls))
    ensures Alike(Run(cfg, s, ms).db.httpFiles, Run(cfg, p, ls).db.httpFiles)
    decreases |ls|
  {
    PairedLabels(ms, ls);
    if ls != [] {
      var x, y := StatementOf(cfg, s, ms[0]), StatementOf(cfg, p, ls[0]);
      var next := Apply(cfg, p, ls[0]);
      PairedStep(cfg, s, ms, p, ls, t);
      OwnTouches(cfg, p, ls[0], t);
      FilesSafeNext(p.db, p.clock, y, History(cfg, next, ls[1..]));
      FilesStepAlike(s.db, p.db, p.clock, x, y, t);
      FilesStayAlike(cfg, Apply(cfg, s, ms[0]), ms[1..], next, ls[1..], t);
    }
  }

  ghost predicate LogsAlike(a: Tables, b: Tables) {
    && Alike(a.dnsRequests, b.dnsRequests) && Alike(a.httpRequests, b.httpRequests)
    && Alike(a.smtpRequests, b.smtpRequests)
  }

  lemma LogsStepAlike(a: Tables, b: Tables, now: int, x: Statement, y: Statement, t: TestID)
    requires LogsAlike(a, b) && AgreeOn(a, b, t) && Touches(y, t) && Anonymous(x) == Anonymous(y)
    ensures LogsAlike(Execute(a, now, x), Execute(b, now, y))
  {
  }

  lemma {:induction false} LogsStayAlike(
    cfg: Config, s: State, ms: seq<Label>, p: State, ls: seq<Label>, t: TestID)
    requires Paired(cfg, s, ms, p, ls, t) && LogsAlike(s.db, p.db)
    ensures LogsAlike(Run(cfg, s, ms).db, Run(cfg, p, ls).db)
    decreases |ls|
  {
    PairedLabels(ms, ls);
    if ls != [] {
      PairedStep(cfg, s, ms, p, ls, t);
      OwnTouches(cfg, p, ls[0], t);
      LogsStepAlike(s.db, p.db, p.clock, StatementOf(cfg, s, ms[0]), StatementOf(cfg, p, ls[0]), t);
      LogsStayAlike(cfg, Apply(cfg, s, ms[0]), ms[1..], Apply(cfg, p, ls[0]), ls[1..], t);
    }
  }

  // From the same steps to the same end

  /** The statements that the test's own steps execute. */
  function OwnHistory(cfg: Config, now: int, ls: seq<Label>, t: TestID): seq<Statement> {
    History(cfg, Initial(now), Purge(cfg, Initial(now), ls, t))
  }

  /** Two runs have the same steps of a test, the row ids in its forms included, but not those the database picks. */
  predicate SameSteps(cfg: Config, now: int, a: seq<Label>, b: seq<Label>, t: TestID) {
    Unnumbered(Purge(cfg, Initial(now), a, t)) == Unnumbered(Purge(cfg, Initial(now), b, t))
  }

  lemma OwnRunsPaired(cfg: Config, now: int, a: seq<Label>, b: seq<Label>, t: TestID)
    requires ValidRun(cfg, Initial(now), a) && ValidRun(cfg, Initial(now), b) && SameSteps(cfg, now, a, b, t)
    ensures Paired(cfg, Initial(now), Purge(cfg, Initial(now), a, t), Initial(now), Purge(cfg, Initial(now), b, t), t)
  {
    InitialInv(cfg, now);
    OwnPart(cfg, now, a, t);
    OwnPart(cfg, now, b, t);
    assert StateOf(Initial(now), t) == Initial(now);
    PurgeIsOwn(cfg, Initial(now), b, t);
  }

  /** The records of the test at the end of a run. */
  function RecordsOf(cfg: Config, now: int, ls: seq<Label>, t: TestID): Table<PublishedRecord> {
    OfTest(Run(cfg, Initial(now), ls).db.dnsRecords, t)
  }

  lemma OwnTablesOrdered(cfg: Config, now: int, ls: seq<Label>, t: TestID)
    requires ValidRun(cfg, Initial(now), ls)
    ensures TablesInv(cfg, TablesOf(Run(cfg, Initial(now), ls).db, t))
  {
    OwnPart(cfg, now, ls, t);
    RunIsOrdered(cfg, now, Purge(cfg, Initial(now), ls, t));
  }

  /** Without removals that follow insertions, the same steps give the same records up to renumbering. */
  lemma SameStepsSameRecords(cfg: Config, now: int, a: seq<Label>, b: seq<Label>, t: TestID)
    requires ValidRun(cfg, Initial(now), a) && ValidRun(cfg, Initial(now), b) && SameSteps(cfg, now, a, b, t)
    requires RecordsKept(OwnHistory(cfg, now, b, t))
    ensures Renumbered(RecordsOf(cfg, now, a, t), RecordsOf(cfg, now, b, t))
  {
    OwnRunsPaired(cfg, now, a, b, t);
    OwnPart(cfg, now, a, t);
    OwnPart(cfg, now, b, t);
    RecordsStayAlike(cfg, Initial(now), Purge(cfg, Initial(now), a, t),
                     Initial(now), Purge(cfg, Initial(now), b, t), t);
    OwnTablesOrdered(cfg, now, a, t);
    OwnTablesOrdered(cfg, now, b, t);
    AlikeIsRenumbered(RecordsOf(cfg, now, a, t), RecordsOf(cfg, now, b, t));
  }

  lemma EndsRenumbered(cfg: Config, a: Tables, b: Tables, t: TestID)
    requires TablesInv(cfg, a) && TablesInv(cfg, b) && AgreeOn(a, b, t)
    requires a.tests.Keys <= {t} && b.tests.Keys <= {t}
    requires Renumbered(a.dnsRecords, b.dnsRecords) && Alike(a.httpFiles, b.httpFiles) && LogsAlike(a, b)
    ensures TablesRenumbered(a, b)
  {
    assert a.tests == b.tests;
    AlikeIsRenumbered(a.httpFiles, b.httpFiles);
    AlikeIsRenumbered(a.dnsRequests, b.dnsRequests);
    AlikeIsRenumbered(a.httpRequests, b.httpRequests);
    AlikeIsRenumbered(a.smtpRequests, b.smtpRequests);
  }

  /** As long as no removal of a positive row id follows an insertion into the same table, the steps of a test alone,
      without the row ids the database picks, decide how it ends: its times, records, files and logs, up to an
      order-preserving renumbering of its rows. */
  lemma SameStepsSameEnds(cfg: Config, now: int, a: seq<Label>, b: seq<Label>, t: TestID)
    requires ValidRun(cfg, Initial(now), a) && ValidRun(cfg, Initial(now), b) && SameSteps(cfg, now, a, b, t)
    requires RecordsKept(OwnHistory(cfg, now, b, t)) && FilesKept(OwnHistory(cfg, now, b, t))
    ensures TablesRenumbered(TablesOf(Run(cfg, Initial(now), a).db, t), TablesOf(Run(cfg, Initial(now), b).db, t))
  {
    var own, other := Purge(cfg, Initial(now), a, t), Purge(cfg, Initial(now), b, t);
    OwnRunsPaired(cfg, now, a, b, t);
    OwnPart(cfg, now, a, t);
    OwnPart(cfg, now, b, t);
    SameStepsSameRecords(cfg, now, a, b, t);
    FilesStayAlike(cfg, Initial(now), own, Initial(now), other, t);
    LogsStayAlike(cfg, Initial(now), own, Initial(now), other, t);
    PairedHosts(cfg, Initial(now), own, Initial(now), other, t);
    OwnTablesOrdered(cfg, now, a, t);
    OwnTablesOrdered(cfg, now, b, t);
    EndsRenumbered(cfg, TablesOf(Run(cfg, Initial(now), a).db, t), TablesOf(Run(cfg, Initial(now), b).db, t), t);
  }
}
