/** What reaches a running test is recorded, exactly once, whatever else the servers do in the meantime. */
module Delivery {
  import opened Options
  import opened TestIds
  import opened Records
  import opened Tables
  import opened Dns
  import opened Http
  import opened Machine
  import opened Invariants
  import opened Sequential
  import opened Files

  /** A log row without its row id. */
  datatype Entry =
    | DnsRow(test: TestID, dns: DnsEntry)
    | HttpRow(test: TestID, http: HttpEntry)
    | SmtpRow(test: TestID, smtp: Envelope)

  datatype Kind = DnsKind | HttpKind | SmtpKind

  predicate IsOf(entry: Entry, kind: Kind) {
    match kind
    case DnsKind => entry.DnsRow?
    case HttpKind => entry.HttpRow?
    case SmtpKind => entry.SmtpRow?
  }

  /** The row a statement adds to a log, and the handler that executes it. */
  datatype Record = Record(handler: nat, entry: Entry)

  function EntryOf(stmt: Statement): Option<Entry> {
    match stmt
    case LogDns(_, t, e) => Some(DnsRow(t, e))
    case LogHttp(_, t, e) => Some(HttpRow(t, e))
    case LogSmtp(_, t, e) => Some(SmtpRow(t, e))
    case _ => None
  }

  function RecordOf(cfg: Config, s: State, l: Label): Option<Record> {
    match EntryOf(StatementOf(cfg, s, l))
    case Some(entry) => if l.Advance? then Some(Record(l.h, entry)) else None
    case None => None
  }

  /** Everything the handlers record over a run, in order. */
  function Trail(cfg: Config, s: State, ls: seq<Label>): seq<Record>
    decreases |ls|
  {
    if ls == [] then []
    else
      var rest := Trail(cfg, Apply(cfg, s, ls[0]), ls[1..]);
      match RecordOf(cfg, s, ls[0])
      case Some(first) => [first] + rest
      case None => rest
  }

  /** What one handler recorded. */
  function By(trail: seq<Record>, h: nat): seq<Entry> {
    if trail == [] then []
    else if trail[0].handler == h then [trail[0].entry] + By(trail[1..], h)
    else By(trail[1..], h)
  }

  /** What was recorded in one of the three logs. */
  function Of(trail: seq<Record>, kind: Kind): seq<Entry> {
    if trail == [] then []
    else if IsOf(trail[0].entry, kind) then [trail[0].entry] + Of(trail[1..], kind)
    else Of(trail[1..], kind)
  }

  /** What one step adds to a log, and what it records on behalf of a handler. */
  function Added(cfg: Config, s: State, l: Label, kind: Kind): seq<Entry> {
    match RecordOf(cfg, s, l)
    case Some(record) => if IsOf(record.entry, kind) then [record.entry] else []
    case None => []
  }

  function AddedBy(cfg: Config, s: State, l: Label, h: nat): seq<Entry> {
    match RecordOf(cfg, s, l)
    case Some(record) => if record.handler == h then [record.entry] else []
    case None => []
  }

  // The logs hold what was recorded

  function Contents(db: Tables, kind: Kind): seq<Entry> {
    match kind
    case DnsKind =>
      seq(|db.dnsRequests|,
          i requires 0 <= i < |db.dnsRequests| => DnsRow(db.dnsRequests[i].test, db.dnsRequests[i].value))
    case HttpKind =>
      seq(|db.httpRequests|,
          i requires 0 <= i < |db.httpRequests| => HttpRow(db.httpRequests[i].test, db.httpRequests[i].value))
    case SmtpKind =>
      seq(|db.smtpRequests|,
          i requires 0 <= i < |db.smtpRequests| => SmtpRow(db.smtpRequests[i].test, db.smtpRequests[i].value))
  }

  lemma ExecuteContents(db: Tables, now: int, stmt: Statement, kind: Kind)
    requires Permitted(db, stmt)
    ensures Contents(Execute(db, now, stmt), kind)
         == Contents(db, kind) + match EntryOf(stmt)
                                 case Some(entry) => if IsOf(entry, kind) then [entry] else []
                                 case None => []
  {
  }

  /** The foreign key of a log row never fails: its test was found running before. */
  lemma LogIsPermitted(cfg: Config, db: Tables, handler: Handler, ok: bool, id: nat)
    requires HandlerInv(cfg, db, handler) && EntryOf(NextStep(cfg, db, handler, ok, id).stmt).Some?
    ensures Permitted(db, NextStep(cfg, db, handler, ok, id).stmt)
  {
  }

  lemma OnlyHandlersRecord(cfg: Config, s: State, l: Label)
    requires Inv(cfg, s) && Enabled(cfg, s, l)
    ensures EntryOf(StatementOf(cfg, s, l)).Some? ==> l.Advance? && Permitted(s.db, StatementOf(cfg, s, l))
  {
    if l.Advance? && EntryOf(StatementOf(cfg, s, l)).Some? {
      LogIsPermitted(cfg, s.db, s.handlers[l.h], l.ok, l.id);
    }
  }

  lemma StepContents(cfg: Config, s: State, l: Label, kind: Kind)
    requires Inv(cfg, s) && Enabled(cfg, s, l)
    ensures Contents(Apply(cfg, s, l).db, kind) == Contents(s.db, kind) + Added(cfg, s, l, kind)
  {
    OnlyHandlersRecord(cfg, s, l);
    var stmt := StatementOf(cfg, s, l);
    if Permitted(s.db, stmt) {
      ExecuteContents(s.db, s.clock, stmt, kind);
    }
  }

  lemma TrailStep(cfg: Config, s: State, ls: seq<Label>, next: State, kind: Kind, h: nat)
    requires ls != [] && next == Apply(cfg, s, ls[0])
    ensures Of(Trail(cfg, s, ls), kind) == Added(cfg, s, ls[0], kind) + Of(Trail(cfg, next, ls[1..]), kind)
    ensures By(Trail(cfg, s, ls), h) == AddedBy(cfg, s, ls[0], h) + By(Trail(cfg, next, ls[1..]), h)
  {
    var rest := Trail(cfg, next, ls[1..]);
    if RecordOf(cfg, s, ls[0]).Some? {
      assert Trail(cfg, s, ls)[1..] == rest;
    }
  }

  lemma Regroup(a: seq<Entry>, b: seq<Entry>, c: seq<Entry>)
    ensures (a + b) + c == a + (b + c)
  {
  }

  /** The logs at the end of a run are those at its start and then, in order, what its handlers recorded. */
  lemma {:induction false} LogsAreTrail(cfg: Config, s: State, ls: seq<Label>, kind: Kind)
    requires Inv(cfg, s) && ValidRun(cfg, s, ls)
    ensures Contents(Run(cfg, s, ls).db, kind) == Contents(s.db, kind) + Of(Trail(cfg, s, ls), kind)
    decreases |ls|
  {
    if ls == [] {
      assert Contents(s.db, kind) + [] == Contents(s.db, kind);
    } else {
      var next := Apply(cfg, s, ls[0]);
      StepContents(cfg, s, ls[0], kind);
      ApplyKeepsInv(cfg, s, ls[0]);
      LogsAreTrail(cfg, next, ls[1..], kind);
      TrailStep(cfg, s, ls, next, kind, 0);
      Regroup(Contents(s.db, kind), Added(cfg, s, ls[0], kind), Of(Trail(cfg, next, ls[1..]), kind));
    }
  }

  // What a handler has still to record

  function DnsEntryOf(query: DnsQuery): DnsEntry {
    DnsEntry(query.remote, query.question.name, query.question.qtype)
  }

  /** The message, once for each of the tests. */
  function Copies(envelope: Envelope, ids: seq<TestID>): seq<Entry> {
    seq(|ids|, i requires 0 <= i < |ids| => SmtpRow(ids[i], envelope))
  }

  /** What the handler will record if all its statements succeed and no test is started or stopped. */
  function Due(db: Tables, handler: Handler): seq<Entry> {
    match handler
    case DnsHandler(query, target, phase) =>
      if phase.DnsDone? || (phase.DnsArrived? && !Running(db, target.id)) then []
      else [DnsRow(target.id, DnsEntryOf(query))]
    case HttpHandler(req, target, phase) =>
      if phase.HttpDone? || (phase.HttpArrived? && !Running(db, target.id)) then []
      else [HttpRow(target.id, HttpEntryOf(req))]
    case SmtpHandler(envelope, _, pending, checked) =>
      if checked && pending != [] then Copies(envelope, [pending[0]] + RunningOnly(db, pending[1..]))
      else Copies(envelope, RunningOnly(db, pending))
    case _ => []
  }

  /** The tests the handler has still to do with. */
  function TestsOf(handler: Handler): set<TestID> {
    match handler
    case DnsHandler(_, target, _) => {target.id}
    case HttpHandler(_, target, _) => {target.id}
    case SmtpHandler(_, _, pending, _) => set t | t in pending
    case _ => {}
  }

  ghost predicate SameRunning(a: Tables, b: Tables, tests: set<TestID>) {
    forall t :: t in tests ==> (Running(a, t) <==> Running(b, t))
  }

  /** None of these tests is started or stopped along the run. */
  ghost predicate Steady(cfg: Config, s: State, ls: seq<Label>, tests: set<TestID>)
    decreases |ls|
  {
    ls == [] || (SameRunning(s.db, Apply(cfg, s, ls[0]).db, tests) && Steady(cfg, Apply(cfg, s, ls[0]), ls[1..], tests))
  }

  /** Every statement of the handler succeeds. */
  predicate Succeeding(ls: seq<Label>, h: nat) {
    forall i :: 0 <= i < |ls| && ls[i].Advance? && ls[i].h == h ==> ls[i].ok
  }

  lemma {:induction false} RunningOnlySame(a: Tables, b: Tables, ids: seq<TestID>)
    requires SameRunning(a, b, set t | t in ids)
    ensures RunningOnly(a, ids) == RunningOnly(b, ids)
  {
    if ids != [] {
      assert ids[0] in ids;
      RunningOnlySame(a, b, ids[1..]);
    }
  }

  lemma DueSame(a: Tables, b: Tables, handler: Handler)
    requires SameRunning(a, b, TestsOf(handler))
    ensures Due(a, handler) == Due(b, handler)
  {
    if handler.SmtpHandler? && handler.pending != [] {
      RunningOnlySame(a, b, handler.pending);
      RunningOnlySame(a, b, handler.pending[1..]);
    } else if handler.DnsHandler? {
      assert handler.dnsTarget.id in TestsOf(handler);
    } else if handler.HttpHandler? {
      assert handler.httpTarget.id in TestsOf(handler);
    }
  }

  function Recorded(stmt: Statement): seq<Entry> {
    match EntryOf(stmt)
    case Some(entry) => [entry]
    case None => []
  }

  lemma SmtpStepDue(cfg: Config, db: Tables, handler: Handler, id: nat)
    requires handler.SmtpHandler?
    ensures var step := NextStep(cfg, db, handler, true, id);
            Recorded(step.stmt) + Due(db, step.next) == Due(db, handler)
  {
    var pending, envelope := handler.pending, handler.envelope;
    if pending != [] && handler.checked {
      assert Copies(envelope, [pending[0]] + RunningOnly(db, pending[1..]))
          == [SmtpRow(pending[0], envelope)] + Copies(envelope, RunningOnly(db, pending[1..]));
    }
  }

  lemma DnsStepDue(cfg: Config, db: Tables, handler: Handler, id: nat)
    requires handler.DnsHandler?
    ensures var step := NextStep(cfg, db, handler, true, id);
            Recorded(step.stmt) + Due(db, step.next) == Due(db, handler)
  {
  }

  lemma HttpStepDue(cfg: Config, db: Tables, handler: Handler, id: nat)
    requires handler.HttpHandler? && HandlerInv(cfg, db, handler)
    ensures var step := NextStep(cfg, db, handler, true, id);
            Recorded(step.stmt) + Due(db, step.next) == Due(db, handler)
  {
  }

  lemma FewerTests(cfg: Config, db: Tables, handler: Handler, ok: bool, id: nat)
    ensures TestsOf(NextStep(cfg, db, handler, ok, id).next) <= TestsOf(handler)
  {
  }

  /** A successful step records the first thing that was due, or nothing. */
  lemma StepDue(cfg: Config, db: Tables, handler: Handler, id: nat)
    requires HandlerInv(cfg, db, handler)
    ensures var step := NextStep(cfg, db, handler, true, id);
            Recorded(step.stmt) + Due(db, step.next) == Due(db, handler)
  {
    match handler
    case DnsHandler(_, _, _) => DnsStepDue(cfg, db, handler, id);
    case HttpHandler(_, _, _) => HttpStepDue(cfg, db, handler, id);
    case SmtpHandler(_, _, _, _) => SmtpStepDue(cfg, db, handler, id);
    case _ =>
  }

  lemma AddedIsRecorded(cfg: Config, s: State, l: Label, h: nat)
    requires Inv(cfg, s) && Enabled(cfg, s, l)
    ensures AddedBy(cfg, s, l, h) == if l.Advance? && l.h == h then Recorded(StatementOf(cfg, s, l)) else []
  {
    OnlyHandlersRecord(cfg, s, l);
  }

  lemma RunStepDue(cfg: Config, s: State, l: Label, h: nat, tests: set<TestID>)
    requires Inv(cfg, s) && Enabled(cfg, s, l) && h in s.handlers
    requires l.Advance? && l.h == h ==> l.ok
    requires TestsOf(s.handlers[h]) <= tests && SameRunning(s.db, Apply(cfg, s, l).db, tests)
    ensures var after := Apply(cfg, s, l);
            && h in after.handlers && TestsOf(after.handlers[h]) <= tests
            && AddedBy(cfg, s, l, h) + Due(after.db, after.handlers[h]) == Due(s.db, s.handlers[h])
  {
    var after := Apply(cfg, s, l);
    AddedIsRecorded(cfg, s, l, h);
    if l.Advance? && l.h == h {
      StepDue(cfg, s.db, s.handlers[h], l.id);
      FewerTests(cfg, s.db, s.handlers[h], l.ok, l.id);
    }
    DueSame(s.db, after.db, after.handlers[h]);
    assert [] + Due(after.db, after.handlers[h]) == Due(after.db, after.handlers[h]);
  }

  lemma SucceedingRest(ls: seq<Label>, h: nat)
    requires ls != [] && Succeeding(ls, h)
    ensures (ls[0].Advance? && ls[0].h == h ==> ls[0].ok) && Succeeding(ls[1..], h)
  {
    assert forall i :: 0 <= i < |ls[1..]| ==> ls[1..][i] == ls[i + 1];
  }

  /** What the handler recorded, and what it has still to record in the state after, make up what was due before. */
  ghost predicate Accounts(db: Tables, handler: Handler, recorded: seq<Entry>, after: State, h: nat) {
    h in after.handlers && recorded + Due(after.db, after.handlers[h]) == Due(db, handler)
  }

  /** Under every interleaving: what a handler whose statements succeed has recorded, and what it has still to record,
      are together what it had to record at first, as long as its tests are neither started nor stopped. */
  lemma {:induction false} RecordedAndDue(cfg: Config, s: State, ls: seq<Label>, h: nat, tests: set<TestID>)
    requires Inv(cfg, s) && ValidRun(cfg, s, ls) && h in s.handlers
    requires Succeeding(ls, h) && TestsOf(s.handlers[h]) <= tests && Steady(cfg, s, ls, tests)
    ensures Accounts(s.db, s.handlers[h], By(Trail(cfg, s, ls), h), Run(cfg, s, ls), h)
    decreases |ls|
  {
    if ls == [] {
      assert [] + Due(s.db, s.handlers[h]) == Due(s.db, s.handlers[h]);
    } else {
      var next, after := Apply(cfg, s, ls[0]), Run(cfg, s, ls);
      ApplyKeepsInv(cfg, s, ls[0]);
      SucceedingRest(ls, h);
      RunStepDue(cfg, s, ls[0], h, tests);
      RecordedAndDue(cfg, next, ls[1..], h, tests);
      TrailStep(cfg, s, ls, next, DnsKind, h);
      Regroup(AddedBy(cfg, s, ls[0], h), By(Trail(cfg, next, ls[1..]), h), Due(after.db, after.handlers[h]));
    }
  }

  // From arrival to reply

  predicate Completed(s: State, h: nat) {
    h in s.handlers && Finished(s.handlers[h])
  }

  lemma NothingIsDue(db: Tables, handler: Handler)
    requires Finished(handler)
    ensures Due(db, handler) == []
  {
  }

  /** A request that has come in and been dealt with has recorded exactly what was due when it came in. */
  lemma CompletedHasRecorded(cfg: Config, s: State, ls: seq<Label>, h: nat, tests: set<TestID>)
    requires Inv(cfg, s) && ls != [] && ValidRun(cfg, s, ls) && IsArrival(ls[0]) && ls[0].h == h
    requires Succeeding(ls, h) && Steady(cfg, s, ls, tests) && TestsOf(Arrival(cfg, ls[0])) <= tests
    requires Completed(Run(cfg, s, ls), h)
    ensures By(Trail(cfg, s, ls), h) == Due(s.db, Arrival(cfg, ls[0]))
  {
    var next, after := Apply(cfg, s, ls[0]), Run(cfg, s, ls);
    ApplyKeepsInv(cfg, s, ls[0]);
    SucceedingRest(ls, h);
    RecordedAndDue(cfg, next, ls[1..], h, tests);
    NothingIsDue(after.db, after.handlers[h]);
    AddedIsRecorded(cfg, s, ls[0], h);
    TrailStep(cfg, s, ls, next, DnsKind, h);
    var recorded := By(Trail(cfg, next, ls[1..]), h);
    assert recorded + [] == recorded && [] + recorded == recorded;
  }

  lemma CopiesMembers(envelope: Envelope, ids: seq<TestID>, t: TestID)
    ensures SmtpRow(t, envelope) in Copies(envelope, ids) <==> t in ids
  {
    if t in ids {
      var i :| 0 <= i < |ids| && ids[i] == t;
      assert Copies(envelope, ids)[i] == SmtpRow(t, envelope);
    }
  }

  lemma DueOfMessage(cfg: Config, db: Tables, envelope: Envelope, ids: seq<TestID>)
    ensures Due(db, ArriveSmtp(envelope, ids)) == Copies(envelope, RunningOnly(db, Distinct(ids)))
    ensures TestsOf(ArriveSmtp(envelope, ids)) <= set t | t in ids
    ensures forall t :: SmtpRow(t, envelope) in Due(db, ArriveSmtp(envelope, ids)) <==> t in ids && Running(db, t)
  {
    DistinctMembers(ids);
    RunningOnlyMembers(db, Distinct(ids));
    forall t ensures SmtpRow(t, envelope) in Due(db, ArriveSmtp(envelope, ids)) <==> t in ids && Running(db, t) {
      CopiesMembers(envelope, RunningOnly(db, Distinct(ids)), t);
    }
  }

  /** A message delivered without failing statements is recorded once for each of the tests among its recipients that
      are running, in order of first occurrence, with the full recipient list, and for no other test: whatever other
      requests, posts and messages the server handles meanwhile. */
  lemma MessageIsRecorded(cfg: Config, s: State, ls: seq<Label>, h: nat, envelope: Envelope, ids: seq<TestID>)
    requires Reachable(cfg, s) && ls != [] && ValidRun(cfg, s, ls) && ls[0] == SmtpArrive(h, envelope, ids)
    requires Succeeding(ls, h) && Steady(cfg, s, ls, set t | t in ids) && Completed(Run(cfg, s, ls), h)
    ensures By(Trail(cfg, s, ls), h) == Copies(envelope, RunningOnly(s.db, Distinct(ids)))
    ensures forall t :: SmtpRow(t, envelope) in By(Trail(cfg, s, ls), h) <==> t in ids && Running(s.db, t)
  {
    ReachableInv(cfg, s);
    DueOfMessage(cfg, s.db, envelope, ids);
    CompletedHasRecorded(cfg, s, ls, h, set t | t in ids);
  }

  /** A query for the name of a running test is recorded once, with the question that was asked. */
  lemma QueryIsRecorded(cfg: Config, s: State, ls: seq<Label>, h: nat, req: DnsRequest, target: Target)
    requires Reachable(cfg, s) && ls != [] && ValidRun(cfg, s, ls) && ls[0] == DnsArrive(h, req)
    requires req.questions != [] && Served(cfg, req.questions[0])
    requires NamedTest(cfg, Fqdn(req.questions[0])) == Some(target)
    requires Succeeding(ls, h) && Steady(cfg, s, ls, {target.id}) && Completed(Run(cfg, s, ls), h)
    ensures var question := req.questions[0];
            By(Trail(cfg, s, ls), h)
            == if Running(s.db, target.id) then
                 [DnsRow(target.id, DnsEntry(req.remote, question.name, question.qtype))]
               else []
  {
    ReachableInv(cfg, s);
    ArrivalOfRequest(cfg, req);
    CompletedHasRecorded(cfg, s, ls, h, {target.id});
  }

  // The reply to an HTTP request

  /** The handler holds the content, or has replied with it. */
  predicate Holds(s: State, h: nat, content: string) {
    && h in s.handlers && s.handlers[h].HttpHandler?
    && var phase := s.handlers[h].httpPhase; phase == HttpRead(content) || phase == HttpDone(HttpReply(200, content))
  }

  lemma HttpStepHolds(cfg: Config, db: Tables, handler: Handler, id: nat, content: string)
    requires handler.HttpHandler? && handler.httpPhase == HttpRead(content) && HandlerInv(cfg, db, handler)
    ensures NextStep(cfg, db, handler, true, id).next
         == HttpHandler(handler.httpReq, handler.httpTarget, HttpDone(HttpReply(200, content)))
  {
  }

  lemma StepHolds(cfg: Config, s: State, l: Label, h: nat, content: string)
    requires Inv(cfg, s) && Enabled(cfg, s, l) && Holds(s, h, content) && (l.Advance? && l.h == h ==> l.ok)
    ensures Holds(Apply(cfg, s, l), h, content)
  {
    if l.Advance? && l.h == h {
      HttpStepHolds(cfg, s.db, s.handlers[h], l.id, content);
    }
  }

  lemma {:induction false} RunHolds(cfg: Config, s: State, ls: seq<Label>, h: nat, content: string)
    requires Inv(cfg, s) && ValidRun(cfg, s, ls) && Holds(s, h, content) && Succeeding(ls, h)
    ensures Holds(Run(cfg, s, ls), h, content)
    decreases |ls|
  {
    if ls != [] {
      SucceedingRest(ls, h);
      StepHolds(cfg, s, ls[0], h, content);
      ApplyKeepsInv(cfg, s, ls[0]);
      RunHolds(cfg, Apply(cfg, s, ls[0]), ls[1..], h, content);
    }
  }

  /** The handler is going to read its file: it has passed its check, or will pass it. */
  predicate WillRead(s: State, h: nat, req: HttpRequest, target: Target) {
    && h in s.handlers
    && (|| s.handlers[h] == HttpHandler(req, target, HttpChecked)
        || (s.handlers[h] == HttpHandler(req, target, HttpArrived) && Running(s.db, target.id)))
  }

  lemma ReadStep(cfg: Config, s: State, l: Label, h: nat, req: HttpRequest, target: Target)
    requires Enabled(cfg, s, l) && WillRead(s, h, req, target) && (l.Advance? && l.h == h ==> l.ok)
    requires SameRunning(s.db, Apply(cfg, s, l).db, {target.id})
    ensures if l.Advance? && l.h == h && ReadsFile(s, h) then
              Holds(Apply(cfg, s, l), h, ServedContent(s.db.httpFiles, target, req))
            else WillRead(Apply(cfg, s, l), h, req, target)
  {
    FindIsLookup(s.db.httpFiles, FileKey(target.id, RequestScheme(req), target.subdomain, req.path));
  }

  /** The k-th step of the run is the handler's read, and at the end it holds what it read then. */
  ghost predicate HoldsWhatItRead(
    cfg: Config, s: State, ls: seq<Label>, h: nat, k: nat, req: HttpRequest, target: Target)
    requires k < |ls|
  {
    var at := Run(cfg, s, ls[..k]);
    && ls[k].Advance? && ls[k].h == h && ReadsFile(at, h)
    && Holds(Run(cfg, s, ls), h, ServedContent(at.db.httpFiles, target, req))
  }

  lemma ReadsLater(cfg: Config, s: State, ls: seq<Label>, h: nat, k: nat, req: HttpRequest, target: Target)
    requires k + 1 < |ls| && HoldsWhatItRead(cfg, Apply(cfg, s, ls[0]), ls[1..], h, k, req, target)
    ensures HoldsWhatItRead(cfg, s, ls, h, k + 1, req, target)
  {
    RunLater(cfg, s, ls, k);
  }

  lemma ReadsNow(cfg: Config, s: State, ls: seq<Label>, h: nat, req: HttpRequest, target: Target)
    requires ls != [] && Inv(cfg, s) && ValidRun(cfg, s, ls) && Succeeding(ls, h)
    requires ls[0].Advance? && ls[0].h == h && ReadsFile(s, h)
    requires Holds(Apply(cfg, s, ls[0]), h, ServedContent(s.db.httpFiles, target, req))
    ensures HoldsWhatItRead(cfg, s, ls, h, 0, req, target)
  {
    SucceedingRest(ls, h);
    ApplyKeepsInv(cfg, s, ls[0]);
    RunHolds(cfg, Apply(cfg, s, ls[0]), ls[1..], h, ServedContent(s.db.httpFiles, target, req));
  }

  /** A request that will read its file has done so at some step of its own by the time it is dealt with. */
  lemma {:induction false} ReadsAndHolds(
    cfg: Config, s: State, ls: seq<Label>, h: nat, req: HttpRequest, target: Target) returns (k: nat)
    requires Inv(cfg, s) && ValidRun(cfg, s, ls) && WillRead(s, h, req, target)
    requires Succeeding(ls, h) && Steady(cfg, s, ls, {target.id}) && Completed(Run(cfg, s, ls), h)
    ensures k < |ls| && HoldsWhatItRead(cfg, s, ls, h, k, req, target)
    decreases |ls|
  {
    SucceedingRest(ls, h);
    ReadStep(cfg, s, ls[0], h, req, target);
    if ls[0].Advance? && ls[0].h == h && ReadsFile(s, h) {
      k := 0;
      ReadsNow(cfg, s, ls, h, req, target);
    } else {
      ApplyKeepsInv(cfg, s, ls[0]);
      k := ReadsAndHolds(cfg, Apply(cfg, s, ls[0]), ls[1..], h, req, target);
      ReadsLater(cfg, s, ls, h, k, req, target);
      k := k + 1;
    }
  }

  lemma {:induction false} RequestIsKept(cfg: Config, s: State, ls: seq<Label>, h: nat)
    requires ValidRun(cfg, s, ls) && h in s.handlers && s.handlers[h].HttpHandler?
    ensures var after := Run(cfg, s, ls).handlers;
            && h in after && after[h].HttpHandler?
            && after[h].httpReq == s.handlers[h].httpReq && after[h].httpTarget == s.handlers[h].httpTarget
    decreases |ls|
  {
    if ls != [] { RequestIsKept(cfg, Apply(cfg, s, ls[0]), ls[1..], h); }
  }

  lemma ReadsFromArrival(cfg: Config, s: State, ls: seq<Label>, h: nat, req: HttpRequest, target: Target)
    returns (k: nat)
    requires Inv(cfg, s) && ls != [] && ValidRun(cfg, s, ls) && ls[0] == HttpArrive(h, req)
    requires RouteOf(cfg, req) == ToTest(target) && Running(s.db, target.id)
    requires Succeeding(ls, h) && Steady(cfg, s, ls, {target.id}) && Completed(Run(cfg, s, ls), h)
    ensures k < |ls| && HoldsWhatItRead(cfg, s, ls, h, k, req, target)
    ensures Run(cfg, s, ls).handlers[h].httpReq == req && Run(cfg, s, ls).handlers[h].httpTarget == target
  {
    var next := Apply(cfg, s, ls[0]);
    ApplyKeepsInv(cfg, s, ls[0]);
    SucceedingRest(ls, h);
    assert next.handlers[h] == HttpHandler(req, target, HttpArrived);
    RequestIsKept(cfg, next, ls[1..], h);
    k := ReadsAndHolds(cfg, next, ls[1..], h, req, target);
    ReadsLater(cfg, s, ls, h, k, req, target);
    k := k + 1;
  }

  /** A request to the host of a running test is recorded once, and answered 200 with the file published at its key
      when it was read, or the empty body, whatever else the server handles meanwhile. */
  lemma RequestIsRecorded(cfg: Config, s: State, ls: seq<Label>, h: nat, req: HttpRequest, target: Target)
    returns (k: nat)
    requires Reachable(cfg, s) && ls != [] && ValidRun(cfg, s, ls) && ls[0] == HttpArrive(h, req)
    requires RouteOf(cfg, req) == ToTest(target) && Running(s.db, target.id)
    requires Succeeding(ls, h) && Steady(cfg, s, ls, {target.id}) && Completed(Run(cfg, s, ls), h)
    ensures req.remote.Some?
    ensures By(Trail(cfg, s, ls), h)
         == [HttpRow(target.id, HttpEntry(req.remote.value, req.host, req.tls, req.httpMethod, req.url))]
    ensures k < |ls| && ls[k].Advance? && ls[k].h == h && ReadsFile(Run(cfg, s, ls[..k]), h)
    ensures Run(cfg, s, ls).handlers[h]
         == HttpHandler(req, target, HttpDone(HttpReply(200,
              ServedContent(Run(cfg, s, ls[..k]).db.httpFiles, target, req))))
  {
    ReachableInv(cfg, s);
    CompletedHasRecorded(cfg, s, ls, h, {target.id});
    k := ReadsFromArrival(cfg, s, ls, h, req, target);
  }

  // Never twice

  /** The tests the handler may still log, each once. */
  function Possible(handler: Handler): seq<TestID> {
    match handler
    case DnsHandler(_, target, phase) => if phase.DnsDone? then [] else [target.id]
    case HttpHandler(_, target, phase) => if phase.HttpDone? then [] else [target.id]
    case SmtpHandler(_, _, pending, _) => pending
    case _ => []
  }

  ghost predicate NoRepeats(ids: seq<TestID>) {
    forall i, j :: 0 <= i < j < |ids| ==> ids[i] != ids[j]
  }

  /** What a step records is about a test that the handler can then not log again. */
  lemma StepUsesUp(cfg: Config, db: Tables, handler: Handler, ok: bool, id: nat)
    requires NoRepeats(Possible(handler))
    ensures var step := NextStep(cfg, db, handler, ok, id);
            && NoRepeats(Possible(step.next))
            && (forall t :: t in Possible(step.next) ==> t in Possible(handler))
            && (EntryOf(step.stmt).Some? ==>
                  EntryOf(step.stmt).value.test in Possible(handler)
                  && EntryOf(step.stmt).value.test !in Possible(step.next))
  {
  }

  /** Pairwise different tests, all among those given. */
  ghost predicate OncePerTest(entries: seq<Entry>, possible: seq<TestID>) {
    && (forall i :: 0 <= i < |entries| ==> entries[i].test in possible)
    && forall i, j :: 0 <= i < j < |entries| ==> entries[i].test != entries[j].test
  }

  lemma OneMore(first: seq<Entry>, rest: seq<Entry>, possible: seq<TestID>, left: seq<TestID>)
    requires OncePerTest(rest, left) && |first| <= 1
    requires forall t :: t in left ==> t in possible
    requires first != [] ==> first[0].test in possible && first[0].test !in left
    ensures OncePerTest(first + rest, possible)
  {
  }

  lemma RunStepUsesUp(cfg: Config, s: State, l: Label, h: nat)
    requires Enabled(cfg, s, l) && h in s.handlers && NoRepeats(Possible(s.handlers[h]))
    ensures var first, next := AddedBy(cfg, s, l, h), Apply(cfg, s, l);
            && h in next.handlers && NoRepeats(Possible(next.handlers[h]))
            && (forall t :: t in Possible(next.handlers[h]) ==> t in Possible(s.handlers[h]))
            && |first| <= 1
            && (first != [] ==> first[0].test in Possible(s.handlers[h])
                                && first[0].test !in Possible(next.handlers[h]))
  {
    if l.Advance? && l.h == h {
      StepUsesUp(cfg, s.db, s.handlers[h], l.ok, l.id);
    }
  }

  lemma {:induction false} OnceFromHere(cfg: Config, s: State, ls: seq<Label>, h: nat)
    requires ValidRun(cfg, s, ls) && h in s.handlers && NoRepeats(Possible(s.handlers[h]))
    ensures OncePerTest(By(Trail(cfg, s, ls), h), Possible(s.handlers[h]))
    decreases |ls|
  {
    if ls != [] {
      var next := Apply(cfg, s, ls[0]);
      TrailStep(cfg, s, ls, next, DnsKind, h);
      RunStepUsesUp(cfg, s, ls[0], h);
      OnceFromHere(cfg, next, ls[1..], h);
      OneMore(AddedBy(cfg, s, ls[0], h), By(Trail(cfg, next, ls[1..]), h), Possible(s.handlers[h]),
              Possible(next.handlers[h]));
    }
  }

  lemma ArrivesOnce(cfg: Config, l: Label)
    requires IsArrival(l)
    ensures NoRepeats(Possible(Arrival(cfg, l)))
  {
    if l.SmtpArrive? {
      DistinctMembers(l.ids);
    }
  }

  /** A handler that is not there yet records nothing, and arrives with each of its tests once. */
  lemma StepOfAbsent(cfg: Config, s: State, l: Label, h: nat)
    requires Enabled(cfg, s, l) && h !in s.handlers
    ensures AddedBy(cfg, s, l, h) == []
    ensures h in Apply(cfg, s, l).handlers ==> NoRepeats(Possible(Apply(cfg, s, l).handlers[h]))
  {
    if h in Apply(cfg, s, l).handlers {
      ArrivesOnce(cfg, l);
    }
  }

  lemma {:induction false} OnceFromArrival(cfg: Config, s: State, ls: seq<Label>, h: nat)
    returns (possible: seq<TestID>)
    requires ValidRun(cfg, s, ls) && h !in s.handlers
    ensures OncePerTest(By(Trail(cfg, s, ls), h), possible)
    decreases |ls|
  {
    possible := [];
    if ls != [] {
      var next := Apply(cfg, s, ls[0]);
      StepOfAbsent(cfg, s, ls[0], h);
      TrailStep(cfg, s, ls, next, DnsKind, h);
      var rest := By(Trail(cfg, next, ls[1..]), h);
      assert [] + rest == rest;
      if h in next.handlers {
        OnceFromHere(cfg, next, ls[1..], h);
        possible := Possible(next.handlers[h]);
      } else {
        possible := OnceFromArrival(cfg, next, ls[1..], h);
      }
    }
  }

  /** No request is ever logged twice for a test: in any run, with any failing statements, stops and cleanups. */
  lemma LoggedAtMostOnce(cfg: Config, now: int, ls: seq<Label>, h: nat)
    requires ValidRun(cfg, Initial(now), ls)
    ensures var recorded := By(Trail(cfg, Initial(now), ls), h);
            forall i, j :: 0 <= i < j < |recorded| ==> recorded[i].test != recorded[j].test
  {
    var _ := OnceFromArrival(cfg, Initial(now), ls, h);
  }
}
