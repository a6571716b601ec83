/** From form to answer: what the DNS server returns, in terms of what was posted and removed over the whole run. */
module Publication {
  import opened Options
  import opened Ascii
  import opened TestIds
  import opened Records
  import opened Posting
  import opened Tables
  import opened Dns
  import opened DnsTheorems
  import opened Machine
  import opened Invariants
  import opened Sequential

  // The history of a run

  /** The statements of a run, in order. */
  function History(cfg: Config, s: State, ls: seq<Label>): seq<Statement>
    decreases |ls|
  {
    if ls == [] then [] else [StatementOf(cfg, s, ls[0])] + History(cfg, Apply(cfg, s, ls[0]), ls[1..])
  }

  /** The records posted and not removed afterwards, in posting order. A removal names a test and a row id,
      and counts only against what was posted before it: the id may have been used again since. */
  function Live(history: seq<Statement>): Table<PublishedRecord> {
    if history == [] then []
    else
      var first := history[0];
      if first.InsertRecord? && DeleteRecord(first.test, first.id) !in history[1..] then
        [Row(first.id, first.test, first.record)] + Live(history[1..])
      else Live(history[1..])
  }

  /** The rows that no statement of the history removes. */
  function Surviving(rows: Table<PublishedRecord>, history: seq<Statement>): Table<PublishedRecord> {
    if rows == [] then []
    else
      var earlier, last := Surviving(rows[..|rows| - 1], history), rows[|rows| - 1];
      if DeleteRecord(last.test, last.id) in history then earlier else earlier + [last]
  }

  lemma SurvivingAppend(rows: Table<PublishedRecord>, row: Row<PublishedRecord>, history: seq<Statement>)
    ensures Surviving(rows + [row], history)
         == if DeleteRecord(row.test, row.id) in history then Surviving(rows, history)
            else Surviving(rows, history) + [row]
  {
    assert (rows + [row])[..|rows|] == rows;
  }

  lemma {:induction false} SurvivingDelete(rows: Table<PublishedRecord>, t: TestID, id: nat, history: seq<Statement>)
    ensures Surviving(Without(rows, t, id), history) == Surviving(rows, [DeleteRecord(t, id)] + history)
  {
    if rows != [] {
      var front, last := rows[..|rows| - 1], rows[|rows| - 1];
      SurvivingDelete(front, t, id, history);
      if last.test == t && last.id == id {
        assert Without(rows, t, id) == Without(front, t, id);
      } else {
        assert Without(rows, t, id) == Without(front, t, id) + [last];
        SurvivingAppend(Without(front, t, id), last, history);
      }
    }
  }

  lemma {:induction false} SurvivingOther(rows: Table<PublishedRecord>, stmt: Statement, history: seq<Statement>)
    requires !stmt.DeleteRecord?
    ensures Surviving(rows, [stmt] + history) == Surviving(rows, history)
  {
    if rows != [] {
      SurvivingOther(rows[..|rows| - 1], stmt, history);
    }
  }

  lemma {:induction false} SurvivingNothing(rows: Table<PublishedRecord>)
    ensures Surviving(rows, []) == rows
  {
    if rows != [] {
      SurvivingNothing(rows[..|rows| - 1]);
      assert rows == rows[..|rows| - 1] + [rows[|rows| - 1]];
    }
  }

  /** What a statement makes of the table of published records. */
  function RecordsAfter(rows: Table<PublishedRecord>, stmt: Statement): Table<PublishedRecord> {
    match stmt
    case InsertRecord(id, t, record) => rows + [Row(id, t, record)]
    case DeleteRecord(t, id) => Without(rows, t, id)
    case _ => rows
  }

  lemma StepOfTable(cfg: Config, s: State, l: Label)
    ensures Apply(cfg, s, l).db.dnsRecords == RecordsAfter(s.db.dnsRecords, StatementOf(cfg, s, l))
  {
  }

  lemma LiveInsert(
    rows: Table<PublishedRecord>, id: nat, t: TestID, record: PublishedRecord, rest: seq<Statement>)
    ensures var stmt := InsertRecord(id, t, record);
            Surviving(rows + [Row(id, t, record)], rest) + Live(rest)
            == Surviving(rows, [stmt] + rest) + Live([stmt] + rest)
  {
    var stmt := InsertRecord(id, t, record);
    assert ([stmt] + rest)[1..] == rest;
    SurvivingAppend(rows, Row(id, t, record), rest);
    SurvivingOther(rows, stmt, rest);
  }

  lemma LiveStep(rows: Table<PublishedRecord>, stmt: Statement, rest: seq<Statement>)
    ensures Surviving(RecordsAfter(rows, stmt), rest) + Live(rest)
         == Surviving(rows, [stmt] + rest) + Live([stmt] + rest)
  {
    assert ([stmt] + rest)[1..] == rest;
    match stmt
    case InsertRecord(id, t, record) => LiveInsert(rows, id, t, record, rest);
    case DeleteRecord(t, id) => SurvivingDelete(rows, t, id, rest);
    case _ => SurvivingOther(rows, stmt, rest);
  }

  /** The table of published records is what the history says: the initial rows never removed,
      then the posted records not removed afterwards. */
  lemma {:induction false} TableIsHistory(cfg: Config, s: State, ls: seq<Label>)
    ensures Run(cfg, s, ls).db.dnsRecords
         == Surviving(s.db.dnsRecords, History(cfg, s, ls)) + Live(History(cfg, s, ls))
    decreases |ls|
  {
    if ls == [] {
      SurvivingNothing(s.db.dnsRecords);
    } else {
      var next := Apply(cfg, s, ls[0]);
      TableIsHistory(cfg, next, ls[1..]);
      StepOfTable(cfg, s, ls[0]);
      LiveStep(s.db.dnsRecords, StatementOf(cfg, s, ls[0]), History(cfg, next, ls[1..]));
    }
  }

  lemma NothingSurvives(history: seq<Statement>)
    ensures Surviving([], history) + Live(history) == Live(history)
  {
    assert Surviving([], history) == [];
  }

  lemma LiveTable(cfg: Config, now: int, ls: seq<Label>)
    ensures Run(cfg, Initial(now), ls).db.dnsRecords == Live(History(cfg, Initial(now), ls))
  {
    var history := History(cfg, Initial(now), ls);
    TableIsHistory(cfg, Initial(now), ls);
    NothingSurvives(history);
  }

  // The published answer

  /** The records posted for a test at a subdomain and not since removed, in posting order. */
  function LiveAt(history: seq<Statement>, target: Target): seq<PublishedRecord> {
    SelectRecords(Live(history), target.id, target.subdomain, TYPE_ANY)
  }

  function RecordsOfType(qtype: nat, records: seq<PublishedRecord>): seq<PublishedRecord> {
    if records == [] then []
    else
      var earlier, last := RecordsOfType(qtype, records[..|records| - 1]), records[|records| - 1];
      if Wanted(qtype, last.rrtype) then earlier + [last] else earlier
  }

  lemma {:induction false} TypesAreSelected(
    rows: Table<PublishedRecord>, t: TestID, subdomain: string, qtype: nat)
    requires FirstCname(SelectRecords(rows, t, subdomain, TYPE_ANY)).None?
    ensures RecordsOfType(qtype, SelectRecords(rows, t, subdomain, TYPE_ANY))
         == SelectRecords(rows, t, subdomain, qtype)
  {
    if rows != [] {
      var front, last := rows[..|rows| - 1], rows[|rows| - 1];
      var any := SelectRecords(front, t, subdomain, TYPE_ANY);
      if last.test == t && Selected(last.value, subdomain, TYPE_ANY) {
        assert SelectRecords(rows, t, subdomain, TYPE_ANY)[..|any|] == any;
        assert SelectRecords(rows, t, subdomain, TYPE_ANY) == any + [last.value];
        FirstCnameAppend(any, last.value);
        TypesAreSelected(front, t, subdomain, qtype);
      } else {
        assert SelectRecords(rows, t, subdomain, TYPE_ANY) == any;
        TypesAreSelected(front, t, subdomain, qtype);
      }
    }
  }

  lemma {:induction false} WantedAreReadable(cfg: Config, qtype: nat, records: seq<PublishedRecord>)
    requires AllReadable(cfg, records)
    ensures AllReadable(cfg, RecordsOfType(qtype, records))
  {
    if records != [] {
      WantedAreReadable(cfg, qtype, records[..|records| - 1]);
    }
  }

  /** What a query ought to return: the oldest live CNAME alone, or what is built in at the name followed by the
      live records of the type asked, in posting order. */
  ghost function PublishedAnswer(
    cfg: Config, history: seq<Statement>, fqdn: string, target: Target, qtype: nat): Answers
    requires ValidConfig(cfg) && GoodRecords(cfg, Live(history))
  {
    var live := LiveAt(history, target);
    SelectedAreGood(cfg, Live(history), target.id, target.subdomain, TYPE_ANY);
    LookupOfPosted(cfg, target.id, live, None);
    var wanted := RecordsOfType(qtype, live);
    WantedAreReadable(cfg, qtype, live);
    if FirstCname(live).Some? then Some([RecordRR(cfg, target.id, FirstCname(live).value)])
    else Append(BuiltinAnswers(cfg, fqdn, qtype), RecordRRs(cfg, target.id, wanted))
  }

  /** The handler's next statement is its lookup. */
  predicate LooksUp(s: State, h: nat) {
    && h in s.handlers && s.handlers[h].DnsHandler? && s.handlers[h].dnsPhase.DnsChecked?
  }

  ghost function AnswerFor(cfg: Config, history: seq<Statement>, handler: Handler): Answers
    requires ValidConfig(cfg) && GoodRecords(cfg, Live(history))
    requires handler.DnsHandler?
  {
    PublishedAnswer(cfg, history, Fqdn(handler.query.question), handler.dnsTarget, handler.query.question.qtype)
  }

  lemma LookupOfLive(cfg: Config, rows: Table<PublishedRecord>, history: seq<Statement>,
                     fqdn: string, target: Target, qtype: nat)
    requires ValidConfig(cfg) && rows == Live(history) && GoodRecords(cfg, rows)
    ensures Lookup(cfg, target.id, SelectRecords(rows, target.id, target.subdomain, qtype),
                   BuiltinAnswers(cfg, fqdn, qtype)).answers
         == PublishedAnswer(cfg, history, fqdn, target, qtype)
  {
    var records := SelectRecords(rows, target.id, target.subdomain, qtype);
    SelectedAreGood(cfg, rows, target.id, target.subdomain, qtype);
    CnameForEveryType(rows, target.id, target.subdomain, qtype);
    CnameForEveryType(rows, target.id, target.subdomain, TYPE_ANY);
    LookupOfPosted(cfg, target.id, records, BuiltinAnswers(cfg, fqdn, qtype));
    if FirstCname(LiveAt(history, target)).None? {
      TypesAreSelected(rows, target.id, target.subdomain, qtype);
    }
  }

  /** The lookup step of a handler, in any state the invariant allows: whether or not the test was stopped since
      the handler's check, it sees exactly what is published. */
  lemma LookupIsPublished(cfg: Config, s: State, history: seq<Statement>, h: nat, id: nat)
    requires ValidConfig(cfg) && Inv(cfg, s) && s.db.dnsRecords == Live(history) && LooksUp(s, h)
    ensures var handler := s.handlers[h];
            NextStep(cfg, s.db, handler, true, id).next
            == handler.(dnsPhase := DnsLookedUp(AnswerFor(cfg, history, handler)))
  {
    var handler := s.handlers[h];
    assert HandlerInv(cfg, s.db, handler);
    var target, qtype := handler.dnsTarget, handler.query.question.qtype;
    LookupOfLive(cfg, s.db.dnsRecords, history, Fqdn(handler.query.question), target, qtype);
  }

  /** Once looked up, the answers of a handler are what it replies, whatever happens in between. */
  ghost predicate AnswersWith(s: State, h: nat, cfg: Config, answers: Answers) {
    && h in s.handlers && s.handlers[h].DnsHandler?
    && (s.handlers[h].dnsPhase == DnsLookedUp(answers) || s.handlers[h].dnsPhase == DnsDone(Finish(cfg, answers)))
  }

  lemma {:induction false} AnswersAreKept(cfg: Config, s: State, ls: seq<Label>, h: nat, answers: Answers)
    requires AnswersWith(s, h, cfg, answers) && ValidRun(cfg, s, ls)
    ensures AnswersWith(Run(cfg, s, ls), h, cfg, answers)
    decreases |ls|
  {
    if ls != [] {
      AnswersAreKept(cfg, Apply(cfg, s, ls[0]), ls[1..], h, answers);
    }
  }

  lemma LiveIsGood(cfg: Config, now: int, ls: seq<Label>)
    requires ValidRun(cfg, Initial(now), ls)
    ensures Inv(cfg, Run(cfg, Initial(now), ls)) && GoodRecords(cfg, Live(History(cfg, Initial(now), ls)))
  {
    InitialInv(cfg, now);
    RunKeepsInv(cfg, Initial(now), ls);
    LiveTable(cfg, now, ls);
  }

  lemma LookupStep(cfg: Config, now: int, ls: seq<Label>, l: Label)
    requires ValidConfig(cfg) && ValidRun(cfg, Initial(now), ls)
    requires l.Advance? && l.ok && LooksUp(Run(cfg, Initial(now), ls), l.h)
    ensures var s, history := Run(cfg, Initial(now), ls), History(cfg, Initial(now), ls);
            && GoodRecords(cfg, Live(history))
            && AnswersWith(Apply(cfg, s, l), l.h, cfg, AnswerFor(cfg, history, s.handlers[l.h]))
  {
    LiveIsGood(cfg, now, ls);
    LiveTable(cfg, now, ls);
    LookupIsPublished(cfg, Run(cfg, Initial(now), ls), History(cfg, Initial(now), ls), l.h, l.id);
  }

  /** End to end, under every interleaving: a query whose lookup is the k-th step of a run is answered with
      exactly what had been published at that moment. */
  lemma RepliesWithPublished(cfg: Config, now: int, ls: seq<Label>, k: nat)
    requires ValidConfig(cfg) && ValidRun(cfg, Initial(now), ls) && k < |ls|
    requires ls[k].Advance? && ls[k].ok && LooksUp(Run(cfg, Initial(now), ls[..k]), ls[k].h)
    ensures var s, history := Run(cfg, Initial(now), ls[..k]), History(cfg, Initial(now), ls[..k]);
            && GoodRecords(cfg, Live(history))
            && AnswersWith(Run(cfg, Initial(now), ls), ls[k].h, cfg, AnswerFor(cfg, history, s.handlers[ls[k].h]))
  {
    RunPrefix(cfg, Initial(now), ls, k);
    LookupStep(cfg, now, ls[..k], ls[k]);
    var s, history := Run(cfg, Initial(now), ls[..k]), History(cfg, Initial(now), ls[..k]);
    var answers := AnswerFor(cfg, history, s.handlers[ls[k].h]);
    RunFrom(cfg, Initial(now), ls, k);
    AnswersAreKept(cfg, Run(cfg, Initial(now), ls[..k + 1]), ls[k + 1..], ls[k].h, answers);
  }

  // Queries in any letter case

  lemma NoBackslashes(s: string)
    requires s != "" && s[|s| - 1] != '\\'
    ensures TrailingBackslashes(s) == 0
  {
  }

  lemma QueriedShape(cfg: Config, t: TestID, subdomain: string)
    requires ValidConfig(cfg)
    ensures var fqdn := ToLower(MakeHostname(cfg.domain, t, subdomain) + ".");
            fqdn != TestDomain(cfg) && IsSubDomain(TestDomain(cfg), fqdn)
  {
    var prefix := HostPrefix(t, subdomain);
    var zone := "." + TestDomain(cfg);
    assert MakeHostname(cfg.domain, t, subdomain) + "." == prefix + TestSuffix(cfg.domain) + ".";
    SuffixIsLower(cfg.domain, prefix);
    assert ToLower(prefix) + TestSuffix(cfg.domain) + "." == ToLower(prefix) + zone;
    SuffixOfConcat(ToLower(prefix), zone);
    HexEncodeText(t);
    assert prefix[|prefix| - 1] == HexEncode(t)[31];
    NoBackslashes(ToLower(prefix));
  }

  /** A query for a test's host name, in any letter case, is served and attributed to that test and the
      lower-cased subdomain. */
  lemma QueriedName(cfg: Config, name: string, t: TestID, subdomain: string)
    requires ValidConfig(cfg)
    requires ToLower(name) == ToLower(MakeHostname(cfg.domain, t, subdomain) + ".")
    ensures NamedTest(cfg, ToLower(name)) == Some(Target(t, ToLower(subdomain)))
    ensures IsSubDomain(TestDomain(cfg), ToLower(name))
  {
    ParseAfterPrint(cfg.domain, t, subdomain);
    FoldingAgrees(cfg.domain, MakeHostname(cfg.domain, t, subdomain) + ".");
    QueriedShape(cfg, t, subdomain);
  }

  lemma UndisturbedQuery(
    cfg: Config, now: int, db: Tables, query: DnsQuery, target: Target, built: Answers, answers: Answers)
    requires Running(db, target.id)
    requires answers == Lookup(cfg, target.id,
               SelectRecords(db.dnsRecords, target.id, target.subdomain, query.question.qtype), built).answers
    ensures var entry := DnsEntry(query.remote, query.question.name, query.question.qtype);
            Complete(cfg, now, db, DnsHandler(query, target, DnsArrived(built)), [], 0)
            == Completed(db.(dnsRequests := db.dnsRequests + [Row(NextId(db.dnsRequests), target.id, entry)]),
                         DnsHandler(query, target, DnsDone(Finish(cfg, answers))))
  {
    CompleteDns(cfg, now, db, query, target, built, []);
  }

  /** With nothing else going on and no failing statement, a query for a running test is answered with what is
      published, and the query is logged: for any subdomain, in any letter case, of any type but a zone transfer. */
  lemma QueryIsAnswered(cfg: Config, now: int, ls: seq<Label>, query: DnsQuery, t: TestID, subdomain: string)
    requires ValidConfig(cfg) && ValidRun(cfg, Initial(now), ls) && Running(Run(cfg, Initial(now), ls).db, t)
    requires ToLower(query.question.name) == ToLower(MakeHostname(cfg.domain, t, subdomain) + ".")
    requires query.question.qclass == CLASS_INET
    requires query.question.qtype != TYPE_IXFR && query.question.qtype != TYPE_AXFR
    ensures var s, history := Run(cfg, Initial(now), ls), History(cfg, Initial(now), ls);
            var question, target := query.question, Target(t, ToLower(subdomain));
            && GoodRecords(cfg, Live(history))
            && Complete(cfg, s.clock, s.db, ArriveDns(cfg, DnsRequest(query.remote, [question])), [], 0)
               == Completed(
                    s.db.(dnsRequests := s.db.dnsRequests
                      + [Row(NextId(s.db.dnsRequests), t, DnsEntry(query.remote, question.name, question.qtype))]),
                    DnsHandler(query, target, DnsDone(Finish(cfg,
                      PublishedAnswer(cfg, history, Fqdn(question), target, question.qtype)))))
  {
    var s, history := Run(cfg, Initial(now), ls), History(cfg, Initial(now), ls);
    QueriedName(cfg, query.question.name, t, subdomain);
    LiveIsGood(cfg, now, ls);
    LiveTable(cfg, now, ls);
    ArrivalOfRequest(cfg, DnsRequest(query.remote, [query.question]));
    var question, target := query.question, Target(t, ToLower(subdomain));
    LookupOfLive(cfg, s.db.dnsRecords, history, Fqdn(question), target, question.qtype);
    UndisturbedQuery(cfg, s.clock, s.db, query, target, BuiltinAnswers(cfg, Fqdn(question), question.qtype),
                     PublishedAnswer(cfg, history, Fqdn(question), target, question.qtype));
  }
}
