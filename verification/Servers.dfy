/** The request handlers as sequential code over the database, each proved to do what its handler in the machine
    does when it runs undisturbed. The results say which of a call's SQL statements fail. */
module Servers {
  import opened Options
  import opened Ascii
  import opened TestIds
  import opened Records
  import opened Posting
  import opened Tables
  import opened Dns
  import opened DnsTheorems
  import opened Http
  import opened Machine
  import opened Sequential
  import opened Store

  // DNS

  lemma AppendNext(cfg: Config, t: TestID, rows: seq<PublishedRecord>, i: nat, rrs: Answers)
    requires i < |rows| && AllReadable(cfg, rows[..i]) && Readable(cfg, rows[i])
    ensures AllReadable(cfg, rows[..i + 1])
    ensures Append(rrs, RecordRRs(cfg, t, rows[..i + 1]))
         == Some(List(Append(rrs, RecordRRs(cfg, t, rows[..i]))) + [RecordRR(cfg, t, rows[i])])
  {
    var before, rr := RecordRRs(cfg, t, rows[..i]), RecordRR(cfg, t, rows[i]);
    assert RecordRRs(cfg, t, rows[..i + 1]) == before + [rr];
    ListAppend(rrs, before);
    assert List(rrs) + (before + [rr]) == (List(rrs) + before) + [rr];
  }

  /** The loop of lookupDNSRecords: it appends to the answers in place, and overwrites them and stops at a CNAME. */
  method LookupDNSRecords(
    cfg: Config, db: Database, t: TestID, subdomain: string, qtype: nat, ok: bool, rrs: Answers)
    returns (failed: bool, answers: Answers)
    ensures !ok ==> failed && answers == rrs
    ensures ok ==> LookupResult(answers, failed)
                   == Lookup(cfg, t, SelectRecords(db.dnsRecords, t, subdomain, qtype), rrs)
  {
    if !ok {
      return true, rrs;
    }
    var rows := SelectRecords(db.dnsRecords, t, subdomain, qtype);
    ghost var stop := StopIndex(cfg, rows);
    SelectedSubdomain(db.dnsRecords, t, subdomain, qtype);
    answers := rrs;
    failed := false;
    for i := 0 to |rows|
      invariant i <= stop && !failed
      invariant AllReadable(cfg, rows[..i]) && answers == Append(rrs, RecordRRs(cfg, t, rows[..i]))
    {
      var row := rows[i];
      if row.rrtype !in cfg.decodable {
        return true, answers;
      }
      var data := Unmarshal(row.rrtype, row.data);
      if data.None? {
        return true, answers;
      }
      var rr := RR(MakeHostname(cfg.domain, t, subdomain) + ".", row.rrtype, STORED_TTL, data.value);
      assert rr == RecordRR(cfg, t, row);
      if row.rrtype == TYPE_CNAME {
        answers := Some([rr]);
        break;
      }
      answers := Some(List(answers) + [rr]);
      AppendNext(cfg, t, rows, i, rrs);
    }
  }

  lemma {:induction false} OfTypeConcat(qtype: nat, a: seq<RR>, b: seq<RR>)
    ensures OfType(qtype, a + b) == OfType(qtype, a) + OfType(qtype, b)
  {
    if b == [] {
      assert a + b == a;
    } else {
      OfTypeConcat(qtype, a, b[..|b| - 1]);
      assert (a + b)[..|a + b| - 1] == a + b[..|b| - 1];
    }
  }

  lemma {:induction false} OfTypeAddresses(qtype: nat, fqdn: string, rrtype: nat, addrs: seq<Address>)
    ensures OfType(qtype, Addresses(fqdn, rrtype, addrs))
         == if Wanted(qtype, rrtype) then Addresses(fqdn, rrtype, addrs) else []
  {
    if addrs != [] {
      var n := |addrs| - 1;
      OfTypeAddresses(qtype, fqdn, rrtype, addrs[..n]);
      assert Addresses(fqdn, rrtype, addrs)[..n] == Addresses(fqdn, rrtype, addrs[..n]);
    }
  }

  /** The two loops over the server's addresses. */
  method AppendAddresses(list: seq<RR>, fqdn: string, rrtype: nat, addrs: seq<Address>) returns (longer: seq<RR>)
    ensures longer == list + Addresses(fqdn, rrtype, addrs)
  {
    longer := list;
    for i := 0 to |addrs|
      invariant longer == list + Addresses(fqdn, rrtype, addrs[..i])
    {
      longer := longer + [MakeAddress(fqdn, rrtype, addrs[i])];
    }
    assert addrs[..|addrs|] == addrs;
  }

  /** The built-in answers at a test's name, branch by branch. */
  function TestAnswers(cfg: Config, fqdn: string, qtype: nat): seq<RR> {
    (if Wanted(qtype, TYPE_A) then Addresses(fqdn, TYPE_A, cfg.v4) else [])
    + (if Wanted(qtype, TYPE_AAAA) then Addresses(fqdn, TYPE_AAAA, cfg.v6) else [])
    + (if Wanted(qtype, TYPE_MX) then [MakeMX(cfg, fqdn)] else [])
  }

  lemma OfTypeSingle(qtype: nat, rr: RR)
    ensures OfType(qtype, [rr]) == if Wanted(qtype, rr.rrtype) then [rr] else []
  {
    assert [rr][..0] == [];
  }

  lemma TestAnswersAreBuiltin(cfg: Config, fqdn: string, qtype: nat)
    requires NamedTest(cfg, fqdn).Some? && !HasPrefix(fqdn, "_")
    ensures BuiltinAnswers(cfg, fqdn, qtype) == Some(TestAnswers(cfg, fqdn, qtype))
  {
    var a, aaaa := Addresses(fqdn, TYPE_A, cfg.v4), Addresses(fqdn, TYPE_AAAA, cfg.v6);
    OfTypeConcat(qtype, a + aaaa, [MakeMX(cfg, fqdn)]);
    OfTypeConcat(qtype, a, aaaa);
    OfTypeAddresses(qtype, fqdn, TYPE_A, cfg.v4);
    OfTypeAddresses(qtype, fqdn, TYPE_AAAA, cfg.v6);
    OfTypeSingle(qtype, MakeMX(cfg, fqdn));
  }

  /** The branches of serveDNS for a test's own name. */
  method BuiltinsOfTest(cfg: Config, fqdn: string, qtype: nat) returns (answers: Answers)
    requires NamedTest(cfg, fqdn).Some?
    ensures answers == BuiltinAnswers(cfg, fqdn, qtype)
  {
    if HasPrefix(fqdn, "_") {
      return None;
    }
    var list: seq<RR> := [];
    TestAnswersAreBuiltin(cfg, fqdn, qtype);
    ghost var a := if Wanted(qtype, TYPE_A) then Addresses(fqdn, TYPE_A, cfg.v4) else [];
    ghost var aaaa := if Wanted(qtype, TYPE_AAAA) then Addresses(fqdn, TYPE_AAAA, cfg.v6) else [];
    if qtype == TYPE_A || qtype == TYPE_ANY {
      list := AppendAddresses(list, fqdn, TYPE_A, cfg.v4);
    }
    assert list == a;
    if qtype == TYPE_AAAA || qtype == TYPE_ANY {
      list := AppendAddresses(list, fqdn, TYPE_AAAA, cfg.v6);
    }
    assert list == a + aaaa;
    if qtype == TYPE_MX || qtype == TYPE_ANY {
      list := list + [MakeMX(cfg, fqdn)];
    }
    assert list == TestAnswers(cfg, fqdn, qtype);
    return Some(list);
  }

  function DnsReplyOf(handler: Handler): DnsReply {
    match handler
    case DnsHandler(_, _, DnsDone(reply)) => reply
    case AnsweredDns(_, reply) => reply
    case _ => Refuse()
  }

  /** The built-in answers at the zone's own name, branch by branch. */
  function ApexAnswers(cfg: Config, qtype: nat): seq<RR> {
    (if Wanted(qtype, TYPE_NS) then [MakeNS(cfg)] else [])
    + (if Wanted(qtype, TYPE_SOA) then [MakeSOA(cfg)] else [])
  }

  lemma ApexAnswersAreBuiltin(cfg: Config, qtype: nat)
    ensures BuiltinAnswers(cfg, TestDomain(cfg), qtype) == Some(ApexAnswers(cfg, qtype))
  {
    assert [MakeNS(cfg), MakeSOA(cfg)] == [MakeNS(cfg)] + [MakeSOA(cfg)];
    OfTypeConcat(qtype, [MakeNS(cfg)], [MakeSOA(cfg)]);
    OfTypeSingle(qtype, MakeNS(cfg));
    OfTypeSingle(qtype, MakeSOA(cfg));
  }

  /** The branches of serveDNS for the zone's own name. */
  method BuiltinsOfApex(cfg: Config, qtype: nat) returns (answers: Answers)
    ensures answers == BuiltinAnswers(cfg, TestDomain(cfg), qtype)
  {
    var list: seq<RR> := [];
    if qtype == TYPE_NS || qtype == TYPE_ANY {
      list := list + [MakeNS(cfg)];
    }
    if qtype == TYPE_SOA || qtype == TYPE_ANY {
      list := list + [MakeSOA(cfg)];
    }
    assert list == ApexAnswers(cfg, qtype);
    ApexAnswersAreBuiltin(cfg, qtype);
    return Some(list);
  }

  /** The part of serveDNS that uses the database. */
  method AnswerForTest(cfg: Config, db: Database, query: DnsQuery, target: Target, built: Answers, results: seq<bool>)
    returns (reply: DnsReply)
    modifies db`dnsRequests
    ensures Complete(cfg, db.now, old(db.Contents()), DnsHandler(query, target, DnsArrived(built)), results, 0)
         == Completed(db.Contents(), DnsHandler(query, target, DnsDone(reply)))
  {
    var question, answers := query.question, built;
    CompleteDns(cfg, db.now, db.Contents(), query, target, built, results);
    var isRunning := db.IsRunningTest(target.id);
    if Succeeds(results, 0) && isRunning {
      var failed, looked := LookupDNSRecords(
        cfg, db, target.id, target.subdomain, question.qtype, Succeeds(results, 1), answers);
      answers := looked;
      if Succeeds(results, 2) {
        db.InsertDNSRequest(target.id, DnsEntry(query.remote, question.name, question.qtype));
      }
    }
    return Finish(cfg, answers);
  }

  /** serveDNS for a name outside the naming scheme, or the zone's own. */
  method AnswerForNone(cfg: Config, question: Question) returns (reply: DnsReply)
    requires NamedTest(cfg, Fqdn(question)).None?
    ensures reply == Finish(cfg, BuiltinAnswers(cfg, Fqdn(question), question.qtype))
  {
    if ToLower(question.name) == TestDomain(cfg) {
      var answers := BuiltinsOfApex(cfg, question.qtype);
      return Finish(cfg, answers);
    }
    return Finish(cfg, None);
  }

  /** serveDNS once the question is known not to be refused. */
  method AnswerQuestion(cfg: Config, db: Database, req: DnsRequest, results: seq<bool>) returns (reply: DnsReply)
    requires req.questions != [] && Served(cfg, req.questions[0])
    modifies db`dnsRequests
    ensures var done := Complete(cfg, db.now, old(db.Contents()), ArriveDns(cfg, req), results, 0);
            done.db == db.Contents() && DnsReplyOf(done.handler) == reply
  {
    var question := req.questions[0];
    var parsed := NamedTest(cfg, Fqdn(question));
    ArrivalOfRequest(cfg, req);
    if parsed.None? {
      reply := AnswerForNone(cfg, question);
    } else {
      var built := BuiltinsOfTest(cfg, Fqdn(question), question.qtype);
      reply := AnswerForTest(cfg, db, DnsQuery(req.remote, question), parsed.value, built, results);
    }
  }

  method ServeDNS(cfg: Config, db: Database, req: DnsRequest, results: seq<bool>) returns (reply: DnsReply)
    modifies db`dnsRequests
    ensures var done := Complete(cfg, db.now, old(db.Contents()), ArriveDns(cfg, req), results, 0);
            done.db == db.Contents() && DnsReplyOf(done.handler) == reply
  {
    if |req.questions| == 0 {
      return Refuse();
    }
    var question := req.questions[0];
    if question.qclass != CLASS_INET || question.qtype == TYPE_IXFR || question.qtype == TYPE_AXFR {
      return Refuse();
    }
    if !IsSubDomain(TestDomain(cfg), ToLower(question.name)) {
      return Refuse();
    }
    reply := AnswerQuestion(cfg, db, req, results);
  }

  // HTTP

  function HttpReplyOf(handler: Handler): HttpReply {
    match handler
    case HttpHandler(_, _, HttpDone(reply)) => reply
    case _ => HttpReply(0, "")
  }

  method ServeTestHTTP(cfg: Config, db: Database, req: HttpRequest, target: Target, results: seq<bool>)
    returns (reply: HttpReply)
    modifies db`httpRequests
    ensures var done := Complete(cfg, db.now, old(db.Contents()), HttpHandler(req, target, HttpArrived), results, 0);
            done.db == db.Contents() && HttpReplyOf(done.handler) == reply
  {
    CompleteHttp(cfg, db.now, db.Contents(), req, target, results);
    if !Succeeds(results, 0) {
      return HttpReply(500, "");
    }
    var isRunning := db.IsRunningTest(target.id);
    if !isRunning {
      return HttpReply(404, "");
    }
    if !Succeeds(results, 1) {
      return HttpReply(500, "");
    }
    var found := FindFile(db.httpFiles, target.id, RequestScheme(req), target.subdomain, req.path);
    var content := if found.Some? then found.value else "";
    var inserted := false;
    if Succeeds(results, 2) {
      inserted := db.InsertHTTPRequest(target.id, HttpEntryOf(req));
    }
    return if inserted then HttpReply(200, content) else HttpReply(500, "");
  }

  // The dashboard

  /** startTest: the new test's page is where the client is sent; a collision of the drawn ID is an error,
      and changes nothing. */
  method ServeStartTest(db: Database, drawn: TestID, ok: bool) returns (status: nat, location: string)
    modifies db`tests
    ensures db.Contents() == if ok then Execute(old(db.Contents()), db.now, InsertTest(drawn)) else old(db.Contents())
    ensures if ok && drawn !in old(db.tests) then status == 303 && location == "/test/" + HexEncode(drawn)
            else status == 500 && location == ""
  {
    if !ok {
      return 500, "";
    }
    var inserted := db.InsertTest(drawn);
    if !inserted {
      return 500, "";
    }
    return 303, "/test/" + HexEncode(drawn);
  }

  function PageStatusOf(handler: Handler): nat {
    match handler
    case PageHandler(_, _, PageDone(status)) => status
    case _ => 0
  }

  /** The one statement of a posted action. */
  method CarryOut(db: Database, t: TestID, action: Action) returns (status: nat)
    requires t in db.tests
    modifies db`tests, db`dnsRecords, db`httpFiles
    ensures var id := match action
                      case AddRecord(_) => NextId(old(db.dnsRecords))
                      case AddFile(_) => NextId(old(db.httpFiles))
                      case _ => 0;
            db.Contents() == Execute(old(db.Contents()), db.now, ActionStatement(t, action, id))
    ensures status == if action.AddFile? && HasFile(old(db.httpFiles), t, action.file) then 400 else 303
  {
    status := 303;
    match action
    case Stop => db.StopTest(t);
    case AddRecord(record) => var _ := db.InsertDNSRecord(t, record);
    case RemoveRecord(Some(recordId)) => db.DeleteDNSRecord(t, recordId);
    case RemoveFile(Some(fileId)) => db.DeleteHTTPFile(t, fileId);
    case AddFile(file) =>
      var permitted, affected := db.InsertHTTPFile(t, file);
      if !affected {
        status := 400;
      }
    case _ =>
  }

  method ServeTest(cfg: Config, db: Database, req: HttpRequest, t: TestID, results: seq<bool>) returns (status: nat)
    modifies db`tests, db`dnsRecords, db`httpFiles
    ensures var done := Complete(cfg, db.now, old(db.Contents()), PageHandler(req, t, PageArrived), results, 0);
            done.db == db.Contents() && PageStatusOf(done.handler) == status
  {
    if !Succeeds(results, 0) {
      return 500;
    }
    if t !in db.tests {
      return 404;
    }
    var isRunning := db.IsRunningTest(t);
    if !isRunning || req.httpMethod != "POST" {
      return 200;
    }
    var action := DecodeAction(cfg, req.form);
    if action.BadRequest? {
      return 400;
    }
    if action.NoAction? {
      return 303;
    }
    CompletePage(cfg, db.now, db.Contents(), req, t, results);
    if !Succeeds(results, 1) {
      return 500;
    }
    status := CarryOut(db, t, action);
  }

  /** serveHTTP: the dispatch. Drawn is the test ID that startTest would draw. */
  method ServeHTTP(cfg: Config, db: Database, req: HttpRequest, drawn: TestID, results: seq<bool>)
    returns (reply: HttpReply)
    modifies db`tests, db`dnsRecords, db`httpFiles, db`httpRequests
    ensures var before := old(db.Contents());
            var done := Complete(cfg, db.now, before, ArriveHttp(cfg, req), results, 0);
            match RouteOf(cfg, req)
            case ToTest(_) => db.Contents() == done.db && reply == HttpReplyOf(done.handler)
            case ToTestPage(_) => db.Contents() == done.db && reply.status == PageStatusOf(done.handler)
            case ToStartTest =>
              && db.Contents() == (if Succeeds(results, 0) then Execute(before, db.now, InsertTest(drawn)) else before)
              && reply.status == (if Succeeds(results, 0) && drawn !in before.tests then 303 else 500)
            case OtherPage => db.Contents() == before
            case Rejected(status) => db.Contents() == before && reply.status == status
  {
    var host := HttpHost(req);
    var status := 404;
    if host == cfg.domain {
      var route := DashboardRoute(cfg, req);
      if route.ToStartTest? {
        var started, _ := ServeStartTest(db, drawn, Succeeds(results, 0));
        status := started;
      } else if route.ToTestPage? {
        status := ServeTest(cfg, db, req, route.test, results);
      } else {
        status := if route.Rejected? then route.status else 200;
      }
    } else {
      var parsed := ParseHostname(cfg.domain, host);
      if parsed.Some? && !HasPrefix(host, "_") {
        if req.remote.Some? {
          reply := ServeTestHTTP(cfg, db, req, parsed.value, results);
          return;
        }
        status := 400;
      }
    }
    return HttpReply(status, "");
  }

  // The cleanup

  method CleanupTests(db: Database, ok: bool)
    modifies db`tests
    ensures db.Contents() == if ok then Execute(old(db.Contents()), db.now, StopOldTests) else old(db.Contents())
  {
    if ok {
      db.StopTestsStartedBefore(db.now - MAX_AGE);
    }
  }
}
