/** What a request to a test's page does, from the fields of the posted form to the tables and the status. */
module Pages {
  import opened Options
  import opened Ascii
  import opened TestIds
  import opened Records
  import opened Posting
  import opened Targets
  import opened Names
  import opened Tables
  import opened Dns
  import opened Http
  import opened FrontEnds
  import opened Machine
  import opened Sequential

  // Requests to a test's page

  /** The form field reads as this value; a field that was not sent reads as nothing. */
  predicate Field(form: Form, name: string, value: string) {
    if name in form then form[name] == value else value == ""
  }

  /** The Host header names the host, with or without a port. */
  ghost predicate Header(header: string, host: string) {
    header == host || exists port: string :: PlainHost(port) && header == host + ":" + port
  }

  /** The request is for the page of the test, at the operator's domain. */
  ghost predicate ForPage(cfg: Config, req: HttpRequest, hex: string, t: TestID) {
    && ValidConfig(cfg) && PlainHost(cfg.domain) && Header(req.host, cfg.domain)
    && (req.tls || !cfg.redirectToHTTPS)
    && req.path == "/test/" + hex && HexText(hex, t)
  }

  /** The request handled to its end with nothing in between. */
  function Handled(cfg: Config, now: int, db: Tables, req: HttpRequest, results: seq<bool>): Completed {
    Complete(cfg, now, db, ArriveHttp(cfg, req), results, 0)
  }

  predicate IsRunning(db: Tables, t: TestID) {
    t in db.tests && db.tests[t].stoppedAt == None
  }

  /** A form is posted to the page of a running test. */
  ghost predicate Posts(cfg: Config, db: Tables, req: HttpRequest, hex: string, t: TestID) {
    ForPage(cfg, req, hex, t) && req.httpMethod == "POST" && IsRunning(db, t)
  }

  lemma HeaderHost(req: HttpRequest, host: string)
    requires PlainHost(host) && Header(req.host, host)
    ensures HttpHost(req) == ToLower(host)
  {
    if req.host == host {
      HostOfHeader(req, host, "");
    } else {
      var port: string :| PlainHost(port) && req.host == host + ":" + port;
      HostOfHeader(req, host, port);
    }
  }

  lemma PagePath(path: string, hex: string, t: TestID)
    requires path == "/test/" + hex && HexText(hex, t)
    ensures ParseTestPath(path) == Some(t)
    ensures path != "/" && !HasPrefix(path, "/assets/") && path != "/test"
  {
    DecodesHexText(hex, t);
    assert path[6..] == hex && path[..6] == "/test/";
    assert path[1] == 't' && "/assets/"[1] == 'a';
  }

  lemma ArrivesAtPage(cfg: Config, req: HttpRequest, hex: string, t: TestID)
    requires ForPage(cfg, req, hex, t)
    ensures RouteOf(cfg, req) == ToTestPage(t)
    ensures ArriveHttp(cfg, req) == PageHandler(req, t, PageArrived)
  {
    HeaderHost(req, cfg.domain);
    PagePath(req.path, hex, t);
  }

  function Outcome(db: Tables, req: HttpRequest, t: TestID, status: nat): Completed {
    Completed(db, PageHandler(req, t, PageDone(status)))
  }

  lemma PageEnds(cfg: Config, now: int, db: Tables, req: HttpRequest, t: TestID, results: seq<bool>)
    requires !Succeeds(results, 0) || !Running(db, t) || req.httpMethod != "POST"
             || DecodeAction(cfg, req.form).BadRequest? || DecodeAction(cfg, req.form).NoAction?
    ensures Complete(cfg, now, db, PageHandler(req, t, PageArrived), results, 0)
         == Outcome(db, req, t,
                    if !Succeeds(results, 0) then 500
                    else if t !in db.tests then 404
                    else if !Running(db, t) || req.httpMethod != "POST" then 200
                    else if DecodeAction(cfg, req.form).BadRequest? then 400
                    else 303)
  {
  }

  /** A posted action that is carried out by one statement. */
  lemma PageActs(cfg: Config, now: int, db: Tables, req: HttpRequest, t: TestID, action: Action, results: seq<bool>)
    requires Succeeds(results, 0) && Running(db, t) && req.httpMethod == "POST"
    requires action == DecodeAction(cfg, req.form) && !action.BadRequest? && !action.NoAction?
    ensures var id := match action
                      case AddRecord(_) => NextId(db.dnsRecords)
                      case AddFile(_) => NextId(db.httpFiles)
                      case _ => 0;
            Complete(cfg, now, db, PageHandler(req, t, PageArrived), results, 0)
            == if !Succeeds(results, 1) then Outcome(db, req, t, 500)
               else Outcome(Execute(db, now, ActionStatement(t, action, id)), req, t,
                            if action.AddFile? && HasFile(db.httpFiles, t, action.file) then 400 else 303)
  {
    CompletePage(cfg, now, db, req, t, results);
  }

  // Status codes

  /** Pages of unknown tests, of stopped tests and those merely looked at, and a failing first statement. */
  lemma PageStatus(cfg: Config, now: int, db: Tables, req: HttpRequest, hex: string, t: TestID, results: seq<bool>)
    requires ForPage(cfg, req, hex, t)
    requires !Succeeds(results, 0) || !IsRunning(db, t) || req.httpMethod != "POST"
    ensures Handled(cfg, now, db, req, results)
         == Outcome(db, req, t, if !Succeeds(results, 0) then 500 else if t !in db.tests then 404 else 200)
  {
    ArrivesAtPage(cfg, req, hex, t);
    PageEnds(cfg, now, db, req, t, results);
  }

  /** A form whose statement fails changes nothing. */
  lemma FailedFormDoesNothing(
    cfg: Config, now: int, db: Tables, req: HttpRequest, hex: string, t: TestID, results: seq<bool>)
    requires Posts(cfg, db, req, hex, t) && !Succeeds(results, 1)
    ensures Handled(cfg, now, db, req, results).db == db
    ensures !Field(req.form, "stop", "") ==> Handled(cfg, now, db, req, results) == Outcome(db, req, t, 500)
  {
    var action := DecodeAction(cfg, req.form);
    ArrivesAtPage(cfg, req, hex, t);
    if !Succeeds(results, 0) || action.BadRequest? || action.NoAction? {
      PageEnds(cfg, now, db, req, t, results);
    } else {
      PageActs(cfg, now, db, req, t, action, results);
    }
  }

  // Stopping

  /** A form whose stop field is not empty, whatever else it holds, stops the running test at this moment, and changes
      nothing else. */
  lemma StopForm(cfg: Config, now: int, db: Tables, req: HttpRequest, hex: string, t: TestID, results: seq<bool>)
    requires Posts(cfg, db, req, hex, t) && !Field(req.form, "stop", "")
    requires Succeeds(results, 0) && Succeeds(results, 1)
    ensures Handled(cfg, now, db, req, results)
         == Outcome(db.(tests := db.tests[t := TestRow(db.tests[t].startedAt, Some(now))]), req, t, 303)
  {
    ArrivesAtPage(cfg, req, hex, t);
    PageActs(cfg, now, db, req, t, Stop, results);
  }

  lemma OnlyStopStops(cfg: Config, db: Tables, req: HttpRequest, t: TestID, now: int, id: nat)
    requires Field(req.form, "stop", "")
    ensures var stmt := ActionStatement(t, DecodeAction(cfg, req.form), id);
            Execute(db, now, stmt).tests == db.tests
  {
  }

  lemma PageStopsNothing(cfg: Config, now: int, db: Tables, req: HttpRequest, t: TestID, results: seq<bool>)
    requires Field(req.form, "stop", "") || req.httpMethod != "POST" || !Succeeds(results, 0) || !Succeeds(results, 1)
    ensures Complete(cfg, now, db, PageHandler(req, t, PageArrived), results, 0).db.tests == db.tests
  {
    var action := DecodeAction(cfg, req.form);
    if !Succeeds(results, 0) || !Running(db, t) || req.httpMethod != "POST" || action.BadRequest? || action.NoAction? {
      PageEnds(cfg, now, db, req, t, results);
    } else {
      PageActs(cfg, now, db, req, t, action, results);
      if Field(req.form, "stop", "") {
        OnlyStopStops(cfg, db, req, t, now, NextId(db.dnsRecords));
        OnlyStopStops(cfg, db, req, t, now, NextId(db.httpFiles));
        OnlyStopStops(cfg, db, req, t, now, 0);
      }
    }
  }

  lemma HttpStopsNothing(cfg: Config, now: int, db: Tables, req: HttpRequest, target: Target, results: seq<bool>)
    ensures Complete(cfg, now, db, HttpHandler(req, target, HttpArrived), results, 0).db.tests == db.tests
  {
    CompleteHttp(cfg, now, db, req, target, results);
  }

  /** A form without it leaves every test row as it was, and so does every other request: one that is not a POST, or
      not for a page, or that fails. */
  lemma OtherFormsStopNothing(cfg: Config, now: int, db: Tables, req: HttpRequest, results: seq<bool>)
    requires Field(req.form, "stop", "") || req.httpMethod != "POST" || !RouteOf(cfg, req).ToTestPage?
             || !Succeeds(results, 0) || !Succeeds(results, 1)
    ensures Handled(cfg, now, db, req, results).db.tests == db.tests
  {
    match RouteOf(cfg, req)
    case ToTestPage(t) => PageStopsNothing(cfg, now, db, req, t, results);
    case ToTest(target) => HttpStopsNothing(cfg, now, db, req, target, results);
    case _ =>
  }

  // Publishing and removing records

  /** The form posts a record of this kind. */
  predicate AddsRecord(form: Form, kind: string) {
    Field(form, "stop", "") && Field(form, "add_dns_record", kind) && kind != ""
  }

  /** The one row that a posted record adds. */
  function WithRecord(db: Tables, t: TestID, record: PublishedRecord): Tables {
    db.(dnsRecords := db.dnsRecords + [Row(NextId(db.dnsRecords), t, record)])
  }

  /** The form is carried out, or refused and nothing changes. */
  function Published(db: Tables, req: HttpRequest, t: TestID, accepted: bool, record: PublishedRecord): Completed {
    if accepted then Outcome(WithRecord(db, t, record), req, t, 303) else Outcome(db, req, t, 400)
  }

  lemma PostedRecord(cfg: Config, now: int, db: Tables, req: HttpRequest, hex: string, t: TestID,
                     posted: Option<PublishedRecord>)
    requires Posts(cfg, db, req, hex, t)
    requires DecodeAction(cfg, req.form) == match posted case Some(record) => AddRecord(record) case None => BadRequest
    ensures Handled(cfg, now, db, req, [])
         == match posted
            case Some(record) => Outcome(WithRecord(db, t, record), req, t, 303)
            case None => Outcome(db, req, t, 400)
  {
    ArrivesAtPage(cfg, req, hex, t);
    if posted.Some? {
      PageActs(cfg, now, db, req, t, AddRecord(posted.value), []);
    } else {
      PageEnds(cfg, now, db, req, t, []);
    }
  }

  /** A TXT record (type 16) of at most 255 bytes is published as it was typed, at the lower-cased subdomain; a longer
      one is refused. */
  lemma TxtFormPublishes(cfg: Config, now: int, db: Tables, req: HttpRequest, hex: string, t: TestID,
                         typed: string, subdomain: string, text: string)
    requires Posts(cfg, db, req, hex, t) && AddsRecord(req.form, "TXT")
    requires Field(req.form, "txt_subdomain", typed) && Field(req.form, "txt_data", text) && Folded(typed, subdomain)
    ensures Handled(cfg, now, db, req, [])
         == Published(db, req, t, |text| <= 255, PublishedRecord(subdomain, 16, TxtJson(text)))
  {
    FoldedIsToLower(typed, subdomain);
    PostedRecord(cfg, now, db, req, hex, t,
                 if |text| <= 255 then Some(PublishedRecord(subdomain, 16, TxtJson(text))) else None);
  }

  /** A CAA record (type 257) is published if the flag, in decimal, is at most 255 and the tag has 1 to 255 bytes. */
  lemma CaaFormPublishes(cfg: Config, now: int, db: Tables, req: HttpRequest, hex: string, t: TestID,
                         typed: string, subdomain: string, flag: nat, tag: string, value: string)
    requires Posts(cfg, db, req, hex, t) && AddsRecord(req.form, "CAA")
    requires Field(req.form, "caa_subdomain", typed) && Folded(typed, subdomain)
    requires Field(req.form, "caa_flag", DecimalText(flag))
    requires Field(req.form, "caa_tag", tag) && Field(req.form, "caa_value", value)
    ensures Handled(cfg, now, db, req, [])
         == Published(db, req, t, flag <= 255 && 0 < |tag| <= 255,
                      PublishedRecord(subdomain, 257, CaaJson(flag, tag, value)))
  {
    FoldedIsToLower(typed, subdomain);
    DecimalRoundTrip(flag);
    var record := PublishedRecord(subdomain, 257, CaaJson(flag, tag, value));
    PostedRecord(cfg, now, db, req, hex, t, if flag <= 255 && 0 < |tag| <= 255 then Some(record) else None);
  }

  /** A CNAME record (type 5) is published if its target, however it was typed, is a domain name at or beneath a listed
      domain. */
  lemma CnameFormPublishes(cfg: Config, now: int, db: Tables, req: HttpRequest, hex: string, t: TestID,
                           typed: string, subdomain: string,
                           before: string, core: string, after: string, target: string)
    requires Posts(cfg, db, req, hex, t) && AddsRecord(req.form, "CNAME")
    requires Field(req.form, "cname_subdomain", typed) && Folded(typed, subdomain)
    requires Field(req.form, "cname_target", before + core + after) && TypedAs(before, core, after, target)
    ensures Handled(cfg, now, db, req, [])
         == if cfg.isDomainName(target) && Covered(target) then
              Outcome(WithRecord(db, t, PublishedRecord(subdomain, 5, CnameJson(target))), req, t, 303)
            else Outcome(db, req, t, 400)
  {
    FoldedIsToLower(typed, subdomain);
    TargetExactly(cfg, before, core, after, target);
    PostedRecord(cfg, now, db, req, hex, t,
                 if cfg.isDomainName(target) && Covered(target)
                 then Some(PublishedRecord(subdomain, 5, CnameJson(target))) else None);
  }

  /** Any other kind is refused. */
  lemma OtherKindIsRefused(cfg: Config, now: int, db: Tables, req: HttpRequest, hex: string, t: TestID, kind: string)
    requires Posts(cfg, db, req, hex, t) && AddsRecord(req.form, kind) && kind !in {"TXT", "CAA", "CNAME"}
    ensures Handled(cfg, now, db, req, []) == Outcome(db, req, t, 400)
  {
    PostedRecord(cfg, now, db, req, hex, t, None);
  }

  /** The rows without the one of this test and id: all others stay, and in their order. */
  ghost predicate Removed<T(!new)>(rows: Table<T>, after: Table<T>, t: TestID, id: nat) {
    && (forall r :: r in after <==> r in rows && !(r.test == t && r.id == id))
    && (Ordered(rows) ==> Ordered(after))
  }

  lemma WithoutRemoves<T(!new)>(rows: Table<T>, t: TestID, id: nat)
    ensures Removed(rows, Without(rows, t, id), t, id)
  {
    forall r ensures r in Without(rows, t, id) <==> r in rows && !(r.test == t && r.id == id) {
      WithoutMember(rows, t, id, r);
    }
    if Ordered(rows) {
      WithoutKeepsOrder(rows, t, id);
    }
  }

  lemma RemovalIsCarriedOut(
    cfg: Config, now: int, db: Tables, req: HttpRequest, hex: string, t: TestID, action: Action)
    requires Posts(cfg, db, req, hex, t) && action == DecodeAction(cfg, req.form)
    requires action.RemoveRecord? || action.RemoveFile?
    ensures Handled(cfg, now, db, req, []) == Outcome(Execute(db, now, ActionStatement(t, action, 0)), req, t, 303)
  {
    ArrivesAtPage(cfg, req, hex, t);
    PageActs(cfg, now, db, req, t, action, []);
  }

  lemma RecordRemovalDecodes(cfg: Config, form: Form, id: nat)
    requires Field(form, "stop", "") && Field(form, "add_dns_record", "")
    requires Field(form, "rm_dns_record", DecimalText(id))
    ensures DecodeAction(cfg, form) == RemoveRecord(Some(id))
  {
    DecimalRoundTrip(id);
  }

  lemma FileRemovalDecodes(cfg: Config, form: Form, id: nat)
    requires Field(form, "stop", "") && Field(form, "add_dns_record", "")
    requires Field(form, "rm_dns_record", "") && Field(form, "rm_http_file", DecimalText(id))
    ensures DecodeAction(cfg, form) == RemoveFile(Some(id))
  {
    DecimalRoundTrip(id);
  }

  lemma FileIsRemoved(cfg: Config, now: int, db: Tables, req: HttpRequest, hex: string, t: TestID, id: nat)
    requires Posts(cfg, db, req, hex, t) && DecodeAction(cfg, req.form) == RemoveFile(Some(id))
    ensures Handled(cfg, now, db, req, []) == Outcome(db.(httpFiles := Without(db.httpFiles, t, id)), req, t, 303)
  {
    RemovalIsCarriedOut(cfg, now, db, req, hex, t, RemoveFile(Some(id)));
  }

  /** The delete button of a record removes the row of this test and id, and nothing else. */
  lemma RecordFormRemoves(cfg: Config, now: int, db: Tables, req: HttpRequest, hex: string, t: TestID, id: nat)
    requires Posts(cfg, db, req, hex, t) && Field(req.form, "stop", "") && Field(req.form, "add_dns_record", "")
    requires Field(req.form, "rm_dns_record", DecimalText(id))
    ensures var done := Handled(cfg, now, db, req, []);
            && done == Outcome(db.(dnsRecords := done.db.dnsRecords), req, t, 303)
            && Removed(db.dnsRecords, done.db.dnsRecords, t, id)
  {
    RecordRemovalDecodes(cfg, req.form, id);
    RemovalIsCarriedOut(cfg, now, db, req, hex, t, RemoveRecord(Some(id)));
    WithoutRemoves(db.dnsRecords, t, id);
  }

  /** The delete button of a file removes the row of this test and id, and nothing else. */
  lemma FileFormRemoves(cfg: Config, now: int, db: Tables, req: HttpRequest, hex: string, t: TestID, id: nat)
    requires Posts(cfg, db, req, hex, t) && Field(req.form, "stop", "") && Field(req.form, "add_dns_record", "")
    requires Field(req.form, "rm_dns_record", "") && Field(req.form, "rm_http_file", DecimalText(id))
    ensures var done := Handled(cfg, now, db, req, []);
            && done == Outcome(db.(httpFiles := done.db.httpFiles), req, t, 303)
            && Removed(db.httpFiles, done.db.httpFiles, t, id)
  {
    FileRemovalDecodes(cfg, req.form, id);
    FileIsRemoved(cfg, now, db, req, hex, t, id);
    WithoutRemoves(db.httpFiles, t, id);
  }

  /** A form that asks for nothing sends the client back to the page. */
  lemma EmptyFormDoesNothing(cfg: Config, now: int, db: Tables, req: HttpRequest, hex: string, t: TestID)
    requires Posts(cfg, db, req, hex, t) && Field(req.form, "stop", "") && Field(req.form, "add_dns_record", "")
    requires Field(req.form, "rm_dns_record", "") && Field(req.form, "rm_http_file", "")
    requires Field(req.form, "add_http_file", "")
    ensures Handled(cfg, now, db, req, []) == Outcome(db, req, t, 303)
  {
    ArrivesAtPage(cfg, req, hex, t);
    PageEnds(cfg, now, db, req, t, []);
  }

  // Publishing files

  predicate StartsWith(s: string, start: string) {
    |start| <= |s| && forall i :: 0 <= i < |start| ==> s[i] == start[i]
  }

  /** The form posts a file, with these values in its fields. */
  predicate AddsFile(form: Form, scheme: string, typed: string, path: string, content: string) {
    && Field(form, "stop", "") && Field(form, "add_dns_record", "")
    && Field(form, "rm_dns_record", "") && Field(form, "rm_http_file", "") && !Field(form, "add_http_file", "")
    && Field(form, "file_scheme", scheme) && Field(form, "file_subdomain", typed)
    && Field(form, "file_path", path) && Field(form, "file_content", content)
  }

  predicate AcceptedFile(scheme: string, path: string, content: string) {
    && (scheme == "http" || scheme == "https")
    && (StartsWith(path, "/.well-known/pki-validation/") || StartsWith(path, "/.well-known/acme-challenge/"))
    && |content| <= 512
  }

  /** No file of the test has this scheme, subdomain and path. */
  ghost predicate FreeKey(rows: Table<PublishedFile>, t: TestID, scheme: string, subdomain: string, path: string) {
    forall r :: r in rows ==>
      !(r.test == t && r.value.scheme == scheme && r.value.subdomain == subdomain && r.value.path == path)
  }

  lemma FreeKeyIsNotFound(
    rows: Table<PublishedFile>, t: TestID, scheme: string, subdomain: string, path: string, content: string)
    ensures HasFile(rows, t, PublishedFile(scheme, subdomain, path, content))
       <==> !FreeKey(rows, t, scheme, subdomain, path)
  {
    FindFileMembers(rows, t, scheme, subdomain, path);
    if HasFile(rows, t, PublishedFile(scheme, subdomain, path, content)) {
      var content' := FindFile(rows, t, scheme, subdomain, path).value;
      var r :| r in rows && r.test == t && r.value == PublishedFile(scheme, subdomain, path, content');
    } else {
      forall r | r in rows
        ensures !(r.test == t && r.value.scheme == scheme && r.value.subdomain == subdomain && r.value.path == path)
      {
      }
    }
  }

  lemma StartsWithIsPrefix(s: string, start: string)
    ensures StartsWith(s, start) <==> HasPrefix(s, start)
  {
    if StartsWith(s, start) {
      assert s[..|start|] == start;
    }
  }

  lemma DecodedFile(cfg: Config, form: Form, scheme: string, typed: string, subdomain: string, path: string,
                    content: string)
    requires AddsFile(form, scheme, typed, path, content) && Folded(typed, subdomain)
    ensures DecodeAction(cfg, form)
         == if AcceptedFile(scheme, path, content) then AddFile(PublishedFile(scheme, subdomain, path, content))
            else BadRequest
  {
    FoldedIsToLower(typed, subdomain);
    StartsWithIsPrefix(path, "/.well-known/pki-validation/");
    StartsWithIsPrefix(path, "/.well-known/acme-challenge/");
  }

  /** A file is published as it was typed, at the lower-cased subdomain, if its scheme is http or https, its path is
      beneath one of the two validation paths, its content has at most 512 bytes, and its key is free. */
  lemma FileFormPublishes(cfg: Config, now: int, db: Tables, req: HttpRequest, hex: string, t: TestID,
                          scheme: string, typed: string, subdomain: string, path: string, content: string)
    requires Posts(cfg, db, req, hex, t) && AddsFile(req.form, scheme, typed, path, content)
    requires Folded(typed, subdomain)
    ensures Handled(cfg, now, db, req, [])
         == if AcceptedFile(scheme, path, content) && FreeKey(db.httpFiles, t, scheme, subdomain, path) then
              Outcome(db.(httpFiles := db.httpFiles
                + [Row(NextId(db.httpFiles), t, PublishedFile(scheme, subdomain, path, content))]), req, t, 303)
            else Outcome(db, req, t, 400)
  {
    ArrivesAtPage(cfg, req, hex, t);
    DecodedFile(cfg, req.form, scheme, typed, subdomain, path, content);
    FreeKeyIsNotFound(db.httpFiles, t, scheme, subdomain, path, content);
    if AcceptedFile(scheme, path, content) {
      PageActs(cfg, now, db, req, t, AddFile(PublishedFile(scheme, subdomain, path, content)), []);
    } else {
      PageEnds(cfg, now, db, req, t, []);
    }
  }
}
