/** HTTP requests by the characters of their host, path and transport: where they go, and what a test's host answers. */
module Requests {
  import opened Options
  import opened Ascii
  import opened TestIds
  import opened Records
  import opened Names
  import opened Tables
  import opened Dns
  import opened Http
  import opened FrontEnds
  import opened Machine
  import opened Invariants
  import opened Sequential
  import opened Pages

  // Hosts

  /** A host in brackets, as IPv6 addresses are written, with a port. */
  lemma BracketedHost(req: HttpRequest, inner: string, port: string)
    requires '[' !in inner && ']' !in inner && PlainHost(port)
    requires req.host == "[" + inner + "]:" + port
    ensures Folded(inner, HttpHost(req))
  {
    var front := "[" + inner + "]";
    assert req.host == front + ":" + port;
    LastIndexOfConcat(front, ':', port);
    assert req.host[..|front|] == front && req.host[0] == '[' && req.host[|front| - 1] == ']';
    assert req.host[..|front| - 1] == "[" + inner;
    assert req.host[1..|front| - 1] == inner;
    assert req.host[1..] == inner + "]:" + port && req.host[|front|..] == ":" + port;
    FoldedIsToLower(inner, ToLower(inner));
  }

  /** What cannot be split into host and port is taken whole. */
  lemma UnsplitHost(req: HttpRequest, a: string, b: string)
    requires ':' in a && ':' !in b && (a[0] != '[') && req.host == a + ":" + b
    ensures Folded(req.host, HttpHost(req))
  {
    LastIndexOfConcat(a, ':', b);
    assert req.host[..|a|] == a;
    FoldedIsToLower(req.host, ToLower(req.host));
  }

  /** A host that is neither the operator's domain nor a test's gets 404, as does a test's name with an underscore in
      front; a peer whose address cannot be read gets 400 from a test's host. */
  lemma OtherHosts(cfg: Config, req: HttpRequest, host: string, low: string)
    requires PlainHost(host) && Header(req.host, host) && Folded(host, low) && low != cfg.domain
    ensures RouteOf(cfg, req)
         == if ParseHostname(cfg.domain, low).None? || StartsWith(low, "_") then Rejected(404)
            else if req.remote.None? then Rejected(400)
            else ToTest(ParseHostname(cfg.domain, low).value)
  {
    HeaderHost(req, host);
    FoldedIsToLower(host, low);
    StartsWithIsPrefix(low, "_");
  }

  // The dashboard

  /** The request is for the operator's own domain. */
  ghost predicate ForDashboard(cfg: Config, req: HttpRequest) {
    ValidConfig(cfg) && PlainHost(cfg.domain) && Header(req.host, cfg.domain)
  }

  /** The path of a test's page. */
  ghost predicate IsPagePath(path: string, t: TestID) {
    exists hex :: path == "/test/" + hex && HexText(hex, t)
  }

  lemma PagePathExactly(path: string, t: TestID)
    ensures ParseTestPath(path) == Some(t) <==> IsPagePath(path, t)
  {
    if ParseTestPath(path) == Some(t) {
      DecodesHexText(path[6..], t);
      assert path == "/test/" + path[6..];
    }
    if IsPagePath(path, t) {
      var hex :| path == "/test/" + hex && HexText(hex, t);
      PagePath(path, hex, t);
    }
  }

  /** Plain HTTP is redirected for good where the operator asks for that, whatever the path. */
  lemma PlainIsRedirected(cfg: Config, req: HttpRequest)
    requires ForDashboard(cfg, req) && cfg.redirectToHTTPS && !req.tls
    ensures RouteOf(cfg, req) == Rejected(308)
  {
    HeaderHost(req, cfg.domain);
  }

  /** A test is started by a POST to "/test" and by nothing else. */
  lemma StartExactly(cfg: Config, req: HttpRequest)
    requires ForDashboard(cfg, req) && (req.tls || !cfg.redirectToHTTPS)
    ensures RouteOf(cfg, req) == ToStartTest <==> req.path == "/test" && req.httpMethod == "POST"
  {
    HeaderHost(req, cfg.domain);
  }

  /** The page of a test is at "/test/" and its ID in hexadecimal, and nowhere else. */
  lemma PageExactly(cfg: Config, req: HttpRequest, t: TestID)
    requires ForDashboard(cfg, req) && (req.tls || !cfg.redirectToHTTPS)
    ensures RouteOf(cfg, req) == ToTestPage(t) <==> IsPagePath(req.path, t)
  {
    HeaderHost(req, cfg.domain);
    PagePathExactly(req.path, t);
    if IsPagePath(req.path, t) {
      var hex :| req.path == "/test/" + hex && HexText(hex, t);
      PagePath(req.path, hex, t);
    }
  }

  /** The pages that do not use the database, and the paths that are no pages. */
  lemma OtherPaths(cfg: Config, req: HttpRequest)
    requires ForDashboard(cfg, req) && (req.tls || !cfg.redirectToHTTPS)
    requires !(req.path == "/test" && req.httpMethod == "POST") && forall t :: !IsPagePath(req.path, t)
    ensures RouteOf(cfg, req)
         == if req.path == "/" || StartsWith(req.path, "/assets/") || req.path == "/view_issuance" then OtherPage
            else Rejected(400)
  {
    HeaderHost(req, cfg.domain);
    StartsWithIsPrefix(req.path, "/assets/");
    if ParseTestPath(req.path).Some? {
      PagePathExactly(req.path, ParseTestPath(req.path).value);
    }
  }

  // What a test's host answers

  /** The request is for a host of the test that does not start with an underscore. */
  ghost predicate ForTest(cfg: Config, req: HttpRequest, ip: string, target: Target) {
    && ValidConfig(cfg) && req.remote == Some(ip)
    && exists host, labels, hex ::
         && PlainHost(host) && Header(req.host, host) && !StartsWith(host, "_")
         && IsHost(cfg.domain, host, labels, hex, target)
  }

  lemma ArrivesAtTest(cfg: Config, req: HttpRequest, ip: string, target: Target)
    requires ForTest(cfg, req, ip, target)
    ensures ArriveHttp(cfg, req) == HttpHandler(req, target, HttpArrived) && RouteOf(cfg, req) == ToTest(target)
  {
    var host, labels, hex :| PlainHost(host) && Header(req.host, host) && !StartsWith(host, "_")
                             && IsHost(cfg.domain, host, labels, hex, target);
    HostIsParsed(cfg.domain, host, labels, hex, target);
    HeaderHost(req, host);
    NotTheDashboard(cfg, host);
    FoldingAgrees(cfg.domain, host);
    UnderscoreSurvives(host);
    StartsWithIsPrefix(host, "_");
  }

  /** The scheme of the transport. */
  predicate Over(req: HttpRequest, scheme: string) {
    if req.tls then scheme == "https" else scheme == "http"
  }

  /** The row under which a test's host looks for a file. */
  predicate FileFor(r: Row<PublishedFile>, req: HttpRequest, target: Target) {
    && r.test == target.id && Over(req, r.value.scheme)
    && r.value.subdomain == target.subdomain && r.value.path == req.path
  }

  /** The body: the content of the file at this key, or nothing. */
  ghost predicate BodyFor(rows: Table<PublishedFile>, req: HttpRequest, target: Target, body: string) {
    && (forall r :: r in rows && FileFor(r, req, target) ==> body == r.value.content)
    && ((forall r :: r in rows ==> !FileFor(r, req, target)) ==> body == "")
  }

  /** What is logged of a request. */
  function LoggedRequest(req: HttpRequest, ip: string): HttpEntry {
    HttpEntry(ip, req.host, req.tls, req.httpMethod, req.url)
  }

  lemma SameRow(rows: Table<PublishedFile>, q: Row<PublishedFile>, r: Row<PublishedFile>)
    requires GoodFiles(rows) && q in rows && r in rows && q.test == r.test && SameKey(q.value, r.value)
    ensures q == r
  {
    var i :| 0 <= i < |rows| && rows[i] == q;
    var j :| 0 <= j < |rows| && rows[j] == r;
    assert i == j;
  }

  lemma ScanIsBody(rows: Table<PublishedFile>, req: HttpRequest, target: Target)
    requires GoodFiles(rows)
    ensures var found := FindFile(rows, target.id, RequestScheme(req), target.subdomain, req.path);
            BodyFor(rows, req, target, if found.Some? then found.value else "")
  {
    var found := FindFile(rows, target.id, RequestScheme(req), target.subdomain, req.path);
    FindFileMembers(rows, target.id, RequestScheme(req), target.subdomain, req.path);
    if found.Some? {
      var r :| r in rows && r.test == target.id
               && r.value == PublishedFile(RequestScheme(req), target.subdomain, req.path, found.value);
      forall q | q in rows && FileFor(q, req, target) ensures q.value.content == found.value {
        SameRow(rows, q, r);
      }
    }
  }

  lemma HostCompletes(cfg: Config, now: int, db: Tables, req: HttpRequest, ip: string, target: Target, body: string)
    requires req.remote == Some(ip) && IsRunning(db, target.id)
    requires var found := FindFile(db.httpFiles, target.id, RequestScheme(req), target.subdomain, req.path);
             body == if found.Some? then found.value else ""
    ensures Complete(cfg, now, db, HttpHandler(req, target, HttpArrived), [], 0)
         == Completed(
              db.(httpRequests := db.httpRequests
                    + [Row(NextId(db.httpRequests), target.id, LoggedRequest(req, ip))]),
              HttpHandler(req, target, HttpDone(HttpReply(200, body))))
  {
    CompleteHttp(cfg, now, db, req, target, []);
  }

  /** A request to the host of a running test is answered 200 with the file at its transport's scheme, its subdomain and
      its path, and one row is logged with the peer, the Host header, the transport, the method and the URL. */
  lemma HostAnswers(cfg: Config, now: int, db: Tables, req: HttpRequest, ip: string, target: Target)
    returns (body: string)
    requires ForTest(cfg, req, ip, target) && IsRunning(db, target.id) && GoodFiles(db.httpFiles)
    ensures BodyFor(db.httpFiles, req, target, body)
    ensures Handled(cfg, now, db, req, [])
         == Completed(
              db.(httpRequests := db.httpRequests
                    + [Row(NextId(db.httpRequests), target.id, LoggedRequest(req, ip))]),
              HttpHandler(req, target, HttpDone(HttpReply(200, body))))
  {
    ArrivesAtTest(cfg, req, ip, target);
    ScanIsBody(db.httpFiles, req, target);
    var found := FindFile(db.httpFiles, target.id, RequestScheme(req), target.subdomain, req.path);
    body := if found.Some? then found.value else "";
    HostCompletes(cfg, now, db, req, ip, target, body);
  }

  /** The host of a test that is not running answers 404, a failing check, read or insert answers 500, and neither
      leaves a trace. */
  lemma HostFails(cfg: Config, now: int, db: Tables, req: HttpRequest, ip: string, target: Target, results: seq<bool>)
    requires ForTest(cfg, req, ip, target)
    requires !IsRunning(db, target.id) || !Succeeds(results, 0) || !Succeeds(results, 1) || !Succeeds(results, 2)
    ensures Handled(cfg, now, db, req, results)
         == Completed(db, HttpHandler(req, target, HttpDone(
              HttpReply(if Succeeds(results, 0) && !IsRunning(db, target.id) then 404 else 500, ""))))
  {
    ArrivesAtTest(cfg, req, ip, target);
    CompleteHttp(cfg, now, db, req, target, results);
  }

  /** From form to body: a file posted for a scheme is answered to requests over that transport, at the lower-cased
      subdomain and the path; over the other transport the answer is what was there before. */
  lemma PostedFileIsServed(
    cfg: Config, now: int, later: int, db: Tables, post: HttpRequest, hex: string, t: TestID,
    scheme: string, typed: string, subdomain: string, content: string, get: HttpRequest, ip: string)
    returns (body: string)
    requires Posts(cfg, db, post, hex, t) && AddsFile(post.form, scheme, typed, get.path, content)
    requires Folded(typed, subdomain) && AcceptedFile(scheme, get.path, content)
    requires GoodFiles(db.httpFiles) && FreeKey(db.httpFiles, t, scheme, subdomain, get.path)
    requires ForTest(cfg, get, ip, Target(t, subdomain))
    ensures Handled(cfg, later, Handled(cfg, now, db, post, []).db, get, []).handler
         == HttpHandler(get, Target(t, subdomain), HttpDone(HttpReply(200, body)))
    ensures if get.tls == (scheme == "https") then body == content
            else BodyFor(db.httpFiles, get, Target(t, subdomain), body)
  {
    var file, after := PublishedFile(scheme, subdomain, get.path, content), Handled(cfg, now, db, post, []).db;
    var row := Row(NextId(db.httpFiles), t, file);
    FileFormPublishes(cfg, now, db, post, hex, t, scheme, typed, subdomain, get.path, content);
    assert after.httpFiles == db.httpFiles + [row];
    FoldedIsToLower(typed, subdomain);
    ToLowerTwice(typed);
    StartsWithIsPrefix(get.path, "/.well-known/pki-validation/");
    StartsWithIsPrefix(get.path, "/.well-known/acme-challenge/");
    FreeKeyIsNotFound(db.httpFiles, t, scheme, subdomain, get.path, content);
    InsertKeepsFiles(db.httpFiles, row.id, t, file);
    body := HostAnswers(cfg, later, after, get, ip, Target(t, subdomain));
    assert row in after.httpFiles;
    assert forall r :: r in after.httpFiles <==> r in db.httpFiles || r == row;
  }
}
