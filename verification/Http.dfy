/** http.go and the dispatch of dashboard.go: where an HTTP request goes. */
module Http {
  import opened Options
  import opened Ascii
  import opened TestIds
  import opened Records
  import opened Posting

  /** A request; remote is None when the peer address cannot be parsed. */
  datatype HttpRequest = HttpRequest(
    remote: Option<string>, host: string, tls: bool, httpMethod: string, path: string, url: string, form: Form)

  datatype HttpReply = HttpReply(status: nat, body: string)

  /** Where a request goes. OtherPage stands for the pages that leave the database alone; Rejected for a
      redirect or an error that is sent at once. */
  datatype Route =
    | ToTest(target: Target)
    | ToTestPage(test: TestID)
    | ToStartTest
    | OtherPage
    | Rejected(status: nat)

  /** net.SplitHostPort: the host, if the string is a well-formed "host:port" or "[host]:port". */
  function SplitHostPort(s: string): Option<string> {
    var colon := LastIndex(s, ':');
    if colon == -1 then None
    else if s[0] == '[' then
      if s[colon - 1] == ']' && ']' !in s[..colon - 1] && '[' !in s[1..] && ']' !in s[colon..]
      then Some(s[1..colon - 1]) else None
    else if ':' in s[..colon] || '[' in s || ']' in s then None
    else Some(s[..colon])
  }

  function HttpHost(req: HttpRequest): string {
    match SplitHostPort(req.host)
    case Some(host) => ToLower(host)
    case None => ToLower(req.host)
  }

  function RequestScheme(req: HttpRequest): string {
    if req.tls then "https" else "http"
  }

  function ParseTestPath(path: string): Option<TestID> {
    if HasPrefix(path, "/test/") then ParseTestID(path[6..]) else None
  }

  /** serveDashboard */
  function DashboardRoute(cfg: Config, req: HttpRequest): Route {
    if cfg.redirectToHTTPS && !req.tls then Rejected(308)
    else if req.path == "/" || HasPrefix(req.path, "/assets/") then OtherPage
    else if req.path == "/test" && req.httpMethod == "POST" then ToStartTest
    else
      match ParseTestPath(req.path)
      case Some(t) => ToTestPage(t)
      case None => if req.path == "/view_issuance" then OtherPage else Rejected(400)
  }

  /** serveHTTP */
  function RouteOf(cfg: Config, req: HttpRequest): Route {
    var host := HttpHost(req);
    if host == cfg.domain then DashboardRoute(cfg, req)
    else
      match ParseHostname(cfg.domain, host)
      case Some(target) =>
        if HasPrefix(host, "_") then Rejected(404)
        else if req.remote.None? then Rejected(400)
        else ToTest(target)
      case None => Rejected(404)
  }
}
