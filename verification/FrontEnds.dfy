/** The three front ends attribute a host name to the same test, although DNS and HTTP fold case and SMTP does not. */
module FrontEnds {
  import opened Options
  import opened Ascii
  import opened TestIds
  import opened Records
  import opened Posting
  import opened Dns
  import opened Http

  lemma LastHexDigit(hex: string)
    requires ParseTestID(hex).Some?
    ensures |hex| == 2 * TEST_ID_LENGTH && LowerChar(hex[|hex| - 1]) != '\\'
  {
    PrintedTestID(hex);
    HexEncodeText(ParseTestID(hex).value);
    assert ToLower(hex)[|hex| - 1] == LowerChar(hex[|hex| - 1]);
  }

  lemma LastOfConcat(front: string, hex: string)
    requires hex != "" && LowerChar(hex[|hex| - 1]) != '\\'
    ensures TrailingBackslashes(ToLower(front + hex)) == 0
  {
    assert ToLower(front + hex)[|front + hex| - 1] == LowerChar(hex[|hex| - 1]);
  }

  lemma HexEndsPrefix(prefix: string)
    requires ParsePrefix(prefix).Some?
    ensures |prefix| >= 2 * TEST_ID_LENGTH && TrailingBackslashes(ToLower(prefix)) == 0
  {
    var front, hex := PrefixShape(prefix);
    LastHexDigit(hex);
    LastOfConcat(front, hex);
  }

  lemma DottedShape(cfg: Config, hostname: string, prefix: string)
    requires ValidConfig(cfg) && HasSuffix(hostname, ".")
    requires TrimSuffix(hostname, ".") == prefix + TestSuffix(cfg.domain)
    ensures ToLower(hostname) == ToLower(prefix) + ("." + TestDomain(cfg))
  {
    SplitSuffix(hostname, ".");
    SuffixIsLower(cfg.domain, prefix);
    assert hostname == prefix + TestSuffix(cfg.domain) + ".";
    assert ToLower(prefix) + TestSuffix(cfg.domain) + "." == ToLower(prefix) + ("." + TestDomain(cfg));
  }

  /** DNS: an accepted, dot-terminated name is served, whatever its case, and belongs to the same test. */
  lemma DnsAgrees(cfg: Config, hostname: string)
    requires ValidConfig(cfg) && ParseHostname(cfg.domain, hostname).Some? && HasSuffix(hostname, ".")
    ensures NamedTest(cfg, ToLower(hostname)) == ParseHostname(cfg.domain, hostname)
    ensures IsSubDomain(TestDomain(cfg), ToLower(hostname))
  {
    var prefix := AcceptedShape(cfg.domain, hostname);
    var zone := "." + TestDomain(cfg);
    FoldingAgrees(cfg.domain, hostname);
    HexEndsPrefix(prefix);
    DottedShape(cfg, hostname, prefix);
    assert ToLower(hostname) == ToLower(prefix) + zone;
    SuffixOfConcat(ToLower(prefix), zone);
  }

  /** A host name that a Host header carries as it is, or with a port. */
  predicate PlainHost(host: string) {
    ':' !in host && '[' !in host && ']' !in host
  }

  lemma HostOfHeader(req: HttpRequest, host: string, port: string)
    requires PlainHost(host) && PlainHost(port)
    requires req.host == host || req.host == host + ":" + port
    ensures HttpHost(req) == ToLower(host)
  {
    if req.host == host {
      assert LastIndex(host, ':') == -1;
    } else {
      LastIndexOfConcat(host, ':', port);
      assert (host + ":" + port)[..|host|] == host;
      if host != "" {
        assert (host + ":" + port)[0] == host[0];
        assert host[0] in host;
      }
    }
  }

  lemma NotTheDashboard(cfg: Config, hostname: string)
    requires ValidConfig(cfg) && ParseHostname(cfg.domain, hostname).Some?
    ensures ToLower(hostname) != cfg.domain
  {
    var prefix := AcceptedShape(cfg.domain, hostname);
    assert |hostname| >= |TestSuffix(cfg.domain)|;
  }

  lemma UnderscoreSurvives(s: string)
    ensures HasPrefix(ToLower(s), "_") <==> HasPrefix(s, "_")
  {
    if s != "" {
      assert ToLower(s)[0] == LowerChar(s[0]);
      assert HasPrefix(s, "_") <==> s[0] == '_';
      assert HasPrefix(ToLower(s), "_") <==> ToLower(s)[0] == '_';
    }
  }

  /** HTTP: a request for an accepted host name without a leading underscore, with or without a port,
      goes to the same test. */
  lemma HttpAgrees(cfg: Config, req: HttpRequest, hostname: string, port: string)
    requires ValidConfig(cfg) && ParseHostname(cfg.domain, hostname).Some?
    requires PlainHost(hostname) && PlainHost(port) && req.remote.Some?
    requires req.host == hostname || req.host == hostname + ":" + port
    ensures RouteOf(cfg, req)
         == if HasPrefix(hostname, "_") then Rejected(404) else ToTest(ParseHostname(cfg.domain, hostname).value)
  {
    HostOfHeader(req, hostname, port);
    NotTheDashboard(cfg, hostname);
    FoldingAgrees(cfg.domain, hostname);
    UnderscoreSurvives(hostname);
  }

  /** SMTP: mail to any local part at an accepted host name goes to the same test. */
  lemma SmtpAgrees(cfg: Config, local: string, hostname: string)
    requires ParseHostname(cfg.domain, hostname).Some? && '@' !in hostname
    ensures ParseEmailAddress(cfg.domain, local + "@" + hostname)
         == Some(ParseHostname(cfg.domain, hostname).value.id)
  {
    ParseAddress(cfg.domain, local, hostname);
  }

  // What the dashboard's links and forms lead to

  /** The page startTest redirects to is the page of the test it started. */
  lemma StartLeadsToPage(cfg: Config, req: HttpRequest, t: TestID)
    requires HttpHost(req) == cfg.domain && (req.tls || !cfg.redirectToHTTPS)
    requires req.path == "/test/" + HexEncode(t)
    ensures RouteOf(cfg, req) == ToTestPage(t)
  {
    ParseTestIDOfPrinted(t);
    assert req.path[6..] == HexEncode(t);
    assert req.path[1] == 't' && "/assets/"[1] == 'a';
    HexEncodeText(t);
    assert |req.path| > 6;
  }

  /** Whether the form's record is accepted. */
  predicate AcceptedPost(cfg: Config, form: Form, flag: nat) {
    var kind := FormValue(form, "add_dns_record");
    if kind == "TXT" then |FormValue(form, "txt_data")| <= 255
    else if kind == "CAA" then flag <= 255 && 0 < |FormValue(form, "caa_tag")| <= 255
    else NormalizedTarget(cfg, FormValue(form, "cname_target")).Some?
  }

  /** What the DNS server ought to answer for the form's record. */
  function PostedRR(cfg: Config, form: Form, flag: nat, t: TestID): RR
    requires AcceptedPost(cfg, form, flag)
  {
    var kind := FormValue(form, "add_dns_record");
    if kind == "TXT" then
      RR(MakeHostname(cfg.domain, t, ToLower(FormValue(form, "txt_subdomain"))) + ".", TYPE_TXT, STORED_TTL,
         TxtData([FormValue(form, "txt_data")]))
    else if kind == "CAA" then
      RR(MakeHostname(cfg.domain, t, ToLower(FormValue(form, "caa_subdomain"))) + ".", TYPE_CAA, STORED_TTL,
         CaaData(flag, FormValue(form, "caa_tag"), FormValue(form, "caa_value")))
    else
      RR(MakeHostname(cfg.domain, t, ToLower(FormValue(form, "cname_subdomain"))) + ".", TYPE_CNAME, STORED_TTL,
         CnameData(NormalizedTarget(cfg, FormValue(form, "cname_target")).value))
  }

  /** From form to answer: a TXT record of at most 255 bytes, a CAA record with a byte as its flag and a tag of 1 to
      255 bytes, and a CNAME record with an authorised target are accepted and read back as they were posted, at the
      lower-cased subdomain; any other is refused. */
  lemma PostedIsAnswered(cfg: Config, form: Form, flag: nat, t: TestID)
    requires ValidConfig(cfg)
    requires FormValue(form, "stop") == "" && FormValue(form, "add_dns_record") in {"TXT", "CAA", "CNAME"}
    requires FormValue(form, "add_dns_record") == "CAA" ==> FormValue(form, "caa_flag") == DecimalText(flag)
    ensures match DecodeAction(cfg, form)
            case AddRecord(record) =>
              && AcceptedPost(cfg, form, flag)
              && Readable(cfg, record) && RecordRR(cfg, t, record) == PostedRR(cfg, form, flag, t)
            case BadRequest => !AcceptedPost(cfg, form, flag)
            case _ => false
  {
    DecimalRoundTrip(flag);
  }

  /** The delete button of a record, which carries its row id in decimal, asks for exactly that row. */
  lemma DeleteButton(cfg: Config, form: Form, id: nat)
    requires FormValue(form, "stop") == "" && FormValue(form, "add_dns_record") == ""
    requires FormValue(form, "rm_dns_record") == DecimalText(id)
    ensures DecodeAction(cfg, form) == RemoveRecord(Some(id))
  {
    DecimalRoundTrip(id);
  }
}
