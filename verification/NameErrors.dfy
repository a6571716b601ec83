/** When NXDOMAIN depends on the type that is asked for. */
module NameErrors {
  import opened Options
  import opened Ascii
  import opened TestIds
  import opened Records
  import opened Posting
  import opened Tables
  import opened Dns
  import opened DnsTheorems
  import opened Machine
  import opened Sequential
  import opened FrontEnds
  import opened Posts

  /** The query is answered with NXDOMAIN. */
  predicate NoName(cfg: Config, db: Tables, fqdn: string, qtype: nat) {
    Finish(cfg, Resolve(cfg, db, fqdn, qtype)).rcode == NameError
  }

  ghost predicate RecordLive(rows: Table<PublishedRecord>, t: TestID, subdomain: string) {
    exists i :: 0 <= i < |rows| && rows[i].test == t && rows[i].value.subdomain == subdomain
  }

  /** An underscore name of a running test at which some record is live, and no CNAME. */
  ghost predicate TypesDisagree(cfg: Config, db: Tables, fqdn: string) {
    && HasPrefix(fqdn, "_") && LiveTarget(cfg, db, fqdn).Some?
    && var target := LiveTarget(cfg, db, fqdn).value;
       && RecordLive(db.dnsRecords, target.id, target.subdomain)
       && !CnameLive(db.dnsRecords, target.id, target.subdomain)
  }

  lemma {:induction false} LiveIsSelected(rows: Table<PublishedRecord>, t: TestID, subdomain: string)
    ensures SelectRecords(rows, t, subdomain, TYPE_ANY) != [] <==> RecordLive(rows, t, subdomain)
  {
    if rows != [] {
      var front, last := rows[..|rows| - 1], rows[|rows| - 1];
      LiveIsSelected(front, t, subdomain);
      assert rows == front + [last];
      if last.test == t && last.value.subdomain == subdomain {
        assert RecordLive(rows, t, subdomain);
      } else if RecordLive(rows, t, subdomain) {
        assert RecordLive(front, t, subdomain);
      }
    }
  }

  /** A live CNAME is selected whatever type is asked. */
  lemma CnameIsSelected(rows: Table<PublishedRecord>, t: TestID, subdomain: string, qtype: nat)
    requires CnameLive(rows, t, subdomain)
    ensures SelectRecords(rows, t, subdomain, qtype) != []
  {
    CnameForEveryType(rows, t, subdomain, qtype);
    OldestCnameIsLive(rows, t, subdomain);
  }

  lemma NotTypeZero(cfg: Config, record: PublishedRecord, subdomain: string)
    requires GoodRecord(cfg, record) && Selected(record, subdomain, 0)
    ensures record.rrtype == TYPE_CNAME
  {
  }

  /** A type that no form can store selects nothing, as long as no CNAME is live. */
  lemma NeverStored(cfg: Config, rows: Table<PublishedRecord>, t: TestID, subdomain: string)
    requires ValidConfig(cfg) && GoodRecords(cfg, rows) && !CnameLive(rows, t, subdomain)
    ensures SelectRecords(rows, t, subdomain, 0) == []
  {
    var records := SelectRecords(rows, t, subdomain, 0);
    SelectedAreGood(cfg, rows, t, subdomain, 0);
    CnameForEveryType(rows, t, subdomain, 0);
    OldestCnameIsLive(rows, t, subdomain);
    NoFirstCname(records);
    SelectedSubdomain(rows, t, subdomain, 0);
    if records != [] {
      NotTypeZero(cfg, records[0], subdomain);
    }
  }

  lemma AgreeOnCode(cfg: Config, db: Tables, fqdn: string, qtype: nat)
    requires ValidConfig(cfg) && GoodRecords(cfg, db.dnsRecords) && !TypesDisagree(cfg, db, fqdn)
    ensures NoName(cfg, db, fqdn, qtype) <==> NoName(cfg, db, fqdn, TYPE_ANY)
  {
    NameErrorExactly(cfg, db, fqdn, qtype);
    NameErrorExactly(cfg, db, fqdn, TYPE_ANY);
    if LiveTarget(cfg, db, fqdn).Some? {
      var target := LiveTarget(cfg, db, fqdn).value;
      SelectionWithinAny(db.dnsRecords, target.id, target.subdomain, qtype);
      LiveIsSelected(db.dnsRecords, target.id, target.subdomain);
      if CnameLive(db.dnsRecords, target.id, target.subdomain) {
        CnameIsSelected(db.dnsRecords, target.id, target.subdomain, qtype);
      }
    }
  }

  lemma DisagreeOnCode(cfg: Config, db: Tables, fqdn: string)
    requires ValidConfig(cfg) && GoodRecords(cfg, db.dnsRecords) && TypesDisagree(cfg, db, fqdn)
    ensures NoName(cfg, db, fqdn, 0) && !NoName(cfg, db, fqdn, TYPE_ANY)
  {
    var target := LiveTarget(cfg, db, fqdn).value;
    NameErrorExactly(cfg, db, fqdn, 0);
    NameErrorExactly(cfg, db, fqdn, TYPE_ANY);
    NeverStored(cfg, db.dnsRecords, target.id, target.subdomain);
    LiveIsSelected(db.dnsRecords, target.id, target.subdomain);
  }

  /** Whether a name exists is the same for every type, unless it is an underscore name of a running test with a
      live record and no live CNAME: then some type gives NXDOMAIN and ANY does not. */
  lemma NameErrorAgreesExactly(cfg: Config, db: Tables, fqdn: string)
    requires ValidConfig(cfg) && GoodRecords(cfg, db.dnsRecords)
    ensures (forall qtype: nat :: NoName(cfg, db, fqdn, qtype) <==> NoName(cfg, db, fqdn, TYPE_ANY))
       <==> !TypesDisagree(cfg, db, fqdn)
  {
    if TypesDisagree(cfg, db, fqdn) {
      DisagreeOnCode(cfg, db, fqdn);
    } else {
      forall qtype: nat ensures NoName(cfg, db, fqdn, qtype) <==> NoName(cfg, db, fqdn, TYPE_ANY) {
        AgreeOnCode(cfg, db, fqdn, qtype);
      }
    }
  }

  // The types do disagree in a reachable state

  lemma UnderscoreName(cfg: Config, t: TestID)
    requires ValidConfig(cfg)
    ensures var fqdn := MakeHostname(cfg.domain, t, "_x") + ".";
            IsLower(fqdn) && HasPrefix(fqdn, "_") && NamedTest(cfg, fqdn) == Some(Target(t, "_x"))
  {
    var fqdn := MakeHostname(cfg.domain, t, "_x") + ".";
    assert ToLower("_x") == "_x";
    HostnameIsLower(cfg.domain, t, "_x");
    ParseAfterPrint(cfg.domain, t, "_x");
    assert fqdn[0] == '_';
    assert TestDomain(cfg)[0] == 't';
  }

  function TxtRecord(): PublishedRecord {
    PublishedRecord("_x", TYPE_TXT, TxtJson("v"))
  }

  /** A running test that has published this record, and nothing else is published. */
  predicate LoneRecord(db: Tables, t: TestID) {
    Running(db, t) && db.dnsRecords == [Row(1, t, TxtRecord())]
  }

  lemma OneRowSelection(t: TestID, record: PublishedRecord, qtype: nat)
    ensures SelectRecords([Row(1, t, record)], t, record.subdomain, qtype)
         == if Wanted(qtype, record.rrtype) || record.rrtype == TYPE_CNAME then [record] else []
  {
    assert [Row(1, t, record)][..0] == [];
  }

  lemma TxtRecordIsGood(cfg: Config)
    ensures GoodRecord(cfg, TxtRecord())
  {
    assert ToLower("_x") == "_x";
  }

  lemma LoneRecordReply(cfg: Config, db: Tables, t: TestID, qtype: nat)
    requires ValidConfig(cfg) && LoneRecord(db, t) && qtype in {TYPE_A, TYPE_TXT}
    ensures NoName(cfg, db, MakeHostname(cfg.domain, t, "_x") + ".", qtype) <==> qtype == TYPE_A
  {
    var fqdn := MakeHostname(cfg.domain, t, "_x") + ".";
    TxtRecordIsGood(cfg);
    UnderscoreName(cfg, t);
    OneRowSelection(t, TxtRecord(), qtype);
    NameErrorExactly(cfg, db, fqdn, qtype);
  }

  lemma TxtFormDecodes(cfg: Config)
    ensures DecodeAction(cfg, TxtForm("_x", "v")) == AddRecord(TxtRecord())
  {
    FormsDecode(cfg, "_x", "v", 0);
    assert ToLower("_x") == "_x";
  }

  lemma LonePostState(cfg: Config, now: int, t: TestID, post: Submission)
    requires post == Submission(0, t, TxtForm("_x", "v"))
    ensures LoneRecord(Posted(cfg, Started(now, {t}), post).db, t)
  {
    TxtFormDecodes(cfg);
    PostedRecords(cfg, Started(now, {t}), post);
    PostKeepsTests(cfg, Started(now, {t}), post);
  }

  lemma LonePost(cfg: Config, now: int, t: TestID) returns (posts: seq<Submission>)
    requires ValidConfig(cfg) && PlainHost(cfg.domain)
    ensures var s := Started(now, {t});
            && ExactRun(cfg, s, PostAll(cfg, s, posts))
            && LoneRecord(Run(cfg, s, PostAll(cfg, s, posts)).db, t)
  {
    var s, post := Started(now, {t}), Submission(0, t, TxtForm("_x", "v"));
    posts := [post];
    TxtFormDecodes(cfg);
    StartedIsReady(cfg, now, {t}, t);
    PostAllIsRun(cfg, s, posts);
    LonePostState(cfg, now, t, post);
    assert PostedAll(cfg, s, posts) == Posted(cfg, s, post);
  }

  /** Typed queries need not agree on NXDOMAIN: after a test is started and one TXT record is posted at an
      underscore name, A gives NXDOMAIN there and TXT does not. */
  lemma NameErrorDependsOnType(cfg: Config, now: int, t: TestID) returns (ls: seq<Label>, fqdn: string)
    requires ValidConfig(cfg) && PlainHost(cfg.domain)
    ensures ExactRun(cfg, Initial(now), ls)
    ensures NoName(cfg, Run(cfg, Initial(now), ls).db, fqdn, TYPE_A)
    ensures !NoName(cfg, Run(cfg, Initial(now), ls).db, fqdn, TYPE_TXT)
  {
    var s := Started(now, {t});
    var posts := LonePost(cfg, now, t);
    AfterStart(cfg, now, t, posts);
    ls, fqdn := [StartTest(t, true)] + PostAll(cfg, s, posts), MakeHostname(cfg.domain, t, "_x") + ".";
    LoneRecordReply(cfg, Run(cfg, Initial(now), ls).db, t, TYPE_A);
    LoneRecordReply(cfg, Run(cfg, Initial(now), ls).db, t, TYPE_TXT);
  }
}
