/** DNS replies, field by field: what is built in, what is stored, and the authority section of empty answers. */
module DnsAnswers {
  import opened Options
  import opened Ascii
  import opened TestIds
  import opened Records
  import opened Names
  import Targets
  import opened Tables
  import opened Dns
  import opened DnsTheorems
  import opened FrontEnds
  import opened Machine
  import opened Sequential
  import opened Pages

  // Queries

  /** A query of class IN that is not for a zone transfer, with this name in lower case. */
  predicate Asks(cfg: Config, req: DnsRequest, qtype: nat, fqdn: string) {
    && ValidConfig(cfg) && req.questions != []
    && req.questions[0].qclass == 1 && req.questions[0].qtype == qtype && qtype != 251 && qtype != 252
    && Folded(req.questions[0].name, fqdn)
  }

  /** A query for a host name of the test, ended by a dot. */
  ghost predicate AsksTest(cfg: Config, req: DnsRequest, qtype: nat, fqdn: string, target: Target) {
    && Asks(cfg, req, qtype, fqdn) && HasSuffix(fqdn, ".")
    && exists labels, hex :: IsHost(cfg.domain, fqdn, labels, hex, target)
  }

  /** The query handled to its end with nothing in between. */
  function Answered(cfg: Config, now: int, db: Tables, req: DnsRequest): Completed {
    Complete(cfg, now, db, ArriveDns(cfg, req), [], 0)
  }

  /** What is logged of a query for a running test. */
  function WithQuery(db: Tables, req: DnsRequest, t: TestID): Tables
    requires req.questions != []
  {
    if IsRunning(db, t) then
      db.(dnsRequests := db.dnsRequests
            + [Row(NextId(db.dnsRequests), t, DnsEntry(req.remote, req.questions[0].name, req.questions[0].qtype))])
    else db
  }

  /** A reply with these answers: the authority section is for empty ones. */
  function ReplyWith(cfg: Config, answer: seq<RR>): DnsReply {
    DnsReply(NoError, answer, if answer == [] then [ZoneAuthority(cfg)] else [])
  }

  function NoSuchName(cfg: Config): DnsReply {
    DnsReply(NameError, [], [ZoneAuthority(cfg)])
  }

  /** One record for each address, in order. */
  predicate AddressList(answer: seq<RR>, fqdn: string, rrtype: nat, addrs: seq<Address>) {
    && |answer| == |addrs|
    && forall i :: 0 <= i < |answer| ==> answer[i] == RR(fqdn, rrtype, 3600, AddressData(addrs[i]))
  }

  function MailRecord(cfg: Config, fqdn: string): RR {
    RR(fqdn, 15, 86400, MxData(10, cfg.domain + "."))
  }

  /** The answers built in at a test's name: its addresses (types 1 and 28) and its mail exchanger (type 15). */
  predicate BuiltInAnswer(cfg: Config, fqdn: string, qtype: nat, answer: seq<RR>) {
    if qtype == 1 then AddressList(answer, fqdn, 1, cfg.v4)
    else if qtype == 28 then AddressList(answer, fqdn, 28, cfg.v6)
    else if qtype == 15 then answer == [MailRecord(cfg, fqdn)]
    else if qtype == 255 then
      && |answer| == |cfg.v4| + |cfg.v6| + 1
      && AddressList(answer[..|cfg.v4|], fqdn, 1, cfg.v4)
      && AddressList(answer[|cfg.v4|..|cfg.v4| + |cfg.v6|], fqdn, 28, cfg.v6)
      && answer[|cfg.v4| + |cfg.v6|] == MailRecord(cfg, fqdn)
    else answer == []
  }

  // How queries arrive

  lemma ArrivesForTest(cfg: Config, req: DnsRequest, qtype: nat, fqdn: string, target: Target)
    requires AsksTest(cfg, req, qtype, fqdn, target)
    ensures fqdn == ToLower(req.questions[0].name) && IsLower(fqdn)
    ensures NamedTest(cfg, fqdn) == Some(target) && fqdn != TestDomain(cfg)
    ensures ArriveDns(cfg, req)
         == DnsHandler(DnsQuery(req.remote, req.questions[0]), target, DnsArrived(BuiltinAnswers(cfg, fqdn, qtype)))
  {
    var labels, hex :| IsHost(cfg.domain, fqdn, labels, hex, target);
    FoldedIsToLower(req.questions[0].name, fqdn);
    ToLowerTwice(req.questions[0].name);
    HostIsParsed(cfg.domain, fqdn, labels, hex, target);
    DnsAgrees(cfg, fqdn);
    ArrivalOfRequest(cfg, req);
  }

  lemma QueryCompletes(cfg: Config, now: int, db: Tables, query: DnsQuery, target: Target, built: Answers)
    ensures var records := SelectRecords(db.dnsRecords, target.id, target.subdomain, query.question.qtype);
            var answers := if IsRunning(db, target.id) then Lookup(cfg, target.id, records, built).answers else built;
            Complete(cfg, now, db, DnsHandler(query, target, DnsArrived(built)), [], 0)
            == Completed(WithQuery(db, DnsRequest(query.remote, [query.question]), target.id),
                         DnsHandler(query, target, DnsDone(Finish(cfg, answers))))
  {
    CompleteDns(cfg, now, db, query, target, built, []);
  }

  lemma AnsweredTest(cfg: Config, now: int, db: Tables, req: DnsRequest, qtype: nat, fqdn: string, target: Target)
    requires AsksTest(cfg, req, qtype, fqdn, target)
    ensures Answered(cfg, now, db, req)
         == Completed(WithQuery(db, req, target.id),
                      DnsHandler(DnsQuery(req.remote, req.questions[0]), target,
                                 DnsDone(Finish(cfg, Resolve(cfg, db, fqdn, qtype)))))
  {
    ArrivesForTest(cfg, req, qtype, fqdn, target);
    QueryCompletes(cfg, now, db, DnsQuery(req.remote, req.questions[0]), target, BuiltinAnswers(cfg, fqdn, qtype));
  }

  // Built-in answers

  lemma {:induction false} OfTypeAll(qtype: nat, rrs: seq<RR>, rrtype: nat)
    requires forall i :: 0 <= i < |rrs| ==> rrs[i].rrtype == rrtype
    ensures OfType(qtype, rrs) == if qtype == 255 || qtype == rrtype then rrs else []
  {
    if rrs != [] {
      OfTypeAll(qtype, rrs[..|rrs| - 1], rrtype);
      assert rrs == rrs[..|rrs| - 1] + [rrs[|rrs| - 1]];
    }
  }

  lemma {:induction false} OfTypeJoined(qtype: nat, a: seq<RR>, b: seq<RR>)
    ensures OfType(qtype, a + b) == OfType(qtype, a) + OfType(qtype, b)
  {
    if b == [] {
      assert a + b == a;
    } else {
      OfTypeJoined(qtype, a, b[..|b| - 1]);
      assert (a + b)[..|a + b| - 1] == a + b[..|b| - 1];
    }
  }

  lemma AddressesListed(fqdn: string, rrtype: nat, addrs: seq<Address>)
    ensures AddressList(Addresses(fqdn, rrtype, addrs), fqdn, rrtype, addrs)
  {
  }

  lemma BuiltinsJoined(cfg: Config, fqdn: string, qtype: nat, a: seq<RR>, aaaa: seq<RR>, mx: seq<RR>)
    requires AddressList(a, fqdn, 1, cfg.v4) && AddressList(aaaa, fqdn, 28, cfg.v6) && mx == [MailRecord(cfg, fqdn)]
    ensures BuiltInAnswer(cfg, fqdn, qtype,
                          (if qtype == 255 || qtype == 1 then a else [])
                          + (if qtype == 255 || qtype == 28 then aaaa else [])
                          + (if qtype == 255 || qtype == 15 then mx else []))
  {
    if qtype == 255 {
      assert (a + aaaa + mx)[..|a|] == a && (a + aaaa + mx)[|a|..|a| + |aaaa|] == aaaa;
    }
  }

  lemma PartsOfType(qtype: nat, a: seq<RR>, aaaa: seq<RR>, mx: seq<RR>)
    requires forall i :: 0 <= i < |a| ==> a[i].rrtype == 1
    requires forall i :: 0 <= i < |aaaa| ==> aaaa[i].rrtype == 28
    requires forall i :: 0 <= i < |mx| ==> mx[i].rrtype == 15
    ensures OfType(qtype, a + aaaa + mx)
         == (if qtype == 255 || qtype == 1 then a else [])
            + (if qtype == 255 || qtype == 28 then aaaa else [])
            + (if qtype == 255 || qtype == 15 then mx else [])
  {
    OfTypeJoined(qtype, a + aaaa, mx);
    OfTypeJoined(qtype, a, aaaa);
    OfTypeAll(qtype, a, 1);
    OfTypeAll(qtype, aaaa, 28);
    OfTypeAll(qtype, mx, 15);
  }

  lemma BuiltinsListed(cfg: Config, fqdn: string, qtype: nat)
    requires NamedTest(cfg, fqdn).Some? && !HasPrefix(fqdn, "_") && fqdn != TestDomain(cfg)
    ensures BuiltinAnswers(cfg, fqdn, qtype).Some?
    ensures BuiltInAnswer(cfg, fqdn, qtype, BuiltinAnswers(cfg, fqdn, qtype).value)
  {
    var a, aaaa, mx := Addresses(fqdn, 1, cfg.v4), Addresses(fqdn, 28, cfg.v6), [MailRecord(cfg, fqdn)];
    assert Builtins(cfg, fqdn) == Some(a + aaaa + mx);
    PartsOfType(qtype, a, aaaa, mx);
    AddressesListed(fqdn, 1, cfg.v4);
    AddressesListed(fqdn, 28, cfg.v6);
    BuiltinsJoined(cfg, fqdn, qtype, a, aaaa, mx);
  }

  /** No record of the test is live at the subdomain, or the test is not running. */
  ghost predicate NothingLive(db: Tables, target: Target) {
    IsRunning(db, target.id) ==>
      forall r :: r in db.dnsRecords ==> !(r.test == target.id && r.value.subdomain == target.subdomain)
  }

  lemma {:induction false} NothingSelected(rows: Table<PublishedRecord>, target: Target, qtype: nat)
    requires forall r :: r in rows ==> !(r.test == target.id && r.value.subdomain == target.subdomain)
    ensures SelectRecords(rows, target.id, target.subdomain, qtype) == []
  {
    if rows != [] {
      var front, last := rows[..|rows| - 1], rows[|rows| - 1];
      assert rows == front + [last] && last in rows;
      assert forall r :: r in front ==> r in rows;
      NothingSelected(front, target, qtype);
    }
  }

  lemma ResolvesBuiltIn(cfg: Config, db: Tables, fqdn: string, qtype: nat, target: Target)
    requires NamedTest(cfg, fqdn) == Some(target) && NothingLive(db, target)
    ensures Resolve(cfg, db, fqdn, qtype) == BuiltinAnswers(cfg, fqdn, qtype)
  {
    if IsRunning(db, target.id) {
      NothingSelected(db.dnsRecords, target, qtype);
    }
  }

  /** A query for a test's name at which nothing is live is answered with what is built in, and logged if the test is
      running; at an underscore name nothing is built in. */
  lemma BuiltInReply(cfg: Config, now: int, db: Tables, req: DnsRequest, qtype: nat, fqdn: string, target: Target)
    returns (answer: seq<RR>)
    requires AsksTest(cfg, req, qtype, fqdn, target) && NothingLive(db, target)
    ensures Answered(cfg, now, db, req)
         == Completed(WithQuery(db, req, target.id),
                      DnsHandler(DnsQuery(req.remote, req.questions[0]), target,
                                 DnsDone(if StartsWith(fqdn, "_") then NoSuchName(cfg) else ReplyWith(cfg, answer))))
    ensures !StartsWith(fqdn, "_") ==> BuiltInAnswer(cfg, fqdn, qtype, answer)
  {
    ArrivesForTest(cfg, req, qtype, fqdn, target);
    AnsweredTest(cfg, now, db, req, qtype, fqdn, target);
    ResolvesBuiltIn(cfg, db, fqdn, qtype, target);
    StartsWithIsPrefix(fqdn, "_");
    answer := [];
    if !HasPrefix(fqdn, "_") {
      BuiltinsListed(cfg, fqdn, qtype);
      answer := BuiltinAnswers(cfg, fqdn, qtype).value;
    }
  }

  // The zone itself, and names that are no test's

  /** The answers at the zone's own name: its name server (type 2) and its authority (type 6). */
  function ZoneAnswer(cfg: Config, qtype: nat): seq<RR> {
    var ns := RR("test." + cfg.domain + ".", 2, 86400, NsData(cfg.domain + "."));
    if qtype == 2 then [ns]
    else if qtype == 6 then [ZoneAuthority(cfg)]
    else if qtype == 255 then [ns, ZoneAuthority(cfg)]
    else []
  }

  lemma ZoneListed(cfg: Config, qtype: nat)
    ensures BuiltinAnswers(cfg, "test." + cfg.domain + ".", qtype) == Some(ZoneAnswer(cfg, qtype))
  {
    var zone := "test." + cfg.domain + ".";
    var ns := RR(zone, 2, 86400, NsData(cfg.domain + "."));
    assert Builtins(cfg, zone) == Some([ns] + [ZoneAuthority(cfg)]) by {
      assert [ns, ZoneAuthority(cfg)] == [ns] + [ZoneAuthority(cfg)];
    }
    OfTypeJoined(qtype, [ns], [ZoneAuthority(cfg)]);
    OfTypeAll(qtype, [ns], 2);
    OfTypeAll(qtype, [ZoneAuthority(cfg)], 6);
  }

  /** A query for the zone's own name. */
  lemma ZoneReply(cfg: Config, now: int, db: Tables, req: DnsRequest, qtype: nat)
    requires Asks(cfg, req, qtype, "test." + cfg.domain + ".")
    ensures Answered(cfg, now, db, req)
         == Completed(db, AnsweredDns(req, ReplyWith(cfg, ZoneAnswer(cfg, qtype))))
  {
    var zone := "test." + cfg.domain + ".";
    FoldedIsToLower(req.questions[0].name, zone);
    ServedExactly(cfg, req.questions[0], zone);
    ArrivalOfRequest(cfg, req);
    ZoneListed(cfg, qtype);
  }

  lemma UnknownArrives(cfg: Config, req: DnsRequest, qtype: nat, fqdn: string)
    requires Asks(cfg, req, qtype, fqdn) && Targets.AtOrBeneath("test." + cfg.domain + ".", fqdn)
    requires fqdn != "test." + cfg.domain + "." && ParseHostname(cfg.domain, fqdn).None?
    ensures ArriveDns(cfg, req) == AnsweredDns(req, NoSuchName(cfg))
  {
    FoldedIsToLower(req.questions[0].name, fqdn);
    ServedExactly(cfg, req.questions[0], fqdn);
    ArrivalOfRequest(cfg, req);
  }

  /** A query for a name beneath the zone that is no test's. */
  lemma UnknownReply(cfg: Config, now: int, db: Tables, req: DnsRequest, qtype: nat, fqdn: string)
    requires Asks(cfg, req, qtype, fqdn) && Targets.AtOrBeneath("test." + cfg.domain + ".", fqdn)
    requires fqdn != "test." + cfg.domain + "." && ParseHostname(cfg.domain, fqdn).None?
    ensures Answered(cfg, now, db, req) == Completed(db, AnsweredDns(req, NoSuchName(cfg)))
  {
    UnknownArrives(cfg, req, qtype, fqdn);
  }

  /** A message without a question, for another class, for a zone transfer or for a name elsewhere is refused. */
  lemma RefusedReply(cfg: Config, now: int, db: Tables, req: DnsRequest, fqdn: string)
    requires req.questions != [] ==> Folded(req.questions[0].name, fqdn)
    requires req.questions == [] || req.questions[0].qclass != 1 || req.questions[0].qtype in {251, 252}
             || !Targets.AtOrBeneath("test." + cfg.domain + ".", fqdn)
    ensures Answered(cfg, now, db, req) == Completed(db, AnsweredDns(req, DnsReply(RefusedQuery, [], [])))
  {
    if req.questions != [] {
      ServedExactly(cfg, req.questions[0], fqdn);
    }
  }

  // Stored records

  /** A row that the query selects: of the test, at the subdomain, and of the type asked, or a CNAME (type 5). */
  predicate Selects(r: Row<PublishedRecord>, target: Target, qtype: nat) {
    && r.test == target.id && r.value.subdomain == target.subdomain
    && (qtype == 255 || r.value.rrtype == qtype || r.value.rrtype == 5)
  }

  /** The positions of the rows that the query selects, in the order of the table. */
  ghost predicate Lists(rows: Table<PublishedRecord>, places: seq<nat>, target: Target, qtype: nat) {
    && (forall i, j :: 0 <= i < j < |places| ==> places[i] < places[j])
    && (forall i :: 0 <= i < |places| ==> places[i] < |rows| && Selects(rows[places[i]], target, qtype))
    && (forall k :: 0 <= k < |rows| && Selects(rows[k], target, qtype) ==> k in places)
  }

  lemma ListsLonger(front: Table<PublishedRecord>, last: Row<PublishedRecord>, places: seq<nat>, target: Target,
                    qtype: nat)
    requires Lists(front, places, target, qtype)
    ensures Lists(front + [last], if Selects(last, target, qtype) then places + [|front|] else places, target, qtype)
  {
    var rows := front + [last];
    var more := if Selects(last, target, qtype) then places + [|front|] else places;
    forall k | 0 <= k < |rows| && Selects(rows[k], target, qtype) ensures k in more {
      if k == |front| {
        assert more[|places|] == k;
      } else {
        assert front[k] == rows[k] && k in places;
        var i :| 0 <= i < |places| && places[i] == k;
        assert more[i] == k;
      }
    }
  }

  /** The rows at the places hold these records. */
  ghost predicate HoldAt(rows: Table<PublishedRecord>, places: seq<nat>, records: seq<PublishedRecord>) {
    && |places| == |records|
    && forall i :: 0 <= i < |places| ==> places[i] < |rows| && rows[places[i]].value == records[i]
  }

  lemma HoldLonger(front: Table<PublishedRecord>, last: Row<PublishedRecord>, places: seq<nat>,
                   records: seq<PublishedRecord>)
    requires HoldAt(front, places, records)
    ensures HoldAt(front + [last], places, records)
    ensures HoldAt(front + [last], places + [|front|], records + [last.value])
  {
  }

  lemma SelectOneMore(front: Table<PublishedRecord>, last: Row<PublishedRecord>, target: Target, qtype: nat)
    ensures SelectRecords(front + [last], target.id, target.subdomain, qtype)
         == SelectRecords(front, target.id, target.subdomain, qtype)
            + if Selects(last, target, qtype) then [last.value] else []
  {
    assert (front + [last])[..|front|] == front;
  }

  /** The SELECTs give the selected rows in the order of the table. */
  lemma {:induction false} SelectedInOrder(rows: Table<PublishedRecord>, target: Target, qtype: nat)
    returns (places: seq<nat>)
    ensures Lists(rows, places, target, qtype)
    ensures HoldAt(rows, places, SelectRecords(rows, target.id, target.subdomain, qtype))
  {
    if rows == [] {
      places := [];
    } else {
      var front, last := rows[..|rows| - 1], rows[|rows| - 1];
      var records := SelectRecords(front, target.id, target.subdomain, qtype);
      assert rows == front + [last];
      var shorter := SelectedInOrder(front, target, qtype);
      ListsLonger(front, last, shorter, target, qtype);
      HoldLonger(front, last, shorter, records);
      SelectOneMore(front, last, target, qtype);
      assert records + [] == records;
      places := if Selects(last, target, qtype) then shorter + [|front|] else shorter;
    }
  }

  /** The resource record of a stored one, with a lifetime of 15 seconds. */
  predicate Carries(rr: RR, owner: string, record: PublishedRecord) {
    && rr.name == owner && rr.rrtype == record.rrtype && rr.ttl == 15
    && match record.data
       case TxtJson(txt) => rr.data == TxtData([txt])
       case CaaJson(flag, tag, value) => rr.data == CaaData(flag, tag, value)
       case CnameJson(alias) => rr.data == CnameData(alias)
       case Malformed => false
  }

  /** The record at each place, in order. */
  predicate CarriesAll(
    stored: seq<RR>, owner: string, rows: Table<PublishedRecord>, places: seq<nat>)
  {
    && |stored| == |places|
    && forall i :: 0 <= i < |places| ==> places[i] < |rows| && Carries(stored[i], owner, rows[places[i]].value)
  }

  /** The first CNAME among the selected rows; their number if there is none. */
  predicate FirstAlias(rows: Table<PublishedRecord>, places: seq<nat>, c: nat)
    requires forall i :: 0 <= i < |places| ==> places[i] < |rows|
  {
    && c <= |places|
    && (forall i :: 0 <= i < c ==> rows[places[i]].value.rrtype != 5)
    && (c < |places| ==> rows[places[c]].value.rrtype == 5)
  }

  /** What a query for a running test is answered: the oldest CNAME alone, or else what is built in at the name and then
      the selected records. */
  ghost predicate StoredAnswer(
    cfg: Config, rows: Table<PublishedRecord>, fqdn: string, qtype: nat, owner: string, places: seq<nat>, c: nat,
    built: seq<RR>, answer: seq<RR>)
    requires forall i :: 0 <= i < |places| ==> places[i] < |rows|
  {
    && FirstAlias(rows, places, c)
    && if c < |places| then |answer| == 1 && Carries(answer[0], owner, rows[places[c]].value)
       else
         && (if StartsWith(fqdn, "_") then built == [] else BuiltInAnswer(cfg, fqdn, qtype, built))
         && |built| <= |answer| && answer[..|built|] == built
         && CarriesAll(answer[|built|..], owner, rows, places)
  }

  lemma RecordsCarried(cfg: Config, t: TestID, rows: Table<PublishedRecord>, places: seq<nat>,
                       records: seq<PublishedRecord>, subdomain: string, owner: string)
    requires AllReadable(cfg, records) && |places| == |records|
    requires owner == MakeHostname(cfg.domain, t, subdomain) + "."
    requires forall i :: 0 <= i < |places| ==>
               places[i] < |rows| && rows[places[i]].value == records[i] && records[i].subdomain == subdomain
    ensures CarriesAll(RecordRRs(cfg, t, records), owner, rows, places)
  {
  }

  lemma BuiltFor(cfg: Config, fqdn: string, qtype: nat)
    requires NamedTest(cfg, fqdn).Some? && fqdn != TestDomain(cfg)
    ensures var built := BuiltinAnswers(cfg, fqdn, qtype);
            && (built.None? <==> StartsWith(fqdn, "_"))
            && (built.Some? ==> BuiltInAnswer(cfg, fqdn, qtype, built.value))
  {
    StartsWithIsPrefix(fqdn, "_");
    if !HasPrefix(fqdn, "_") {
      BuiltinsListed(cfg, fqdn, qtype);
    }
  }

  /** The places and the selected records agree. */
  ghost predicate Placed(
    cfg: Config, rows: Table<PublishedRecord>, places: seq<nat>, records: seq<PublishedRecord>, subdomain: string)
  {
    && AllReadable(cfg, records) && |places| == |records|
    && forall i :: 0 <= i < |places| ==>
         places[i] < |rows| && rows[places[i]].value == records[i] && records[i].subdomain == subdomain
  }

  lemma StopsAtAlias(
    cfg: Config, rows: Table<PublishedRecord>, places: seq<nat>, records: seq<PublishedRecord>, subdomain: string)
    requires Placed(cfg, rows, places, records, subdomain)
    ensures FirstAlias(rows, places, StopIndex(cfg, records))
  {
  }

  lemma AliasAlone(cfg: Config, rows: Table<PublishedRecord>, fqdn: string, qtype: nat, target: Target, owner: string,
                   places: seq<nat>, records: seq<PublishedRecord>, built: seq<RR>)
    returns (answer: seq<RR>)
    requires Placed(cfg, rows, places, records, target.subdomain)
    requires owner == MakeHostname(cfg.domain, target.id, target.subdomain) + "."
    requires StopIndex(cfg, records) < |records|
    ensures StoredAnswer(cfg, rows, fqdn, qtype, owner, places, StopIndex(cfg, records), built, answer)
    ensures Lookup(cfg, target.id, records, BuiltinAnswers(cfg, fqdn, qtype)).answers == Some(answer) && answer != []
  {
    var c := StopIndex(cfg, records);
    StopsAtAlias(cfg, rows, places, records, target.subdomain);
    answer := [RecordRR(cfg, target.id, records[c])];
  }

  lemma LookupAll(cfg: Config, t: TestID, records: seq<PublishedRecord>, rrs: Answers)
    requires AllReadable(cfg, records) && StopIndex(cfg, records) == |records|
    ensures Lookup(cfg, t, records, rrs).answers == Append(rrs, RecordRRs(cfg, t, records))
  {
    assert records[..|records|] == records;
  }

  lemma AppendedAnswer(rrs: Answers, stored: seq<RR>)
    ensures Append(rrs, stored) == if rrs.None? && List(rrs) + stored == [] then None else Some(List(rrs) + stored)
  {
    if stored == [] {
      assert List(rrs) + stored == List(rrs);
    }
  }

  lemma Joined(built: seq<RR>, stored: seq<RR>)
    ensures (built + stored)[..|built|] == built && (built + stored)[|built|..] == stored
  {
  }

  lemma PlainStored(cfg: Config, rows: Table<PublishedRecord>, fqdn: string, qtype: nat, owner: string,
                    places: seq<nat>, built: seq<RR>, stored: seq<RR>)
    requires forall i :: 0 <= i < |places| ==> places[i] < |rows|
    requires FirstAlias(rows, places, |places|) && CarriesAll(stored, owner, rows, places)
    requires if StartsWith(fqdn, "_") then built == [] else BuiltInAnswer(cfg, fqdn, qtype, built)
    ensures StoredAnswer(cfg, rows, fqdn, qtype, owner, places, |places|, built, built + stored)
  {
    Joined(built, stored);
  }

  lemma AllAppended(cfg: Config, rows: Table<PublishedRecord>, fqdn: string, qtype: nat, target: Target, owner: string,
                    places: seq<nat>, records: seq<PublishedRecord>)
    returns (answer: seq<RR>)
    requires Placed(cfg, rows, places, records, target.subdomain)
    requires owner == MakeHostname(cfg.domain, target.id, target.subdomain) + "."
    requires NamedTest(cfg, fqdn).Some? && fqdn != TestDomain(cfg)
    requires StopIndex(cfg, records) == |records|
    ensures StoredAnswer(cfg, rows, fqdn, qtype, owner, places, |records|, List(BuiltinAnswers(cfg, fqdn, qtype)),
                         answer)
    ensures Lookup(cfg, target.id, records, BuiltinAnswers(cfg, fqdn, qtype)).answers
         == if StartsWith(fqdn, "_") && answer == [] then None else Some(answer)
  {
    var rrs, stored := BuiltinAnswers(cfg, fqdn, qtype), RecordRRs(cfg, target.id, records);
    BuiltFor(cfg, fqdn, qtype);
    RecordsCarried(cfg, target.id, rows, places, records, target.subdomain, owner);
    StopsAtAlias(cfg, rows, places, records, target.subdomain);
    PlainStored(cfg, rows, fqdn, qtype, owner, places, List(rrs), stored);
    LookupAll(cfg, target.id, records, rrs);
    AppendedAnswer(rrs, stored);
    answer := List(rrs) + stored;
  }

  lemma LookupListed(
    cfg: Config, rows: Table<PublishedRecord>, fqdn: string, qtype: nat, target: Target, owner: string)
    returns (places: seq<nat>, c: nat, built: seq<RR>, answer: seq<RR>)
    requires ValidConfig(cfg) && GoodRecords(cfg, rows)
    requires NamedTest(cfg, fqdn) == Some(target) && fqdn != TestDomain(cfg)
    requires owner == MakeHostname(cfg.domain, target.id, target.subdomain) + "."
    ensures Lists(rows, places, target, qtype)
    ensures StoredAnswer(cfg, rows, fqdn, qtype, owner, places, c, built, answer)
    ensures var records := SelectRecords(rows, target.id, target.subdomain, qtype);
            Lookup(cfg, target.id, records, BuiltinAnswers(cfg, fqdn, qtype)).answers
            == if StartsWith(fqdn, "_") && answer == [] then None else Some(answer)
  {
    var records := SelectRecords(rows, target.id, target.subdomain, qtype);
    places := SelectedInOrder(rows, target, qtype);
    SelectedAreGood(cfg, rows, target.id, target.subdomain, qtype);
    c, built := StopIndex(cfg, records), List(BuiltinAnswers(cfg, fqdn, qtype));
    if c < |records| {
      answer := AliasAlone(cfg, rows, fqdn, qtype, target, owner, places, records, built);
    } else {
      answer := AllAppended(cfg, rows, fqdn, qtype, target, owner, places, records);
    }
  }

  /** A query for a running test, whatever it has published: the oldest CNAME alone, or the built-in records and then
      the stored ones of the type asked, in the order of their row ids. */
  lemma StoredReply(cfg: Config, now: int, db: Tables, req: DnsRequest, qtype: nat, fqdn: string, target: Target)
    returns (owner: string, places: seq<nat>, c: nat, built: seq<RR>, answer: seq<RR>)
    requires AsksTest(cfg, req, qtype, fqdn, target) && IsRunning(db, target.id) && GoodRecords(cfg, db.dnsRecords)
    ensures Owner(cfg, fqdn, owner) && Lists(db.dnsRecords, places, target, qtype)
    ensures StoredAnswer(cfg, db.dnsRecords, fqdn, qtype, owner, places, c, built, answer)
    ensures Answered(cfg, now, db, req)
         == Completed(WithQuery(db, req, target.id),
                      DnsHandler(DnsQuery(req.remote, req.questions[0]), target,
                                 DnsDone(if StartsWith(fqdn, "_") && answer == [] then NoSuchName(cfg)
                                         else ReplyWith(cfg, answer))))
  {
    owner := MakeHostname(cfg.domain, target.id, target.subdomain) + ".";
    ArrivesForTest(cfg, req, qtype, fqdn, target);
    AnsweredTest(cfg, now, db, req, qtype, fqdn, target);
    OwnerOfStored(cfg, fqdn);
    places, c, built, answer := LookupListed(cfg, db.dnsRecords, fqdn, qtype, target, owner);
  }
}
