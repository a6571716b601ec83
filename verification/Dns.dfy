/** dns.go: what the DNS server answers, as a function of the tables. */
module Dns {
  import opened Options
  import opened Ascii
  import opened TestIds
  import opened Records
  import opened Posting
  import opened Tables

  datatype Question = Question(name: string, qtype: nat, qclass: nat)

  datatype DnsRequest = DnsRequest(remote: string, questions: seq<Question>)

  /** The question that is answered, and who asked it. */
  datatype DnsQuery = DnsQuery(remote: string, question: Question)

  datatype Rcode = NoError | NameError | RefusedQuery

  datatype DnsReply = DnsReply(rcode: Rcode, answer: seq<RR>, authority: seq<RR>)

  /** The answers variable of serveDNS: None is the nil slice, which becomes NXDOMAIN. */
  type Answers = Option<seq<RR>>

  function List(rrs: Answers): seq<RR> {
    match rrs
    case None => []
    case Some(list) => list
  }

  /** append: nothing appended to nil leaves nil. */
  function Append(rrs: Answers, more: seq<RR>): Answers {
    if more == [] then rrs else Some(List(rrs) + more)
  }

  // Built-in records

  function TestDomain(cfg: Config): string {
    "test." + cfg.domain + "."
  }

  function MakeSOA(cfg: Config): RR {
    RR(TestDomain(cfg), TYPE_SOA, 86400,
       SoaData(cfg.domain + ".", "hostmaster." + cfg.domain + ".", 1, 86400, 86400, 86400, 15))
  }

  function MakeNS(cfg: Config): RR {
    RR(TestDomain(cfg), TYPE_NS, 86400, NsData(cfg.domain + "."))
  }

  function MakeMX(cfg: Config, fqdn: string): RR {
    RR(fqdn, TYPE_MX, 86400, MxData(10, cfg.domain + "."))
  }

  function MakeAddress(fqdn: string, rrtype: nat, addr: Address): RR {
    RR(fqdn, rrtype, 3600, AddressData(addr))
  }

  function Addresses(fqdn: string, rrtype: nat, addrs: seq<Address>): seq<RR> {
    seq(|addrs|, i requires 0 <= i < |addrs| => MakeAddress(fqdn, rrtype, addrs[i]))
  }

  /** The test a served name belongs to. */
  function NamedTest(cfg: Config, fqdn: string): Option<Target> {
    if fqdn == TestDomain(cfg) then None else ParseHostname(cfg.domain, fqdn)
  }

  /** Everything built in at a name; None at names that have no built-in records at all. */
  function Builtins(cfg: Config, fqdn: string): Answers {
    if fqdn == TestDomain(cfg) then Some([MakeNS(cfg), MakeSOA(cfg)])
    else if NamedTest(cfg, fqdn).Some? && !HasPrefix(fqdn, "_") then
      Some(Addresses(fqdn, TYPE_A, cfg.v4) + Addresses(fqdn, TYPE_AAAA, cfg.v6) + [MakeMX(cfg, fqdn)])
    else None
  }

  predicate Wanted(qtype: nat, rrtype: nat) {
    qtype == TYPE_ANY || rrtype == qtype
  }

  /** The records of the type asked for. */
  function OfType(qtype: nat, rrs: seq<RR>): seq<RR> {
    if rrs == [] then []
    else
      var earlier, last := OfType(qtype, rrs[..|rrs| - 1]), rrs[|rrs| - 1];
      if Wanted(qtype, last.rrtype) then earlier + [last] else earlier
  }

  function BuiltinAnswers(cfg: Config, fqdn: string, qtype: nat): Answers {
    match Builtins(cfg, fqdn)
    case None => None
    case Some(rrs) => Some(OfType(qtype, rrs))
  }

  // Stored records

  predicate Readable(cfg: Config, record: PublishedRecord) {
    record.rrtype in cfg.decodable && Unmarshal(record.rrtype, record.data).Some?
  }

  function RecordRR(cfg: Config, t: TestID, record: PublishedRecord): RR
    requires Readable(cfg, record)
  {
    RR(MakeHostname(cfg.domain, t, record.subdomain) + ".", record.rrtype, STORED_TTL,
       Unmarshal(record.rrtype, record.data).value)
  }

  ghost predicate AllReadable(cfg: Config, records: seq<PublishedRecord>) {
    forall i :: 0 <= i < |records| ==> Readable(cfg, records[i])
  }

  function RecordRRs(cfg: Config, t: TestID, records: seq<PublishedRecord>): seq<RR>
    requires AllReadable(cfg, records)
  {
    seq(|records|, i requires 0 <= i < |records| => RecordRR(cfg, t, records[i]))
  }

  predicate Selected(record: PublishedRecord, subdomain: string, qtype: nat) {
    record.subdomain == subdomain && (Wanted(qtype, record.rrtype) || record.rrtype == TYPE_CNAME)
  }

  /** The two SELECTs of lookupDNSRecords, in row id order. */
  function SelectRecords(rows: Table<PublishedRecord>, t: TestID, subdomain: string, qtype: nat): seq<PublishedRecord> {
    if rows == [] then []
    else
      var earlier, last := SelectRecords(rows[..|rows| - 1], t, subdomain, qtype), rows[|rows| - 1];
      if last.test == t && Selected(last.value, subdomain, qtype) then earlier + [last.value] else earlier
  }

  /** The loop of lookupDNSRecords goes no further than this record. */
  predicate Stops(cfg: Config, record: PublishedRecord) {
    !Readable(cfg, record) || record.rrtype == TYPE_CNAME
  }

  function StopIndex(cfg: Config, records: seq<PublishedRecord>): (k: nat)
    ensures k <= |records|
    ensures forall i :: 0 <= i < k ==> !Stops(cfg, records[i])
    ensures k < |records| ==> Stops(cfg, records[k])
  {
    if records == [] || Stops(cfg, records[0]) then 0 else 1 + StopIndex(cfg, records[1..])
  }

  datatype LookupResult = LookupResult(answers: Answers, failed: bool)

  /** What lookupDNSRecords makes of the selected records: all of them appended, or the first CNAME in place of
      everything, or the records before an unreadable one and an error. */
  function Lookup(cfg: Config, t: TestID, records: seq<PublishedRecord>, rrs: Answers): LookupResult {
    var k := StopIndex(cfg, records);
    assert AllReadable(cfg, records[..k]);
    if k < |records| && Readable(cfg, records[k]) then LookupResult(Some([RecordRR(cfg, t, records[k])]), false)
    else LookupResult(Append(rrs, RecordRRs(cfg, t, records[..k])), k < |records|)
  }

  // Answers

  function Fqdn(question: Question): string {
    ToLower(question.name)
  }

  /** The questions that are not refused. */
  predicate Served(cfg: Config, question: Question) {
    && question.qclass == CLASS_INET
    && question.qtype != TYPE_IXFR && question.qtype != TYPE_AXFR
    && IsSubDomain(TestDomain(cfg), Fqdn(question))
  }

  function Refuse(): DnsReply {
    DnsReply(RefusedQuery, [], [])
  }

  /** The end of serveDNS. */
  function Finish(cfg: Config, answers: Answers): DnsReply {
    DnsReply(if answers.None? then NameError else NoError, List(answers),
             if List(answers) == [] then [MakeSOA(cfg)] else [])
  }

  /** The answers to a query for a served, lower-cased name when every statement succeeds. */
  function Resolve(cfg: Config, db: Tables, fqdn: string, qtype: nat): Answers {
    var built := BuiltinAnswers(cfg, fqdn, qtype);
    match NamedTest(cfg, fqdn)
    case None => built
    case Some(target) =>
      if Running(db, target.id) then
        Lookup(cfg, target.id, SelectRecords(db.dnsRecords, target.id, target.subdomain, qtype), built).answers
      else built
  }

  predicate ValidConfig(cfg: Config) {
    ValidDomain(cfg.domain) && {TYPE_TXT, TYPE_CAA, TYPE_CNAME} <= cfg.decodable
  }

  ghost predicate GoodRecords(cfg: Config, rows: Table<PublishedRecord>) {
    forall i :: 0 <= i < |rows| ==> GoodRecord(cfg, rows[i].value)
  }

  ghost predicate AllGood(cfg: Config, records: seq<PublishedRecord>) {
    forall i :: 0 <= i < |records| ==> GoodRecord(cfg, records[i])
  }
}
