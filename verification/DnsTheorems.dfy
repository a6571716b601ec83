/** Properties of the DNS answers, for every table content that the dashboard can produce. */
module DnsTheorems {
  import opened Options
  import opened Ascii
  import opened TestIds
  import opened Records
  import opened Posting
  import opened Tables
  import opened Dns

  // The writer and the reader agree

  lemma {:induction false} SelectedAreGood(
    cfg: Config, rows: Table<PublishedRecord>, t: TestID, subdomain: string, qtype: nat)
    requires ValidConfig(cfg) && GoodRecords(cfg, rows)
    ensures AllGood(cfg, SelectRecords(rows, t, subdomain, qtype))
    ensures AllReadable(cfg, SelectRecords(rows, t, subdomain, qtype))
  {
    if rows != [] {
      SelectedAreGood(cfg, rows[..|rows| - 1], t, subdomain, qtype);
    }
  }

  /** The oldest CNAME among records in row id order. */
  function FirstCname(records: seq<PublishedRecord>): Option<PublishedRecord> {
    if records == [] then None
    else
      var earlier := FirstCname(records[..|records| - 1]);
      var last := records[|records| - 1];
      if earlier.Some? then earlier else if last.rrtype == TYPE_CNAME then Some(last) else None
  }

  lemma {:induction false} FirstCnameAt(records: seq<PublishedRecord>, k: nat)
    requires k <= |records|
    requires forall i :: 0 <= i < k ==> records[i].rrtype != TYPE_CNAME
    requires k < |records| ==> records[k].rrtype == TYPE_CNAME
    ensures FirstCname(records) == if k < |records| then Some(records[k]) else None
  {
    if records != [] {
      var n := |records| - 1;
      FirstCnameAt(records[..n], if k < n then k else n);
    }
  }

  /** lookupDNSRecords on records that were posted: no error exit, the oldest CNAME alone if there is one,
      and otherwise every record after what was there. */
  lemma LookupOfPosted(cfg: Config, t: TestID, records: seq<PublishedRecord>, rrs: Answers)
    requires ValidConfig(cfg) && AllGood(cfg, records) && AllReadable(cfg, records)
    ensures !Lookup(cfg, t, records, rrs).failed
    ensures FirstCname(records).Some? ==> FirstCname(records).value in records
    ensures Lookup(cfg, t, records, rrs).answers
         == if FirstCname(records).Some? then Some([RecordRR(cfg, t, FirstCname(records).value)])
            else Append(rrs, RecordRRs(cfg, t, records))
  {
    var k := StopIndex(cfg, records);
    FirstCnameAt(records, k);
    assert k == |records| ==> records[..k] == records;
  }

  /** The oldest live CNAME of a test at a subdomain. */
  function OldestCname(rows: Table<PublishedRecord>, t: TestID, subdomain: string): Option<PublishedRecord> {
    FirstCname(SelectRecords(rows, t, subdomain, TYPE_CNAME))
  }

  lemma FirstCnameAppend(records: seq<PublishedRecord>, record: PublishedRecord)
    ensures FirstCname(records + [record])
         == if FirstCname(records).Some? then FirstCname(records)
            else if record.rrtype == TYPE_CNAME then Some(record) else None
  {
    assert (records + [record])[..|records|] == records;
  }

  /** Every query type selects the same CNAMEs, because both SELECTs include them. */
  lemma {:induction false} CnameForEveryType(rows: Table<PublishedRecord>, t: TestID, subdomain: string, qtype: nat)
    ensures FirstCname(SelectRecords(rows, t, subdomain, qtype)) == OldestCname(rows, t, subdomain)
  {
    if rows != [] {
      var front, last := rows[..|rows| - 1], rows[|rows| - 1];
      CnameForEveryType(front, t, subdomain, qtype);
      FirstCnameAppend(SelectRecords(front, t, subdomain, qtype), last.value);
      FirstCnameAppend(SelectRecords(front, t, subdomain, TYPE_CNAME), last.value);
    }
  }

  /** A CNAME is live: a row of that type at that test and subdomain. */
  ghost predicate CnameLive(rows: Table<PublishedRecord>, t: TestID, subdomain: string) {
    exists i :: 0 <= i < |rows| && rows[i].test == t && rows[i].value.subdomain == subdomain
                && rows[i].value.rrtype == TYPE_CNAME
  }

  lemma {:induction false} OldestCnameIsLive(rows: Table<PublishedRecord>, t: TestID, subdomain: string)
    ensures OldestCname(rows, t, subdomain).Some? <==> CnameLive(rows, t, subdomain)
    ensures OldestCname(rows, t, subdomain).Some? ==> OldestCname(rows, t, subdomain).value.rrtype == TYPE_CNAME
    ensures OldestCname(rows, t, subdomain).Some? ==> OldestCname(rows, t, subdomain).value.subdomain == subdomain
  {
    if rows != [] {
      var front, last := rows[..|rows| - 1], rows[|rows| - 1];
      OldestCnameIsLive(front, t, subdomain);
      FirstCnameAppend(SelectRecords(front, t, subdomain, TYPE_CNAME), last.value);
      assert rows == front + [last];
      if last.test == t && Selected(last.value, subdomain, TYPE_CNAME) {
        assert CnameLive(rows, t, subdomain);
      } else {
        assert SelectRecords(rows, t, subdomain, TYPE_CNAME) == SelectRecords(front, t, subdomain, TYPE_CNAME);
        if CnameLive(rows, t, subdomain) {
          assert CnameLive(front, t, subdomain);
        }
      }
    }
  }

  /** The test whose stored records a query sees. */
  function LiveTarget(cfg: Config, db: Tables, fqdn: string): Option<Target> {
    match NamedTest(cfg, fqdn)
    case None => None
    case Some(target) => if Running(db, target.id) then Some(target) else None
  }

  /** The resource records of a test at a subdomain, in row id order. */
  ghost function LiveRRs(
    cfg: Config, rows: Table<PublishedRecord>, t: TestID, subdomain: string, qtype: nat): (rrs: seq<RR>)
    requires ValidConfig(cfg) && GoodRecords(cfg, rows)
    ensures |rrs| == |SelectRecords(rows, t, subdomain, qtype)|
  {
    SelectedAreGood(cfg, rows, t, subdomain, qtype);
    RecordRRs(cfg, t, SelectRecords(rows, t, subdomain, qtype))
  }

  lemma OldestCnameIsReadable(cfg: Config, rows: Table<PublishedRecord>, t: TestID, subdomain: string)
    requires ValidConfig(cfg) && GoodRecords(cfg, rows)
    ensures OldestCname(rows, t, subdomain).Some? ==> Readable(cfg, OldestCname(rows, t, subdomain).value)
  {
    SelectedAreGood(cfg, rows, t, subdomain, TYPE_CNAME);
    LookupOfPosted(cfg, t, SelectRecords(rows, t, subdomain, TYPE_CNAME), None);
  }

  /** The answers on a table of posted records: the oldest live CNAME alone, or else what is built in and
      then the live records of the type asked. */
  ghost function Specified(cfg: Config, db: Tables, fqdn: string, qtype: nat): Answers
    requires ValidConfig(cfg) && GoodRecords(cfg, db.dnsRecords)
  {
    match LiveTarget(cfg, db, fqdn)
    case None => BuiltinAnswers(cfg, fqdn, qtype)
    case Some(target) =>
      match OldestCname(db.dnsRecords, target.id, target.subdomain)
      case Some(cname) =>
        OldestCnameIsReadable(cfg, db.dnsRecords, target.id, target.subdomain);
        Some([RecordRR(cfg, target.id, cname)])
      case None =>
        Append(BuiltinAnswers(cfg, fqdn, qtype),
               LiveRRs(cfg, db.dnsRecords, target.id, target.subdomain, qtype))
  }

  /** The loop with its break, its overwriting and its two SELECTs refines the specification. */
  lemma ResolveRefines(cfg: Config, db: Tables, fqdn: string, qtype: nat)
    requires ValidConfig(cfg) && GoodRecords(cfg, db.dnsRecords)
    ensures Resolve(cfg, db, fqdn, qtype) == Specified(cfg, db, fqdn, qtype)
  {
    if LiveTarget(cfg, db, fqdn).Some? {
      var target := NamedTest(cfg, fqdn).value;
      var records := SelectRecords(db.dnsRecords, target.id, target.subdomain, qtype);
      SelectedAreGood(cfg, db.dnsRecords, target.id, target.subdomain, qtype);
      CnameForEveryType(db.dnsRecords, target.id, target.subdomain, qtype);
      LookupOfPosted(cfg, target.id, records, BuiltinAnswers(cfg, fqdn, qtype));
    }
  }

  // Typed queries restrict ANY

  /** The records of a type, and the CNAMEs. */
  function OfTypeOrCname(qtype: nat, rrs: seq<RR>): seq<RR> {
    if rrs == [] then []
    else
      var earlier, last := OfTypeOrCname(qtype, rrs[..|rrs| - 1]), rrs[|rrs| - 1];
      if last.rrtype == qtype || last.rrtype == TYPE_CNAME then earlier + [last] else earlier
  }

  lemma {:induction false} OfTypeOrCnameConcat(qtype: nat, a: seq<RR>, b: seq<RR>)
    ensures OfTypeOrCname(qtype, a + b) == OfTypeOrCname(qtype, a) + OfTypeOrCname(qtype, b)
  {
    if b == [] {
      assert a + b == a;
    } else {
      var front, last := b[..|b| - 1], b[|b| - 1];
      OfTypeOrCnameConcat(qtype, a, front);
      assert (a + b)[..|a + b| - 1] == a + front;
    }
  }

  lemma OfTypeOrCnameAppend(qtype: nat, rrs: seq<RR>, rr: RR)
    ensures OfTypeOrCname(qtype, rrs + [rr])
         == if rr.rrtype == qtype || rr.rrtype == TYPE_CNAME then OfTypeOrCname(qtype, rrs) + [rr]
            else OfTypeOrCname(qtype, rrs)
  {
    assert (rrs + [rr])[..|rrs|] == rrs;
  }

  lemma ListAppend(rrs: Answers, more: seq<RR>)
    ensures List(Append(rrs, more)) == List(rrs) + more
  {
  }

  lemma {:induction false} OfTypeAny(rrs: seq<RR>)
    ensures OfType(TYPE_ANY, rrs) == rrs
  {
    if rrs != [] {
      OfTypeAny(rrs[..|rrs| - 1]);
      assert rrs == rrs[..|rrs| - 1] + [rrs[|rrs| - 1]];
    }
  }

  lemma {:induction false} OfTypeWithoutCnames(qtype: nat, rrs: seq<RR>)
    requires qtype != TYPE_ANY
    requires forall i :: 0 <= i < |rrs| ==> rrs[i].rrtype != TYPE_CNAME
    ensures qtype != TYPE_CNAME ==> OfType(qtype, rrs) == OfTypeOrCname(qtype, rrs)
    ensures qtype == TYPE_CNAME ==> OfType(qtype, rrs) == OfTypeOrCname(qtype, rrs) == []
  {
    if rrs != [] {
      OfTypeWithoutCnames(qtype, rrs[..|rrs| - 1]);
    }
  }

  ghost predicate BuiltIn(fqdn: string, rr: RR) {
    rr.name == fqdn && rr.rrtype in {TYPE_NS, TYPE_SOA, TYPE_A, TYPE_AAAA, TYPE_MX}
  }

  lemma AddressesAreBuiltIn(fqdn: string, rrtype: nat, addrs: seq<Address>)
    requires rrtype == TYPE_A || rrtype == TYPE_AAAA
    ensures forall i :: 0 <= i < |Addresses(fqdn, rrtype, addrs)| ==> BuiltIn(fqdn, Addresses(fqdn, rrtype, addrs)[i])
  {
  }

  /** What is built in at a name is owned by it and is not a CNAME. */
  lemma BuiltinsHaveNoCname(cfg: Config, fqdn: string)
    ensures forall i :: 0 <= i < |List(Builtins(cfg, fqdn))| ==> BuiltIn(fqdn, List(Builtins(cfg, fqdn))[i])
  {
    if fqdn == TestDomain(cfg) {
      assert List(Builtins(cfg, fqdn)) == [MakeNS(cfg), MakeSOA(cfg)];
    } else if Builtins(cfg, fqdn).Some? {
      var a, aaaa := Addresses(fqdn, TYPE_A, cfg.v4), Addresses(fqdn, TYPE_AAAA, cfg.v6);
      AddressesAreBuiltIn(fqdn, TYPE_A, cfg.v4);
      AddressesAreBuiltIn(fqdn, TYPE_AAAA, cfg.v6);
      assert BuiltIn(fqdn, MakeMX(cfg, fqdn));
      assert List(Builtins(cfg, fqdn)) == a + aaaa + [MakeMX(cfg, fqdn)];
    }
  }

  lemma BuiltinsTyped(cfg: Config, fqdn: string, qtype: nat)
    requires qtype != TYPE_ANY
    ensures List(BuiltinAnswers(cfg, fqdn, qtype)) == OfTypeOrCname(qtype, List(BuiltinAnswers(cfg, fqdn, TYPE_ANY)))
    ensures BuiltinAnswers(cfg, fqdn, qtype).None? <==> BuiltinAnswers(cfg, fqdn, TYPE_ANY).None?
  {
    BuiltinsHaveNoCname(cfg, fqdn);
    OfTypeWithoutCnames(qtype, List(Builtins(cfg, fqdn)));
    OfTypeAny(List(Builtins(cfg, fqdn)));
  }

  lemma LiveRRsAppend(cfg: Config, rows: Table<PublishedRecord>, row: Row<PublishedRecord>, t: TestID,
                      subdomain: string, qtype: nat)
    requires ValidConfig(cfg) && GoodRecords(cfg, rows) && GoodRecord(cfg, row.value)
    ensures GoodRecords(cfg, rows + [row]) && Readable(cfg, row.value)
    ensures var rrs := LiveRRs(cfg, rows, t, subdomain, qtype);
            LiveRRs(cfg, rows + [row], t, subdomain, qtype)
            == if row.test == t && Selected(row.value, subdomain, qtype) then rrs + [RecordRR(cfg, t, row.value)]
               else rrs
  {
    assert (rows + [row])[..|rows|] == rows;
  }

  lemma {:induction false} LiveRRsTyped(
    cfg: Config, rows: Table<PublishedRecord>, t: TestID, subdomain: string, qtype: nat)
    requires ValidConfig(cfg) && GoodRecords(cfg, rows) && qtype != TYPE_ANY
    ensures LiveRRs(cfg, rows, t, subdomain, qtype)
         == OfTypeOrCname(qtype, LiveRRs(cfg, rows, t, subdomain, TYPE_ANY))
  {
    if rows != [] {
      var front, last := rows[..|rows| - 1], rows[|rows| - 1];
      assert rows == front + [last];
      LiveRRsTyped(cfg, front, t, subdomain, qtype);
      LiveRRsAppend(cfg, front, last, t, subdomain, qtype);
      LiveRRsAppend(cfg, front, last, t, subdomain, TYPE_ANY);
      OfTypeOrCnameAppend(qtype, LiveRRs(cfg, front, t, subdomain, TYPE_ANY), RecordRR(cfg, t, last.value));
    }
  }

  lemma AppendedTyped(cfg: Config, rows: Table<PublishedRecord>, fqdn: string, target: Target, qtype: nat)
    requires ValidConfig(cfg) && GoodRecords(cfg, rows) && qtype != TYPE_ANY
    ensures List(Append(BuiltinAnswers(cfg, fqdn, qtype), LiveRRs(cfg, rows, target.id, target.subdomain, qtype)))
         == OfTypeOrCname(qtype, List(Append(BuiltinAnswers(cfg, fqdn, TYPE_ANY),
                                             LiveRRs(cfg, rows, target.id, target.subdomain, TYPE_ANY))))
  {
    var typed := LiveRRs(cfg, rows, target.id, target.subdomain, qtype);
    var any := LiveRRs(cfg, rows, target.id, target.subdomain, TYPE_ANY);
    BuiltinsTyped(cfg, fqdn, qtype);
    LiveRRsTyped(cfg, rows, target.id, target.subdomain, qtype);
    ListAppend(BuiltinAnswers(cfg, fqdn, qtype), typed);
    ListAppend(BuiltinAnswers(cfg, fqdn, TYPE_ANY), any);
    OfTypeOrCnameConcat(qtype, List(BuiltinAnswers(cfg, fqdn, TYPE_ANY)), any);
  }

  lemma SpecifiedTyped(cfg: Config, db: Tables, fqdn: string, qtype: nat)
    requires ValidConfig(cfg) && GoodRecords(cfg, db.dnsRecords) && qtype != TYPE_ANY
    ensures List(Specified(cfg, db, fqdn, qtype)) == OfTypeOrCname(qtype, List(Specified(cfg, db, fqdn, TYPE_ANY)))
  {
    BuiltinsTyped(cfg, fqdn, qtype);
    if LiveTarget(cfg, db, fqdn).Some? {
      var target := LiveTarget(cfg, db, fqdn).value;
      var cname := OldestCname(db.dnsRecords, target.id, target.subdomain);
      if cname.Some? {
        OldestCnameIsLive(db.dnsRecords, target.id, target.subdomain);
        OldestCnameIsReadable(cfg, db.dnsRecords, target.id, target.subdomain);
        var rr := RecordRR(cfg, target.id, cname.value);
        OfTypeOrCnameAppend(qtype, [], rr);
        assert [] + [rr] == [rr];
      } else {
        AppendedTyped(cfg, db.dnsRecords, fqdn, target, qtype);
      }
    }
  }

  /** For any posted records and any served name, the answer to a typed query is the ANY answer
      restricted to that type and CNAME. */
  lemma TypedRestrictsAny(cfg: Config, db: Tables, fqdn: string, qtype: nat)
    requires ValidConfig(cfg) && GoodRecords(cfg, db.dnsRecords) && qtype != TYPE_ANY
    ensures List(Resolve(cfg, db, fqdn, qtype)) == OfTypeOrCname(qtype, List(Resolve(cfg, db, fqdn, TYPE_ANY)))
  {
    ResolveRefines(cfg, db, fqdn, qtype);
    ResolveRefines(cfg, db, fqdn, TYPE_ANY);
    SpecifiedTyped(cfg, db, fqdn, qtype);
  }

  /** The start-of-authority record of the zone. */
  function ZoneAuthority(cfg: Config): RR {
    RR("test." + cfg.domain + ".", 6, 86400,
       SoaData(cfg.domain + ".", "hostmaster." + cfg.domain + ".", 1, 86400, 86400, 86400, 15))
  }

  // Owner names

  lemma SameBeforeDot(a: string, b: string)
    ensures a + "." == b + "." <==> a == b
  {
    assert (a + ".")[..|a + "."| - 1] == a && (b + ".")[..|b + "."| - 1] == b;
  }

  /** The owner of an answer is the name that was asked; where this starts with an empty label in front of the ID,
      which no DNS message has room for (section 3.1 of RFC 1035), a stored record is owned by the rest of it. */
  predicate Owner(cfg: Config, fqdn: string, owner: string) {
    owner == fqdn || (EmptyLabelForm(cfg.domain, fqdn) && "." + owner == fqdn)
  }

  /** The owner name of a stored record is the name that was asked, unless an empty label stands in front of the ID. */
  lemma OwnerOfStored(cfg: Config, fqdn: string)
    requires ValidConfig(cfg) && HasSuffix(fqdn, ".") && IsLower(fqdn) && NamedTest(cfg, fqdn).Some?
    ensures var target := NamedTest(cfg, fqdn).value;
            var owner := MakeHostname(cfg.domain, target.id, target.subdomain) + ".";
            Owner(cfg, fqdn, owner) && (owner == fqdn <==> !EmptyLabelForm(cfg.domain, fqdn))
  {
    var name, target := TrimSuffix(fqdn, "."), NamedTest(cfg, fqdn).value;
    SplitSuffix(fqdn, ".");
    PrintAfterParse(cfg.domain, fqdn);
    ToLowerSlice(fqdn, 0, |name|);
    assert name == fqdn[0..|name|] && ToLower(name) == name;
    SameBeforeDot(MakeHostname(cfg.domain, target.id, target.subdomain), name);
    Assoc(".", MakeHostname(cfg.domain, target.id, target.subdomain), ".");
  }

  lemma {:induction false} OfTypeIsBuiltIn(qtype: nat, rrs: seq<RR>, fqdn: string)
    requires forall i :: 0 <= i < |rrs| ==> BuiltIn(fqdn, rrs[i])
    ensures forall i :: 0 <= i < |OfType(qtype, rrs)| ==> BuiltIn(fqdn, OfType(qtype, rrs)[i])
  {
    if rrs != [] {
      OfTypeIsBuiltIn(qtype, rrs[..|rrs| - 1], fqdn);
    }
  }

  lemma BuiltinAnswersAreBuiltIn(cfg: Config, fqdn: string, qtype: nat)
    ensures var rrs := List(BuiltinAnswers(cfg, fqdn, qtype)); forall i :: 0 <= i < |rrs| ==> BuiltIn(fqdn, rrs[i])
  {
    BuiltinsHaveNoCname(cfg, fqdn);
    OfTypeIsBuiltIn(qtype, List(Builtins(cfg, fqdn)), fqdn);
  }

  lemma {:induction false} SelectedSubdomain(rows: Table<PublishedRecord>, t: TestID, subdomain: string, qtype: nat)
    ensures forall i :: 0 <= i < |SelectRecords(rows, t, subdomain, qtype)| ==>
              Selected(SelectRecords(rows, t, subdomain, qtype)[i], subdomain, qtype)
  {
    if rows != [] {
      SelectedSubdomain(rows[..|rows| - 1], t, subdomain, qtype);
    }
  }

  // CNAME exclusivity

  ghost predicate HasCname(rrs: seq<RR>) {
    exists i :: 0 <= i < |rrs| && rrs[i].rrtype == TYPE_CNAME
  }

  lemma {:induction false} NoFirstCname(records: seq<PublishedRecord>)
    requires FirstCname(records).None?
    ensures forall i :: 0 <= i < |records| ==> records[i].rrtype != TYPE_CNAME
  {
    if records != [] {
      NoFirstCname(records[..|records| - 1]);
    }
  }

  lemma BuiltinAnswersHaveNoCname(cfg: Config, fqdn: string, qtype: nat)
    ensures !HasCname(List(BuiltinAnswers(cfg, fqdn, qtype)))
  {
    BuiltinAnswersAreBuiltIn(cfg, fqdn, qtype);
  }

  lemma LiveRRsWithoutCname(cfg: Config, rows: Table<PublishedRecord>, t: TestID, subdomain: string, qtype: nat)
    requires ValidConfig(cfg) && GoodRecords(cfg, rows) && OldestCname(rows, t, subdomain).None?
    ensures !HasCname(LiveRRs(cfg, rows, t, subdomain, qtype))
  {
    CnameForEveryType(rows, t, subdomain, qtype);
    NoFirstCname(SelectRecords(rows, t, subdomain, qtype));
  }

  /** An answer holds a CNAME exactly when one is live at the running test, and then it is the whole answer,
      whatever type was asked (section 3.6.2 of RFC 1034). */
  lemma CnameStandsAlone(cfg: Config, db: Tables, fqdn: string, qtype: nat, other: nat)
    requires ValidConfig(cfg) && GoodRecords(cfg, db.dnsRecords)
    ensures HasCname(List(Resolve(cfg, db, fqdn, qtype)))
       <==> && LiveTarget(cfg, db, fqdn).Some?
            && var target := LiveTarget(cfg, db, fqdn).value;
               CnameLive(db.dnsRecords, target.id, target.subdomain)
    ensures HasCname(List(Resolve(cfg, db, fqdn, qtype))) ==>
              && |List(Resolve(cfg, db, fqdn, qtype))| == 1
              && Resolve(cfg, db, fqdn, other) == Resolve(cfg, db, fqdn, qtype)
  {
    ResolveRefines(cfg, db, fqdn, qtype);
    ResolveRefines(cfg, db, fqdn, other);
    BuiltinAnswersHaveNoCname(cfg, fqdn, qtype);
    if LiveTarget(cfg, db, fqdn).Some? {
      var target := LiveTarget(cfg, db, fqdn).value;
      OldestCnameIsLive(db.dnsRecords, target.id, target.subdomain);
      if CnameLive(db.dnsRecords, target.id, target.subdomain) {
        assert List(Resolve(cfg, db, fqdn, qtype))[0].rrtype == TYPE_CNAME;
      } else {
        LiveRRsWithoutCname(cfg, db.dnsRecords, target.id, target.subdomain, qtype);
      }
    }
  }

  // Response codes

  /** NXDOMAIN, exactly: names outside the naming scheme, and underscore names with nothing selected. */
  lemma NameErrorExactly(cfg: Config, db: Tables, fqdn: string, qtype: nat)
    requires ValidConfig(cfg) && GoodRecords(cfg, db.dnsRecords)
    ensures Finish(cfg, Resolve(cfg, db, fqdn, qtype)).rcode == NameError
       <==> && fqdn != TestDomain(cfg)
            && (NamedTest(cfg, fqdn).None?
                || (&& HasPrefix(fqdn, "_")
                    && var target := NamedTest(cfg, fqdn).value;
                       Running(db, target.id) ==>
                         SelectRecords(db.dnsRecords, target.id, target.subdomain, qtype) == []))
  {
    ResolveRefines(cfg, db, fqdn, qtype);
    if LiveTarget(cfg, db, fqdn).Some? {
      var target := NamedTest(cfg, fqdn).value;
      CnameForEveryType(db.dnsRecords, target.id, target.subdomain, qtype);
    }
  }

  lemma {:induction false} SelectionWithinAny(rows: Table<PublishedRecord>, t: TestID, subdomain: string, qtype: nat)
    ensures |SelectRecords(rows, t, subdomain, qtype)| <= |SelectRecords(rows, t, subdomain, TYPE_ANY)|
  {
    if rows != [] {
      SelectionWithinAny(rows[..|rows| - 1], t, subdomain, qtype);
    }
  }

  /** NXDOMAIN for ANY means NXDOMAIN for every type. */
  lemma NameErrorForAny(cfg: Config, db: Tables, fqdn: string, qtype: nat)
    requires ValidConfig(cfg) && GoodRecords(cfg, db.dnsRecords)
    requires Finish(cfg, Resolve(cfg, db, fqdn, TYPE_ANY)).rcode == NameError
    ensures Finish(cfg, Resolve(cfg, db, fqdn, qtype)).rcode == NameError
  {
    NameErrorExactly(cfg, db, fqdn, qtype);
    NameErrorExactly(cfg, db, fqdn, TYPE_ANY);
    if NamedTest(cfg, fqdn).Some? {
      var target := NamedTest(cfg, fqdn).value;
      SelectionWithinAny(db.dnsRecords, target.id, target.subdomain, qtype);
    }
  }
}
