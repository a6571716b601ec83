/** What holds of every DNS reply a test's name is ever given, under every interleaving and every failing statement. */
module DnsReplies {
  import opened Options
  import opened Ascii
  import opened TestIds
  import opened Records
  import opened Tables
  import opened Dns
  import opened DnsTheorems
  import opened Machine
  import opened Invariants

  ghost predicate GoodAnswers(cfg: Config, fqdn: string, answers: Answers) {
    && (answers.None? ==> HasPrefix(fqdn, "_"))
    && (forall i :: 0 <= i < |List(answers)| ==> Owner(cfg, fqdn, List(answers)[i].name))
    && (HasCname(List(answers)) ==> |List(answers)| == 1)
  }

  /** The laws of every reply that is not a refusal: the authority section is the SOA exactly when the answer is
      empty; every answer is owned by the lower-cased name that was asked; a CNAME stands by itself; NXDOMAIN
      comes with no answer. */
  ghost predicate LawfulReply(cfg: Config, fqdn: string, reply: DnsReply) {
    && reply.rcode in {NoError, NameError}
    && (reply.rcode == NameError ==> reply.answer == [])
    && reply.authority == (if reply.answer == [] then [ZoneAuthority(cfg)] else [])
    && (forall i :: 0 <= i < |reply.answer| ==> Owner(cfg, fqdn, reply.answer[i].name))
    && (HasCname(reply.answer) ==> |reply.answer| == 1)
  }

  /** A reply for a test's name: lawful, and NXDOMAIN only at underscore names. */
  ghost predicate GoodReply(cfg: Config, fqdn: string, reply: DnsReply) {
    LawfulReply(cfg, fqdn, reply) && (reply.rcode == NameError ==> HasPrefix(fqdn, "_"))
  }

  /** The reply to a request that reaches no test: a refusal exactly when the question is not served, and otherwise
      lawful, and NXDOMAIN exactly away from the zone's own name. */
  ghost predicate GoodOtherReply(cfg: Config, req: DnsRequest, reply: DnsReply) {
    if req.questions == [] || !Served(cfg, req.questions[0]) then reply == DnsReply(RefusedQuery, [], [])
    else
      var fqdn := Fqdn(req.questions[0]);
      && NamedTest(cfg, fqdn).None?
      && LawfulReply(cfg, fqdn, reply)
      && (reply.rcode == NameError <==> fqdn != TestDomain(cfg))
  }

  lemma FinishIsGood(cfg: Config, fqdn: string, answers: Answers)
    requires GoodAnswers(cfg, fqdn, answers)
    ensures GoodReply(cfg, fqdn, Finish(cfg, answers))
  {
  }

  ghost predicate RepliesWell(cfg: Config, handler: Handler) {
    match handler
    case DnsHandler(query, _, DnsLookedUp(answers)) => GoodAnswers(cfg, Fqdn(query.question), answers)
    case DnsHandler(query, _, DnsDone(reply)) => GoodReply(cfg, Fqdn(query.question), reply)
    case AnsweredDns(req, reply) => GoodOtherReply(cfg, req, reply)
    case _ => true
  }

  lemma ArrivesWell(cfg: Config, req: DnsRequest)
    ensures RepliesWell(cfg, ArriveDns(cfg, req))
  {
    if req.questions != [] {
      var fqdn, qtype := Fqdn(req.questions[0]), req.questions[0].qtype;
      BuiltinAnswersAreBuiltIn(cfg, fqdn, qtype);
      BuiltinAnswersHaveNoCname(cfg, fqdn, qtype);
    }
  }

  lemma BuiltinsAreGood(cfg: Config, fqdn: string, qtype: nat)
    requires NamedTest(cfg, fqdn).Some?
    ensures GoodAnswers(cfg, fqdn, BuiltinAnswers(cfg, fqdn, qtype))
    ensures !HasCname(List(BuiltinAnswers(cfg, fqdn, qtype)))
  {
    BuiltinAnswersAreBuiltIn(cfg, fqdn, qtype);
    BuiltinAnswersHaveNoCname(cfg, fqdn, qtype);
  }

  ghost predicate OwnedBy(cfg: Config, t: TestID, records: seq<PublishedRecord>, fqdn: string) {
    forall i :: 0 <= i < |records| ==>
      Owner(cfg, fqdn, MakeHostname(cfg.domain, t, records[i].subdomain) + ".")
  }

  lemma RecordsAreOwned(cfg: Config, rows: Table<PublishedRecord>, fqdn: string, target: Target, qtype: nat)
    requires ValidConfig(cfg) && IsLower(fqdn) && HasSuffix(fqdn, ".") && NamedTest(cfg, fqdn) == Some(target)
    ensures OwnedBy(cfg, target.id, SelectRecords(rows, target.id, target.subdomain, qtype), fqdn)
  {
    SelectedSubdomain(rows, target.id, target.subdomain, qtype);
    OwnerOfStored(cfg, fqdn);
  }

  lemma AppendIsGood(cfg: Config, fqdn: string, built: Answers, more: seq<RR>)
    requires GoodAnswers(cfg, fqdn, built) && !HasCname(List(built)) && !HasCname(more)
    requires forall i :: 0 <= i < |more| ==> Owner(cfg, fqdn, more[i].name)
    ensures GoodAnswers(cfg, fqdn, Append(built, more))
  {
    ListAppend(built, more);
  }

  lemma LookupInto(cfg: Config, t: TestID, records: seq<PublishedRecord>, fqdn: string, built: Answers)
    requires ValidConfig(cfg) && AllGood(cfg, records) && AllReadable(cfg, records)
    requires GoodAnswers(cfg, fqdn, built) && !HasCname(List(built))
    requires OwnedBy(cfg, t, records, fqdn)
    ensures GoodAnswers(cfg, fqdn, Lookup(cfg, t, records, built).answers)
  {
    LookupOfPosted(cfg, t, records, built);
    if FirstCname(records).None? {
      NoFirstCname(records);
      AppendIsGood(cfg, fqdn, built, RecordRRs(cfg, t, records));
    }
  }

  lemma LookupIsGood(
    cfg: Config, rows: Table<PublishedRecord>, fqdn: string, target: Target, qtype: nat, built: Answers)
    requires ValidConfig(cfg) && GoodRecords(cfg, rows)
    requires IsLower(fqdn) && HasSuffix(fqdn, ".") && NamedTest(cfg, fqdn) == Some(target)
    requires GoodAnswers(cfg, fqdn, built) && !HasCname(List(built))
    ensures var records := SelectRecords(rows, target.id, target.subdomain, qtype);
            GoodAnswers(cfg, fqdn, Lookup(cfg, target.id, records, built).answers)
  {
    SelectedAreGood(cfg, rows, target.id, target.subdomain, qtype);
    RecordsAreOwned(cfg, rows, fqdn, target, qtype);
    LookupInto(cfg, target.id, SelectRecords(rows, target.id, target.subdomain, qtype), fqdn, built);
  }

  lemma ServedEndsInDot(cfg: Config, question: Question)
    requires Served(cfg, question)
    ensures HasSuffix(Fqdn(question), ".")
  {
    var fqdn, zone := Fqdn(question), TestDomain(cfg);
    assert zone[|zone| - 1] == '.';
    if fqdn != zone {
      assert fqdn[|fqdn| - |"." + zone|..] == "." + zone;
      assert ("." + zone)[|zone|] == '.';
    }
  }

  lemma StepRepliesWell(cfg: Config, db: Tables, handler: Handler, ok: bool, id: nat)
    requires ValidConfig(cfg) && GoodRecords(cfg, db.dnsRecords)
    requires HandlerInv(cfg, db, handler) && RepliesWell(cfg, handler)
    ensures RepliesWell(cfg, NextStep(cfg, db, handler, ok, id).next)
  {
    if handler.DnsHandler? {
      var query, target := handler.query, handler.dnsTarget;
      var fqdn, qtype := Fqdn(query.question), query.question.qtype;
      ToLowerTwice(query.question.name);
      match handler.dnsPhase
      case DnsArrived(answers) =>
        BuiltinsAreGood(cfg, fqdn, qtype);
        FinishIsGood(cfg, fqdn, answers);
      case DnsChecked(answers) =>
        BuiltinsAreGood(cfg, fqdn, qtype);
        ServedEndsInDot(cfg, query.question);
        LookupIsGood(cfg, db.dnsRecords, fqdn, target, qtype, answers);
      case DnsLookedUp(answers) => FinishIsGood(cfg, fqdn, answers);
      case DnsDone(_) =>
    }
  }

  ghost predicate AllReplyWell(cfg: Config, s: State) {
    forall h :: h in s.handlers ==> RepliesWell(cfg, s.handlers[h])
  }

  lemma ApplyRepliesWell(cfg: Config, s: State, l: Label)
    requires ValidConfig(cfg) && Inv(cfg, s) && Enabled(cfg, s, l) && AllReplyWell(cfg, s)
    ensures AllReplyWell(cfg, Apply(cfg, s, l))
  {
    var after := Apply(cfg, s, l);
    forall h | h in after.handlers ensures RepliesWell(cfg, after.handlers[h]) {
      if l.Advance? && h == l.h {
        StepRepliesWell(cfg, s.db, s.handlers[h], l.ok, l.id);
      } else if l.DnsArrive? && h == l.h {
        ArrivesWell(cfg, l.dnsReq);
      }
    }
  }

  lemma {:induction false} RunRepliesWell(cfg: Config, s: State, ls: seq<Label>)
    requires ValidConfig(cfg) && Inv(cfg, s) && ValidRun(cfg, s, ls) && AllReplyWell(cfg, s)
    ensures AllReplyWell(cfg, Run(cfg, s, ls))
    decreases |ls|
  {
    if ls != [] {
      ApplyKeepsInv(cfg, s, ls[0]);
      ApplyRepliesWell(cfg, s, ls[0]);
      RunRepliesWell(cfg, Apply(cfg, s, ls[0]), ls[1..]);
    }
  }

  /** In every reachable state, every DNS reply ever given is a good one: for a test's name, for the zone's own name,
      and for everything else. */
  lemma EveryReplyIsGood(cfg: Config, s: State, h: nat)
    requires ValidConfig(cfg) && Reachable(cfg, s) && h in s.handlers
    ensures match s.handlers[h]
            case DnsHandler(query, _, DnsDone(reply)) => GoodReply(cfg, Fqdn(query.question), reply)
            case AnsweredDns(req, reply) => GoodOtherReply(cfg, req, reply)
            case _ => true
  {
    var now, ls :| ValidRun(cfg, Initial(now), ls) && Run(cfg, Initial(now), ls) == s;
    InitialInv(cfg, now);
    RunRepliesWell(cfg, Initial(now), ls);
    assert RepliesWell(cfg, s.handlers[h]);
  }

  /** In every reachable state lookupDNSRecords takes neither its unknown-type nor its bad-data exit, and the four
      laws of the answers hold. */
  lemma ReachableAnswers(cfg: Config, s: State, t: TestID, subdomain: string, fqdn: string, qtype: nat, other: nat)
    requires ValidConfig(cfg) && Reachable(cfg, s)
    ensures GoodRecords(cfg, s.db.dnsRecords)
    ensures var records := SelectRecords(s.db.dnsRecords, t, subdomain, qtype);
            !Lookup(cfg, t, records, BuiltinAnswers(cfg, fqdn, qtype)).failed
    ensures Resolve(cfg, s.db, fqdn, qtype) == Specified(cfg, s.db, fqdn, qtype)
    ensures qtype != TYPE_ANY ==> List(Resolve(cfg, s.db, fqdn, qtype))
                                  == OfTypeOrCname(qtype, List(Resolve(cfg, s.db, fqdn, TYPE_ANY)))
    ensures HasCname(List(Resolve(cfg, s.db, fqdn, qtype))) ==>
              Resolve(cfg, s.db, fqdn, other) == Resolve(cfg, s.db, fqdn, qtype)
  {
    ReachableInv(cfg, s);
    SelectedAreGood(cfg, s.db.dnsRecords, t, subdomain, qtype);
    LookupOfPosted(cfg, t, SelectRecords(s.db.dnsRecords, t, subdomain, qtype), BuiltinAnswers(cfg, fqdn, qtype));
    ResolveRefines(cfg, s.db, fqdn, qtype);
    if qtype != TYPE_ANY {
      TypedRestrictsAny(cfg, s.db, fqdn, qtype);
    }
    CnameStandsAlone(cfg, s.db, fqdn, qtype, other);
  }
}
