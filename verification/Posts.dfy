/** Forms posted from a test's page and carried out undisturbed: the runs that the examples are made of. */
module Posts {
  import opened Options
  import opened Ascii
  import opened TestIds
  import opened Records
  import opened Posting
  import opened Tables
  import opened Dns
  import opened Http
  import opened Machine
  import opened Invariants
  import opened Sequential
  import opened FrontEnds

  /** A form posted from the page of a test, by the handler of this number. */
  datatype Submission = Submission(h: nat, test: TestID, form: Form)

  // One submission

  function PageRequest(cfg: Config, post: Submission): HttpRequest {
    var path := "/test/" + HexEncode(post.test);
    HttpRequest(Some(""), cfg.domain, true, "POST", path, path, post.form)
  }

  function PageOf(cfg: Config, post: Submission, phase: PagePhase): Handler {
    PageHandler(PageRequest(cfg, post), post.test, phase)
  }

  function Decided(cfg: Config, post: Submission): Handler {
    PageOf(cfg, post, PageChecked(DecodeAction(cfg, post.form)))
  }

  /** Arrival, check and statement, with the row ids that SQLite picks. */
  function Post(cfg: Config, db: Tables, post: Submission): seq<Label> {
    [HttpArrive(post.h, PageRequest(cfg, post)), Advance(post.h, true, 0),
     Advance(post.h, true, IdFor(db, Decided(cfg, post)))]
  }

  /** The form adds or removes a DNS record. */
  predicate EditsRecords(cfg: Config, form: Form) {
    var action := DecodeAction(cfg, form);
    action.AddRecord? || action.RemoveRecord?
  }

  function PostStatement(cfg: Config, db: Tables, post: Submission): Statement {
    ActionStatement(post.test, DecodeAction(cfg, post.form), IdFor(db, Decided(cfg, post)))
  }

  function Posted(cfg: Config, s: State, post: Submission): State {
    s.(db := Execute(s.db, s.clock, PostStatement(cfg, s.db, post)),
       handlers := s.handlers[post.h := PageOf(cfg, post, PageDone(303))])
  }

  lemma PageRequestRoute(cfg: Config, post: Submission)
    requires ValidConfig(cfg) && PlainHost(cfg.domain)
    ensures ArriveHttp(cfg, PageRequest(cfg, post)) == PageOf(cfg, post, PageArrived)
    ensures RouteOf(cfg, PageRequest(cfg, post)) == ToTestPage(post.test)
  {
    HostOfHeader(PageRequest(cfg, post), cfg.domain, "");
    StartLeadsToPage(cfg, PageRequest(cfg, post), post.test);
  }

  /** One step of the machine over SQLite. */
  ghost predicate Leads(cfg: Config, s: State, l: Label, next: State) {
    Enabled(cfg, s, l) && ExactId(s, l) && Apply(cfg, s, l) == next && Inv(cfg, next)
  }

  lemma LeadsOn(cfg: Config, s: State, l: Label, next: State, rest: seq<Label>)
    requires Leads(cfg, s, l, next) && ExactRun(cfg, next, rest)
    ensures ExactRun(cfg, s, [l] + rest) && Run(cfg, s, [l] + rest) == Run(cfg, next, rest)
  {
    ExactCons(cfg, s, l, rest);
    RunCons(cfg, s, l, rest);
  }

  lemma ThreeSteps(cfg: Config, s: State, a: Label, s1: State, b: Label, s2: State, c: Label, s3: State)
    requires Leads(cfg, s, a, s1) && Leads(cfg, s1, b, s2) && Leads(cfg, s2, c, s3)
    ensures ExactRun(cfg, s, [a, b, c]) && Run(cfg, s, [a, b, c]) == s3
  {
    LeadsOn(cfg, s2, c, s3, []);
    LeadsOn(cfg, s1, b, s2, [c] + []);
    LeadsOn(cfg, s, a, s1, [b] + ([c] + []));
    assert [a] + ([b] + ([c] + [])) == [a, b, c];
  }

  /** The state once the submission's handler has got this far, and nothing else has happened. */
  function AtPhase(cfg: Config, s: State, post: Submission, phase: PagePhase): State {
    s.(handlers := s.handlers[post.h := PageOf(cfg, post, phase)])
  }

  lemma ArriveOnce(cfg: Config, s: State, post: Submission)
    requires ValidConfig(cfg) && PlainHost(cfg.domain) && Inv(cfg, s) && post.h !in s.handlers
    ensures Leads(cfg, s, HttpArrive(post.h, PageRequest(cfg, post)), AtPhase(cfg, s, post, PageArrived))
  {
    PageRequestRoute(cfg, post);
    ApplyKeepsInv(cfg, s, HttpArrive(post.h, PageRequest(cfg, post)));
  }

  lemma AdvanceLeads(cfg: Config, s: State, h: nat, id: nat)
    requires Inv(cfg, s) && h in s.handlers && !Finished(s.handlers[h]) && id == IdFor(s.db, s.handlers[h])
    ensures Leads(cfg, s, Advance(h, true, id), Advanced(cfg, s, h, true))
  {
    AdvanceOnce(cfg, s, h, true, []);
    assert [Advance(h, true, id)] + [] == [Advance(h, true, id)];
    ExactCons(cfg, s, Advance(h, true, id), []);
  }

  lemma ArrivedStep(cfg: Config, db: Tables, post: Submission)
    requires Running(db, post.test) && EditsRecords(cfg, post.form)
    ensures NextStep(cfg, db, PageOf(cfg, post, PageArrived), true, 0) == Step(Nothing, Decided(cfg, post))
  {
  }

  lemma CheckState(cfg: Config, s: State, post: Submission, arrived: State)
    requires Running(s.db, post.test) && EditsRecords(cfg, post.form)
    requires arrived == AtPhase(cfg, s, post, PageArrived)
    ensures Advanced(cfg, arrived, post.h, true)
         == AtPhase(cfg, s, post, PageChecked(DecodeAction(cfg, post.form)))
  {
    ArrivedStep(cfg, s.db, post);
    assert arrived.handlers[post.h := Decided(cfg, post)] == s.handlers[post.h := Decided(cfg, post)];
  }

  lemma CheckOnce(cfg: Config, s: State, post: Submission)
    requires Inv(cfg, AtPhase(cfg, s, post, PageArrived))
    requires Running(s.db, post.test) && EditsRecords(cfg, post.form)
    ensures Leads(cfg, AtPhase(cfg, s, post, PageArrived), Advance(post.h, true, 0),
                  AtPhase(cfg, s, post, PageChecked(DecodeAction(cfg, post.form))))
  {
    var arrived := AtPhase(cfg, s, post, PageArrived);
    CheckState(cfg, s, post, arrived);
    AdvanceLeads(cfg, arrived, post.h, 0);
  }

  /** The handler's statement is the one its action asks for. */
  lemma DecidedStep(cfg: Config, db: Tables, post: Submission)
    requires Running(db, post.test) && EditsRecords(cfg, post.form)
    ensures NextStep(cfg, db, Decided(cfg, post), true, IdFor(db, Decided(cfg, post)))
         == Step(PostStatement(cfg, db, post), PageOf(cfg, post, PageDone(303)))
  {
  }

  lemma CarryOutState(cfg: Config, s: State, post: Submission, checked: State)
    requires Running(s.db, post.test) && EditsRecords(cfg, post.form)
    requires checked == AtPhase(cfg, s, post, PageChecked(DecodeAction(cfg, post.form)))
    ensures Advanced(cfg, checked, post.h, true) == Posted(cfg, s, post)
  {
    DecidedStep(cfg, s.db, post);
    var done := PageOf(cfg, post, PageDone(303));
    assert checked.handlers[post.h := done] == s.handlers[post.h := done];
  }

  lemma CarryOutOnce(cfg: Config, s: State, post: Submission)
    requires Inv(cfg, AtPhase(cfg, s, post, PageChecked(DecodeAction(cfg, post.form))))
    requires Running(s.db, post.test) && EditsRecords(cfg, post.form)
    ensures Leads(cfg, AtPhase(cfg, s, post, PageChecked(DecodeAction(cfg, post.form))),
                  Advance(post.h, true, IdFor(s.db, Decided(cfg, post))), Posted(cfg, s, post))
  {
    var checked := AtPhase(cfg, s, post, PageChecked(DecodeAction(cfg, post.form)));
    CarryOutState(cfg, s, post, checked);
    AdvanceLeads(cfg, checked, post.h, IdFor(s.db, Decided(cfg, post)));
  }

  /** A form that adds or removes a record of a running test is carried out by three steps. */
  lemma PostIsRun(cfg: Config, s: State, post: Submission)
    requires ValidConfig(cfg) && PlainHost(cfg.domain) && Inv(cfg, s) && post.h !in s.handlers
    requires Running(s.db, post.test) && EditsRecords(cfg, post.form)
    ensures ExactRun(cfg, s, Post(cfg, s.db, post))
    ensures Run(cfg, s, Post(cfg, s.db, post)) == Posted(cfg, s, post) && Inv(cfg, Posted(cfg, s, post))
  {
    ArriveOnce(cfg, s, post);
    CheckOnce(cfg, s, post);
    CarryOutOnce(cfg, s, post);
    ThreeSteps(cfg, s, HttpArrive(post.h, PageRequest(cfg, post)), AtPhase(cfg, s, post, PageArrived),
               Advance(post.h, true, 0), AtPhase(cfg, s, post, PageChecked(DecodeAction(cfg, post.form))),
               Advance(post.h, true, IdFor(s.db, Decided(cfg, post))), Posted(cfg, s, post));
  }

  // Submissions one after the other

  function PostAll(cfg: Config, s: State, posts: seq<Submission>): seq<Label>
    decreases |posts|
  {
    if posts == [] then []
    else Post(cfg, s.db, posts[0]) + PostAll(cfg, Posted(cfg, s, posts[0]), posts[1..])
  }

  function PostedAll(cfg: Config, s: State, posts: seq<Submission>): State
    decreases |posts|
  {
    if posts == [] then s else PostedAll(cfg, Posted(cfg, s, posts[0]), posts[1..])
  }

  /** Each submission edits the records of a running test, under a new handler number. */
  ghost predicate Submittable(cfg: Config, s: State, posts: seq<Submission>) {
    && (forall i :: 0 <= i < |posts| ==>
          Running(s.db, posts[i].test) && EditsRecords(cfg, posts[i].form) && posts[i].h !in s.handlers)
    && forall i, j :: 0 <= i < j < |posts| ==> posts[i].h != posts[j].h
  }

  lemma PostKeepsTests(cfg: Config, s: State, post: Submission)
    requires EditsRecords(cfg, post.form)
    ensures Posted(cfg, s, post).db.tests == s.db.tests
  {
  }

  lemma SubmittableCons(cfg: Config, s: State, post: Submission, rest: seq<Submission>)
    requires Running(s.db, post.test) && EditsRecords(cfg, post.form) && post.h !in s.handlers
    requires Submittable(cfg, s, rest) && forall i :: 0 <= i < |rest| ==> rest[i].h > post.h
    ensures Submittable(cfg, s, [post] + rest)
  {
  }

  lemma SubmittableAfter(cfg: Config, s: State, posts: seq<Submission>)
    requires posts != [] && Submittable(cfg, s, posts)
    ensures Submittable(cfg, Posted(cfg, s, posts[0]), posts[1..])
  {
    PostKeepsTests(cfg, s, posts[0]);
    assert forall i :: 0 <= i < |posts[1..]| ==> posts[1..][i] == posts[i + 1];
  }

  lemma {:induction false} PostAllIsRun(cfg: Config, s: State, posts: seq<Submission>)
    requires ValidConfig(cfg) && PlainHost(cfg.domain) && Inv(cfg, s) && Submittable(cfg, s, posts)
    ensures ExactRun(cfg, s, PostAll(cfg, s, posts))
    ensures Run(cfg, s, PostAll(cfg, s, posts)) == PostedAll(cfg, s, posts)
    decreases |posts|
  {
    if posts != [] {
      var next, rest := Posted(cfg, s, posts[0]), posts[1..];
      PostIsRun(cfg, s, posts[0]);
      SubmittableAfter(cfg, s, posts);
      PostAllIsRun(cfg, next, rest);
      RunConcat(cfg, s, Post(cfg, s.db, posts[0]), PostAll(cfg, next, rest));
      ExactConcat(cfg, s, Post(cfg, s.db, posts[0]), PostAll(cfg, next, rest));
    }
  }

  // The forms used

  function TxtForm(subdomain: string, text: string): Form {
    map["add_dns_record" := "TXT", "txt_subdomain" := subdomain, "txt_data" := text]
  }

  function RemovalForm(id: nat): Form {
    map["rm_dns_record" := DecimalText(id)]
  }

  lemma FormsDecode(cfg: Config, subdomain: string, text: string, id: nat)
    requires |text| <= MAX_TXT
    ensures DecodeAction(cfg, TxtForm(subdomain, text))
         == AddRecord(PublishedRecord(ToLower(subdomain), TYPE_TXT, TxtJson(text)))
    ensures DecodeAction(cfg, RemovalForm(id)) == RemoveRecord(Some(id))
  {
    DecimalRoundTrip(id);
  }

  /** What a submission makes of the records. */
  lemma PostedRecords(cfg: Config, s: State, post: Submission)
    requires EditsRecords(cfg, post.form) && post.test in s.db.tests
    ensures var action, after := DecodeAction(cfg, post.form), Posted(cfg, s, post).db.dnsRecords;
            match action
            case AddRecord(record) => after == s.db.dnsRecords + [Row(NextId(s.db.dnsRecords), post.test, record)]
            case RemoveRecord(Some(id)) => after == Without(s.db.dnsRecords, post.test, id)
            case _ => after == s.db.dnsRecords
  {
  }

  // Where the examples begin

  /** The state after these tests have been started. */
  function Started(now: int, tests: set<TestID>): State {
    Initial(now).(db := EMPTY_TABLES.(tests := map t | t in tests :: TestRow(now, None)))
  }

  lemma StartOne(cfg: Config, now: int, tests: set<TestID>, t: TestID)
    requires t !in tests
    ensures Leads(cfg, Started(now, tests), StartTest(t, true), Started(now, tests + {t}))
  {
    assert (map v | v in tests :: TestRow(now, None))[t := TestRow(now, None)]
        == map v | v in tests + {t} :: TestRow(now, None);
  }

  lemma NoneStarted(now: int)
    ensures Started(now, {}) == Initial(now)
  {
  }

  lemma AfterStart(cfg: Config, now: int, t: TestID, posts: seq<Submission>)
    requires ExactRun(cfg, Started(now, {t}), PostAll(cfg, Started(now, {t}), posts))
    ensures var rest := PostAll(cfg, Started(now, {t}), posts);
            && ExactRun(cfg, Initial(now), [StartTest(t, true)] + rest)
            && Run(cfg, Initial(now), [StartTest(t, true)] + rest) == Run(cfg, Started(now, {t}), rest)
  {
    NoneStarted(now);
    StartOne(cfg, now, {}, t);
    assert {} + {t} == {t};
    LeadsOn(cfg, Initial(now), StartTest(t, true), Started(now, {t}), PostAll(cfg, Started(now, {t}), posts));
  }

  /** A test is running, and nothing else has happened yet. */
  ghost predicate Ready(cfg: Config, s: State, t: TestID) {
    Inv(cfg, s) && Running(s.db, t) && s.handlers == map[] && s.db.dnsRecords == []
  }

  lemma StartedIsReady(cfg: Config, now: int, tests: set<TestID>, t: TestID)
    requires t in tests
    ensures Ready(cfg, Started(now, tests), t)
  {
  }
}
