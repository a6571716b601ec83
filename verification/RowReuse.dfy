/** Row ids are shared between tests, and SQLite uses the id of a deleted last row again: so what another test does
    can decide which row a repeated removal hits. */
module RowReuse {
  import opened Ascii
  import opened TestIds
  import opened Records
  import opened Posting
  import opened Tables
  import opened Dns
  import opened Machine
  import opened Invariants
  import opened Sequential
  import opened FrontEnds
  import opened Posts
  import opened Noninterference

  // A test's own steps among submissions

  lemma {:induction false} PurgeConcat(cfg: Config, s: State, a: seq<Label>, b: seq<Label>, t: TestID)
    ensures Purge(cfg, s, a + b, t) == Purge(cfg, s, a, t) + Purge(cfg, Run(cfg, s, a), b, t)
    decreases |a|
  {
    if a == [] {
      assert a + b == b;
    } else {
      assert (a + b)[1..] == a[1..] + b;
      PurgeConcat(cfg, Apply(cfg, s, a[0]), a[1..], b, t);
    }
  }

  lemma PurgeCons(cfg: Config, s: State, l: Label, rest: seq<Label>, next: State, t: TestID)
    requires Apply(cfg, s, l) == next
    ensures Purge(cfg, s, [l] + rest, t)
         == if Concerns(cfg, s, l, t) then [LabelOf(l, t)] + Purge(cfg, next, rest, t) else Purge(cfg, next, rest, t)
  {
    assert ([l] + rest)[1..] == rest;
  }

  lemma PurgeThree(cfg: Config, s: State, a: Label, s1: State, b: Label, s2: State, c: Label, s3: State,
                   t: TestID, own: bool)
    requires Apply(cfg, s, a) == s1 && Apply(cfg, s1, b) == s2 && Apply(cfg, s2, c) == s3
    requires Concerns(cfg, s, a, t) == Concerns(cfg, s1, b, t) == Concerns(cfg, s2, c, t) == own
    requires LabelOf(a, t) == a && LabelOf(b, t) == b && LabelOf(c, t) == c
    ensures Purge(cfg, s, [a, b, c], t) == if own then [a, b, c] else []
  {
    PurgeCons(cfg, s2, c, [], s3, t);
    PurgeCons(cfg, s1, b, [c] + [], s2, t);
    PurgeCons(cfg, s, a, [b] + ([c] + []), s1, t);
    assert [a] + ([b] + ([c] + [])) == [a, b, c];
  }

  /** A submission concerns its own test with all its steps, and any other test with none. */
  lemma PurgePost(cfg: Config, s: State, post: Submission, t: TestID)
    requires ValidConfig(cfg) && PlainHost(cfg.domain) && Inv(cfg, s) && post.h !in s.handlers
    requires Running(s.db, post.test) && EditsRecords(cfg, post.form)
    ensures Purge(cfg, s, Post(cfg, s.db, post), t) == if post.test == t then Post(cfg, s.db, post) else []
  {
    var arrived := AtPhase(cfg, s, post, PageArrived);
    var checked := AtPhase(cfg, s, post, PageChecked(DecodeAction(cfg, post.form)));
    var arrive, check := HttpArrive(post.h, PageRequest(cfg, post)), Advance(post.h, true, 0);
    var carryOut := Advance(post.h, true, IdFor(s.db, Decided(cfg, post)));
    PageRequestRoute(cfg, post);
    ArriveOnce(cfg, s, post);
    CheckOnce(cfg, s, post);
    CarryOutOnce(cfg, s, post);
    PurgeThree(cfg, s, arrive, arrived, check, checked, carryOut, Posted(cfg, s, post), t, post.test == t);
  }

  /** The steps of submissions, row ids left out. */
  function Plain(cfg: Config, posts: seq<Submission>): seq<Label> {
    if posts == [] then [] else Unnumbered(Post(cfg, EMPTY_TABLES, posts[0])) + Plain(cfg, posts[1..])
  }

  function PostsOf(posts: seq<Submission>, t: TestID): seq<Submission> {
    if posts == [] then []
    else if posts[0].test == t then [posts[0]] + PostsOf(posts[1..], t)
    else PostsOf(posts[1..], t)
  }

  lemma PlainPost(cfg: Config, db: Tables, post: Submission)
    ensures Unnumbered(Post(cfg, db, post)) == Unnumbered(Post(cfg, EMPTY_TABLES, post))
  {
  }

  lemma {:induction false} PlainPosts(cfg: Config, s: State, posts: seq<Submission>)
    ensures Unnumbered(PostAll(cfg, s, posts)) == Plain(cfg, posts)
    decreases |posts|
  {
    if posts != [] {
      var next := Posted(cfg, s, posts[0]);
      PlainPosts(cfg, next, posts[1..]);
      PlainPost(cfg, s.db, posts[0]);
      UnnumberedConcat(Post(cfg, s.db, posts[0]), PostAll(cfg, next, posts[1..]));
    }
  }

  lemma {:induction false} PurgePosts(cfg: Config, s: State, posts: seq<Submission>, t: TestID)
    requires ValidConfig(cfg) && PlainHost(cfg.domain) && Inv(cfg, s) && Submittable(cfg, s, posts)
    ensures Unnumbered(Purge(cfg, s, PostAll(cfg, s, posts), t)) == Plain(cfg, PostsOf(posts, t))
    decreases |posts|
  {
    if posts != [] {
      var first, next, rest := Post(cfg, s.db, posts[0]), Posted(cfg, s, posts[0]), posts[1..];
      PostIsRun(cfg, s, posts[0]);
      SubmittableAfter(cfg, s, posts);
      PurgePosts(cfg, next, rest, t);
      PurgeConcat(cfg, s, first, PostAll(cfg, next, rest), t);
      PurgePost(cfg, s, posts[0], t);
      PlainPost(cfg, s.db, posts[0]);
      var own := Purge(cfg, next, PostAll(cfg, next, rest), t);
      UnnumberedConcat(first, own);
      assert [] + own == own;
      assert posts[0].test == t ==> PostsOf(posts, t)[1..] == PostsOf(rest, t);
    }
  }

  // The example

  function Txt(text: string): PublishedRecord {
    PublishedRecord("", TYPE_TXT, TxtJson(text))
  }

  function Publish(h: nat, t: TestID, text: string): Submission {
    Submission(h, t, TxtForm("", text))
  }

  function Remove(h: nat, t: TestID, id: nat): Submission {
    Submission(h, t, RemovalForm(id))
  }

  lemma PublishAndRemove(cfg: Config, s: State, h: nat, t: TestID, text: string, id: nat)
    requires t in s.db.tests && |text| <= MAX_TXT
    ensures EditsRecords(cfg, TxtForm("", text)) && EditsRecords(cfg, RemovalForm(id))
    ensures Posted(cfg, s, Publish(h, t, text)).db
         == s.db.(dnsRecords := s.db.dnsRecords + [Row(NextId(s.db.dnsRecords), t, Txt(text))])
    ensures Posted(cfg, s, Remove(h, t, id)).db == s.db.(dnsRecords := Without(s.db.dnsRecords, t, id))
  {
    FormsDecode(cfg, "", text, id);
    assert ToLower("") == "";
  }

  lemma RemoveFromShort(a: Row<PublishedRecord>, b: Row<PublishedRecord>, t: TestID, id: nat)
    ensures Without([a], t, id) == if a.test == t && a.id == id then [] else [a]
    ensures Without([a, b], t, id)
         == Without([a], t, id) + if b.test == t && b.id == id then [] else [b]
    ensures OfTest([a, b], t) == (if a.test == t then [a] else []) + if b.test == t then [b] else []
  {
    WithoutAppend([], a, t, id);
    WithoutAppend([a], b, t, id);
    OfTestAppend([], a, t);
    OfTestAppend([a], b, t);
    assert [] + [a] == [a] && [a] + [b] == [a, b];
  }

  /** The test posts A, removes row 1, posts B, and removes row 1 again, as from a page left open. */
  function Alone(t: TestID): seq<Submission> {
    [Publish(0, t, "A"), Remove(2, t, 1), Publish(3, t, "B"), Remove(4, t, 1)]
  }

  /** The same, and another test posts X before the first removal. */
  function InCompany(t: TestID, u: TestID): seq<Submission> {
    [Publish(0, t, "A"), Publish(1, u, "X"), Remove(2, t, 1), Publish(3, t, "B"), Remove(4, t, 1)]
  }

  lemma PostedOne(cfg: Config, s: State, post: Submission, rest: seq<Submission>)
    ensures PostedAll(cfg, s, [post] + rest) == PostedAll(cfg, Posted(cfg, s, post), rest)
  {
    assert ([post] + rest)[1..] == rest;
  }

  lemma TwoRecords(cfg: Config, s: State, t: TestID, u: TestID)
    requires t in s.db.tests && u in s.db.tests && s.db.dnsRecords == []
    ensures Posted(cfg, Posted(cfg, s, Publish(0, t, "A")), Publish(1, u, "X")).db
         == s.db.(dnsRecords := [Row(1, t, Txt("A")), Row(2, u, Txt("X"))])
  {
    var s1 := Posted(cfg, s, Publish(0, t, "A"));
    PublishAndRemove(cfg, s, 0, t, "A", 0);
    assert s1.db.dnsRecords == [Row(1, t, Txt("A"))];
    PublishAndRemove(cfg, s1, 1, u, "X", 0);
  }

  /** After the first removal only the other test's record is left. */
  lemma RecordsBefore(cfg: Config, s: State, t: TestID, u: TestID)
    requires t in s.db.tests && u in s.db.tests && t != u && s.db.dnsRecords == []
    ensures var db := Posted(cfg, Posted(cfg, Posted(cfg, s, Publish(0, t, "A")), Publish(1, u, "X")),
                             Remove(2, t, 1)).db;
            db == s.db.(dnsRecords := [Row(2, u, Txt("X"))])
  {
    var s2 := Posted(cfg, Posted(cfg, s, Publish(0, t, "A")), Publish(1, u, "X"));
    TwoRecords(cfg, s, t, u);
    PublishAndRemove(cfg, s2, 2, t, "", 1);
    RemoveFromShort(Row(1, t, Txt("A")), Row(2, u, Txt("X")), t, 1);
  }

  lemma RecordsAtEnd(cfg: Config, s: State, t: TestID, u: TestID)
    requires t in s.db.tests && t != u && s.db.dnsRecords == [Row(2, u, Txt("X"))]
    ensures Posted(cfg, Posted(cfg, s, Publish(3, t, "B")), Remove(4, t, 1)).db.dnsRecords
         == [Row(2, u, Txt("X")), Row(3, t, Txt("B"))]
  {
    var s1 := Posted(cfg, s, Publish(3, t, "B"));
    PublishAndRemove(cfg, s, 3, t, "B", 0);
    assert s1.db.dnsRecords == [Row(2, u, Txt("X")), Row(3, t, Txt("B"))];
    PublishAndRemove(cfg, s1, 4, t, "", 1);
    RemoveFromShort(Row(2, u, Txt("X")), Row(3, t, Txt("B")), t, 1);
  }

  lemma FourPosted(cfg: Config, s: State, a: Submission, b: Submission, c: Submission, d: Submission)
    ensures PostedAll(cfg, s, [a, b, c, d])
         == Posted(cfg, Posted(cfg, Posted(cfg, Posted(cfg, s, a), b), c), d)
  {
    var s3 := Posted(cfg, Posted(cfg, Posted(cfg, s, a), b), c);
    PostedOne(cfg, s3, d, []);
    PostedOne(cfg, Posted(cfg, Posted(cfg, s, a), b), c, [d] + []);
    PostedOne(cfg, Posted(cfg, s, a), b, [c] + ([d] + []));
    PostedOne(cfg, s, a, [b] + ([c] + ([d] + [])));
    assert [a] + ([b] + ([c] + ([d] + []))) == [a, b, c, d];
  }

  lemma FivePosted(cfg: Config, s: State, a: Submission, b: Submission, c: Submission, d: Submission, e: Submission)
    ensures PostedAll(cfg, s, [a, b, c, d, e])
         == Posted(cfg, Posted(cfg, Posted(cfg, Posted(cfg, Posted(cfg, s, a), b), c), d), e)
  {
    FourPosted(cfg, Posted(cfg, s, a), b, c, d, e);
    PostedOne(cfg, s, a, [b, c, d, e]);
    assert [a] + [b, c, d, e] == [a, b, c, d, e];
  }

  lemma RecordsInCompany(cfg: Config, s: State, t: TestID, u: TestID)
    requires t in s.db.tests && u in s.db.tests && t != u && s.db.dnsRecords == []
    ensures PostedAll(cfg, s, InCompany(t, u)).db.dnsRecords == [Row(2, u, Txt("X")), Row(3, t, Txt("B"))]
  {
    var a, x, r, b, r' := Publish(0, t, "A"), Publish(1, u, "X"), Remove(2, t, 1), Publish(3, t, "B"), Remove(4, t, 1);
    RecordsBefore(cfg, s, t, u);
    RecordsAtEnd(cfg, Posted(cfg, Posted(cfg, Posted(cfg, s, a), x), r), t, u);
    FivePosted(cfg, s, a, x, r, b, r');
  }

  lemma RecordsAlone(cfg: Config, s: State, t: TestID)
    requires t in s.db.tests && s.db.dnsRecords == []
    ensures PostedAll(cfg, s, Alone(t)).db.dnsRecords == []
  {
    var a, r, b, r' := Publish(0, t, "A"), Remove(2, t, 1), Publish(3, t, "B"), Remove(4, t, 1);
    var s1 := Posted(cfg, s, a);
    PublishAndRemove(cfg, s, 0, t, "A", 0);
    assert s1.db.dnsRecords == [Row(1, t, Txt("A"))];
    var s2 := Posted(cfg, s1, r);
    PublishAndRemove(cfg, s1, 2, t, "", 1);
    RemoveFromShort(Row(1, t, Txt("A")), Row(1, t, Txt("B")), t, 1);
    assert s2.db.dnsRecords == [];
    var s3 := Posted(cfg, s2, b);
    PublishAndRemove(cfg, s2, 3, t, "B", 0);
    assert s3.db.dnsRecords == [Row(1, t, Txt("B"))];
    PublishAndRemove(cfg, s3, 4, t, "", 1);
    RemoveFromShort(Row(1, t, Txt("B")), Row(1, t, Txt("B")), t, 1);
    FourPosted(cfg, s, a, r, b, r');
  }

  lemma ExampleForms(cfg: Config)
    ensures EditsRecords(cfg, TxtForm("", "A")) && EditsRecords(cfg, TxtForm("", "B"))
    ensures EditsRecords(cfg, TxtForm("", "X")) && EditsRecords(cfg, RemovalForm(1))
  {
    FormsDecode(cfg, "", "A", 1);
    FormsDecode(cfg, "", "B", 1);
    FormsDecode(cfg, "", "X", 1);
  }

  lemma ExampleLists(t: TestID, u: TestID)
    ensures var a, x, r, b, r' :=
              Publish(0, t, "A"), Publish(1, u, "X"), Remove(2, t, 1), Publish(3, t, "B"), Remove(4, t, 1);
            && InCompany(t, u) == [a] + ([x] + ([r] + ([b] + ([r'] + []))))
            && Alone(t) == [a] + ([r] + ([b] + ([r'] + [])))
  {
  }

  lemma SubmittableExample(cfg: Config, s: State, t: TestID, u: TestID)
    requires Running(s.db, t) && Running(s.db, u) && s.handlers == map[]
    ensures Submittable(cfg, s, InCompany(t, u)) && Submittable(cfg, s, Alone(t))
  {
    var a, x, r, b, r' := Publish(0, t, "A"), Publish(1, u, "X"), Remove(2, t, 1), Publish(3, t, "B"), Remove(4, t, 1);
    ExampleForms(cfg);
    SubmittableCons(cfg, s, r', []);
    SubmittableCons(cfg, s, b, [r'] + []);
    SubmittableCons(cfg, s, r, [b] + ([r'] + []));
    SubmittableCons(cfg, s, a, [r] + ([b] + ([r'] + [])));
    SubmittableCons(cfg, s, x, [r] + ([b] + ([r'] + [])));
    SubmittableCons(cfg, s, a, [x] + ([r] + ([b] + ([r'] + []))));
    ExampleLists(t, u);
  }

  lemma OwnPost(post: Submission, rest: seq<Submission>, t: TestID)
    ensures PostsOf([post] + rest, t) == if post.test == t then [post] + PostsOf(rest, t) else PostsOf(rest, t)
  {
    assert ([post] + rest)[1..] == rest;
  }

  lemma OwnPosts(t: TestID, u: TestID)
    requires t != u
    ensures PostsOf(InCompany(t, u), t) == Alone(t)
  {
    var a, x, r, b, r' := Publish(0, t, "A"), Publish(1, u, "X"), Remove(2, t, 1), Publish(3, t, "B"), Remove(4, t, 1);
    OwnPost(r', [], t);
    OwnPost(b, [r'] + [], t);
    OwnPost(r, [b] + ([r'] + []), t);
    OwnPost(x, [r] + ([b] + ([r'] + [])), t);
    OwnPost(a, [x] + ([r] + ([b] + ([r'] + []))), t);
    ExampleLists(t, u);
  }

  lemma AfterStarts(cfg: Config, now: int, t: TestID, u: TestID, posts: seq<Submission>)
    requires t != u && ExactRun(cfg, Started(now, {t, u}), PostAll(cfg, Started(now, {t, u}), posts))
    ensures var rest := PostAll(cfg, Started(now, {t, u}), posts);
            var ls := [StartTest(t, true)] + ([StartTest(u, true)] + rest);
            && ExactRun(cfg, Initial(now), ls) && Run(cfg, Initial(now), ls) == Run(cfg, Started(now, {t, u}), rest)
            && Purge(cfg, Initial(now), ls, t) == [StartTest(t, true)] + Purge(cfg, Started(now, {t, u}), rest, t)
  {
    var rest := PostAll(cfg, Started(now, {t, u}), posts);
    NoneStarted(now);
    StartOne(cfg, now, {}, t);
    StartOne(cfg, now, {t}, u);
    assert {} + {t} == {t} && {t} + {u} == {t, u};
    LeadsOn(cfg, Started(now, {t}), StartTest(u, true), Started(now, {t, u}), rest);
    LeadsOn(cfg, Initial(now), StartTest(t, true), Started(now, {t}), [StartTest(u, true)] + rest);
    PurgeCons(cfg, Started(now, {t}), StartTest(u, true), rest, Started(now, {t, u}), t);
    PurgeCons(cfg, Initial(now), StartTest(t, true), [StartTest(u, true)] + rest, Started(now, {t}), t);
  }

  lemma PostsInCompany(cfg: Config, s: State, t: TestID, u: TestID)
    requires ValidConfig(cfg) && PlainHost(cfg.domain) && t != u && Ready(cfg, s, t) && Ready(cfg, s, u)
    ensures var ls := PostAll(cfg, s, InCompany(t, u));
            && ExactRun(cfg, s, ls) && Unnumbered(Purge(cfg, s, ls, t)) == Plain(cfg, Alone(t))
            && OfTest(Run(cfg, s, ls).db.dnsRecords, t) == [Row(3, t, Txt("B"))]
  {
    SubmittableExample(cfg, s, t, u);
    PostAllIsRun(cfg, s, InCompany(t, u));
    PurgePosts(cfg, s, InCompany(t, u), t);
    OwnPosts(t, u);
    RecordsInCompany(cfg, s, t, u);
    RemoveFromShort(Row(2, u, Txt("X")), Row(3, t, Txt("B")), t, 1);
  }

  lemma UnnumberedStart(t: TestID, rest: seq<Label>)
    ensures Unnumbered([StartTest(t, true)] + rest) == [StartTest(t, true)] + Unnumbered(rest)
  {
    UnnumberedConcat([StartTest(t, true)], rest);
  }

  lemma ExampleInCompany(cfg: Config, now: int, t: TestID, u: TestID) returns (ls: seq<Label>)
    requires ValidConfig(cfg) && PlainHost(cfg.domain) && t != u
    ensures ExactRun(cfg, Initial(now), ls)
    ensures Unnumbered(Purge(cfg, Initial(now), ls, t)) == [StartTest(t, true)] + Plain(cfg, Alone(t))
    ensures OfTest(Run(cfg, Initial(now), ls).db.dnsRecords, t) == [Row(3, t, Txt("B"))]
  {
    var s, posts := Started(now, {t, u}), InCompany(t, u);
    StartedIsReady(cfg, now, {t, u}, t);
    StartedIsReady(cfg, now, {t, u}, u);
    PostsInCompany(cfg, s, t, u);
    AfterStarts(cfg, now, t, u, posts);
    ls := [StartTest(t, true)] + ([StartTest(u, true)] + PostAll(cfg, s, posts));
    UnnumberedStart(t, Purge(cfg, s, PostAll(cfg, s, posts), t));
  }

  lemma PostsAlone(cfg: Config, s: State, t: TestID)
    requires ValidConfig(cfg) && PlainHost(cfg.domain) && Ready(cfg, s, t)
    ensures var ls := PostAll(cfg, s, Alone(t));
            && ExactRun(cfg, s, ls) && Unnumbered(ls) == Plain(cfg, Alone(t))
            && OfTest(Run(cfg, s, ls).db.dnsRecords, t) == []
  {
    SubmittableExample(cfg, s, t, t);
    PostAllIsRun(cfg, s, Alone(t));
    PlainPosts(cfg, s, Alone(t));
    RecordsAlone(cfg, s, t);
  }

  lemma ExampleAlone(cfg: Config, now: int, t: TestID) returns (ls: seq<Label>)
    requires ValidConfig(cfg) && PlainHost(cfg.domain)
    ensures ExactRun(cfg, Initial(now), ls)
    ensures Unnumbered(ls) == [StartTest(t, true)] + Plain(cfg, Alone(t))
    ensures OfTest(Run(cfg, Initial(now), ls).db.dnsRecords, t) == []
  {
    var s, posts := Started(now, {t}), Alone(t);
    StartedIsReady(cfg, now, {t}, t);
    PostsAlone(cfg, s, t);
    AfterStart(cfg, now, t, posts);
    ls := [StartTest(t, true)] + PostAll(cfg, s, posts);
    UnnumberedStart(t, PostAll(cfg, s, posts));
  }

  /** With SQLite's choice of row ids tests do interfere: the two runs have the same steps of the test, down to the
      row ids named in its forms, and in the second, in which the other test does nothing, the repeated removal of
      row 1 deletes what was posted in between. */
  lemma RepeatedRemovalInterferes(cfg: Config, now: int, t: TestID, u: TestID)
    returns (a: seq<Label>, b: seq<Label>)
    requires ValidConfig(cfg) && PlainHost(cfg.domain) && t != u
    ensures ExactRun(cfg, Initial(now), a) && ExactRun(cfg, Initial(now), b)
    ensures Unnumbered(Purge(cfg, Initial(now), a, t)) == Unnumbered(b)
    ensures OfTest(Run(cfg, Initial(now), a).db.dnsRecords, t) == [Row(3, t, Txt("B"))]
    ensures OfTest(Run(cfg, Initial(now), b).db.dnsRecords, t) == []
  {
    a := ExampleInCompany(cfg, now, t, u);
    b := ExampleAlone(cfg, now, t);
  }
}
