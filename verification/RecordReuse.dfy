/** When the steps of a test decide its records, whatever other tests do, and when they do not. */
module RecordReuse {
  import opened Options
  import opened TestIds
  import opened Records
  import opened Posting
  import opened Tables
  import opened Dns
  import opened Machine
  import opened Invariants
  import opened Sequential
  import opened FrontEnds
  import opened Posts
  import opened Noninterference
  import opened Publication
  import opened RowIds
  import opened OwnSteps
  import opened RowReuse

  // A test's records behind n rows of another test

  /** The row id of the next record behind n rows of another test. */
  function NextBehind(n: nat, rows: Table<PublishedRecord>): nat {
    if rows == [] then n + 1 else rows[|rows| - 1].id + 1
  }

  function GrownOnce(n: nat, rows: Table<PublishedRecord>, stmt: Statement): Table<PublishedRecord> {
    match stmt
    case InsertRecord(_, t, record) => rows + [Row(NextBehind(n, rows), t, record)]
    case DeleteRecord(t, id) => Without(rows, t, id)
    case _ => rows
  }

  /** What the statements make of a test's records behind n rows of another test. */
  function Grown(n: nat, rows: Table<PublishedRecord>, h: seq<Statement>): Table<PublishedRecord>
    decreases |h|
  {
    if h == [] then rows else Grown(n, GrownOnce(n, rows, h[0]), h[1..])
  }

  function Adds(h: seq<Statement>): nat {
    if h == [] then 0 else (if h[0].InsertRecord? then 1 else 0) + Adds(h[1..])
  }

  lemma {:induction false} WithoutShrinks(rows: Table<PublishedRecord>, t: TestID, id: nat)
    ensures |Without(rows, t, id)| <= |rows|
  {
    if rows != [] { WithoutShrinks(rows[..|rows| - 1], t, id); }
  }

  lemma {:induction false} GrowsByAdds(n: nat, rows: Table<PublishedRecord>, h: seq<Statement>)
    ensures |Grown(n, rows, h)| <= |rows| + Adds(h)
    decreases |h|
  {
    if h != [] {
      GrowsByAdds(n, GrownOnce(n, rows, h[0]), h[1..]);
      if h[0].DeleteRecord? {
        WithoutShrinks(rows, h[0].test, h[0].id);
      }
    }
  }

  predicate Above(rows: Table<PublishedRecord>, n: nat) {
    forall i :: 0 <= i < |rows| ==> n < rows[i].id
  }

  /** The removals name no row id beyond n. */
  predicate NamesUpTo(h: seq<Statement>, n: nat) {
    forall j :: 0 <= j < |h| && h[j].DeleteRecord? ==> h[j].id <= n
  }

  lemma WithoutMissed(rows: Table<PublishedRecord>, t: TestID, id: nat)
    requires Above(rows, id)
    ensures Without(rows, t, id) == rows
  {
    WithoutAt(rows, t, id, |rows|);
  }

  /** Behind enough rows of another test every removal misses. */
  lemma {:induction false} AllMiss(n: nat, rows: Table<PublishedRecord>, h: seq<Statement>)
    requires Above(rows, n) && NamesUpTo(h, n)
    ensures |Grown(n, rows, h)| == |rows| + Adds(h)
    decreases |h|
  {
    if h != [] {
      if h[0].DeleteRecord? {
        WithoutMissed(rows, h[0].test, h[0].id);
      }
      assert NamesUpTo(h[1..], n) by { assert forall j :: 0 <= j < |h[1..]| ==> h[1..][j] == h[j + 1]; }
      AllMiss(n, GrownOnce(n, rows, h[0]), h[1..]);
    }
  }

  /** The positive row id that the first removal after an insertion names. */
  function FirstHarm(h: seq<Statement>, added: bool): Option<nat> {
    if h == [] then None
    else if h[0].DeleteRecord? && added && h[0].id > 0 then Some(h[0].id)
    else FirstHarm(h[1..], added || h[0].InsertRecord?)
  }

  predicate OfOneTest(h: seq<Statement>, t: TestID) {
    forall j :: 0 <= j < |h| ==> Touches(h[j], t)
  }

  lemma OneTestRest(h: seq<Statement>, t: TestID)
    requires h != [] && OfOneTest(h, t)
    ensures Touches(h[0], t) && OfOneTest(h[1..], t)
  {
    assert forall j :: 0 <= j < |h[1..]| ==> h[1..][j] == h[j + 1];
  }

  lemma FirstRowGone(rows: Table<PublishedRecord>)
    requires rows != [] && Ordered(rows)
    ensures |Without(rows, rows[0].test, rows[0].id)| < |rows|
  {
    assert OnlyAt(rows, rows[0].test, rows[0].id, 0);
    WithoutAt(rows, rows[0].test, rows[0].id, 0);
  }

  lemma FirstRowStays(n: nat, rows: Table<PublishedRecord>, stmt: Statement)
    requires rows != [] && Ordered(rows) && (stmt.DeleteRecord? ==> stmt.id == 0)
    ensures var after := GrownOnce(n, rows, stmt);
            && after != [] && Ordered(after) && after[0] == rows[0]
            && |after| == |rows| + if stmt.InsertRecord? then 1 else 0
  {
    if stmt.DeleteRecord? {
      RemoveNothing(rows, stmt.test, 0);
    }
  }

  /** Behind as many rows as make the test's first row the one that is removed, that removal hits. */
  lemma {:induction false} FirstRowIsHit(n: nat, rows: Table<PublishedRecord>, h: seq<Statement>, t: TestID)
    requires rows != [] && Ordered(rows) && rows[0].id == n + 1 && rows[0].test == t
    requires OfOneTest(h, t) && FirstHarm(h, true) == Some(n + 1)
    ensures |Grown(n, rows, h)| < |rows| + Adds(h)
    decreases |h|
  {
    OneTestRest(h, t);
    if h[0].DeleteRecord? && h[0].id > 0 {
      FirstRowGone(rows);
      GrowsByAdds(n, Without(rows, t, n + 1), h[1..]);
    } else {
      FirstRowStays(n, rows, h[0]);
      FirstRowIsHit(n, GrownOnce(n, rows, h[0]), h[1..], t);
    }
  }

  lemma {:induction false} RemovalHits(n: nat, h: seq<Statement>, t: TestID)
    requires OfOneTest(h, t) && FirstHarm(h, false) == Some(n + 1)
    ensures |Grown(n, [], h)| < Adds(h)
    decreases |h|
  {
    OneTestRest(h, t);
    if h[0].InsertRecord? {
      FirstRowIsHit(n, GrownOnce(n, [], h[0]), h[1..], t);
    } else {
      assert GrownOnce(n, [], h[0]) == [];
      RemovalHits(n, h[1..], t);
    }
  }

  lemma KeptCons(x: Statement, rest: seq<Statement>)
    ensures RecordsKept([x] + rest)
       <==> RecordsKept(rest)
            && (x.InsertRecord? ==> forall j :: 0 <= j < |rest| && rest[j].DeleteRecord? ==> rest[j].id == 0)
  {
    var h := [x] + rest;
    assert h[0] == x && forall j :: 0 <= j < |rest| ==> h[j + 1] == rest[j];
    if RecordsKept(h) {
      forall i, j | 0 <= i < j < |rest| && rest[i].InsertRecord? && rest[j].DeleteRecord? ensures rest[j].id == 0 {
        assert h[i + 1] == rest[i] && h[j + 1] == rest[j];
      }
      forall j | x.InsertRecord? && 0 <= j < |rest| && rest[j].DeleteRecord? ensures rest[j].id == 0 {
        assert h[0].InsertRecord? && h[j + 1].DeleteRecord?;
      }
    }
  }

  lemma {:induction false} HarmExactly(h: seq<Statement>, added: bool)
    ensures FirstHarm(h, added).Some?
       <==> !RecordsKept(h) || (added && exists j :: 0 <= j < |h| && h[j].DeleteRecord? && h[j].id > 0)
    ensures FirstHarm(h, added).Some? ==> FirstHarm(h, added).value > 0
    decreases |h|
  {
    if h != [] {
      HarmExactly(h[1..], added || h[0].InsertRecord?);
      assert forall j :: 0 <= j < |h[1..]| ==> h[1..][j] == h[j + 1];
      assert h == [h[0]] + h[1..];
      KeptCons(h[0], h[1..]);
      if added && exists j :: 0 <= j < |h| && h[j].DeleteRecord? && h[j].id > 0 {
        var j :| 0 <= j < |h| && h[j].DeleteRecord? && h[j].id > 0;
        assert j > 0 ==> h[1..][j - 1] == h[j];
      }
    }
  }

  /** A row id at least as large as any that the statements remove. */
  function LargestNamed(h: seq<Statement>): (n: nat)
    ensures NamesUpTo(h, n)
  {
    if h == [] then 0
    else
      var rest := LargestNamed(h[1..]);
      if h[0].DeleteRecord? && h[0].id > rest then h[0].id else rest
  }

  // The test's steps in a system with other rows

  /** The step with the row id that SQLite picks. */
  function ExactLabel(s: State, l: Label): Label {
    match l
    case Advance(h, ok, _) => Advance(h, ok, if h in s.handlers then IdFor(s.db, s.handlers[h]) else 0)
    case _ => l
  }

  function Replay(cfg: Config, s: State, ls: seq<Label>): seq<Label>
    decreases |ls|
  {
    if ls == [] then []
    else
      var m := ExactLabel(s, ls[0]);
      [m] + Replay(cfg, Apply(cfg, s, m), ls[1..])
  }

  lemma {:induction false} ReplayUnnumbered(cfg: Config, s: State, ls: seq<Label>)
    ensures Unnumbered(Replay(cfg, s, ls)) == Unnumbered(ls)
    decreases |ls|
  {
    if ls != [] {
      var m := ExactLabel(s, ls[0]);
      var rest := Replay(cfg, Apply(cfg, s, m), ls[1..]);
      ReplayUnnumbered(cfg, Apply(cfg, s, m), ls[1..]);
      UnnumberedConcat([m], rest);
      UnnumberedConcat([ls[0]], ls[1..]);
      assert Unnumbered([m]) == Unnumbered([ls[0]]);
      assert ls == [ls[0]] + ls[1..];
    }
  }

  /** The handlers that arrive are numbered below base, and those of other tests from there. */
  ghost predicate Apart(s: State, p: State, ls: seq<Label>, base: nat) {
    && (forall i :: 0 <= i < |ls| && IsArrival(ls[i]) ==> ls[i].h < base)
    && forall h :: h in s.handlers && h < base ==> h in p.handlers
  }

  /** What a step of the replay needs. */
  ghost predicate Replayable(cfg: Config, s: State, p: State, ls: seq<Label>, t: TestID, base: nat) {
    && Inv(cfg, s) && Inv(cfg, p) && Hosts(s, p, t)
    && ValidRun(cfg, p, ls) && AllOwn(cfg, p, ls, t) && Apart(s, p, ls, base)
  }

  lemma SkeletonActs(x: Handler, y: Handler, t: TestID)
    requires Skeleton(x) == Skeleton(y)
    ensures ActsOn(x, t) <==> ActsOn(y, t)
  {
  }

  lemma ReplayAdvance(cfg: Config, s: State, p: State, l: Label, t: TestID)
    requires Inv(cfg, s) && Hosts(s, p, t) && l.Advance? && Enabled(cfg, p, l) && IsOwn(cfg, p, l, t)
    ensures var m := ExactLabel(s, l);
            Enabled(cfg, s, m) && ExactId(s, m) && IsOwn(cfg, s, m, t) && InParallel(cfg, s, p, m, l, t)
  {
    AdvanceInParallel(cfg, s, p, ExactLabel(s, l), l, t);
    SkeletonActs(s.handlers[l.h], p.handlers[l.h], t);
    IdForIsFresh(cfg, s.db, s.handlers[l.h], l.ok);
  }

  lemma ReplayArrival(cfg: Config, s: State, p: State, l: Label, t: TestID)
    requires Hosts(s, p, t) && IsArrival(l) && Enabled(cfg, p, l) && IsOwn(cfg, p, l, t) && l.h !in s.handlers
    ensures Enabled(cfg, s, l) && IsOwn(cfg, s, l, t) && InParallel(cfg, s, p, l, l, t)
  {
    ArrivalInParallel(cfg, s, p, l, t);
  }

  lemma ReplayStep(cfg: Config, s: State, p: State, ls: seq<Label>, t: TestID, base: nat)
    requires ls != [] && Replayable(cfg, s, p, ls, t, base)
    ensures var m := ExactLabel(s, ls[0]);
            Enabled(cfg, s, m) && ExactId(s, m) && IsOwn(cfg, s, m, t) && InParallel(cfg, s, p, m, ls[0], t)
  {
    var l := ls[0];
    if l.Advance? {
      ReplayAdvance(cfg, s, p, l, t);
    } else if IsArrival(l) {
      ReplayArrival(cfg, s, p, l, t);
    } else {
      OtherInParallel(cfg, s, p, l, t);
    }
  }

  lemma KeysAfter(cfg: Config, s: State, l: Label, h: nat)
    ensures h in Apply(cfg, s, l).handlers <==> h in s.handlers || (IsArrival(l) && l.h == h)
  {
  }

  lemma ReplayableNext(cfg: Config, s: State, p: State, ls: seq<Label>, t: TestID, base: nat)
    requires ls != [] && Replayable(cfg, s, p, ls, t, base)
    ensures var m := ExactLabel(s, ls[0]);
            Replayable(cfg, Apply(cfg, s, m), Apply(cfg, p, ls[0]), ls[1..], t, base)
  {
    var m := ExactLabel(s, ls[0]);
    ReplayStep(cfg, s, p, ls, t, base);
    ApplyKeepsInv(cfg, s, m);
    ApplyKeepsInv(cfg, p, ls[0]);
    forall h | h in Apply(cfg, s, m).handlers && h < base ensures h in Apply(cfg, p, ls[0]).handlers {
      KeysAfter(cfg, s, m, h);
      KeysAfter(cfg, p, ls[0], h);
    }
  }

  /** The replay is a run over SQLite, and all its steps are the test's. */
  lemma {:induction false} ReplayIsRun(cfg: Config, s: State, p: State, ls: seq<Label>, t: TestID, base: nat)
    requires Replayable(cfg, s, p, ls, t, base)
    ensures ExactRun(cfg, s, Replay(cfg, s, ls)) && Purge(cfg, s, Replay(cfg, s, ls), t) == Replay(cfg, s, ls)
    decreases |ls|
  {
    if ls != [] {
      var m := ExactLabel(s, ls[0]);
      var next := Apply(cfg, s, m);
      ReplayStep(cfg, s, p, ls, t, base);
      ReplayableNext(cfg, s, p, ls, t, base);
      ReplayIsRun(cfg, next, Apply(cfg, p, ls[0]), ls[1..], t, base);
      ExactCons(cfg, s, m, Replay(cfg, next, ls[1..]));
      PurgeCons(cfg, s, m, Replay(cfg, next, ls[1..]), next, t);
    }
  }

  // The records behind those of another test

  /** The first n rows, all of the same test. */
  function CrowdRows(n: nat, u: TestID): Table<PublishedRecord> {
    seq(n, i requires 0 <= i < n => Row(i + 1, u, Txt("X")))
  }

  lemma NextBehindCrowd(n: nat, u: TestID, rows: Table<PublishedRecord>)
    ensures NextId(CrowdRows(n, u) + rows) == NextBehind(n, rows)
  {
  }

  lemma {:induction false} WithoutBehind(
    front: Table<PublishedRecord>, rows: Table<PublishedRecord>, t: TestID, id: nat)
    requires forall i :: 0 <= i < |front| ==> front[i].test != t
    ensures Without(front + rows, t, id) == front + Without(rows, t, id)
  {
    if rows == [] {
      WithoutAt(front, t, id, |front|);
      assert front + rows == front;
    } else {
      var init, last := rows[..|rows| - 1], rows[|rows| - 1];
      WithoutBehind(front, init, t, id);
      assert front + rows == (front + init) + [last];
      WithoutAppend(front + init, last, t, id);
      assert (front + Without(init, t, id)) + [last] == front + (Without(init, t, id) + [last]);
    }
  }

  lemma GrowBehind(n: nat, u: TestID, rows: Table<PublishedRecord>, x: Statement, y: Statement, t: TestID)
    requires u != t && Anonymous(x) == Anonymous(y) && Touches(y, t)
    requires x.InsertRecord? ==> x.id == NextId(CrowdRows(n, u) + rows)
    ensures RecordsAfter(CrowdRows(n, u) + rows, x) == CrowdRows(n, u) + GrownOnce(n, rows, y)
  {
    match y
    case InsertRecord(_, v, record) =>
      NextBehindCrowd(n, u, rows);
      assert (CrowdRows(n, u) + rows) + [Row(x.id, v, record)] == CrowdRows(n, u) + (rows + [Row(x.id, v, record)]);
    case DeleteRecord(v, id) => WithoutBehind(CrowdRows(n, u), rows, t, id);
    case _ =>
  }

  lemma ExactInsert(cfg: Config, s: State, m: Label)
    requires Enabled(cfg, s, m) && ExactId(s, m) && StatementOf(cfg, s, m).InsertRecord?
    ensures StatementOf(cfg, s, m).id == NextId(s.db.dnsRecords)
  {
    InsertsOnce(cfg, s.db, s.handlers[m.h], m.ok, m.id);
  }

  lemma ReplayRecordsOnce(
    cfg: Config, s: State, p: State, ls: seq<Label>, t: TestID, base: nat,
    n: nat, u: TestID, rows: Table<PublishedRecord>)
    requires ls != [] && Replayable(cfg, s, p, ls, t, base) && u != t && s.db.dnsRecords == CrowdRows(n, u) + rows
    ensures Apply(cfg, s, ExactLabel(s, ls[0])).db.dnsRecords
         == CrowdRows(n, u) + GrownOnce(n, rows, StatementOf(cfg, p, ls[0]))
  {
    var m := ExactLabel(s, ls[0]);
    ReplayStep(cfg, s, p, ls, t, base);
    OwnTouches(cfg, p, ls[0], t);
    if StatementOf(cfg, s, m).InsertRecord? {
      ExactInsert(cfg, s, m);
    }
    StepOfTable(cfg, s, m);
    GrowBehind(n, u, rows, StatementOf(cfg, s, m), StatementOf(cfg, p, ls[0]), t);
  }

  lemma {:induction false} ReplayRecords(
    cfg: Config, s: State, p: State, ls: seq<Label>, t: TestID, base: nat,
    n: nat, u: TestID, rows: Table<PublishedRecord>)
    requires Replayable(cfg, s, p, ls, t, base) && u != t && s.db.dnsRecords == CrowdRows(n, u) + rows
    ensures Run(cfg, s, Replay(cfg, s, ls)).db.dnsRecords == CrowdRows(n, u) + Grown(n, rows, History(cfg, p, ls))
    decreases |ls|
  {
    if ls != [] {
      var m, next := ExactLabel(s, ls[0]), Apply(cfg, p, ls[0]);
      var x := StatementOf(cfg, p, ls[0]);
      ReplayRecordsOnce(cfg, s, p, ls, t, base, n, u, rows);
      ReplayableNext(cfg, s, p, ls, t, base);
      ReplayRecords(cfg, Apply(cfg, s, m), next, ls[1..], t, base, n, u, GrownOnce(n, rows, x));
      RunCons(cfg, s, m, Replay(cfg, Apply(cfg, s, m), ls[1..]));
      assert History(cfg, p, ls)[1..] == History(cfg, next, ls[1..]);
    }
  }

  // Another test that posts n records first

  /** Posts k to n - 1 of the other test. */
  function Crowd(base: nat, k: nat, n: nat, u: TestID): seq<Submission>
    requires k <= n
    decreases n - k
  {
    if k == n then [] else [Publish(base + k, u, "X")] + Crowd(base, k + 1, n, u)
  }

  /** The other test has posted k records, under handlers numbered from base, and nothing else has happened. */
  ghost predicate HoldsCrowd(s: State, base: nat, k: nat, u: TestID) {
    && Running(s.db, u) && s.db.tests.Keys == {u} && s.db.dnsRecords == CrowdRows(k, u)
    && forall h :: h in s.handlers ==> base <= h < base + k
  }

  ghost predicate Crowded(cfg: Config, s: State, base: nat, k: nat, u: TestID) {
    Inv(cfg, s) && HoldsCrowd(s, base, k, u)
  }

  lemma CrowdRowsNext(s: State, k: nat, u: TestID)
    requires s.db.dnsRecords == CrowdRows(k, u)
    ensures s.db.dnsRecords + [Row(NextId(s.db.dnsRecords), u, Txt("X"))] == CrowdRows(k + 1, u)
  {
    NextBehindCrowd(k, u, []);
    assert CrowdRows(k, u) + [] == CrowdRows(k, u);
  }

  lemma PostedKeys(cfg: Config, s: State, post: Submission)
    ensures Posted(cfg, s, post).handlers.Keys == s.handlers.Keys + {post.h}
  {
  }

  lemma CrowdNext(cfg: Config, s: State, base: nat, k: nat, u: TestID)
    requires HoldsCrowd(s, base, k, u)
    ensures HoldsCrowd(Posted(cfg, s, Publish(base + k, u, "X")), base, k + 1, u)
  {
    PublishAndRemove(cfg, s, base + k, u, "X", 0);
    CrowdRowsNext(s, k, u);
    PostedKeys(cfg, s, Publish(base + k, u, "X"));
  }

  lemma CrowdPost(cfg: Config, s: State, base: nat, k: nat, u: TestID, t: TestID)
    requires ValidConfig(cfg) && PlainHost(cfg.domain) && Crowded(cfg, s, base, k, u) && t != u
    ensures var post := Publish(base + k, u, "X");
            var first, next := Post(cfg, s.db, post), Posted(cfg, s, post);
            && ExactRun(cfg, s, first) && Run(cfg, s, first) == next && Purge(cfg, s, first, t) == []
            && Crowded(cfg, next, base, k + 1, u) && next.clock == s.clock
  {
    var post := Publish(base + k, u, "X");
    ExampleForms(cfg);
    PostIsRun(cfg, s, post);
    PurgePost(cfg, s, post, t);
    CrowdNext(cfg, s, base, k, u);
  }

  lemma CrowdCons(cfg: Config, s: State, base: nat, k: nat, n: nat, u: TestID)
    requires k < n
    ensures var post := Publish(base + k, u, "X");
            PostAll(cfg, s, Crowd(base, k, n, u))
            == Post(cfg, s.db, post) + PostAll(cfg, Posted(cfg, s, post), Crowd(base, k + 1, n, u))
  {
    assert Crowd(base, k, n, u)[1..] == Crowd(base, k + 1, n, u);
  }

  lemma {:induction false} CrowdIsRun(cfg: Config, s: State, base: nat, k: nat, n: nat, u: TestID, t: TestID)
    requires ValidConfig(cfg) && PlainHost(cfg.domain) && Crowded(cfg, s, base, k, u) && t != u && k <= n
    ensures var ms := PostAll(cfg, s, Crowd(base, k, n, u));
            && ExactRun(cfg, s, ms) && Purge(cfg, s, ms, t) == []
            && Crowded(cfg, Run(cfg, s, ms), base, n, u) && Run(cfg, s, ms).clock == s.clock
    decreases n - k
  {
    if k < n {
      var post := Publish(base + k, u, "X");
      var first, next := Post(cfg, s.db, post), Posted(cfg, s, post);
      var rest := PostAll(cfg, next, Crowd(base, k + 1, n, u));
      CrowdPost(cfg, s, base, k, u, t);
      CrowdIsRun(cfg, next, base, k + 1, n, u, t);
      CrowdCons(cfg, s, base, k, n, u);
      ExactConcat(cfg, s, first, rest);
      RunConcat(cfg, s, first, rest);
      PurgeConcat(cfg, s, first, rest, t);
    }
  }

  lemma StartedIsCrowded(cfg: Config, now: int, base: nat, u: TestID)
    ensures Crowded(cfg, Started(now, {u}), base, 0, u)
  {
    StartedIsReady(cfg, now, {u}, u);
  }

  /** A run in which the other test starts and posts n records, and nothing else happens. */
  lemma CrowdRun(cfg: Config, now: int, base: nat, n: nat, u: TestID, t: TestID) returns (ms: seq<Label>)
    requires ValidConfig(cfg) && PlainHost(cfg.domain) && t != u
    ensures ExactRun(cfg, Initial(now), ms) && Purge(cfg, Initial(now), ms, t) == []
    ensures Crowded(cfg, Run(cfg, Initial(now), ms), base, n, u) && Run(cfg, Initial(now), ms).clock == now
  {
    var s := Started(now, {u});
    var posts := Crowd(base, 0, n, u);
    StartedIsCrowded(cfg, now, base, u);
    CrowdIsRun(cfg, s, base, 0, n, u, t);
    AfterStart(cfg, now, u, posts);
    NoneStarted(now);
    StartOne(cfg, now, {}, u);
    assert {} + {u} == {u};
    PurgeCons(cfg, Initial(now), StartTest(u, true), PostAll(cfg, s, posts), s, t);
    ms := [StartTest(u, true)] + PostAll(cfg, s, posts);
  }

  // The test's steps after that

  /** A number that no arriving handler has. */
  function NewNumber(ls: seq<Label>): (base: nat)
    ensures forall i :: 0 <= i < |ls| && IsArrival(ls[i]) ==> ls[i].h < base
  {
    if ls == [] then 0
    else
      var rest := NewNumber(ls[1..]);
      if IsArrival(ls[0]) && ls[0].h >= rest then ls[0].h + 1 else rest
  }

  lemma {:induction false} GrownTests(n: nat, rows: Table<PublishedRecord>, h: seq<Statement>, t: TestID)
    requires OfOneTest(h, t) && OfTest(rows, t) == rows
    ensures OfTest(Grown(n, rows, h), t) == Grown(n, rows, h)
    decreases |h|
  {
    if h != [] {
      OneTestRest(h, t);
      match h[0] {
        case InsertRecord(_, v, record) => OfTestAppend(rows, Row(NextBehind(n, rows), v, record), t);
        case DeleteRecord(v, id) => OfTestWithout(rows, v, id, t);
        case _ =>
      }
      GrownTests(n, GrownOnce(n, rows, h[0]), h[1..], t);
    }
  }

  lemma {:induction false} OfTestBehind(front: Table<PublishedRecord>, rows: Table<PublishedRecord>, t: TestID)
    requires forall i :: 0 <= i < |front| ==> front[i].test != t
    ensures OfTest(front + rows, t) == OfTest(rows, t)
    decreases |rows|, |front|
  {
    if rows != [] {
      var init, last := rows[..|rows| - 1], rows[|rows| - 1];
      OfTestBehind(front, init, t);
      assert front + rows == (front + init) + [last];
      OfTestAppend(front + init, last, t);
    } else if front != [] {
      OfTestBehind(front[..|front| - 1], [], t);
      assert front[..|front| - 1] + [] == front[..|front| - 1] && front + rows == front;
    }
  }

  lemma {:induction false} HistoryOfOneTest(cfg: Config, p: State, ls: seq<Label>, t: TestID)
    requires ValidRun(cfg, p, ls) && AllOwn(cfg, p, ls, t)
    ensures OfOneTest(History(cfg, p, ls), t)
    decreases |ls|
  {
    if ls != [] {
      OwnTouches(cfg, p, ls[0], t);
      HistoryOfOneTest(cfg, Apply(cfg, p, ls[0]), ls[1..], t);
    }
  }

  lemma CrowdedHosts(cfg: Config, now: int, s: State, ls: seq<Label>, n: nat, u: TestID, t: TestID)
    requires Crowded(cfg, s, NewNumber(ls), n, u) && s.clock == now && t != u
    requires ValidRun(cfg, Initial(now), ls) && AllOwn(cfg, Initial(now), ls, t)
    ensures Replayable(cfg, s, Initial(now), ls, t, NewNumber(ls))
  {
    InitialInv(cfg, now);
  }

  /** The steps of a test also make a run after another test has posted n records, and there its records come out
      as behind n rows. */
  lemma RunBehind(cfg: Config, now: int, ls: seq<Label>, n: nat, u: TestID, t: TestID) returns (a: seq<Label>)
    requires ValidConfig(cfg) && PlainHost(cfg.domain) && t != u
    requires ValidRun(cfg, Initial(now), ls) && AllOwn(cfg, Initial(now), ls, t)
    ensures ExactRun(cfg, Initial(now), a) && Unnumbered(Purge(cfg, Initial(now), a, t)) == Unnumbered(ls)
    ensures RecordsOf(cfg, now, a, t) == Grown(n, [], History(cfg, Initial(now), ls))
  {
    var base, h := NewNumber(ls), History(cfg, Initial(now), ls);
    var ms := CrowdRun(cfg, now, base, n, u, t);
    var s := Run(cfg, Initial(now), ms);
    var rest := Replay(cfg, s, ls);
    CrowdedHosts(cfg, now, s, ls, n, u, t);
    ReplayIsRun(cfg, s, Initial(now), ls, t, base);
    ReplayUnnumbered(cfg, s, ls);
    assert CrowdRows(n, u) + [] == CrowdRows(n, u);
    ReplayRecords(cfg, s, Initial(now), ls, t, base, n, u, []);
    a := ms + rest;
    ExactConcat(cfg, Initial(now), ms, rest);
    RunConcat(cfg, Initial(now), ms, rest);
    PurgeConcat(cfg, Initial(now), ms, rest, t);
    assert [] + rest == rest;
    HistoryOfOneTest(cfg, Initial(now), ls, t);
    GrownTests(n, [], h, t);
    OfTestBehind(CrowdRows(n, u), Grown(n, [], h), t);
  }

  // Exactly when

  /** A run over SQLite with the same steps of the test. */
  ghost predicate Follows(cfg: Config, now: int, a: seq<Label>, r: seq<Label>, t: TestID) {
    ExactRun(cfg, Initial(now), a) && SameSteps(cfg, now, a, r, t)
  }

  /** Whatever other tests do, the steps that the test takes in r end with the same records, up to an
      order-preserving renumbering. */
  ghost predicate DecidesRecords(cfg: Config, now: int, r: seq<Label>, t: TestID) {
    forall a, b :: Follows(cfg, now, a, r, t) && Follows(cfg, now, b, r, t) ==>
      Renumbered(RecordsOf(cfg, now, a, t), RecordsOf(cfg, now, b, t))
  }

  /** Two tables of which each is an order-preserving renumbering of a third are so of each other. */
  lemma RenumberedThrough<T>(a: Table<T>, b: Table<T>, c: Table<T>)
    requires Renumbered(a, c) && Renumbered(b, c)
    ensures Renumbered(a, b)
  {
    forall i, j | 0 <= i < |a| && 0 <= j < |a| ensures a[i].id < a[j].id <==> b[i].id < b[j].id {
      assert c[i].id < c[j].id <==> a[i].id < a[j].id;
      assert c[i].id < c[j].id <==> b[i].id < b[j].id;
    }
  }

  lemma KeptDecides(cfg: Config, now: int, r: seq<Label>, t: TestID)
    requires ValidRun(cfg, Initial(now), r) && RecordsKept(OwnHistory(cfg, now, r, t))
    ensures DecidesRecords(cfg, now, r, t)
  {
    forall a, b | Follows(cfg, now, a, r, t) && Follows(cfg, now, b, r, t)
      ensures Renumbered(RecordsOf(cfg, now, a, t), RecordsOf(cfg, now, b, t))
    {
      ExactIsValid(cfg, Initial(now), a);
      ExactIsValid(cfg, Initial(now), b);
      SameStepsSameRecords(cfg, now, a, r, t);
      SameStepsSameRecords(cfg, now, b, r, t);
      RenumberedThrough(RecordsOf(cfg, now, a, t), RecordsOf(cfg, now, b, t), RecordsOf(cfg, now, r, t));
    }
  }

  lemma OwnIsOwn(cfg: Config, now: int, r: seq<Label>, t: TestID)
    requires ValidRun(cfg, Initial(now), r)
    ensures ValidRun(cfg, Initial(now), Purge(cfg, Initial(now), r, t))
    ensures AllOwn(cfg, Initial(now), Purge(cfg, Initial(now), r, t), t)
    ensures OfOneTest(OwnHistory(cfg, now, r, t), t)
  {
    OwnRunsPaired(cfg, now, r, r, t);
    HistoryOfOneTest(cfg, Initial(now), Purge(cfg, Initial(now), r, t), t);
  }

  /** The same steps as in r, after another test has posted n records. */
  lemma FollowsBehind(cfg: Config, now: int, r: seq<Label>, n: nat, u: TestID, t: TestID) returns (a: seq<Label>)
    requires ValidConfig(cfg) && PlainHost(cfg.domain) && ValidRun(cfg, Initial(now), r) && t != u
    ensures Follows(cfg, now, a, r, t) && RecordsOf(cfg, now, a, t) == Grown(n, [], OwnHistory(cfg, now, r, t))
  {
    OwnIsOwn(cfg, now, r, t);
    a := RunBehind(cfg, now, Purge(cfg, Initial(now), r, t), n, u, t);
  }

  /** Behind some number of rows all removals miss, and behind another one hits. */
  lemma MissAndHit(h: seq<Statement>, t: TestID)
    requires OfOneTest(h, t) && !RecordsKept(h)
    ensures FirstHarm(h, false).Some? && FirstHarm(h, false).value > 0
    ensures |Grown(FirstHarm(h, false).value - 1, [], h)| < |Grown(LargestNamed(h), [], h)|
  {
    HarmExactly(h, false);
    AllMiss(LargestNamed(h), [], h);
    RemovalHits(FirstHarm(h, false).value - 1, h, t);
  }

  lemma OwnMissAndHit(cfg: Config, now: int, r: seq<Label>, t: TestID) returns (miss: nat, hit: nat)
    requires ValidRun(cfg, Initial(now), r) && !RecordsKept(OwnHistory(cfg, now, r, t))
    ensures |Grown(hit, [], OwnHistory(cfg, now, r, t))| < |Grown(miss, [], OwnHistory(cfg, now, r, t))|
  {
    var h := OwnHistory(cfg, now, r, t);
    OwnIsOwn(cfg, now, r, t);
    MissAndHit(h, t);
    miss, hit := LargestNamed(h), FirstHarm(h, false).value - 1;
  }

  /** If a removal follows an insertion, there are a run in which it misses and one in which it hits. */
  lemma HarmDecidesNot(cfg: Config, now: int, r: seq<Label>, t: TestID, u: TestID)
    returns (a: seq<Label>, b: seq<Label>)
    requires ValidConfig(cfg) && PlainHost(cfg.domain) && ValidRun(cfg, Initial(now), r) && t != u
    requires !RecordsKept(OwnHistory(cfg, now, r, t))
    ensures Follows(cfg, now, a, r, t) && Follows(cfg, now, b, r, t)
    ensures |RecordsOf(cfg, now, b, t)| < |RecordsOf(cfg, now, a, t)|
  {
    var miss, hit := OwnMissAndHit(cfg, now, r, t);
    a := FollowsBehind(cfg, now, r, miss, u, t);
    b := FollowsBehind(cfg, now, r, hit, u, t);
  }

  function AnotherTest(t: TestID): (u: TestID)
    ensures u != t
  {
    if t[0] == 0 then seq(TEST_ID_LENGTH, _ => 1) else seq(TEST_ID_LENGTH, _ => 0)
  }

  /** Over SQLite the steps of a test decide its records, up to an order-preserving renumbering and whatever other
      tests do, if and only if they carry out no removal of a positive row id after an insertion. */
  lemma DecidesRecordsExactly(cfg: Config, now: int, r: seq<Label>, t: TestID)
    requires ValidConfig(cfg) && PlainHost(cfg.domain) && ValidRun(cfg, Initial(now), r)
    ensures DecidesRecords(cfg, now, r, t) <==> RecordsKept(OwnHistory(cfg, now, r, t))
  {
    if RecordsKept(OwnHistory(cfg, now, r, t)) {
      KeptDecides(cfg, now, r, t);
    } else {
      var a, b := HarmDecidesNot(cfg, now, r, t, AnotherTest(t));
      assert !Renumbered(RecordsOf(cfg, now, a, t), RecordsOf(cfg, now, b, t));
    }
  }

  // The condition on the forms of a test

  predicate RemovesById(cfg: Config, post: Submission) {
    match DecodeAction(cfg, post.form)
    case RemoveRecord(Some(id)) => id > 0
    case _ => false
  }

  /** No form that removes a record by a positive row id follows a form that adds one. */
  predicate FormsKept(cfg: Config, posts: seq<Submission>) {
    forall i, j :: 0 <= i < j < |posts| && DecodeAction(cfg, posts[i].form).AddRecord? ==>
      !RemovesById(cfg, posts[j])
  }

  predicate SomeRemoval(h: seq<Statement>) {
    exists j :: 0 <= j < |h| && h[j].DeleteRecord? && h[j].id > 0
  }

  lemma HistoryCons(cfg: Config, s: State, l: Label, rest: seq<Label>, next: State)
    requires Apply(cfg, s, l) == next
    ensures History(cfg, s, [l] + rest) == [StatementOf(cfg, s, l)] + History(cfg, next, rest)
  {
    assert ([l] + rest)[1..] == rest;
  }

  lemma PostStatements(cfg: Config, s: State, post: Submission)
    requires Running(s.db, post.test) && EditsRecords(cfg, post.form)
    ensures StatementOf(cfg, s, HttpArrive(post.h, PageRequest(cfg, post))) == Nothing
    ensures StatementOf(cfg, AtPhase(cfg, s, post, PageArrived), Advance(post.h, true, 0)) == Nothing
    ensures StatementOf(cfg, AtPhase(cfg, s, post, PageChecked(DecodeAction(cfg, post.form))),
                        Advance(post.h, true, IdFor(s.db, Decided(cfg, post)))) == PostStatement(cfg, s.db, post)
  {
    ArrivedStep(cfg, s.db, post);
    DecidedStep(cfg, s.db, post);
  }

  lemma ThreeInFront(a: Label, b: Label, c: Label, rest: seq<Label>)
    ensures [a, b, c] + rest == [a] + ([b] + ([c] + rest))
  {
  }

  lemma ThreeStatements(
    cfg: Config, s: State, a: Label, s1: State, b: Label, s2: State, c: Label, s3: State, rest: seq<Label>)
    requires Apply(cfg, s, a) == s1 && Apply(cfg, s1, b) == s2 && Apply(cfg, s2, c) == s3
    ensures History(cfg, s, [a, b, c] + rest)
         == [StatementOf(cfg, s, a)]
            + ([StatementOf(cfg, s1, b)] + ([StatementOf(cfg, s2, c)] + History(cfg, s3, rest)))
  {
    HistoryCons(cfg, s2, c, rest, s3);
    HistoryCons(cfg, s1, b, [c] + rest, s2);
    HistoryCons(cfg, s, a, [b] + ([c] + rest), s1);
    ThreeInFront(a, b, c, rest);
  }

  lemma PostHistory(cfg: Config, s: State, post: Submission, rest: seq<Label>)
    requires ValidConfig(cfg) && PlainHost(cfg.domain) && Inv(cfg, s) && post.h !in s.handlers
    requires Running(s.db, post.test) && EditsRecords(cfg, post.form)
    ensures History(cfg, s, Post(cfg, s.db, post) + rest)
         == [Nothing] + ([Nothing] + ([PostStatement(cfg, s.db, post)] + History(cfg, Posted(cfg, s, post), rest)))
  {
    var s1 := AtPhase(cfg, s, post, PageArrived);
    var s2 := AtPhase(cfg, s, post, PageChecked(DecodeAction(cfg, post.form)));
    var a, b := HttpArrive(post.h, PageRequest(cfg, post)), Advance(post.h, true, 0);
    var c := Advance(post.h, true, IdFor(s.db, Decided(cfg, post)));
    ArriveOnce(cfg, s, post);
    CheckOnce(cfg, s, post);
    CarryOutOnce(cfg, s, post);
    PostStatements(cfg, s, post);
    ThreeStatements(cfg, s, a, s1, b, s2, c, Posted(cfg, s, post), rest);
  }

  lemma RemovalCons(x: Statement, rest: seq<Statement>)
    ensures SomeRemoval([x] + rest) <==> (x.DeleteRecord? && x.id > 0) || SomeRemoval(rest)
    ensures RecordsKept([x] + rest) <==> RecordsKept(rest) && (x.InsertRecord? ==> !SomeRemoval(rest))
  {
    var h := [x] + rest;
    KeptCons(x, rest);
    assert h[0] == x && forall j :: 0 <= j < |rest| ==> h[j + 1] == rest[j];
    if SomeRemoval(rest) {
      var j :| 0 <= j < |rest| && rest[j].DeleteRecord? && rest[j].id > 0;
      assert h[j + 1] == rest[j];
    }
    if SomeRemoval(h) {
      var j :| 0 <= j < |h| && h[j].DeleteRecord? && h[j].id > 0;
      assert j > 0 ==> rest[j - 1] == h[j];
    }
  }

  predicate SomeRemoves(cfg: Config, posts: seq<Submission>) {
    exists j :: 0 <= j < |posts| && RemovesById(cfg, posts[j])
  }

  lemma RemovesCons(cfg: Config, post: Submission, rest: seq<Submission>)
    ensures SomeRemoves(cfg, [post] + rest) <==> RemovesById(cfg, post) || SomeRemoves(cfg, rest)
  {
    var all := [post] + rest;
    assert all[0] == post && forall j :: 0 <= j < |rest| ==> all[j + 1] == rest[j];
    if SomeRemoves(cfg, rest) {
      var j :| 0 <= j < |rest| && RemovesById(cfg, rest[j]);
      assert RemovesById(cfg, all[j + 1]);
    }
  }

  lemma FormsCons(cfg: Config, post: Submission, rest: seq<Submission>)
    ensures FormsKept(cfg, [post] + rest)
       <==> FormsKept(cfg, rest) && (DecodeAction(cfg, post.form).AddRecord? ==> !SomeRemoves(cfg, rest))
  {
    var all := [post] + rest;
    assert all[0] == post && forall j :: 0 <= j < |rest| ==> all[j + 1] == rest[j];
    if FormsKept(cfg, all) {
      forall i, j | 0 <= i < j < |rest| && DecodeAction(cfg, rest[i].form).AddRecord?
        ensures !RemovesById(cfg, rest[j])
      {
        assert all[i + 1] == rest[i] && all[j + 1] == rest[j];
      }
    }
  }

  lemma PostedConditions(cfg: Config, db: Tables, post: Submission, rest: seq<Statement>)
    requires EditsRecords(cfg, post.form)
    ensures var h := [Nothing] + ([Nothing] + ([PostStatement(cfg, db, post)] + rest));
            && (SomeRemoval(h) <==> RemovesById(cfg, post) || SomeRemoval(rest))
            && (RecordsKept(h) <==>
                  RecordsKept(rest) && (DecodeAction(cfg, post.form).AddRecord? ==> !SomeRemoval(rest)))
  {
    var x := PostStatement(cfg, db, post);
    RemovalCons(x, rest);
    RemovalCons(Nothing, [x] + rest);
    RemovalCons(Nothing, [Nothing] + ([x] + rest));
  }

  lemma HistoryOfFirst(cfg: Config, s: State, posts: seq<Submission>)
    requires posts != []
    requires ValidConfig(cfg) && PlainHost(cfg.domain) && Inv(cfg, s) && posts[0].h !in s.handlers
    requires Running(s.db, posts[0].test) && EditsRecords(cfg, posts[0].form)
    ensures var next := Posted(cfg, s, posts[0]);
            var rest := History(cfg, next, PostAll(cfg, next, posts[1..]));
            History(cfg, s, PostAll(cfg, s, posts))
            == [Nothing] + ([Nothing] + ([PostStatement(cfg, s.db, posts[0])] + rest))
  {
    var next := Posted(cfg, s, posts[0]);
    PostHistory(cfg, s, posts[0], PostAll(cfg, next, posts[1..]));
  }

  /** The statements and the forms meet the condition alike. */
  predicate Matching(cfg: Config, h: seq<Statement>, posts: seq<Submission>) {
    (RecordsKept(h) <==> FormsKept(cfg, posts)) && (SomeRemoval(h) <==> SomeRemoves(cfg, posts))
  }

  lemma MatchingCons(
    cfg: Config, db: Tables, post: Submission, h: seq<Statement>, rest: seq<Submission>,
    all: seq<Statement>, posts: seq<Submission>)
    requires EditsRecords(cfg, post.form) && Matching(cfg, h, rest)
    requires all == [Nothing] + ([Nothing] + ([PostStatement(cfg, db, post)] + h)) && posts == [post] + rest
    ensures Matching(cfg, all, posts)
  {
    PostedConditions(cfg, db, post, h);
    RemovesCons(cfg, post, rest);
    FormsCons(cfg, post, rest);
  }

  lemma PostKeepsInv(cfg: Config, s: State, post: Submission)
    requires ValidConfig(cfg) && PlainHost(cfg.domain) && Inv(cfg, s) && post.h !in s.handlers
    requires Running(s.db, post.test) && EditsRecords(cfg, post.form)
    ensures Inv(cfg, Posted(cfg, s, post))
  {
    PostIsRun(cfg, s, post);
  }

  lemma FirstAndRest<T>(list: seq<T>)
    requires list != []
    ensures list == [list[0]] + list[1..]
  {
  }

  lemma MatchingFirst(
    cfg: Config, s: State, posts: seq<Submission>, next: State, h: seq<Statement>, all: seq<Statement>)
    requires posts != [] && next == Posted(cfg, s, posts[0])
    requires ValidConfig(cfg) && PlainHost(cfg.domain) && Inv(cfg, s) && posts[0].h !in s.handlers
    requires Running(s.db, posts[0].test) && EditsRecords(cfg, posts[0].form)
    requires h == History(cfg, next, PostAll(cfg, next, posts[1..])) && Matching(cfg, h, posts[1..])
    requires all == History(cfg, s, PostAll(cfg, s, posts))
    ensures Matching(cfg, all, posts)
  {
    HistoryOfFirst(cfg, s, posts);
    FirstAndRest(posts);
    MatchingCons(cfg, s.db, posts[0], h, posts[1..], all, posts);
  }

  lemma {:induction false} HistoryOfPosts(cfg: Config, s: State, posts: seq<Submission>)
    requires ValidConfig(cfg) && PlainHost(cfg.domain) && Inv(cfg, s) && Submittable(cfg, s, posts)
    ensures Matching(cfg, History(cfg, s, PostAll(cfg, s, posts)), posts)
    decreases |posts|
  {
    if posts != [] {
      var next := Posted(cfg, s, posts[0]);
      PostKeepsInv(cfg, s, posts[0]);
      SubmittableAfter(cfg, s, posts);
      HistoryOfPosts(cfg, next, posts[1..]);
      MatchingFirst(cfg, s, posts, next, History(cfg, next, PostAll(cfg, next, posts[1..])),
                    History(cfg, s, PostAll(cfg, s, posts)));
    }
  }

  lemma {:induction false} OwnPostsStay(cfg: Config, s: State, posts: seq<Submission>, t: TestID)
    requires ValidConfig(cfg) && PlainHost(cfg.domain) && Inv(cfg, s) && Submittable(cfg, s, posts)
    requires forall i :: 0 <= i < |posts| ==> posts[i].test == t
    ensures Purge(cfg, s, PostAll(cfg, s, posts), t) == PostAll(cfg, s, posts)
    decreases |posts|
  {
    if posts != [] {
      var first, next := Post(cfg, s.db, posts[0]), Posted(cfg, s, posts[0]);
      PostIsRun(cfg, s, posts[0]);
      SubmittableAfter(cfg, s, posts);
      OwnPostsStay(cfg, next, posts[1..], t);
      PurgeConcat(cfg, s, first, PostAll(cfg, next, posts[1..]), t);
      PurgePost(cfg, s, posts[0], t);
    }
  }

  /** The test is started and these forms are posted from its page, one after the other. */
  function StartAndPost(cfg: Config, now: int, t: TestID, posts: seq<Submission>): seq<Label> {
    [StartTest(t, true)] + PostAll(cfg, Started(now, {t}), posts)
  }

  lemma OwnHistoryOfPosts(cfg: Config, now: int, t: TestID, posts: seq<Submission>)
    requires ValidConfig(cfg) && PlainHost(cfg.domain)
    requires Inv(cfg, Started(now, {t})) && Submittable(cfg, Started(now, {t}), posts)
    requires forall i :: 0 <= i < |posts| ==> posts[i].test == t
    ensures OwnHistory(cfg, now, StartAndPost(cfg, now, t, posts), t)
         == [InsertTest(t)] + History(cfg, Started(now, {t}), PostAll(cfg, Started(now, {t}), posts))
  {
    var s, l := Started(now, {t}), StartTest(t, true);
    OwnPostsStay(cfg, s, posts, t);
    NoneStarted(now);
    StartOne(cfg, now, {}, t);
    assert {} + {t} == {t};
    PurgeCons(cfg, Initial(now), l, PostAll(cfg, s, posts), s, t);
    HistoryCons(cfg, Initial(now), l, PostAll(cfg, s, posts), s);
  }

  /** What can be said before posting: whatever other tests do, forms that edit the records of a test lead to the same
      records, up to an order-preserving renumbering, if and only if none that removes a record by a positive row id
      follows one that adds a record. */
  lemma FormsDecideRecords(cfg: Config, now: int, t: TestID, posts: seq<Submission>)
    requires ValidConfig(cfg) && PlainHost(cfg.domain)
    requires forall i :: 0 <= i < |posts| ==> posts[i].test == t && EditsRecords(cfg, posts[i].form)
    requires forall i, j :: 0 <= i < j < |posts| ==> posts[i].h != posts[j].h
    ensures ExactRun(cfg, Initial(now), StartAndPost(cfg, now, t, posts))
    ensures DecidesRecords(cfg, now, StartAndPost(cfg, now, t, posts), t) <==> FormsKept(cfg, posts)
  {
    var s, r := Started(now, {t}), StartAndPost(cfg, now, t, posts);
    StartedIsReady(cfg, now, {t}, t);
    PostAllIsRun(cfg, s, posts);
    AfterStart(cfg, now, t, posts);
    ExactIsValid(cfg, Initial(now), r);
    OwnHistoryOfPosts(cfg, now, t, posts);
    HistoryOfPosts(cfg, s, posts);
    RemovalCons(InsertTest(t), History(cfg, s, PostAll(cfg, s, posts)));
    DecidesRecordsExactly(cfg, now, r, t);
  }
}
