/** The SQL schema: the tables of the database, and the statements that change them. */
module Tables {
  import opened Options
  import opened TestIds
  import opened Records

  datatype TestRow = TestRow(startedAt: int, stoppedAt: Option<int>)

  /** A row of a table whose rows belong to tests. Tables are kept in the order of their row ids. */
  datatype Row<T> = Row(id: nat, test: TestID, value: T)

  type Table<T> = seq<Row<T>>

  datatype DnsEntry = DnsEntry(remote: string, fqdn: string, qtype: nat)

  datatype HttpEntry = HttpEntry(remote: string, host: string, tls: bool, httpMethod: string, url: string)

  /** What one SMTP message leaves in the log of each test it reaches. */
  datatype Envelope = Envelope(
    remote: string, helo: string, mailFrom: string, rcptTo: seq<string>, data: string, starttls: bool)

  datatype Tables = Tables(
    tests: map<TestID, TestRow>,
    dnsRecords: Table<PublishedRecord>,
    httpFiles: Table<PublishedFile>,
    dnsRequests: Table<DnsEntry>,
    httpRequests: Table<HttpEntry>,
    smtpRequests: Table<Envelope>)

  /** The statements that write. Reads and failed statements count as Nothing. */
  datatype Statement =
    | Nothing
    | InsertTest(test: TestID)
    | StopTest(test: TestID)
    | StopOldTests
    | InsertRecord(id: nat, test: TestID, record: PublishedRecord)
    | DeleteRecord(test: TestID, id: nat)
    | InsertFile(id: nat, test: TestID, file: PublishedFile)
    | DeleteFile(test: TestID, id: nat)
    | LogDns(id: nat, test: TestID, dns: DnsEntry)
    | LogHttp(id: nat, test: TestID, http: HttpEntry)
    | LogSmtp(id: nat, test: TestID, smtp: Envelope)

  const HOUR := 3600
  const MAX_AGE := 6 * HOUR

  const EMPTY_TABLES := Tables(map[], [], [], [], [], [])

  // Tables

  predicate Fresh<T>(rows: Table<T>, id: nat) {
    0 < id && forall i :: 0 <= i < |rows| ==> rows[i].id < id
  }

  /** Row ids are positive and ascend. */
  predicate Ordered<T>(rows: Table<T>) {
    && (forall i :: 0 <= i < |rows| ==> 0 < rows[i].id)
    && forall i, j :: 0 <= i < j < |rows| ==> rows[i].id < rows[j].id
  }

  /** The id SQLite gives to the next row of an ordered table. */
  function NextId<T>(rows: Table<T>): nat {
    if rows == [] then 1 else rows[|rows| - 1].id + 1
  }

  /** WHERE test_id = t */
  function OfTest<T>(rows: Table<T>, t: TestID): Table<T> {
    if rows == [] then []
    else
      var earlier, last := OfTest(rows[..|rows| - 1], t), rows[|rows| - 1];
      if last.test == t then earlier + [last] else earlier
  }

  /** DELETE ... WHERE test_id = t AND the row id = id */
  function Without<T>(rows: Table<T>, t: TestID, id: nat): Table<T> {
    if rows == [] then []
    else
      var earlier, last := Without(rows[..|rows| - 1], t, id), rows[|rows| - 1];
      if last.test == t && last.id == id then earlier else earlier + [last]
  }

  predicate SameKey(a: PublishedFile, b: PublishedFile) {
    a.scheme == b.scheme && a.subdomain == b.subdomain && a.path == b.path
  }

  /** SELECT content FROM http_file WHERE test_id, scheme, subdomain and path are those given. */
  function FindFile(
    rows: Table<PublishedFile>, t: TestID, scheme: string, subdomain: string, path: string): Option<string>
  {
    if rows == [] then None
    else
      var last := rows[|rows| - 1];
      if last.test == t && SameKey(last.value, PublishedFile(scheme, subdomain, path, "")) then Some(last.value.content)
      else FindFile(rows[..|rows| - 1], t, scheme, subdomain, path)
  }

  predicate HasFile(rows: Table<PublishedFile>, t: TestID, file: PublishedFile) {
    FindFile(rows, t, file.scheme, file.subdomain, file.path).Some?
  }

  // Statements

  predicate Running(db: Tables, t: TestID) {
    t in db.tests && db.tests[t].stoppedAt.None?
  }

  function Stopped(row: TestRow, now: int): TestRow {
    if row.stoppedAt.None? then row.(stoppedAt := Some(now)) else row
  }

  /** UPDATE test SET stopped_at = now WHERE stopped_at IS NULL AND started_at < cutoff */
  function StoppedBefore(tests: map<TestID, TestRow>, now: int, cutoff: int): map<TestID, TestRow> {
    map t | t in tests :: if tests[t].startedAt < cutoff then Stopped(tests[t], now) else tests[t]
  }

  /** Whether the database's constraints let the statement through: primary keys and foreign keys. */
  predicate Permitted(db: Tables, stmt: Statement) {
    match stmt
    case InsertTest(t) => t !in db.tests
    case InsertRecord(_, t, _) => t in db.tests
    case InsertFile(_, t, _) => t in db.tests
    case LogDns(_, t, _) => t in db.tests
    case LogHttp(_, t, _) => t in db.tests
    case LogSmtp(_, t, _) => t in db.tests
    case _ => true
  }

  function Execute(db: Tables, now: int, stmt: Statement): Tables {
    if !Permitted(db, stmt) then db
    else
      match stmt
      case Nothing => db
      case InsertTest(t) => db.(tests := db.tests[t := TestRow(now, None)])
      case StopTest(t) => if t in db.tests then db.(tests := db.tests[t := Stopped(db.tests[t], now)]) else db
      case StopOldTests => db.(tests := StoppedBefore(db.tests, now, now - MAX_AGE))
      case InsertRecord(id, t, record) => db.(dnsRecords := db.dnsRecords + [Row(id, t, record)])
      case DeleteRecord(t, id) => db.(dnsRecords := Without(db.dnsRecords, t, id))
      case InsertFile(id, t, file) =>
        if HasFile(db.httpFiles, t, file) then db else db.(httpFiles := db.httpFiles + [Row(id, t, file)])
      case DeleteFile(t, id) => db.(httpFiles := Without(db.httpFiles, t, id))
      case LogDns(id, t, e) => db.(dnsRequests := db.dnsRequests + [Row(id, t, e)])
      case LogHttp(id, t, e) => db.(httpRequests := db.httpRequests + [Row(id, t, e)])
      case LogSmtp(id, t, e) => db.(smtpRequests := db.smtpRequests + [Row(id, t, e)])
  }

  /** Whether the row id the statement uses, if it inserts, is positive and exceeds every id present in its table.
      The id of a deleted last row may be used again. */
  predicate FreshFor(db: Tables, stmt: Statement) {
    match stmt
    case InsertRecord(id, _, _) => Fresh(db.dnsRecords, id)
    case InsertFile(id, _, _) => Fresh(db.httpFiles, id)
    case LogDns(id, _, _) => Fresh(db.dnsRequests, id)
    case LogHttp(id, _, _) => Fresh(db.httpRequests, id)
    case LogSmtp(id, _, _) => Fresh(db.smtpRequests, id)
    case _ => true
  }

  // Facts about tables

  lemma NextIdIsFresh<T>(rows: Table<T>)
    requires Ordered(rows)
    ensures Fresh(rows, NextId(rows))
  {
  }

  lemma {:induction false} WithoutMember<T>(rows: Table<T>, t: TestID, id: nat, r: Row<T>)
    ensures r in Without(rows, t, id) <==> r in rows && !(r.test == t && r.id == id)
  {
    if rows != [] {
      WithoutMember(rows[..|rows| - 1], t, id, r);
      assert rows == rows[..|rows| - 1] + [rows[|rows| - 1]];
    }
  }

  lemma {:induction false} OfTestMember<T>(rows: Table<T>, t: TestID, r: Row<T>)
    ensures r in OfTest(rows, t) <==> r in rows && r.test == t
  {
    if rows != [] {
      OfTestMember(rows[..|rows| - 1], t, r);
      assert rows == rows[..|rows| - 1] + [rows[|rows| - 1]];
    }
  }

  /** Appending under a fresh id and deleting keep the row ids ascending: ORDER BY the id is insertion order. */
  lemma AppendKeepsOrder<T>(rows: Table<T>, row: Row<T>)
    requires Ordered(rows) && Fresh(rows, row.id)
    ensures Ordered(rows + [row])
  {
  }

  lemma {:induction false} WithoutKeepsOrder<T>(rows: Table<T>, t: TestID, id: nat)
    requires Ordered(rows)
    ensures Ordered(Without(rows, t, id))
  {
    if rows != [] {
      var front, last := rows[..|rows| - 1], rows[|rows| - 1];
      WithoutKeepsOrder(front, t, id);
      var kept := Without(front, t, id);
      assert 0 < last.id;
      forall i | 0 <= i < |kept| ensures kept[i].id < last.id {
        WithoutMember(front, t, id, kept[i]);
        var j :| 0 <= j < |front| && front[j] == kept[i];
        assert rows[j].id < last.id;
      }
    }
  }

  lemma OfTestAppend<T>(rows: Table<T>, row: Row<T>, t: TestID)
    ensures OfTest(rows + [row], t) == if row.test == t then OfTest(rows, t) + [row] else OfTest(rows, t)
  {
    assert (rows + [row])[..|rows|] == rows;
  }

  lemma WithoutAppend<T>(rows: Table<T>, row: Row<T>, t: TestID, id: nat)
    ensures Without(rows + [row], t, id)
         == if row.test == t && row.id == id then Without(rows, t, id) else Without(rows, t, id) + [row]
  {
    assert (rows + [row])[..|rows|] == rows;
  }

  /** Deleting by test and id commutes with selecting a test, and does nothing to another test's rows. */
  lemma {:induction false} OfTestWithout<T>(rows: Table<T>, u: TestID, id: nat, t: TestID)
    ensures OfTest(Without(rows, u, id), t) == if u == t then Without(OfTest(rows, t), t, id) else OfTest(rows, t)
  {
    if rows != [] {
      var front, last := rows[..|rows| - 1], rows[|rows| - 1];
      OfTestWithout(front, u, id, t);
      var kept := Without(front, u, id);
      OfTestAppend(kept, last, t);
      WithoutAppend(OfTest(front, t), last, t, id);
    }
  }

  lemma FreshOfTest<T>(rows: Table<T>, t: TestID, id: nat)
    requires Fresh(rows, id)
    ensures Fresh(OfTest(rows, t), id)
  {
    var mine := OfTest(rows, t);
    forall i | 0 <= i < |mine| ensures mine[i].id < id {
      OfTestMember(rows, t, mine[i]);
      var j :| 0 <= j < |rows| && rows[j] == mine[i];
    }
  }

  lemma {:induction false} FindFileOfTest(
    rows: Table<PublishedFile>, t: TestID, scheme: string, subdomain: string, path: string)
    ensures FindFile(OfTest(rows, t), t, scheme, subdomain, path) == FindFile(rows, t, scheme, subdomain, path)
  {
    if rows != [] {
      var front, last := rows[..|rows| - 1], rows[|rows| - 1];
      FindFileOfTest(front, t, scheme, subdomain, path);
      assert last.test == t ==> OfTest(rows, t)[..|OfTest(rows, t)| - 1] == OfTest(front, t);
    }
  }

  /** A file is found exactly when a row has its key; the content found is one of such a row. */
  lemma {:induction false} FindFileMembers(
    rows: Table<PublishedFile>, t: TestID, scheme: string, subdomain: string, path: string)
    ensures var found := FindFile(rows, t, scheme, subdomain, path);
            && (found.Some? ==> exists r :: r in rows && r.test == t
                                            && r.value == PublishedFile(scheme, subdomain, path, found.value))
            && (found.None? ==> forall r :: r in rows ==>
                  !(r.test == t && SameKey(r.value, PublishedFile(scheme, subdomain, path, ""))))
  {
    if rows != [] {
      var front, last := rows[..|rows| - 1], rows[|rows| - 1];
      FindFileMembers(front, t, scheme, subdomain, path);
      assert rows == front + [last];
      if last.test == t && SameKey(last.value, PublishedFile(scheme, subdomain, path, "")) {
        assert last in rows && last.value == PublishedFile(scheme, subdomain, path, last.value.content);
      }
    }
  }
}
