/** The database as the servers use it: mutable tables, and one method per SQL statement. */
module Store {
  import opened Options
  import opened TestIds
  import opened Records
  import opened Tables

  class Database {
    /** What CURRENT_TIMESTAMP reads. */
    var now: int

    var tests: map<TestID, TestRow>
    var dnsRecords: Table<PublishedRecord>
    var httpFiles: Table<PublishedFile>
    var dnsRequests: Table<DnsEntry>
    var httpRequests: Table<HttpEntry>
    var smtpRequests: Table<Envelope>

    function Contents(): Tables
      reads this
    {
      Tables(tests, dnsRecords, httpFiles, dnsRequests, httpRequests, smtpRequests)
    }

    constructor (now: int)
      ensures this.now == now && Contents() == EMPTY_TABLES
    {
      this.now := now;
      tests, dnsRecords, httpFiles := map[], [], [];
      dnsRequests, httpRequests, smtpRequests := [], [], [];
    }

    /** isRunningTest: no row, or a stop time, means no. */
    method IsRunningTest(t: TestID) returns (running: bool)
      ensures running == Running(Contents(), t)
    {
      if t !in tests {
        return false;
      }
      var stoppedAt := tests[t].stoppedAt;
      running := stoppedAt.None?;
    }

    method InsertTest(t: TestID) returns (inserted: bool)
      modifies this`tests
      ensures Contents() == Execute(old(Contents()), now, Statement.InsertTest(t))
      ensures inserted == (t !in old(tests))
    {
      inserted := t !in tests;
      if inserted {
        tests := tests[t := TestRow(now, None)];
      }
    }

    method StopTest(t: TestID)
      modifies this`tests
      ensures Contents() == Execute(old(Contents()), now, Statement.StopTest(t))
    {
      if t in tests && tests[t].stoppedAt.None? {
        tests := tests[t := tests[t].(stoppedAt := Some(now))];
      }
      assert tests == Execute(old(Contents()), now, Statement.StopTest(t)).tests;
    }

    /** The UPDATE of cleanupTests, row by row. */
    method StopTestsStartedBefore(cutoff: int)
      modifies this`tests
      ensures tests == StoppedBefore(old(tests), now, cutoff)
    {
      var todo := tests.Keys;
      while todo != {}
        invariant todo <= tests.Keys == old(tests).Keys
        invariant forall t :: t in todo ==> tests[t] == old(tests)[t]
        invariant forall t :: t in tests && t !in todo ==>
                    tests[t] == if old(tests)[t].startedAt < cutoff then Stopped(old(tests)[t], now) else old(tests)[t]
        invariant now == old(now)
        decreases todo
      {
        var t :| t in todo;
        if tests[t].stoppedAt.None? && tests[t].startedAt < cutoff {
          tests := tests[t := tests[t].(stoppedAt := Some(now))];
        }
        todo := todo - {t};
      }
      assert tests == StoppedBefore(old(tests), now, cutoff);
    }

    method InsertDNSRecord(t: TestID, record: PublishedRecord) returns (inserted: bool)
      modifies this`dnsRecords
      ensures Contents() == Execute(old(Contents()), now, InsertRecord(NextId(old(dnsRecords)), t, record))
      ensures inserted == (t in tests)
    {
      inserted := t in tests;
      if inserted {
        dnsRecords := dnsRecords + [Row(NextId(dnsRecords), t, record)];
      }
    }

    method DeleteDNSRecord(t: TestID, id: nat)
      modifies this`dnsRecords
      ensures Contents() == Execute(old(Contents()), now, DeleteRecord(t, id))
    {
      dnsRecords := Without(dnsRecords, t, id);
    }

    /** INSERT ... ON CONFLICT DO NOTHING: a row is affected only if the test exists and the key is free. */
    method InsertHTTPFile(t: TestID, file: PublishedFile) returns (permitted: bool, affected: bool)
      modifies this`httpFiles
      ensures Contents() == Execute(old(Contents()), now, InsertFile(NextId(old(httpFiles)), t, file))
      ensures permitted == (t in tests)
      ensures affected == (t in tests && !HasFile(old(httpFiles), t, file))
    {
      permitted := t in tests;
      affected := permitted && !HasFile(httpFiles, t, file);
      if affected {
        httpFiles := httpFiles + [Row(NextId(httpFiles), t, file)];
      }
    }

    method DeleteHTTPFile(t: TestID, id: nat)
      modifies this`httpFiles
      ensures Contents() == Execute(old(Contents()), now, DeleteFile(t, id))
    {
      httpFiles := Without(httpFiles, t, id);
    }

    method InsertDNSRequest(t: TestID, entry: DnsEntry)
      modifies this`dnsRequests
      ensures Contents() == Execute(old(Contents()), now, LogDns(NextId(old(dnsRequests)), t, entry))
    {
      if t in tests {
        dnsRequests := dnsRequests + [Row(NextId(dnsRequests), t, entry)];
      }
    }

    method InsertHTTPRequest(t: TestID, entry: HttpEntry) returns (inserted: bool)
      modifies this`httpRequests
      ensures Contents() == Execute(old(Contents()), now, LogHttp(NextId(old(httpRequests)), t, entry))
      ensures inserted == (t in tests)
    {
      inserted := t in tests;
      if inserted {
        httpRequests := httpRequests + [Row(NextId(httpRequests), t, entry)];
      }
    }

    method InsertSMTPRequest(t: TestID, envelope: Envelope)
      modifies this`smtpRequests
      ensures Contents() == Execute(old(Contents()), now, LogSmtp(NextId(old(smtpRequests)), t, envelope))
    {
      if t in tests {
        smtpRequests := smtpRequests + [Row(NextId(smtpRequests), t, envelope)];
      }
    }
  }
}
