/** The table of published files is a map from (test, scheme, subdomain, path) to content. */
module Files {
  import opened Options
  import opened TestIds
  import opened Records
  import opened Tables
  import opened Http
  import opened Machine
  import opened Invariants

  datatype FileKey = FileKey(test: TestID, scheme: string, subdomain: string, path: string)

  function KeyOf(row: Row<PublishedFile>): FileKey {
    FileKey(row.test, row.value.scheme, row.value.subdomain, row.value.path)
  }

  function FileMap(rows: Table<PublishedFile>): map<FileKey, string> {
    if rows == [] then map[]
    else
      var last := rows[|rows| - 1];
      FileMap(rows[..|rows| - 1])[KeyOf(last) := last.value.content]
  }

  /** The SELECT of serveTestHTTP is a lookup in the map. */
  lemma {:induction false} FindIsLookup(rows: Table<PublishedFile>, key: FileKey)
    ensures FindFile(rows, key.test, key.scheme, key.subdomain, key.path)
         == if key in FileMap(rows) then Some(FileMap(rows)[key]) else None
  {
    if rows != [] {
      FindIsLookup(rows[..|rows| - 1], key);
    }
  }

  lemma {:induction false} KeysOfRows(rows: Table<PublishedFile>, key: FileKey)
    ensures key in FileMap(rows) <==> exists i :: 0 <= i < |rows| && KeyOf(rows[i]) == key
  {
    if rows != [] {
      var front, last := rows[..|rows| - 1], rows[|rows| - 1];
      KeysOfRows(front, key);
      assert rows == front + [last];
      if key in FileMap(front) {
        var i :| 0 <= i < |front| && KeyOf(front[i]) == key;
        assert KeyOf(rows[i]) == key;
      }
      if key == KeyOf(last) {
        assert KeyOf(rows[|rows| - 1]) == key;
      }
    }
  }

  /** The keys of the rows that a removal by test and id deletes: at most one. */
  ghost function RemovedKeys(rows: Table<PublishedFile>, t: TestID, id: nat): set<FileKey> {
    set i | 0 <= i < |rows| && rows[i].test == t && rows[i].id == id :: KeyOf(rows[i])
  }

  lemma NewestKeyIsNew(front: Table<PublishedFile>, last: Row<PublishedFile>)
    requires GoodFiles(front + [last])
    ensures GoodFiles(front) && KeyOf(last) !in FileMap(front)
  {
    var rows := front + [last];
    assert forall i :: 0 <= i < |front| ==> front[i] == rows[i];
    assert rows[|front|] == last;
    KeysOfRows(front, KeyOf(last));
  }

  lemma RemovedKeysArePresent(rows: Table<PublishedFile>, t: TestID, id: nat)
    ensures RemovedKeys(rows, t, id) <= FileMap(rows).Keys
  {
    forall key | key in RemovedKeys(rows, t, id) ensures key in FileMap(rows) {
      KeysOfRows(rows, key);
    }
  }

  lemma FileMapAppend(rows: Table<PublishedFile>, row: Row<PublishedFile>)
    ensures FileMap(rows + [row]) == FileMap(rows)[KeyOf(row) := row.value.content]
  {
    assert (rows + [row])[..|rows|] == rows;
  }

  lemma MapMinus(files: map<FileKey, string>, removed: set<FileKey>, key: FileKey, content: string)
    requires key !in files && removed <= files.Keys
    ensures files[key := content] - (removed + {key}) == files - removed
    ensures files[key := content] - removed == (files - removed)[key := content]
  {
  }

  lemma RemovedKeysAppend(rows: Table<PublishedFile>, row: Row<PublishedFile>, t: TestID, id: nat)
    ensures RemovedKeys(rows + [row], t, id)
         == if row.test == t && row.id == id then RemovedKeys(rows, t, id) + {KeyOf(row)} else RemovedKeys(rows, t, id)
  {
    var all := rows + [row];
    assert forall i :: 0 <= i < |rows| ==> all[i] == rows[i];
    assert all[|rows|] == row;
    forall key | key in RemovedKeys(rows, t, id) ensures key in RemovedKeys(all, t, id) {
      var i :| 0 <= i < |rows| && rows[i].test == t && rows[i].id == id && KeyOf(rows[i]) == key;
      assert all[i] == rows[i];
    }
  }

  lemma DeleteStep(front: Table<PublishedFile>, last: Row<PublishedFile>, t: TestID, id: nat)
    requires KeyOf(last) !in FileMap(front)
    requires FileMap(Without(front, t, id)) == FileMap(front) - RemovedKeys(front, t, id)
    ensures FileMap(Without(front + [last], t, id)) == FileMap(front + [last]) - RemovedKeys(front + [last], t, id)
  {
    var kept, removed := Without(front, t, id), RemovedKeys(front, t, id);
    RemovedKeysArePresent(front, t, id);
    MapMinus(FileMap(front), removed, KeyOf(last), last.value.content);
    FileMapAppend(front, last);
    FileMapAppend(kept, last);
    RemovedKeysAppend(front, last, t, id);
    WithoutAppend(front, last, t, id);
  }

  lemma {:induction false} DeleteFromMap(rows: Table<PublishedFile>, t: TestID, id: nat)
    requires GoodFiles(rows)
    ensures FileMap(Without(rows, t, id)) == FileMap(rows) - RemovedKeys(rows, t, id)
  {
    if rows != [] {
      var front, last := rows[..|rows| - 1], rows[|rows| - 1];
      assert rows == front + [last];
      NewestKeyIsNew(front, last);
      DeleteFromMap(front, t, id);
      DeleteStep(front, last, t, id);
    }
  }

  lemma RemovesAtMostOne(rows: Table<PublishedFile>, t: TestID, id: nat)
    requires Ordered(rows)
    ensures |RemovedKeys(rows, t, id)| <= 1
  {
    var keys := RemovedKeys(rows, t, id);
    if keys != {} {
      var i :| 0 <= i < |rows| && rows[i].test == t && rows[i].id == id;
      assert forall j :: 0 <= j < |rows| && rows[j].id == id ==> j == i;
      assert keys == {KeyOf(rows[i])};
    }
  }

  /** What each statement does to the map: an insert adds its file if the key is absent and does nothing
      otherwise, a removal deletes at most one key, and nothing else touches it. */
  lemma ExecuteOnMap(cfg: Config, db: Tables, now: int, stmt: Statement)
    requires TablesInv(cfg, db) && Permitted(db, stmt)
    ensures var files, after := FileMap(db.httpFiles), FileMap(Execute(db, now, stmt).httpFiles);
            match stmt
            case InsertFile(_, t, file) =>
              var key := FileKey(t, file.scheme, file.subdomain, file.path);
              after == if key in files then files else files[key := file.content]
            case DeleteFile(t, id) =>
              && after == files - RemovedKeys(db.httpFiles, t, id) && |RemovedKeys(db.httpFiles, t, id)| <= 1
            case _ => after == files
  {
    match stmt
    case InsertFile(id, t, file) =>
      FindIsLookup(db.httpFiles, FileKey(t, file.scheme, file.subdomain, file.path));
      assert (db.httpFiles + [Row(id, t, file)])[..|db.httpFiles|] == db.httpFiles;
    case DeleteFile(t, id) =>
      DeleteFromMap(db.httpFiles, t, id);
      RemovesAtMostOne(db.httpFiles, t, id);
    case _ =>
  }

  /** A published file is never overwritten: as long as its key stays present, its content is what was posted. */
  lemma ContentIsFixed(cfg: Config, s: State, l: Label, key: FileKey)
    requires Inv(cfg, s) && Enabled(cfg, s, l)
    requires key in FileMap(s.db.httpFiles) && key in FileMap(Apply(cfg, s, l).db.httpFiles)
    ensures FileMap(Apply(cfg, s, l).db.httpFiles)[key] == FileMap(s.db.httpFiles)[key]
  {
    if Permitted(s.db, StatementOf(cfg, s, l)) {
      ExecuteOnMap(cfg, s.db, s.clock, StatementOf(cfg, s, l));
    }
  }

  /** The value a GET ought to return: the file published for the transport it came over. */
  function ServedContent(rows: Table<PublishedFile>, target: Target, req: HttpRequest): string {
    var key := FileKey(target.id, if req.tls then "https" else "http", target.subdomain, req.path);
    if key in FileMap(rows) then FileMap(rows)[key] else ""
  }

  /** The handler holds the content, or has replied with it, or has failed to log the request. */
  predicate RepliesWith(s: State, h: nat, content: string) {
    && h in s.handlers && s.handlers[h].HttpHandler?
    && var phase := s.handlers[h].httpPhase;
       || phase == HttpRead(content)
       || phase == HttpDone(HttpReply(200, content))
       || phase == HttpDone(HttpReply(500, ""))
  }

  lemma {:induction false} ContentIsKept(cfg: Config, s: State, ls: seq<Label>, h: nat, content: string)
    requires RepliesWith(s, h, content) && ValidRun(cfg, s, ls)
    ensures RepliesWith(Run(cfg, s, ls), h, content)
    decreases |ls|
  {
    if ls != [] {
      ContentIsKept(cfg, Apply(cfg, s, ls[0]), ls[1..], h, content);
    }
  }

  /** The handler's next statement reads its file. */
  predicate ReadsFile(s: State, h: nat) {
    h in s.handlers && s.handlers[h].HttpHandler? && s.handlers[h].httpPhase.HttpChecked?
  }

  /** Under every interleaving, a GET whose read is the k-th step of a run is answered with the value that the map
      then held at its key, or the empty body, or else with an error. */
  lemma RepliesWithFile(cfg: Config, now: int, ls: seq<Label>, k: nat)
    requires ValidRun(cfg, Initial(now), ls) && k < |ls|
    requires ls[k].Advance? && ls[k].ok && ReadsFile(Run(cfg, Initial(now), ls[..k]), ls[k].h)
    ensures var s := Run(cfg, Initial(now), ls[..k]);
            var handler := s.handlers[ls[k].h];
            RepliesWith(Run(cfg, Initial(now), ls), ls[k].h,
                        ServedContent(s.db.httpFiles, handler.httpTarget, handler.httpReq))
  {
    var s := Run(cfg, Initial(now), ls[..k]);
    var handler := s.handlers[ls[k].h];
    var target, req := handler.httpTarget, handler.httpReq;
    RunPrefix(cfg, Initial(now), ls, k);
    RunFrom(cfg, Initial(now), ls, k);
    FindIsLookup(s.db.httpFiles, FileKey(target.id, RequestScheme(req), target.subdomain, req.path));
    ContentIsKept(cfg, Run(cfg, Initial(now), ls[..k + 1]), ls[k + 1..], ls[k].h,
                  ServedContent(s.db.httpFiles, target, req));
  }

  /** Whatever a test's host serves is short and stays under the validation paths. */
  lemma ServedBodiesAreBounded(cfg: Config, s: State, h: nat)
    requires Reachable(cfg, s)
    requires h in s.handlers && s.handlers[h].HttpHandler? && s.handlers[h].httpPhase.HttpDone?
    ensures BoundedBody(s.handlers[h].httpReq, s.handlers[h].httpPhase.reply.body)
  {
    ReachableInv(cfg, s);
    assert HandlerInv(cfg, s.db, s.handlers[h]);
  }
}
