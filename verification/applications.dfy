/**
 * `ApplicationController` (src/controllers/application.controller.ts): the
 * five handlers behind `/applications`. Each runs with `req.user` already
 * set by the authentication middleware and with the validated request
 * parts; it answers with a status and a JSON body. The handlers that write
 * run in one transaction, and an error anywhere is caught, turned into a
 * ROLLBACK and answered by `Caught`.
 */
module Applications {
  import opened Wrappers
  import opened Domain
  import opened Errors
  import opened Failures
  import opened Store
  import opened Storage
  import opened Notifications
  import opened Http

  /**
   * `req.files` when it is an array. Anything else (no upload, or the
   * per-field object multer builds for named fields) is None, and the
   * handlers skip their file loop.
   */
  function FileList(files: Option<seq<UploadedFile>>): (r: seq<UploadedFile>)
    ensures files.None? ==> r == []
    ensures files.Some? ==> r == files.value
  {
    if files.Some? then files.value else []
  }

  /**
   * What multer leaves in `req.files`: nothing, the array `upload.array`
   * builds, or the object `upload.fields` builds, one array per form field
   * in the order the fields arrived.
   */
  datatype RequestFiles = NoUpload | AsArray(files: seq<UploadedFile>) | ByField(fields: seq<(string, seq<UploadedFile>)>)

  /** `Array.isArray(req.files)`: only an array reaches the file loop. */
  function ArrayOnly(rf: RequestFiles): (r: Option<seq<UploadedFile>>)
    ensures r.Some? <==> rf.AsArray?
    ensures rf.AsArray? ==> r.value == rf.files
  {
    if rf.AsArray? then Some(rf.files) else None
  }

  /** Every file of the per-field object, field by field. */
  function Flatten(fields: seq<(string, seq<UploadedFile>)>): seq<UploadedFile>
  {
    if fields == [] then [] else fields[0].1 + Flatten(fields[1..])
  }

  /**
   * The loop's files as the handlers evidently intend them: the array
   * itself, or every per-field array in turn.
   */
  function IntendedFiles(rf: RequestFiles): (r: seq<UploadedFile>)
    ensures rf.NoUpload? ==> r == []
    ensures rf.AsArray? ==> r == rf.files
  {
    match rf
    case NoUpload => []
    case AsArray(files) => files
    case ByField(fields) => Flatten(fields)
  }

  /**
   * As written: the create and update routes mount `upload.fields`, so the
   * loop sees no file even when multer accepted some.
   */
  lemma RoutedFilesAreSkipped(fields: seq<(string, seq<UploadedFile>)>)
    ensures FileList(ArrayOnly(ByField(fields))) == []
    ensures fields != [] && fields[0].1 != [] ==> IntendedFiles(ByField(fields)) != []
  {
  }

  /** Corrected: every file of every field reaches the loop, and nothing else does. */
  lemma {:induction false} IntendedFilesAreAllFields(fields: seq<(string, seq<UploadedFile>)>)
    ensures forall x :: x in IntendedFiles(ByField(fields)) <==> exists i :: 0 <= i < |fields| && x in fields[i].1
  {
    FlattenMembers(fields);
  }

  lemma {:induction false} FlattenMembers(fields: seq<(string, seq<UploadedFile>)>)
    ensures forall x :: x in Flatten(fields) <==> exists i :: 0 <= i < |fields| && x in fields[i].1
    decreases |fields|
  {
    if fields != [] {
      FlattenMembers(fields[1..]);
      forall x | exists i :: 0 <= i < |fields| && x in fields[i].1
        ensures x in Flatten(fields)
      {
        var i :| 0 <= i < |fields| && x in fields[i].1;
        if i > 0 {
          assert fields[1..][i - 1] == fields[i];
        }
      }
      forall x | x in Flatten(fields)
        ensures exists i :: 0 <= i < |fields| && x in fields[i].1
      {
        if x !in fields[0].1 {
          var i :| 0 <= i < |fields[1..]| && x in fields[1..][i].1;
          assert fields[i + 1] == fields[1..][i];
        }
      }
    }
  }

  // ---- the file loop of create and update ----

  /**
   * The document rows the file loop inserts: one pending row per file, typed
   * by its form field and located where S3 reported it. The loop's calls
   * start at `firstStep` and take two per file (upload, then insert).
   */
  function PendingDocuments(appId: Id, files: seq<UploadedFile>, locations: nat -> string, firstId: nat, firstStep: nat)
    : (r: seq<DocumentRow>)
    ensures |r| == |files|
    ensures forall j :: 0 <= j < |files| ==>
              r[j] == DocumentRow(firstId + j, appId, files[j].fieldname, locations(firstStep + 2 * j),
                                  Pending, None, None, None)
    decreases |files|
  {
    if files == [] then []
    else
      var n := |files| - 1;
      PendingDocuments(appId, files[..n], locations, firstId, firstStep) +
        [DocumentRow(firstId + n, appId, files[n].fieldname, locations(firstStep + 2 * n), Pending, None, None, None)]
  }

  /** The object keys the uploads of the loop create. */
  function UploadedKeys(files: seq<UploadedFile>, uuids: nat -> string, firstStep: nat): set<string>
    decreases |files|
  {
    if files == [] then {}
    else
      var n := |files| - 1;
      UploadedKeys(files[..n], uuids, firstStep) + {UploadKey(uuids(firstStep + 2 * n), files[n].originalname)}
  }

  /** What `uploadToS3` throws. */
  const UploadFailure: Thrown := AppErr(NewApplicationError("Failed to upload file", Some(500)))

  /** The call numbers of file i of n in a loop whose calls start at `lo`. */
  lemma StepsOfFile(f: Faults, lo: nat, i: nat, n: nat)
    requires i < n
    ensures Fails(f, lo + 2 * i) ==>
              FailsIn(f, lo, lo + 2 * n) && (f.failAt.value - lo) % 2 == 0 && (f.failAt.value - lo + 1) / 2 == i
    ensures Fails(f, lo + 2 * i + 1) ==>
              FailsIn(f, lo, lo + 2 * n) && (f.failAt.value - lo) % 2 == 1 && (f.failAt.value - lo + 1) / 2 == i + 1
    ensures !FailsIn(f, lo, lo + 2 * i) && !Fails(f, lo + 2 * i) && !Fails(f, lo + 2 * i + 1) ==>
              !FailsIn(f, lo, lo + 2 * (i + 1))
  {
  }

  lemma PendingSnoc(appId: Id, files: seq<UploadedFile>, locations: nat -> string, firstId: nat, firstStep: nat, i: nat)
    requires i < |files|
    ensures PendingDocuments(appId, files[..i + 1], locations, firstId, firstStep) ==
            PendingDocuments(appId, files[..i], locations, firstId, firstStep) +
              [DocumentRow(firstId + i, appId, files[i].fieldname, locations(firstStep + 2 * i), Pending, None, None, None)]
  {
    assert files[..i + 1][..i] == files[..i];
  }

  lemma KeysSnoc(files: seq<UploadedFile>, uuids: nat -> string, firstStep: nat, i: nat)
    requires i < |files|
    ensures UploadedKeys(files[..i + 1], uuids, firstStep) ==
            UploadedKeys(files[..i], uuids, firstStep) + {UploadKey(uuids(firstStep + 2 * i), files[i].originalname)}
  {
    assert files[..i + 1][..i] == files[..i];
  }

  /** The tables after file i is recorded: one more pending row after those of the files before it. */
  lemma DocumentsStep(t0: Tables, t1: Tables, t2: Tables, appId: Id, files: seq<UploadedFile>, locations: nat -> string,
                      firstId: nat, firstStep: nat, i: nat)
    requires i < |files|
    requires t1 == t0.(documents := t0.documents + PendingDocuments(appId, files[..i], locations, firstId, firstStep))
    requires t2 == t1.(documents := t1.documents + [DocumentRow(firstId + i, appId, files[i].fieldname,
                                                                locations(firstStep + 2 * i), Pending, None, None, None)])
    ensures t2 == t0.(documents := t0.documents + PendingDocuments(appId, files[..i + 1], locations, firstId, firstStep))
  {
    PendingSnoc(appId, files, locations, firstId, firstStep, i);
    var p := PendingDocuments(appId, files[..i], locations, firstId, firstStep);
    var row := DocumentRow(firstId + i, appId, files[i].fieldname, locations(firstStep + 2 * i), Pending, None, None, None);
    assert t0.documents + (p + [row]) == (t0.documents + p) + [row];
  }

  /** The bucket after file i is uploaded. */
  lemma ObjectsStep(o: set<string>, s1: set<string>, s2: set<string>, files: seq<UploadedFile>, uuids: nat -> string,
                    firstStep: nat, i: nat)
    requires i < |files|
    requires s1 == o + UploadedKeys(files[..i], uuids, firstStep)
    requires s2 == s1 + {UploadKey(uuids(firstStep + 2 * i), files[i].originalname)}
    ensures s2 == o + UploadedKeys(files[..i + 1], uuids, firstStep)
  {
    KeysSnoc(files, uuids, firstStep, i);
  }

  /**
   * The state after the first i files went through the loop: their pending
   * rows follow the documents there were, their uploads are in the bucket,
   * and none of their calls threw.
   */
  ghost predicate AttachedSoFar(t0: Tables, o0: set<string>, n0: nat, appId: Id, files: seq<UploadedFile>, f: Faults,
                                firstStep: nat, i: nat, t: Tables, objects: set<string>, nextId: nat)
    requires i <= |files|
  {
    t == t0.(documents := t0.documents + PendingDocuments(appId, files[..i], f.locations, n0, firstStep)) &&
    objects == o0 + UploadedKeys(files[..i], f.uuids, firstStep) &&
    nextId == n0 + i && !FailsIn(f, firstStep, firstStep + 2 * i)
  }

  /**
   * What the loop leaves when a call throws: the throw of that call, the
   * other tables as they were, and the uploads made before it.
   */
  ghost predicate StoppedBy(t0: Tables, o0: set<string>, files: seq<UploadedFile>, f: Faults, firstStep: nat,
                            err: Thrown, t: Tables, objects: set<string>)
  {
    FailsIn(f, firstStep, firstStep + 2 * |files|) &&
    err == (if (f.failAt.value - firstStep) % 2 == 0 then UploadFailure else QueryError) &&
    t.applications == t0.applications && t.history == t0.history &&
    t.users == t0.users && t.notifications == t0.notifications &&
    (f.failAt.value - firstStep + 1) / 2 <= |files| &&
    objects == o0 + UploadedKeys(files[..(f.failAt.value - firstStep + 1) / 2], f.uuids, firstStep)
  }

  /** File i's upload throws: the loop stops with the tables and the bucket as they were. */
  lemma UploadStops(t0: Tables, o0: set<string>, n0: nat, appId: Id, files: seq<UploadedFile>, f: Faults,
                    firstStep: nat, i: nat, t: Tables, objects: set<string>, nextId: nat)
    requires i < |files| && Fails(f, firstStep + 2 * i)
    requires AttachedSoFar(t0, o0, n0, appId, files, f, firstStep, i, t, objects, nextId)
    ensures StoppedBy(t0, o0, files, f, firstStep, UploadFailure, t, objects)
  {
    StepsOfFile(f, firstStep, i, |files|);
  }

  /** File i is uploaded, then its insert throws: the bucket keeps the upload. */
  lemma InsertStops(t0: Tables, o0: set<string>, n0: nat, appId: Id, files: seq<UploadedFile>, f: Faults,
                    firstStep: nat, i: nat, t: Tables, objects: set<string>, nextId: nat, objects': set<string>)
    requires i < |files| && !Fails(f, firstStep + 2 * i) && Fails(f, firstStep + 2 * i + 1)
    requires AttachedSoFar(t0, o0, n0, appId, files, f, firstStep, i, t, objects, nextId)
    requires objects' == objects + {UploadKey(f.uuids(firstStep + 2 * i), files[i].originalname)}
    ensures StoppedBy(t0, o0, files, f, firstStep, QueryError, t, objects')
  {
    StepsOfFile(f, firstStep, i, |files|);
    ObjectsStep(o0, objects, objects', files, f.uuids, firstStep, i);
  }

  /** File i is uploaded and recorded: the loop has gone through i + 1 files. */
  lemma FileAttached(t0: Tables, o0: set<string>, n0: nat, appId: Id, files: seq<UploadedFile>, f: Faults,
                     firstStep: nat, i: nat, t: Tables, objects: set<string>, nextId: nat,
                     t': Tables, objects': set<string>)
    requires i < |files| && !Fails(f, firstStep + 2 * i) && !Fails(f, firstStep + 2 * i + 1)
    requires AttachedSoFar(t0, o0, n0, appId, files, f, firstStep, i, t, objects, nextId)
    requires objects' == objects + {UploadKey(f.uuids(firstStep + 2 * i), files[i].originalname)}
    requires t' == t.(documents := t.documents + [DocumentRow(nextId, appId, files[i].fieldname,
                                                              f.locations(firstStep + 2 * i), Pending, None, None, None)])
    ensures AttachedSoFar(t0, o0, n0, appId, files, f, firstStep, i + 1, t', objects', nextId + 1)
  {
    StepsOfFile(f, firstStep, i, |files|);
    ObjectsStep(o0, objects, objects', files, f.uuids, firstStep, i);
    DocumentsStep(t0, t, t', appId, files, f.locations, n0, firstStep, i);
  }

  /**
   * One turn of the file loop for file i: upload it (call firstStep + 2i),
   * then insert its pending row (call firstStep + 2i + 1).
   */
  method AttachFile(db: Database, store: ObjectStore, appId: Id, files: seq<UploadedFile>, i: nat, f: Faults,
                    firstStep: nat, ghost t0: Tables, ghost o0: set<string>, ghost n0: nat)
    returns (err: Option<Thrown>)
    requires i < |files|
    requires db.Valid() && HasApplication(db.tables.applications, appId)
    requires AttachedSoFar(t0, o0, n0, appId, files, f, firstStep, i, db.tables, store.objects, db.nextId)
    modifies db, store
    ensures db.Valid() && db.inTransaction == old(db.inTransaction) && db.saved == old(db.saved)
    ensures db.clock == old(db.clock)
    ensures err.None? ==> AttachedSoFar(t0, o0, n0, appId, files, f, firstStep, i + 1, db.tables, store.objects, db.nextId)
    ensures err.Some? ==> StoppedBy(t0, o0, files, f, firstStep, err.value, db.tables, store.objects)
  {
    var step := firstStep + 2 * i;
    var up := store.Upload(files[i], f.uuids(step), f.locations(step), Fails(f, step));
    if up.Err? {
      UploadStops(t0, o0, n0, appId, files, f, firstStep, i, db.tables, store.objects, db.nextId);
      return Some(AppErr(up.error));
    }
    if Fails(f, step + 1) {
      InsertStops(t0, o0, n0, appId, files, f, firstStep, i, db.tables, old(store.objects), db.nextId, store.objects);
      return Some(QueryError);
    }
    var doc := db.InsertDocument(appId, files[i].fieldname, up.value.location, None);
    FileAttached(t0, o0, n0, appId, files, f, firstStep, i, old(db.tables), old(store.objects), old(db.nextId),
                 db.tables, store.objects);
    err := None;
  }

  /**
   * `for (const file of req.files)`: upload the file (call firstStep + 2j),
   * then insert its pending document row (call firstStep + 2j + 1). The loop
   * stops at the first throw and hands it back; the objects uploaded before
   * it stay in the bucket.
   */
  method AttachFiles(db: Database, store: ObjectStore, appId: Id, files: seq<UploadedFile>, f: Faults, firstStep: nat)
    returns (err: Option<Thrown>)
    requires db.Valid() && HasApplication(db.tables.applications, appId)
    modifies db, store
    ensures db.Valid() && db.inTransaction == old(db.inTransaction) && db.saved == old(db.saved)
    ensures db.clock == old(db.clock)
    ensures err.None? <==> !FailsIn(f, firstStep, firstStep + 2 * |files|)
    ensures err.None? ==>
              db.tables == old(db.tables).(documents := old(db.tables.documents) +
                                              PendingDocuments(appId, files, f.locations, old(db.nextId), firstStep)) &&
              db.nextId == old(db.nextId) + |files| &&
              store.objects == old(store.objects) + UploadedKeys(files, f.uuids, firstStep)
    ensures err.Some? ==> StoppedBy(old(db.tables), old(store.objects), files, f, firstStep, err.value, db.tables, store.objects)
  {
    ghost var t0, o0, n0 := db.tables, store.objects, db.nextId;
    var i := 0;
    while i < |files|
      invariant 0 <= i <= |files|
      invariant db.Valid() && db.inTransaction == old(db.inTransaction) && db.saved == old(db.saved)
      invariant db.clock == old(db.clock)
      invariant AttachedSoFar(t0, o0, n0, appId, files, f, firstStep, i, db.tables, store.objects, db.nextId)
    {
      err := AttachFile(db, store, appId, files, i, f, firstStep, t0, o0, n0);
      if err.Some? {
        return;
      }
      i := i + 1;
    }
    assert files[..i] == files;
    return None;
  }

  // ---- POST /applications ----

  /**
   * What call k of create throws: the draft's insert is call 0 and the file
   * loop starts at call 1, so an odd call is an upload and an even one an
   * insert.
   */
  function DraftError(f: Faults): (err: Thrown)
    requires f.failAt.Some?
    ensures err == UploadFailure <==> f.failAt.value % 2 == 1
    ensures err != UploadFailure ==> err == QueryError
  {
    if f.failAt.value >= 1 && (f.failAt.value - 1) % 2 == 0 then UploadFailure else QueryError
  }

  /** The catch of create answers a failed upload with its own message and every other throw with the fallback. */
  lemma DraftErrorAnswers(f: Faults)
    requires f.failAt.Some?
    ensures Caught<ApplicationRow>(DraftError(f), "Failed to create application") ==
            Response(500, WithMessage(if f.failAt.value % 2 == 1 then "Failed to upload file" else "Failed to create application"))
  {
  }

  /** The bucket after create stopped at call k: the uploads of the files before it. */
  ghost predicate DraftStopped(o0: set<string>, files: seq<UploadedFile>, f: Faults, objects: set<string>) {
    f.failAt.Some? && f.failAt.value / 2 <= |files| &&
    objects == o0 + UploadedKeys(files[..f.failAt.value / 2], f.uuids, 1)
  }

  /** The insert of the draft throws: nothing is uploaded. */
  lemma DraftInsertStops(o0: set<string>, files: seq<UploadedFile>, f: Faults)
    requires Fails(f, 0)
    ensures DraftStopped(o0, files, f, o0) && DraftError(f) == QueryError
  {
    assert files[..0] == [];
  }

  /** A throw in the file loop of create, seen from the transaction. */
  lemma CreateStopped(t0: Tables, o0: set<string>, files: seq<UploadedFile>, f: Faults, err: Thrown, t: Tables,
                      objects: set<string>)
    requires StoppedBy(t0, o0, files, f, 1, err, t, objects)
    ensures DraftStopped(o0, files, f, objects) && err == DraftError(f)
  {
    assert (f.failAt.value - 1 + 1) / 2 == f.failAt.value / 2;
  }

  /**
   * What a committed draft leaves: the application after the rows there
   * were, its pending documents after theirs, one id per row, and the
   * uploads in the bucket.
   */
  ghost predicate DraftStored(t0: Tables, o0: set<string>, n0: nat, app: ApplicationRow, files: seq<UploadedFile>,
                              f: Faults, t: Tables, objects: set<string>, nextId: nat)
  {
    t == t0.(applications := t0.applications + [app],
             documents := t0.documents + PendingDocuments(app.id, files, f.locations, app.id + 1, 1)) &&
    nextId == n0 + 1 + |files| && objects == o0 + UploadedKeys(files, f.uuids, 1)
  }

  /** The draft (id n0), then the file loop from id n0 + 1: the draft is stored. */
  lemma DraftDone(t0: Tables, o0: set<string>, n0: nat, app: ApplicationRow, files: seq<UploadedFile>, f: Faults,
                  t1: Tables, n1: nat, t: Tables, objects: set<string>, nextId: nat)
    requires app.id == n0 && n1 == n0 + 1 && t1 == t0.(applications := t0.applications + [app])
    requires t == t1.(documents := t1.documents + PendingDocuments(app.id, files, f.locations, n1, 1))
    requires nextId == n0 + 1 + |files| && objects == o0 + UploadedKeys(files, f.uuids, 1)
    ensures DraftStored(t0, o0, n0, app, files, f, t, objects, nextId)
  {
    assert PendingDocuments(app.id, files, f.locations, n1, 1) == PendingDocuments(app.id, files, f.locations, app.id + 1, 1);
  }

  /** `INSERT INTO applications` of the draft (call 0), inside the transaction BEGIN opened. */
  method InsertDraft(db: Database, userId: Id, appType: ApplicationType, data: Json) returns (app: ApplicationRow)
    requires db.Valid() && Before(db.tables, db.clock)
    modifies db
    ensures db.Valid() && db.inTransaction == old(db.inTransaction) && db.saved == old(db.saved)
    ensures db.clock == old(db.clock) && db.nextId == old(db.nextId) + 1
    ensures app == ApplicationRow(old(db.nextId), userId, appType, Draft, data, db.clock)
    ensures db.tables == old(db.tables).(applications := old(db.tables.applications) + [app])
    ensures HasApplication(db.tables.applications, app.id)
  {
    app := db.InsertApplication(userId, appType, Draft, data);
    assert db.tables.applications[|db.tables.applications| - 1] == app;
  }

  /**
   * The transaction of `createApplication`: BEGIN, the draft (call 0), the
   * file loop (calls from 1) and COMMIT. A throw leaves the transaction
   * open with the tables BEGIN saved.
   */
  method StoreDraft(db: Database, store: ObjectStore, userId: Id, appType: ApplicationType, data: Json,
                    files: seq<UploadedFile>, f: Faults)
    returns (app: ApplicationRow, err: Option<Thrown>)
    requires db.Valid() && !db.inTransaction
    modifies db, store
    ensures db.Valid() && db.clock == old(db.clock) + 1
    ensures app == ApplicationRow(old(db.nextId), userId, appType, Draft, data, old(db.clock) + 1)
    ensures err.Some? <==> FailsIn(f, 0, 1 + 2 * |files|)
    ensures err.Some? ==>
              db.inTransaction && db.saved == old(db.tables) &&
              DraftStopped(old(store.objects), files, f, store.objects) && err.value == DraftError(f)
    ensures err.None? ==>
              !db.inTransaction &&
              DraftStored(old(db.tables), old(store.objects), old(db.nextId), app, files, f, db.tables, store.objects, db.nextId)
  {
    FailsInFirst(f, 0, 1 + 2 * |files|);
    db.Begin();
    if Fails(f, 0) {
      DraftInsertStops(store.objects, files, f);
      return ApplicationRow(db.nextId, userId, appType, Draft, data, db.clock), Some(QueryError);
    }
    app := InsertDraft(db, userId, appType, data);
    ghost var t1, n1 := db.tables, db.nextId;
    err := AttachFiles(db, store, app.id, files, f, 1);
    if err.Some? {
      CreateStopped(t1, old(store.objects), files, f, err.value, db.tables, store.objects);
      return;
    }
    db.Commit();
    DraftDone(old(db.tables), old(store.objects), old(db.nextId), app, files, f, t1, n1, db.tables, store.objects, db.nextId);
  }

  /**
   * What a create that got past COMMIT leaves: the draft and its pending
   * documents, the notification row when its insert did not throw, the
   * uploads, the mail `sendNotification` handed over, and `delivered`
   * exactly when the notification returned normally.
   */
  ghost predicate CreatedAndNotified(t0: Tables, o0: set<string>, m0: seq<Email>, app: ApplicationRow,
                                     files: seq<UploadedFile>, f: Faults, t: Tables, objects: set<string>,
                                     mails: seq<Email>, delivered: bool)
  {
    var first := 1 + 2 * |files|;
    var p := NotificationPayload(ApplicationCreated, app.userId, app.id, CreatedData(app.appType));
    t.applications == t0.applications + [app] &&
    t.documents == t0.documents + PendingDocuments(app.id, files, f.locations, app.id + 1, 1) &&
    t.history == t0.history && t.users == t0.users &&
    t.notifications == t0.notifications +
      (if Fails(f, first) then []
       else [NotificationRow(app.id + 1 + |files|, app.userId, ApplicationCreated, app.id, CreatedData(app.appType), None)]) &&
    objects == o0 + UploadedKeys(files, f.uuids, 1) &&
    mails == m0 + Mailed(t0.users, p, f, first) &&
    (delivered <==> Delivered(t0.users, p, f, first))
  }

  /**
   * What `sendNotification` of the new application leaves, from the tables
   * t1 and next id n1 after COMMIT: its row unless that insert threw, the
   * mail it handed over, and a throw exactly when it did not get through,
   * never an `ApplicationError`.
   */
  ghost predicate CreateNotified(t1: Tables, n1: nat, m0: seq<Email>, app: ApplicationRow, files: seq<UploadedFile>,
                                 f: Faults, t: Tables, mails: seq<Email>, err: Option<Thrown>)
  {
    var first := 1 + 2 * |files|;
    var p := NotificationPayload(ApplicationCreated, app.userId, app.id, CreatedData(app.appType));
    var row := NotificationRow(n1, app.userId, ApplicationCreated, app.id, CreatedData(app.appType), None);
    (if Fails(f, first) then t == t1 else t == t1.(notifications := t1.notifications + [row])) &&
    mails == m0 + Mailed(t1.users, p, f, first) &&
    (err.None? <==> Delivered(t1.users, p, f, first)) &&
    (err.Some? ==> !err.value.AppErr?)
  }

  /** The stored draft, then the notification (calls from 1 + 2n). */
  lemma DraftNotified(t0: Tables, o0: set<string>, n0: nat, m0: seq<Email>, app: ApplicationRow, files: seq<UploadedFile>,
                      f: Faults, t1: Tables, objects: set<string>, n1: nat, t: Tables, mails: seq<Email>, err: Option<Thrown>)
    requires DraftStored(t0, o0, n0, app, files, f, t1, objects, n1) && app.id == n0
    requires CreateNotified(t1, n1, m0, app, files, f, t, mails, err)
    ensures CreatedAndNotified(t0, o0, m0, app, files, f, t, objects, mails, err.None?)
  {
    if Fails(f, 1 + 2 * |files|) {
      assert t0.notifications + [] == t0.notifications;
    }
  }

  /**
   * `sendNotification({ userId, type: APPLICATION_CREATED, applicationId,
   * data: { applicationType, status: 'draft' } })` for the new application
   * (calls from 1 + 2n).
   */
  method NotifyCreated(db: Database, mailer: Mailer, app: ApplicationRow, files: seq<UploadedFile>, f: Faults)
    returns (err: Option<Thrown>)
    requires db.Valid()
    modifies db, mailer
    ensures db.Valid() && db.inTransaction == old(db.inTransaction) && db.clock == old(db.clock)
    ensures CreateNotified(old(db.tables), old(db.nextId), old(mailer.sent), app, files, f, db.tables, mailer.sent, err)
  {
    var p := NotificationPayload(ApplicationCreated, app.userId, app.id, CreatedData(app.appType));
    var sent := SendNotification(db, mailer, p, f, 1 + 2 * |files|);
    err := if sent.Err? then Some(sent.error) else None;
  }

  /**
   * The `try` block of `createApplication`: the transaction, then the
   * notification (calls from 1 + 2n), which comes after COMMIT.
   */
  method CreateSteps(db: Database, store: ObjectStore, mailer: Mailer, userId: Id, appType: ApplicationType,
                     data: Json, files: seq<UploadedFile>, f: Faults)
    returns (app: ApplicationRow, err: Option<Thrown>)
    requires db.Valid() && !db.inTransaction
    modifies db, store, mailer
    ensures db.Valid() && db.clock == old(db.clock) + 1
    ensures app == ApplicationRow(old(db.nextId), userId, appType, Draft, data, old(db.clock) + 1)
    ensures FailsIn(f, 0, 1 + 2 * |files|) ==>
              db.inTransaction && db.saved == old(db.tables) && mailer.sent == old(mailer.sent) &&
              DraftStopped(old(store.objects), files, f, store.objects) && err == Some(DraftError(f))
    ensures !FailsIn(f, 0, 1 + 2 * |files|) ==>
              !db.inTransaction &&
              CreatedAndNotified(old(db.tables), old(store.objects), old(mailer.sent), app, files, f,
                                 db.tables, store.objects, mailer.sent, err.None?) &&
              (err.Some? ==> !err.value.AppErr?)
  {
    app, err := StoreDraft(db, store, userId, appType, data, files, f);
    if err.Some? {
      return;
    }
    ghost var t1, n1 := db.tables, db.nextId;
    err := NotifyCreated(db, mailer, app, files, f);
    DraftNotified(old(db.tables), old(store.objects), old(db.nextId), old(mailer.sent), app, files, f, t1,
                  store.objects, n1, db.tables, mailer.sent, err);
  }

  /**
   * `createApplication`: the `try` block, and a catch that rolls back and
   * answers. A throw before COMMIT rolls the rows back and keeps the
   * uploads; a throw from the notification comes after COMMIT, so the
   * ROLLBACK does nothing and the caller gets a 500 although the
   * application was stored.
   */
  method CreateApplication(db: Database, store: ObjectStore, mailer: Mailer, userId: Id, appType: ApplicationType,
                           data: Json, files: Option<seq<UploadedFile>>, f: Faults)
    returns (resp: Response<ApplicationRow>)
    requires db.Valid() && !db.inTransaction
    modifies db, store, mailer
    ensures db.Valid() && !db.inTransaction && db.clock == old(db.clock) + 1
    ensures FailsIn(f, 0, 1 + 2 * |FileList(files)|) ==>
              db.tables == old(db.tables) && mailer.sent == old(mailer.sent) &&
              DraftStopped(old(store.objects), FileList(files), f, store.objects) &&
              resp == Caught(DraftError(f), "Failed to create application")
    ensures !FailsIn(f, 0, 1 + 2 * |FileList(files)|) ==>
              var app := ApplicationRow(old(db.nextId), userId, appType, Draft, data, old(db.clock) + 1);
              CreatedAndNotified(old(db.tables), old(store.objects), old(mailer.sent), app, FileList(files), f,
                                 db.tables, store.objects, mailer.sent, resp.status == 201) &&
              (resp == Response(201, Payload(app)) || resp == Response(500, WithMessage("Failed to create application")))
  {
    var app, err := CreateSteps(db, store, mailer, userId, appType, data, FileList(files), f);
    if err.Some? {
      db.Rollback();
      return Caught(err.value, "Failed to create application");
    }
    resp := Response(201, Payload(app));
  }

  // ---- GET /applications ----

  /**
   * A JavaScript number as `Number(text)` yields it: a finite value, kept
   * exact, or NaN.
   */
  datatype JsNumber = Finite(value: real) | NaN

  /** `(Number(page) - 1) * Number(limit)`: NaN as soon as either side is. */
  function Offset(page: JsNumber, limit: JsNumber): (r: JsNumber)
    ensures r.Finite? <==> page.Finite? && limit.Finite?
    ensures r.Finite? ==> r.value == (page.value - 1.0) * limit.value
  {
    if page.Finite? && limit.Finite? then Finite((page.value - 1.0) * limit.value) else NaN
  }

  /** What PostgreSQL takes for LIMIT or OFFSET: a whole number that is not negative. */
  predicate RowCount(n: JsNumber) {
    n.Finite? && n.value >= 0.0 && n.value == n.value.Floor as real
  }

  /** The count a number PostgreSQL accepted stands for. */
  function Count(n: JsNumber): (r: nat)
    requires RowCount(n)
    ensures r as real == n.value
  {
    n.value.Floor
  }

  /** A value bound to a placeholder. */
  datatype Param = IdParam(id: Id) | TextParam(text: string) | NumParam(n: JsNumber)

  /** A condition of the list's WHERE clause, naming the placeholder it compares with. */
  datatype Condition = OwnerIs(at: nat) | StatusIs(at: nat) | TypeIs(at: nat)

  /** The list statement as built: its conditions and the placeholders of LIMIT and OFFSET. */
  datatype ListStatement = ListStatement(conditions: seq<Condition>, limitAt: nat, offsetAt: nat)

  /** What `$k` stands for: the k-th parameter, counting from 1. */
  function Bound(params: seq<Param>, k: nat): (r: Option<Param>)
    ensures r.Some? <==> 1 <= k <= |params|
  {
    if 1 <= k <= |params| then Some(params[k - 1]) else None
  }

  /** A row satisfies one condition once its placeholder is bound. */
  predicate Holds(c: Condition, params: seq<Param>, a: ApplicationRow) {
    match c
    case OwnerIs(k) => Bound(params, k) == Some(IdParam(a.userId))
    case StatusIs(k) => Bound(params, k) == Some(TextParam(StatusName(a.status)))
    case TypeIs(k) => Bound(params, k) == Some(TextParam(ApplicationTypeName(a.appType)))
  }

  predicate Selects(stmt: ListStatement, params: seq<Param>, a: ApplicationRow) {
    forall i :: 0 <= i < |stmt.conditions| ==> Holds(stmt.conditions[i], params, a)
  }

  function SelectedBy(stmt: ListStatement, params: seq<Param>): ApplicationRow -> bool {
    (a: ApplicationRow) => Selects(stmt, params, a)
  }

  /** What the caller asks for: their own rows, with the status and the type when those are given (non-empty). */
  predicate Wanted(userId: Id, status: Option<string>, appType: Option<string>, a: ApplicationRow) {
    a.userId == userId &&
    (status.Some? && status.value != "" ==> StatusName(a.status) == status.value) &&
    (appType.Some? && appType.value != "" ==> ApplicationTypeName(a.appType) == appType.value)
  }

  function WantedBy(userId: Id, status: Option<string>, appType: Option<string>): ApplicationRow -> bool {
    (a: ApplicationRow) => Wanted(userId, status, appType, a)
  }

  /**
   * The query text and parameter list `getApplications` builds with
   * `paramCounter`: every placeholder binds the value it is compared with,
   * so the statement selects exactly the rows asked for, and LIMIT and
   * OFFSET bind the last two parameters.
   */
  method BuildListStatement(userId: Id, status: Option<string>, appType: Option<string>, limit: JsNumber, offset: JsNumber)
    returns (stmt: ListStatement, params: seq<Param>)
    ensures forall a :: Selects(stmt, params, a) <==> Wanted(userId, status, appType, a)
    ensures Bound(params, stmt.limitAt) == Some(NumParam(limit))
    ensures Bound(params, stmt.offsetAt) == Some(NumParam(offset))
    ensures stmt.offsetAt == stmt.limitAt + 1 == |params|
  {
    var conditions := [OwnerIs(1)];
    params := [IdParam(userId)];
    var counter := 2;
    if status.Some? && status.value != "" {
      conditions := conditions + [StatusIs(counter)];
      params := params + [TextParam(status.value)];
      counter := counter + 1;
    }
    if appType.Some? && appType.value != "" {
      conditions := conditions + [TypeIs(counter)];
      params := params + [TextParam(appType.value)];
      counter := counter + 1;
    }
    stmt := ListStatement(conditions, counter, counter + 1);
    params := params + [NumParam(limit), NumParam(offset)];
    var hasStatus, hasType := status.Some? && status.value != "", appType.Some? && appType.value != "";
    var typeAt := if hasStatus then 2 else 1;
    assert params[0] == IdParam(userId) && conditions[0] == OwnerIs(1);
    assert hasStatus ==> params[1] == TextParam(status.value) && conditions[1] == StatusIs(2);
    assert hasType ==> params[typeAt] == TextParam(appType.value) && conditions[typeAt] == TypeIs(typeAt + 1);
    assert |conditions| == typeAt + (if hasType then 1 else 0);
    forall a
      ensures Selects(stmt, params, a) <==> Wanted(userId, status, appType, a)
    {
      if Selects(stmt, params, a) {
        assert Holds(conditions[0], params, a);
        if hasStatus {
          assert Holds(conditions[1], params, a);
        }
        if hasType {
          assert Holds(conditions[typeAt], params, a);
        }
      }
      if Wanted(userId, status, appType, a) {
        forall i | 0 <= i < |conditions|
          ensures Holds(conditions[i], params, a)
        {
          assert i == 0 || (hasStatus && i == 1) || (hasType && i == typeAt);
        }
      }
    }
  }

  /** `LIMIT limit OFFSET offset`: the window of at most `limit` rows that starts after `offset` of them. */
  function Page<T>(s: seq<T>, limit: nat, offset: nat): (r: seq<T>)
    ensures |r| == if offset >= |s| then 0 else if limit <= |s| - offset then limit else |s| - offset
    ensures forall i :: 0 <= i < |r| ==> r[i] == s[offset + i]
  {
    if offset >= |s| then []
    else s[offset .. if offset + limit <= |s| then offset + limit else |s|]
  }

  /**
   * `ORDER BY created_at DESC` over rows kept in insertion order, which the
   * table invariant makes the order of creation.
   */
  function NewestFirst(apps: seq<ApplicationRow>): (r: seq<ApplicationRow>)
    ensures AppsOrdered(apps) ==> forall i, j :: 0 <= i < j < |r| ==> r[i].createdAt > r[j].createdAt
    ensures forall a :: a in r <==> a in apps
  {
    var r := Reverse(apps);
    assert forall a :: a in apps ==> a in r by {
      forall a | a in apps
        ensures a in r
      {
        var i :| 0 <= i < |apps| && apps[i] == a;
        assert r[|apps| - 1 - i] == a;
      }
    }
    r
  }

  /**
   * The statement run against the table: a LIMIT or OFFSET that is
   * negative, fractional or NaN is an error in PostgreSQL.
   */
  function RunList(apps: seq<ApplicationRow>, stmt: ListStatement, params: seq<Param>): (r: Option<seq<ApplicationRow>>)
    ensures r.Some? ==> forall a :: a in r.value ==> a in apps && Selects(stmt, params, a)
  {
    match (Bound(params, stmt.limitAt), Bound(params, stmt.offsetAt))
    case (Some(NumParam(limit)), Some(NumParam(offset))) =>
      if !RowCount(limit) || !RowCount(offset) then None
      else
        var rows := Page(NewestFirst(Filter(apps, SelectedBy(stmt, params))), Count(limit), Count(offset));
        assert forall a :: a in rows ==> a in NewestFirst(Filter(apps, SelectedBy(stmt, params))) by {
          forall a | a in rows
            ensures a in NewestFirst(Filter(apps, SelectedBy(stmt, params)))
          {
            var i :| 0 <= i < |rows| && rows[i] == a;
          }
        }
        Some(rows)
    case _ => None
  }

  /** One element of `json_agg(json_build_object('id', d.id, …))`; every field is NULL for the row a LEFT JOIN pads. */
  datatype DocumentEntry = DocumentEntry(id: Option<Id>, docType: Option<string>, path: Option<string>, status: Option<DocumentStatus>)

  const PaddedEntry: DocumentEntry := DocumentEntry(None, None, None, None)

  function EntryOf(d: DocumentRow): DocumentEntry {
    DocumentEntry(Some(d.id), Some(d.docType), Some(d.path), Some(d.status))
  }

  function Entries(docs: seq<DocumentRow>): (r: seq<DocumentEntry>)
    ensures |r| == |docs|
    ensures forall i :: 0 <= i < |docs| ==> r[i] == EntryOf(docs[i])
  {
    seq(|docs|, i requires 0 <= i < |docs| => EntryOf(docs[i]))
  }

  /**
   * The `documents` column of an application: its documents in no
   * particular order, or, for an application without any, the single
   * all-NULL object of the padded join row.
   */
  function AggregatedDocuments(docs: seq<DocumentRow>, appId: Id): (r: multiset<DocumentEntry>)
    ensures (forall d :: d in docs ==> d.applicationId != appId) ==> r == multiset{PaddedEntry}
    ensures forall d :: d in docs && d.applicationId == appId ==> EntryOf(d) in r
    ensures forall e :: e in r && e != PaddedEntry ==> exists d :: d in docs && d.applicationId == appId && e == EntryOf(d)
  {
    var mine := Filter(docs, DocumentsOf(appId));
    EntriesCover(mine);
    if mine == [] then multiset{PaddedEntry} else multiset(Entries(mine))
  }

  /** The entries of some rows are the entries of exactly those rows. */
  lemma EntriesCover(rows: seq<DocumentRow>)
    ensures forall d :: d in rows ==> EntryOf(d) in multiset(Entries(rows))
    ensures forall e :: e in multiset(Entries(rows)) ==> exists d :: d in rows && e == EntryOf(d)
  {
    var es := Entries(rows);
    forall d | d in rows
      ensures EntryOf(d) in multiset(es)
    {
      var i :| 0 <= i < |rows| && rows[i] == d;
      assert es[i] == EntryOf(d);
    }
    forall e | e in multiset(es)
      ensures exists d :: d in rows && e == EntryOf(d)
    {
      var i :| 0 <= i < |es| && es[i] == e;
      assert rows[i] in rows;
    }
  }

  datatype ListedApplication = ListedApplication(application: ApplicationRow, documents: multiset<DocumentEntry>)

  function Listed(rows: seq<ApplicationRow>, docs: seq<DocumentRow>): (r: seq<ListedApplication>)
    ensures |r| == |rows|
    ensures forall i :: 0 <= i < |rows| ==> r[i] == ListedApplication(rows[i], AggregatedDocuments(docs, rows[i].id))
  {
    seq(|rows|, i requires 0 <= i < |rows| => ListedApplication(rows[i], AggregatedDocuments(docs, rows[i].id)))
  }

  /** A number of pages as `Math.ceil` gives it: Infinity for n / 0 with n > 0, NaN for 0 / 0. */
  datatype PageCount = Pages(n: int) | Infinite | NotANumber

  /** `Math.ceil(totalCount / Number(limit))`. */
  function TotalPages(count: nat, limit: int): (r: PageCount)
    ensures limit > 0 ==> r.Pages? && r.n >= 0
    ensures limit == 0 ==> (count == 0 <==> r == NotANumber) && (count > 0 <==> r == Infinite)
  {
    if limit > 0 then Pages((count + limit - 1) / limit)
    else if limit < 0 then Pages(-(count / -limit))
    else if count == 0 then NotANumber
    else Infinite
  }

  /** `page < totalPages` in JavaScript: true below Infinity, false whenever either side is NaN. */
  predicate Below(page: JsNumber, total: PageCount) {
    match total
    case Pages(n) => page.Finite? && page.value < n as real
    case Infinite => page.Finite?
    case NotANumber => false
  }

  datatype Pagination = Pagination(currentPage: JsNumber, totalPages: PageCount, totalCount: nat, hasMore: bool)

  datatype ApplicationList = ApplicationList(applications: seq<ListedApplication>, pagination: Pagination)

  /**
   * The answer of `getApplications` to a caller: a page of their
   * applications matching the filters, newest first; the total counts all
   * of their applications whatever the filters. Calls: 0 is the list,
   * 1 the count.
   */
  function ListResponse(t: Tables, userId: Id, status: Option<string>, appType: Option<string>,
                        page: JsNumber, limit: JsNumber, f: Faults): (r: Response<ApplicationList>)
    ensures r.status == 200 || r == Response(500, WithMessage("Failed to fetch applications"))
    ensures r.status == 200 <==> !Fails(f, 0) && !Fails(f, 1) && RowCount(limit) && RowCount(Offset(page, limit))
    ensures r.status == 200 ==> page.Finite? && r.body.Payload? && r.body.value.pagination.currentPage == page
  {
    ListResponseAt(t, userId, status, appType, page, limit, Offset(page, limit), f)
  }

  /** The same answer, with the offset `(page - 1) * limit` given. */
  function ListResponseAt(t: Tables, userId: Id, status: Option<string>, appType: Option<string>,
                          page: JsNumber, limit: JsNumber, offset: JsNumber, f: Faults): (r: Response<ApplicationList>)
    ensures r.status == 200 || r == Response(500, WithMessage("Failed to fetch applications"))
    ensures r.status == 200 <==> !Fails(f, 0) && !Fails(f, 1) && RowCount(limit) && RowCount(offset)
    ensures r.status == 200 ==> r.body.Payload? && r.body.value.pagination.currentPage == page
  {
    if Fails(f, 0) || !RowCount(limit) || !RowCount(offset) || Fails(f, 1) then
      Response(500, WithMessage("Failed to fetch applications"))
    else
      var rows := Page(NewestFirst(Filter(t.applications, WantedBy(userId, status, appType))), Count(limit), Count(offset));
      var count := |Filter(t.applications, OwnedBy(userId))|;
      var total := TotalPages(count, Count(limit));
      Response(200, Payload(ApplicationList(Listed(rows, t.documents), Pagination(page, total, count, Below(page, total)))))
  }

  /** Naming the offset. */
  lemma ListResponseOffset(t: Tables, userId: Id, status: Option<string>, appType: Option<string>,
                           page: JsNumber, limit: JsNumber, offset: JsNumber, f: Faults)
    requires offset == Offset(page, limit)
    ensures ListResponse(t, userId, status, appType, page, limit, f) ==
            ListResponseAt(t, userId, status, appType, page, limit, offset, f)
  {
  }

  /** The built statement, run against a table, returns the page of the rows asked for. */
  lemma RunBuiltList(apps: seq<ApplicationRow>, stmt: ListStatement, params: seq<Param>, userId: Id,
                     status: Option<string>, appType: Option<string>, limit: JsNumber, offset: JsNumber)
    requires forall a :: Selects(stmt, params, a) <==> Wanted(userId, status, appType, a)
    requires Bound(params, stmt.limitAt) == Some(NumParam(limit))
    requires Bound(params, stmt.offsetAt) == Some(NumParam(offset))
    ensures RunList(apps, stmt, params) ==
              if !RowCount(limit) || !RowCount(offset) then None
              else Some(Page(NewestFirst(Filter(apps, WantedBy(userId, status, appType))), Count(limit), Count(offset)))
  {
    FilterAgrees(apps, SelectedBy(stmt, params), WantedBy(userId, status, appType));
  }

  /**
   * `getApplications`, given `Number(page)` and `Number(limit)` of the query
   * values that are present; absent ones are 1 and 10.
   */
  method GetApplications(db: Database, userId: Id, status: Option<string>, appType: Option<string>,
                         page: Option<JsNumber>, limit: Option<JsNumber>, f: Faults)
    returns (resp: Response<ApplicationList>)
    requires db.Valid()
    ensures resp == ListResponse(db.tables, userId, status, appType, page.GetOr(Finite(1.0)), limit.GetOr(Finite(10.0)), f)
  {
    var p := page.GetOr(Finite(1.0));
    var l := limit.GetOr(Finite(10.0));
    var offset := if p.Finite? && l.Finite? then Finite((p.value - 1.0) * l.value) else NaN;
    var stmt, params := BuildListStatement(userId, status, appType, l, offset);
    var t := db.tables;
    ListResponseOffset(t, userId, status, appType, p, l, offset, f);
    if Fails(f, 0) {
      return Response(500, WithMessage("Failed to fetch applications"));
    }
    var rows := RunList(t.applications, stmt, params);
    RunBuiltList(t.applications, stmt, params, userId, status, appType, l, offset);
    if rows.None? {
      return Response(500, WithMessage("Failed to fetch applications"));
    }
    if Fails(f, 1) {
      return Response(500, WithMessage("Failed to fetch applications"));
    }
    var count := |Filter(t.applications, OwnedBy(userId))|;
    var total := TotalPages(count, Count(l));
    resp := Response(200, Payload(ApplicationList(Listed(rows.value, t.documents),
                                                  Pagination(p, total, count, Below(p, total)))));
  }

  /**
   * A page of the kept rows, newest first, is the window of the kept rows
   * in falling creation time that starts after `offset` of them: its rows
   * are kept rows of the table, and it is `limit` long unless the kept rows
   * run out first.
   */
  lemma PageOfNewest(apps: seq<ApplicationRow>, keep: ApplicationRow -> bool, limit: nat, offset: nat)
    requires AppsOrdered(apps)
    ensures var sorted := NewestFirst(Filter(apps, keep));
            var rows := Page(sorted, limit, offset);
            (|rows| == if offset >= |sorted| then 0 else if limit <= |sorted| - offset then limit else |sorted| - offset) &&
            (forall i :: 0 <= i < |rows| ==> rows[i] == sorted[offset + i] && rows[i] in apps && keep(rows[i])) &&
            (forall i, j :: 0 <= i < j < |rows| ==> rows[i].createdAt > rows[j].createdAt)
  {
    var kept := Filter(apps, keep);
    FilterKeepsAppOrder(apps, keep);
    var sorted := NewestFirst(kept);
    var rows := Page(sorted, limit, offset);
    forall i | 0 <= i < |rows|
      ensures rows[i] in apps && keep(rows[i])
    {
      assert rows[i] == sorted[offset + i];
      assert sorted[offset + i] in sorted;
    }
    forall i, j | 0 <= i < j < |rows|
      ensures rows[i].createdAt > rows[j].createdAt
    {
      assert rows[i] == sorted[offset + i] && rows[j] == sorted[offset + j];
    }
  }

  /**
   * A listed page is the window of the caller's applications that match
   * the filters, newest first, starting after `(page - 1) * limit` of them
   * and `limit` long unless they run out; each carries its aggregated
   * documents.
   */
  lemma ListedPageIsOwnedAndNewestFirst(t: Tables, userId: Id, status: Option<string>, appType: Option<string>,
                                        page: JsNumber, limit: JsNumber, f: Faults)
    requires AppsOrdered(t.applications)
    requires ListResponse(t, userId, status, appType, page, limit, f).status == 200
    ensures RowCount(limit) && RowCount(Offset(page, limit))
    ensures var list := ListResponse(t, userId, status, appType, page, limit, f).body.value.applications;
            var sorted := NewestFirst(Filter(t.applications, WantedBy(userId, status, appType)));
            var n, offset := Count(limit), Count(Offset(page, limit));
            (|list| == if offset >= |sorted| then 0 else if n <= |sorted| - offset then n else |sorted| - offset) &&
            (forall i :: 0 <= i < |list| ==>
               list[i].application == sorted[offset + i] &&
               list[i].documents == AggregatedDocuments(t.documents, list[i].application.id) &&
               list[i].application in t.applications && Wanted(userId, status, appType, list[i].application)) &&
            (forall i, j :: 0 <= i < j < |list| ==> list[i].application.createdAt > list[j].application.createdAt)
  {
    var n, offset := Count(limit), Count(Offset(page, limit));
    var rows := Page(NewestFirst(Filter(t.applications, WantedBy(userId, status, appType))), n, offset);
    PageOfNewest(t.applications, WantedBy(userId, status, appType), n, offset);
    var list := Listed(rows, t.documents);
    assert ListResponse(t, userId, status, appType, page, limit, f).body.value.applications == list;
    assert forall i :: 0 <= i < |list| ==> list[i].application == rows[i];
  }

  /** The total and the page count do not depend on the status and type filters. */
  lemma {:induction false} TotalIgnoresFilters(t: Tables, userId: Id, status: Option<string>, appType: Option<string>,
                                               page: JsNumber, limit: JsNumber, f: Faults)
    requires ListResponse(t, userId, status, appType, page, limit, f).status == 200
    ensures var pagination := ListResponse(t, userId, status, appType, page, limit, f).body.value.pagination;
            pagination == ListResponse(t, userId, None, None, page, limit, f).body.value.pagination &&
            pagination.totalCount == |Filter(t.applications, OwnedBy(userId))|
  {
  }

  /**
   * With a positive limit the page count covers the total exactly, and
   * `hasMore` says whether rows lie beyond the requested page.
   */
  lemma HasMoreWhenRowsRemain(count: nat, page: int, limit: int)
    requires limit > 0
    ensures var n := TotalPages(count, limit).n;
            (n - 1) * limit < count <= n * limit || (count == 0 && n == 0)
    ensures Below(Finite(page as real), TotalPages(count, limit)) <==> page * limit < count
  {
    var n := (count + limit - 1) / limit;
    var m := (count + limit - 1) % limit;
    assert count + limit - 1 == n * limit + m;
    assert n * limit == count + limit - 1 - m;
    assert (n - 1) * limit == count - 1 - m;
    if page < n {
      assert page <= n - 1;
      MultiplyMonotone(page, n - 1, limit);
    } else {
      MultiplyMonotone(n, page, limit);
    }
  }

  lemma MultiplyMonotone(a: int, b: int, c: int)
    requires a <= b && c > 0
    ensures a * c <= b * c
  {
    assert b * c - a * c == (b - a) * c;
  }

  // ---- GET /applications/:id ----

  datatype ApplicationDetail = ApplicationDetail(
    application: ApplicationRow,
    documents: multiset<DocumentEntry>,
    history: seq<HistoryRow>)

  /**
   * `SELECT * FROM application_history WHERE application_id = $1 ORDER BY
   * created_at DESC`, over a table kept in time order.
   */
  function HistoryNewestFirst(history: seq<HistoryRow>, id: Id): (r: seq<HistoryRow>)
    ensures forall h :: h in r <==> h in history && h.applicationId == id
    ensures HistoryOrdered(history) ==> forall i, j :: 0 <= i < j < |r| ==> r[i].createdAt > r[j].createdAt
  {
    var mine := Filter(history, HistoryOf(id));
    ReversedHistory(mine);
    assert HistoryOrdered(history) ==> HistoryOrdered(mine) by {
      if HistoryOrdered(history) {
        FilterKeepsHistoryOrder(history, HistoryOf(id));
      }
    }
    Reverse(mine)
  }

  /** Reversing history rows keeps the same rows and turns time order into newest first. */
  lemma ReversedHistory(rows: seq<HistoryRow>)
    ensures forall h :: h in Reverse(rows) <==> h in rows
    ensures HistoryOrdered(rows) ==>
              forall i, j :: 0 <= i < j < |Reverse(rows)| ==> Reverse(rows)[i].createdAt > Reverse(rows)[j].createdAt
  {
    var r := Reverse(rows);
    forall h | h in rows
      ensures h in r
    {
      var i :| 0 <= i < |rows| && rows[i] == h;
      assert r[|rows| - 1 - i] == h;
    }
    forall h | h in r
      ensures h in rows
    {
      var i :| 0 <= i < |r| && r[i] == h;
      assert rows[|rows| - 1 - i] == h;
    }
    if HistoryOrdered(rows) {
      forall i, j | 0 <= i < j < |r|
        ensures r[i].createdAt > r[j].createdAt
      {
        assert r[i] == rows[|rows| - 1 - i] && r[j] == rows[|rows| - 1 - j];
      }
    }
  }

  /**
   * `getApplication`: the caller's application with its documents and its
   * history, newest entry first; 404 for an id that is not theirs.
   * Calls: 0 is the application, 1 the history.
   */
  method GetApplication(db: Database, id: Id, userId: Id, f: Faults) returns (resp: Response<ApplicationDetail>)
    requires db.Valid()
    ensures Fails(f, 0) ==> resp == Response(500, WithMessage("Failed to fetch application"))
    ensures !Fails(f, 0) && FindApplication(db.tables.applications, id, userId).None? ==>
              resp == Response(404, WithMessage("Application not found"))
    ensures !Fails(f, 0) && FindApplication(db.tables.applications, id, userId).Some? && Fails(f, 1) ==>
              resp == Response(500, WithMessage("Failed to fetch application"))
    ensures !Fails(f, 0) && !Fails(f, 1) && FindApplication(db.tables.applications, id, userId).Some? ==>
              resp.status == 200 && resp.body.Payload? &&
              var detail := resp.body.value;
              detail.application == FindApplication(db.tables.applications, id, userId).value &&
              detail.documents == AggregatedDocuments(db.tables.documents, id) &&
              (forall h :: h in detail.history <==> h in db.tables.history && h.applicationId == id) &&
              (forall i, j :: 0 <= i < j < |detail.history| ==> detail.history[i].createdAt > detail.history[j].createdAt)
  {
    var t := db.tables;
    if Fails(f, 0) {
      return Response(500, WithMessage("Failed to fetch application"));
    }
    var found := FindApplication(t.applications, id, userId);
    if found.None? {
      return Response(404, WithMessage("Application not found"));
    }
    if Fails(f, 1) {
      return Response(500, WithMessage("Failed to fetch application"));
    }
    var history := HistoryNewestFirst(t.history, id);
    resp := Response(200, Payload(ApplicationDetail(found.value, AggregatedDocuments(t.documents, id), history)));
  }

  // ---- PUT /applications/:id ----

  /** The message every other failure of `updateApplication` is answered with. */
  const UpdateFailed: string := "Failed to update application"

  /** The row `UPDATE … SET data = COALESCE($1, data), status = COALESCE($2, status) RETURNING *` hands back. */
  function Revised(current: ApplicationRow, data: Option<Json>, status: Option<ApplicationStatus>): ApplicationRow {
    current.(data := data.GetOr(current.data), status := status.GetOr(current.status))
  }

  /**
   * The update changes only the row it checked, so reading that row back
   * finds the checked row with the given data and status, everything else
   * kept.
   */
  lemma CoalescedFindsRevised(apps: seq<ApplicationRow>, apps': seq<ApplicationRow>, id: Id, userId: Id,
                              data: Option<Json>, status: Option<ApplicationStatus>)
    requires FindApplication(apps, id, userId).Some?
    requires apps' == Coalesced(apps, id, userId, data, status) && AppsOrdered(apps')
    ensures var current := FindApplication(apps, id, userId).value;
            var r := Revised(current, data, status);
            FindApplication(apps', id, userId) == Some(r) &&
            r.id == current.id && r.userId == current.userId && r.appType == current.appType &&
            r.createdAt == current.createdAt && r.data == data.GetOr(current.data) && r.status == status.GetOr(current.status)
  {
    var current := FindApplication(apps, id, userId).value;
    var i :| 0 <= i < |apps| && apps[i] == current;
    assert apps'[i] == Revised(current, data, status);
    var found := FindApplication(apps', id, userId);
    assert found.Some?;
    SameIdSameApplication(apps', found.value, apps'[i]);
  }

  /** The history row of an update: the status before, and the status asked for or the same again. */
  function UpdateEntry(id: Id, userId: Id, current: ApplicationRow, status: Option<ApplicationStatus>, now: nat): HistoryRow {
    HistoryRow(id, userId, "update", current.status, status.GetOr(current.status), "Application updated", now)
  }

  /** The tables after the update (call 1) and its history row (call 2). */
  ghost predicate UpdateRecorded(t0: Tables, id: Id, userId: Id, data: Option<Json>, status: Option<ApplicationStatus>,
                                 current: ApplicationRow, now: nat, t: Tables)
  {
    t == t0.(applications := Coalesced(t0.applications, id, userId, data, status),
             history := t0.history + [UpdateEntry(id, userId, current, status, now)])
  }

  /** Calls 1 and 2 of `updateApplication`, on the row the check found. */
  method RecordUpdate(db: Database, id: Id, userId: Id, data: Option<Json>, status: Option<ApplicationStatus>,
                      current: ApplicationRow, f: Faults)
    returns (returned: Option<ApplicationRow>, err: Option<Thrown>)
    requires db.Valid() && Before(db.tables, db.clock)
    requires FindApplication(db.tables.applications, id, userId) == Some(current)
    modifies db
    ensures db.Valid() && db.inTransaction == old(db.inTransaction) && db.saved == old(db.saved)
    ensures db.clock == old(db.clock) && db.nextId == old(db.nextId)
    ensures err.Some? <==> Fails(f, 1) || Fails(f, 2)
    ensures err.Some? ==> err == Some(QueryError)
    ensures err.None? ==>
              returned == Some(Revised(current, data, status)) && HasApplication(db.tables.applications, id) &&
              UpdateRecorded(old(db.tables), id, userId, data, status, current, db.clock, db.tables)
  {
    if Fails(f, 1) {
      return None, Some(QueryError);
    }
    ghost var t0 := db.tables;
    returned := db.UpdateApplication(id, userId, data, status);
    CoalescedFindsRevised(t0.applications, db.tables.applications, id, userId, data, status);
    if Fails(f, 2) {
      return returned, Some(QueryError);
    }
    var row := db.InsertHistory(id, userId, "update", current.status, status.GetOr(current.status), "Application updated");
    err := None;
  }

  /**
   * What call k of update throws once the row was found: the file loop
   * starts at call 3, so from there an odd distance is an insert and an
   * even one an upload.
   */
  function UpdateError(f: Faults): (err: Thrown)
    requires f.failAt.Some?
    ensures err == UploadFailure <==> f.failAt.value >= 3 && (f.failAt.value - 3) % 2 == 0
    ensures err != UploadFailure ==> err == QueryError
  {
    if f.failAt.value >= 3 && (f.failAt.value - 3) % 2 == 0 then UploadFailure else QueryError
  }

  /** The bucket after update stopped at call k: the uploads of the files before it. */
  ghost predicate UpdateStopped(o0: set<string>, files: seq<UploadedFile>, f: Faults, objects: set<string>) {
    f.failAt.Some? && f.failAt.value >= 1 &&
    (f.failAt.value < 3 ==> objects == o0) &&
    (f.failAt.value >= 3 ==>
       (f.failAt.value - 2) / 2 <= |files| &&
       objects == o0 + UploadedKeys(files[..(f.failAt.value - 2) / 2], f.uuids, 3))
  }

  /** The update or its history row throws: nothing is uploaded. */
  lemma RecordStops(o0: set<string>, files: seq<UploadedFile>, f: Faults)
    requires Fails(f, 1) || Fails(f, 2)
    ensures UpdateStopped(o0, files, f, o0) && UpdateError(f) == QueryError
  {
  }

  /** A throw in the file loop of update, seen from the transaction. */
  lemma UpdateLoopStops(t0: Tables, o0: set<string>, files: seq<UploadedFile>, f: Faults, err: Thrown, t: Tables,
                        objects: set<string>)
    requires StoppedBy(t0, o0, files, f, 3, err, t, objects)
    ensures UpdateStopped(o0, files, f, objects) && err == UpdateError(f)
  {
    assert (f.failAt.value - 3 + 1) / 2 == (f.failAt.value - 2) / 2;
  }

  /**
   * What a committed update leaves: the row coalesced, its history row, the
   * pending documents of the files with one id each, and the uploads.
   */
  ghost predicate UpdateStored(t0: Tables, o0: set<string>, n0: nat, now: nat, id: Id, userId: Id, data: Option<Json>,
                               status: Option<ApplicationStatus>, current: ApplicationRow, files: seq<UploadedFile>,
                               f: Faults, t: Tables, objects: set<string>, nextId: nat)
  {
    t == t0.(applications := Coalesced(t0.applications, id, userId, data, status),
             history := t0.history + [UpdateEntry(id, userId, current, status, now)],
             documents := t0.documents + PendingDocuments(id, files, f.locations, n0, 3)) &&
    nextId == n0 + |files| && objects == o0 + UploadedKeys(files, f.uuids, 3)
  }

  /** The recorded update, then the file loop: the update is stored. */
  lemma UpdateDone(t0: Tables, o0: set<string>, n0: nat, now: nat, id: Id, userId: Id, data: Option<Json>,
                   status: Option<ApplicationStatus>, current: ApplicationRow, files: seq<UploadedFile>, f: Faults,
                   tB: Tables, cB: nat, t1: Tables, n1: nat, t: Tables, objects: set<string>, nextId: nat)
    requires tB == t0 && cB == now && n1 == n0
    requires UpdateRecorded(tB, id, userId, data, status, current, cB, t1)
    requires t == t1.(documents := t1.documents + PendingDocuments(id, files, f.locations, n1, 3))
    requires nextId == n1 + |files| && objects == o0 + UploadedKeys(files, f.uuids, 3)
    ensures UpdateStored(t0, o0, n0, now, id, userId, data, status, current, files, f, t, objects, nextId)
  {
  }

  /**
   * The part of the transaction of `updateApplication` after the check
   * found `current`: the update and its history row (calls 1 and 2), the
   * file loop (calls from 3) and COMMIT.
   */
  method ReviseApplication(db: Database, store: ObjectStore, id: Id, userId: Id, data: Option<Json>,
                           status: Option<ApplicationStatus>, current: ApplicationRow, files: seq<UploadedFile>, f: Faults)
    returns (returned: Option<ApplicationRow>, err: Option<Thrown>)
    requires db.Valid() && db.inTransaction && Before(db.tables, db.clock)
    requires FindApplication(db.tables.applications, id, userId) == Some(current)
    modifies db, store
    ensures db.Valid() && db.clock == old(db.clock) && db.saved == old(db.saved)
    ensures err.Some? <==> FailsIn(f, 1, 3 + 2 * |files|)
    ensures err.Some? ==>
              db.inTransaction && err.value == UpdateError(f) && UpdateStopped(old(store.objects), files, f, store.objects)
    ensures err.None? ==>
              !db.inTransaction && returned == Some(Revised(current, data, status)) &&
              UpdateStored(old(db.tables), old(store.objects), old(db.nextId), old(db.clock), id, userId, data, status,
                           current, files, f, db.tables, store.objects, db.nextId)
  {
    FailsInFirst(f, 1, 3 + 2 * |files|);
    FailsInFirst(f, 2, 3 + 2 * |files|);
    returned, err := RecordUpdate(db, id, userId, data, status, current, f);
    if err.Some? {
      RecordStops(store.objects, files, f);
      return;
    }
    ghost var t1, n1, c1 := db.tables, db.nextId, db.clock;
    err := AttachFiles(db, store, id, files, f, 3);
    if err.Some? {
      UpdateLoopStops(t1, old(store.objects), files, f, err.value, db.tables, store.objects);
      return;
    }
    db.Commit();
    UpdateDone(old(db.tables), old(store.objects), old(db.nextId), old(db.clock), id, userId, data, status, current,
               files, f, old(db.tables), c1, t1, n1, db.tables, store.objects, db.nextId);
  }

  /** Whether update reaches COMMIT: the check finds the caller's row and none of calls 0 to 2 + 2n throws. */
  ghost predicate UpdateCommits(apps: seq<ApplicationRow>, id: Id, userId: Id, files: seq<UploadedFile>, f: Faults) {
    FindApplication(apps, id, userId).Some? && !FailsIn(f, 0, 3 + 2 * |files|)
  }

  /** What the transaction of update throws when it does not reach COMMIT. */
  ghost function UpdateThrown(apps: seq<ApplicationRow>, id: Id, userId: Id, f: Faults): Thrown {
    if Fails(f, 0) then QueryError
    else if FindApplication(apps, id, userId).None? then NotFound
    else if f.failAt.Some? then UpdateError(f)
    else QueryError
  }

  /** The bucket when update does not reach COMMIT: untouched unless the file loop had begun. */
  ghost predicate UpdateHalted(o0: set<string>, apps: seq<ApplicationRow>, id: Id, userId: Id, files: seq<UploadedFile>,
                               f: Faults, objects: set<string>)
  {
    if Fails(f, 0) || FindApplication(apps, id, userId).None? then objects == o0
    else UpdateStopped(o0, files, f, objects)
  }

  /**
   * What the caller of update gets for a throw before COMMIT: 500 when the
   * check throws, 404 when the row is not the caller's, and after that 500
   * saying which kind of call threw.
   */
  lemma UpdateThrownAnswers(apps: seq<ApplicationRow>, id: Id, userId: Id, f: Faults)
    ensures Fails(f, 0) ==>
              Caught<ApplicationRow>(UpdateThrown(apps, id, userId, f), UpdateFailed) == Response(500, WithMessage(UpdateFailed))
    ensures !Fails(f, 0) && FindApplication(apps, id, userId).None? ==>
              Caught<ApplicationRow>(UpdateThrown(apps, id, userId, f), UpdateFailed) ==
                Response(404, WithMessage("Application not found"))
    ensures !Fails(f, 0) && FindApplication(apps, id, userId).Some? && f.failAt.Some? ==>
              Caught<ApplicationRow>(UpdateThrown(apps, id, userId, f), UpdateFailed) ==
                Response(500, WithMessage(if f.failAt.value >= 3 && (f.failAt.value - 3) % 2 == 0
                                          then "Failed to upload file" else UpdateFailed))
  {
  }

  /** Once the check found the row, update commits exactly when no later call throws. */
  lemma CheckedOutcome(apps: seq<ApplicationRow>, id: Id, userId: Id, files: seq<UploadedFile>, f: Faults,
                       o0: set<string>, objects: set<string>)
    requires !Fails(f, 0) && FindApplication(apps, id, userId).Some?
    ensures UpdateCommits(apps, id, userId, files, f) <==> !FailsIn(f, 1, 3 + 2 * |files|)
    ensures FailsIn(f, 1, 3 + 2 * |files|) ==>
              UpdateThrown(apps, id, userId, f) == UpdateError(f) &&
              (UpdateHalted(o0, apps, id, userId, files, f, objects) <==> UpdateStopped(o0, files, f, objects))
  {
    FailsInFirst(f, 0, 3 + 2 * |files|);
  }

  /** BEGIN changes no table: what is stored from its snapshot is stored from the one before it. */
  lemma StoredAfterBegin(t0: Tables, o0: set<string>, n0: nat, now: nat, id: Id, userId: Id, data: Option<Json>,
                         status: Option<ApplicationStatus>, current: ApplicationRow, files: seq<UploadedFile>, f: Faults,
                         t1: Tables, o1: set<string>, n1: nat, c1: nat, t: Tables, objects: set<string>, nextId: nat)
    requires t1 == t0 && o1 == o0 && n1 == n0 && c1 == now
    requires UpdateStored(t1, o1, n1, c1, id, userId, data, status, current, files, f, t, objects, nextId)
    ensures UpdateStored(t0, o0, n0, now, id, userId, data, status, current, files, f, t, objects, nextId)
  {
  }

  /**
   * The ownership check of `updateApplication` (call 0) inside the open
   * transaction, then the rest when it finds the caller's row.
   */
  method CheckAndRevise(db: Database, store: ObjectStore, id: Id, userId: Id, data: Option<Json>,
                        status: Option<ApplicationStatus>, files: seq<UploadedFile>, f: Faults)
    returns (found: Option<ApplicationRow>, returned: Option<ApplicationRow>, err: Option<Thrown>)
    requires db.Valid() && db.inTransaction && Before(db.tables, db.clock)
    modifies db, store
    ensures db.Valid() && db.clock == old(db.clock) && db.saved == old(db.saved)
    ensures err.None? <==> UpdateCommits(old(db.tables.applications), id, userId, files, f)
    ensures err.Some? ==>
              db.inTransaction && err.value == UpdateThrown(old(db.tables.applications), id, userId, f) &&
              UpdateHalted(old(store.objects), old(db.tables.applications), id, userId, files, f, store.objects)
    ensures err.None? ==>
              found.Some? && found == FindApplication(old(db.tables.applications), id, userId) &&
              !db.inTransaction && returned == Some(Revised(found.value, data, status)) &&
              UpdateStored(old(db.tables), old(store.objects), old(db.nextId), old(db.clock), id, userId, data, status,
                           found.value, files, f, db.tables, store.objects, db.nextId)
  {
    FailsInFirst(f, 0, 3 + 2 * |files|);
    if Fails(f, 0) {
      return None, None, Some(QueryError);
    }
    found := FindApplication(db.tables.applications, id, userId);
    if found.None? {
      return found, None, Some(NotFound);
    }
    ghost var o0 := store.objects;
    returned, err := ReviseApplication(db, store, id, userId, data, status, found.value, files, f);
    CheckedOutcome(old(db.tables.applications), id, userId, files, f, o0, store.objects);
  }

  /**
   * The transaction of `updateApplication`: BEGIN, then the check and the
   * rest. A throw leaves the transaction open with the tables BEGIN saved.
   */
  method StoreUpdate(db: Database, store: ObjectStore, id: Id, userId: Id, data: Option<Json>,
                     status: Option<ApplicationStatus>, files: seq<UploadedFile>, f: Faults)
    returns (found: Option<ApplicationRow>, returned: Option<ApplicationRow>, err: Option<Thrown>)
    requires db.Valid() && !db.inTransaction
    modifies db, store
    ensures db.Valid() && db.clock == old(db.clock) + 1
    ensures err.None? <==> UpdateCommits(old(db.tables.applications), id, userId, files, f)
    ensures err.Some? ==>
              db.inTransaction && db.saved == old(db.tables) &&
              err.value == UpdateThrown(old(db.tables.applications), id, userId, f) &&
              UpdateHalted(old(store.objects), old(db.tables.applications), id, userId, files, f, store.objects)
    ensures err.None? ==>
              found.Some? && found == FindApplication(old(db.tables.applications), id, userId) &&
              !db.inTransaction && returned == Some(Revised(found.value, data, status)) &&
              UpdateStored(old(db.tables), old(store.objects), old(db.nextId), old(db.clock) + 1, id, userId, data, status,
                           found.value, files, f, db.tables, store.objects, db.nextId)
  {
    db.Begin();
    ghost var t1, o1, n1, c1 := db.tables, store.objects, db.nextId, db.clock;
    found, returned, err := CheckAndRevise(db, store, id, userId, data, status, files, f);
    if err.None? {
      StoredAfterBegin(old(db.tables), old(store.objects), old(db.nextId), old(db.clock) + 1, id, userId, data, status,
                       found.value, files, f, t1, o1, n1, c1, db.tables, store.objects, db.nextId);
    }
  }

  /** Whether the update sends a notification: a status is given and differs from the current one. */
  predicate StatusChanged(current: ApplicationRow, status: Option<ApplicationStatus>) {
    status.Some? && status.value != current.status
  }

  /**
   * What the notification step of update leaves, from the tables t1 and
   * next id n1 after COMMIT: nothing without a status change; otherwise as
   * `sendNotification` leaves it, with a throw exactly when it did not get
   * through, never an `ApplicationError`.
   */
  ghost predicate StatusNotified(t1: Tables, n1: nat, m0: seq<Email>, id: Id, userId: Id, current: ApplicationRow,
                                 status: Option<ApplicationStatus>, files: seq<UploadedFile>, f: Faults, t: Tables,
                                 mails: seq<Email>, err: Option<Thrown>)
  {
    var first := 3 + 2 * |files|;
    (!StatusChanged(current, status) ==> t == t1 && mails == m0 && err.None?) &&
    (StatusChanged(current, status) ==>
       var data := StatusChangedData(current.status, status.value);
       var p := NotificationPayload(ApplicationStatusChanged, userId, id, data);
       (if Fails(f, first) then t == t1
        else t == t1.(notifications := t1.notifications + [NotificationRow(n1, userId, ApplicationStatusChanged, id, data, None)])) &&
       mails == m0 + Mailed(t1.users, p, f, first) &&
       (err.None? <==> Delivered(t1.users, p, f, first)) &&
       (err.Some? ==> !err.value.AppErr?))
  }

  /** `if (status && status !== currentApplication.status) await sendNotification(…)` (calls from 3 + 2n). */
  method NotifyStatusChange(db: Database, mailer: Mailer, id: Id, userId: Id, current: ApplicationRow,
                            status: Option<ApplicationStatus>, files: seq<UploadedFile>, f: Faults)
    returns (err: Option<Thrown>)
    requires db.Valid()
    modifies db, mailer
    ensures db.Valid() && db.inTransaction == old(db.inTransaction) && db.clock == old(db.clock)
    ensures StatusNotified(old(db.tables), old(db.nextId), old(mailer.sent), id, userId, current, status, files, f,
                           db.tables, mailer.sent, err)
  {
    if status.Some? && status.value != current.status {
      var p := NotificationPayload(ApplicationStatusChanged, userId, id, StatusChangedData(current.status, status.value));
      var sent := SendNotification(db, mailer, p, f, 3 + 2 * |files|);
      err := if sent.Err? then Some(sent.error) else None;
    } else {
      err := None;
    }
  }

  /**
   * What an update that got past COMMIT leaves: the stored update, the
   * notification row and mail of a status change, and `delivered` exactly
   * when the notification step returned normally.
   */
  ghost predicate UpdatedAndNotified(t0: Tables, o0: set<string>, n0: nat, m0: seq<Email>, now: nat, id: Id, userId: Id,
                                     data: Option<Json>, status: Option<ApplicationStatus>, current: ApplicationRow,
                                     files: seq<UploadedFile>, f: Faults, t: Tables, objects: set<string>,
                                     mails: seq<Email>, delivered: bool)
  {
    var first := 3 + 2 * |files|;
    t.applications == Coalesced(t0.applications, id, userId, data, status) &&
    t.history == t0.history + [UpdateEntry(id, userId, current, status, now)] &&
    t.documents == t0.documents + PendingDocuments(id, files, f.locations, n0, 3) &&
    t.users == t0.users &&
    objects == o0 + UploadedKeys(files, f.uuids, 3) &&
    (!StatusChanged(current, status) ==> t.notifications == t0.notifications && mails == m0 && delivered) &&
    (StatusChanged(current, status) ==>
       var data := StatusChangedData(current.status, status.value);
       var p := NotificationPayload(ApplicationStatusChanged, userId, id, data);
       t.notifications == t0.notifications +
         (if Fails(f, first) then [] else [NotificationRow(n0 + |files|, userId, ApplicationStatusChanged, id, data, None)]) &&
       mails == m0 + Mailed(t0.users, p, f, first) &&
       (delivered <==> Delivered(t0.users, p, f, first)))
  }

  /** The stored update, then the notification step. */
  lemma UpdateNotified(t0: Tables, o0: set<string>, n0: nat, m0: seq<Email>, now: nat, id: Id, userId: Id,
                       data: Option<Json>, status: Option<ApplicationStatus>, current: ApplicationRow,
                       files: seq<UploadedFile>, f: Faults, t1: Tables, objects: set<string>, n1: nat,
                       current': ApplicationRow, t: Tables, mails: seq<Email>, err: Option<Thrown>)
    requires UpdateStored(t0, o0, n0, now, id, userId, data, status, current, files, f, t1, objects, n1)
    requires current' == current
    requires StatusNotified(t1, n1, m0, id, userId, current', status, files, f, t, mails, err)
    ensures UpdatedAndNotified(t0, o0, n0, m0, now, id, userId, data, status, current, files, f, t, objects, mails, err.None?)
  {
    if StatusChanged(current, status) && Fails(f, 3 + 2 * |files|) {
      assert t0.notifications + [] == t0.notifications;
    }
  }

  /**
   * The `try` block of `updateApplication`: the transaction, then the
   * notification of a status change, which comes after COMMIT.
   */
  method UpdateSteps(db: Database, store: ObjectStore, mailer: Mailer, id: Id, userId: Id, data: Option<Json>,
                     status: Option<ApplicationStatus>, files: seq<UploadedFile>, f: Faults)
    returns (returned: Option<ApplicationRow>, err: Option<Thrown>)
    requires db.Valid() && !db.inTransaction
    modifies db, store, mailer
    ensures db.Valid() && db.clock == old(db.clock) + 1
    ensures !UpdateCommits(old(db.tables.applications), id, userId, files, f) ==>
              db.inTransaction && db.saved == old(db.tables) && mailer.sent == old(mailer.sent) &&
              err == Some(UpdateThrown(old(db.tables.applications), id, userId, f)) &&
              UpdateHalted(old(store.objects), old(db.tables.applications), id, userId, files, f, store.objects)
    ensures UpdateCommits(old(db.tables.applications), id, userId, files, f) ==>
              var current := FindApplication(old(db.tables.applications), id, userId).value;
              !db.inTransaction && returned == Some(Revised(current, data, status)) &&
              UpdatedAndNotified(old(db.tables), old(store.objects), old(db.nextId), old(mailer.sent), old(db.clock) + 1,
                                 id, userId, data, status, current, files, f, db.tables, store.objects, mailer.sent,
                                 err.None?) &&
              (err.Some? ==> !err.value.AppErr?)
  {
    var found;
    found, returned, err := StoreUpdate(db, store, id, userId, data, status, files, f);
    if err.Some? {
      return;
    }
    ghost var t1, n1, o1 := db.tables, db.nextId, store.objects;
    var current := found.value;
    err := NotifyStatusChange(db, mailer, id, userId, current, status, files, f);
    UpdateNotified(old(db.tables), old(store.objects), old(db.nextId), old(mailer.sent), old(db.clock) + 1, id, userId,
                   data, status, current, files, f, t1, o1, n1, current, db.tables, mailer.sent, err);
  }

  /**
   * `updateApplication`: the `try` block, and a catch that rolls back and
   * answers. A throw before COMMIT rolls the rows back and keeps the
   * uploads; a throw from the notification comes after COMMIT, so the
   * ROLLBACK does nothing and the caller gets a 500 although the update
   * was stored.
   */
  method UpdateApplication(db: Database, store: ObjectStore, mailer: Mailer, id: Id, userId: Id,
                           data: Option<Json>, status: Option<ApplicationStatus>,
                           files: Option<seq<UploadedFile>>, f: Faults)
    returns (resp: Response<ApplicationRow>)
    requires db.Valid() && !db.inTransaction
    modifies db, store, mailer
    ensures db.Valid() && !db.inTransaction && db.clock == old(db.clock) + 1
    ensures !UpdateCommits(old(db.tables.applications), id, userId, FileList(files), f) ==>
              db.tables == old(db.tables) && mailer.sent == old(mailer.sent) &&
              UpdateHalted(old(store.objects), old(db.tables.applications), id, userId, FileList(files), f, store.objects) &&
              resp == Caught(UpdateThrown(old(db.tables.applications), id, userId, f), UpdateFailed)
    ensures UpdateCommits(old(db.tables.applications), id, userId, FileList(files), f) ==>
              var current := FindApplication(old(db.tables.applications), id, userId).value;
              UpdatedAndNotified(old(db.tables), old(store.objects), old(db.nextId), old(mailer.sent), old(db.clock) + 1,
                                 id, userId, data, status, current, FileList(files), f, db.tables, store.objects,
                                 mailer.sent, resp.status == 200) &&
              (resp == Response(200, Payload(Revised(current, data, status))) || resp == Response(500, WithMessage(UpdateFailed)))
  {
    var returned, err := UpdateSteps(db, store, mailer, id, userId, data, status, FileList(files), f);
    if err.Some? {
      db.Rollback();
      return Caught(err.value, UpdateFailed);
    }
    resp := Response(200, Payload(returned.value));
  }

  // ---- DELETE /applications/:id ----

  /** What `throw new ApplicationError('Application not found', 404)` throws. */
  const NotFound: Thrown := AppErr(NewApplicationError("Application not found", Some(404)))

  /**
   * The tables after the three DELETE statements: the caller's application
   * with this id, and every document and history row of the id.
   */
  function WithoutApplication(t: Tables, id: Id, userId: Id): Tables {
    t.(applications := Filter(t.applications, OtherThan(id, userId)),
       documents := Filter(t.documents, DocumentsOutside(id)),
       history := Filter(t.history, HistoryOutside(id)))
  }

  /**
   * Deleting the caller's application leaves no row with its id, nothing
   * that refers to it, and every other application, document and history
   * row, and the users and notifications, as they were.
   */
  lemma DeletionRemovesOnlyTheApplication(t: Tables, id: Id, userId: Id)
    requires AppsOrdered(t.applications) && FindApplication(t.applications, id, userId).Some?
    ensures var after := WithoutApplication(t, id, userId);
            !HasApplication(after.applications, id) &&
            (forall d :: d in after.documents <==> d in t.documents && d.applicationId != id) &&
            (forall h :: h in after.history <==> h in t.history && h.applicationId != id) &&
            (forall a :: a in after.applications <==> a in t.applications && a.id != id) &&
            after.users == t.users && after.notifications == t.notifications
  {
    var owned := FindApplication(t.applications, id, userId).value;
    var after := WithoutApplication(t, id, userId);
    forall a | a in t.applications && a.id == id
      ensures a !in after.applications
    {
      SameIdSameApplication(t.applications, a, owned);
    }
  }

  /**
   * The `try` block of `deleteApplication`: BEGIN, the ownership check
   * (call 0), the three deletes (calls 1 to 3) and COMMIT. A throw leaves the
   * transaction open with the tables BEGIN saved.
   */
  method DeleteSteps(db: Database, id: Id, userId: Id, f: Faults) returns (err: Option<Thrown>)
    requires db.Valid() && !db.inTransaction
    modifies db
    ensures db.Valid()
    ensures Fails(f, 0) ==> err == Some(QueryError)
    ensures !Fails(f, 0) && FindApplication(old(db.tables.applications), id, userId).None? ==> err == Some(NotFound)
    ensures FindApplication(old(db.tables.applications), id, userId).Some? && FailsIn(f, 1, 4) ==> err == Some(QueryError)
    ensures FindApplication(old(db.tables.applications), id, userId).Some? && !FailsIn(f, 0, 4) ==> err == None
    ensures err.Some? ==> db.inTransaction && db.saved == old(db.tables)
    ensures err.None? ==> !db.inTransaction && db.tables == WithoutApplication(old(db.tables), id, userId)
  {
    FailsInFirst(f, 0, 4);
    FailsInFirst(f, 1, 4);
    FailsInFirst(f, 2, 4);
    FailsInFirst(f, 3, 4);
    FailsInFirst(f, 4, 4);
    db.Begin();
    if Fails(f, 0) {
      return Some(QueryError);
    }
    if FindApplication(db.tables.applications, id, userId).None? {
      return Some(NotFound);
    }
    if Fails(f, 1) {
      return Some(QueryError);
    }
    ghost var t0 := db.tables;
    db.DeleteDocumentsOf(id);
    if Fails(f, 2) {
      return Some(QueryError);
    }
    db.DeleteHistoryOf(id);
    if Fails(f, 3) {
      return Some(QueryError);
    }
    db.DeleteApplication(id, userId);
    db.Commit();
    err := None;
  }

  /**
   * `deleteApplication`: the application's documents, then its history, then
   * the row itself, all or nothing; a throw is rolled back and answered by
   * the catch. The handler has no access to the object store, so the stored
   * files of the deleted documents stay in the bucket.
   */
  method DeleteApplication(db: Database, id: Id, userId: Id, f: Faults) returns (resp: Response<()>)
    requires db.Valid() && !db.inTransaction
    modifies db
    ensures db.Valid() && !db.inTransaction
    ensures Fails(f, 0) ==> db.tables == old(db.tables) && resp == Response(500, WithMessage("Failed to delete application"))
    ensures !Fails(f, 0) && FindApplication(old(db.tables.applications), id, userId).None? ==>
              db.tables == old(db.tables) && resp == Response(404, WithMessage("Application not found"))
    ensures FindApplication(old(db.tables.applications), id, userId).Some? && FailsIn(f, 1, 4) ==>
              db.tables == old(db.tables) && resp == Response(500, WithMessage("Failed to delete application"))
    ensures FindApplication(old(db.tables.applications), id, userId).Some? && !FailsIn(f, 0, 4) ==>
              resp == Response(204, NoBody) && db.tables == WithoutApplication(old(db.tables), id, userId)
  {
    var err := DeleteSteps(db, id, userId, f);
    if err.Some? {
      db.Rollback();
      return Caught(err.value, "Failed to delete application");
    }
    resp := Response(204, NoBody);
  }
}
