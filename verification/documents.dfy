/**
 * `DocumentService` (src/services/document.service.ts): uploading a
 * document to an application the caller owns, reading one through its
 * application, verifying one, and deleting one together with its stored
 * object. The writes run in one transaction each; a throw issues ROLLBACK
 * and is thrown on, and an object already written to or removed from the
 * bucket stays so.
 */
module Documents {
  import opened Wrappers
  import opened Domain
  import opened Errors
  import opened Failures
  import opened Store
  import opened Storage

  /** The `Document` the service returns: the row under camelCase names. */
  datatype Document = Document(
    id: Id,
    applicationId: Id,
    docType: string,
    path: string,
    status: DocumentStatus,
    verifiedAt: Option<nat>,
    verifiedBy: Option<Id>,
    metadata: Option<map<string, Json>>)

  /** `mapDocumentFromDb(row)`. */
  function MapDocument(row: DocumentRow): Document {
    Document(row.id, row.applicationId, row.docType, row.path, row.status, row.verifiedAt, row.verifiedBy, row.metadata)
  }

  /** The row a `Document` was read from, under the column names. */
  function RowOf(d: Document): DocumentRow {
    DocumentRow(d.id, d.applicationId, d.docType, d.path, d.status, d.verifiedAt, d.verifiedBy, d.metadata)
  }

  /** The mapping only renames: it loses nothing and invents nothing. */
  lemma MapDocumentRenamesOnly(row: DocumentRow, d: Document)
    ensures RowOf(MapDocument(row)) == row
    ensures MapDocument(RowOf(d)) == d
    ensures MapDocument(row) == d <==> row == RowOf(d)
  {
  }

  const ApplicationNotFound: Thrown := AppErr(NewApplicationError("Application not found", Some(404)))
  const UnauthorizedAccess: Thrown := AppErr(NewApplicationError("Unauthorized access", Some(403)))
  const DocumentNotFound: Thrown := AppErr(NewApplicationError("Document not found", Some(404)))
  const UploadFailed: Thrown := AppErr(NewApplicationError("Failed to upload file", Some(500)))
  const DeleteFailed: Thrown := AppErr(NewApplicationError("Failed to delete file", Some(500)))

  // ---- uploadDocument ----

  /** What the service knows of the file itself. */
  function FileFacts(file: UploadedFile): map<string, Json> {
    map["originalName" := JStr(file.originalname), "mimeType" := JStr(file.mimetype), "size" := JNum(file.size)]
  }

  /**
   * `{ originalName, mimeType, size, ...data.metadata }`: the caller's keys
   * come last and win.
   */
  function UploadMetadata(file: UploadedFile, metadata: Option<map<string, Json>>): (m: map<string, Json>)
    ensures metadata.None? ==> m == FileFacts(file)
    ensures metadata.Some? ==> m.Keys == FileFacts(file).Keys + metadata.value.Keys
    ensures metadata.Some? ==> forall k :: k in metadata.value ==> m[k] == metadata.value[k]
    ensures forall k :: k in FileFacts(file) && (metadata.None? || k !in metadata.value) ==> m[k] == FileFacts(file)[k]
  {
    if metadata.None? then FileFacts(file) else FileFacts(file) + metadata.value
  }

  /**
   * Nothing protects the facts of the file: caller metadata naming
   * `originalName` or `size` replaces what the upload itself reported.
   */
  lemma CallerMetadataOverridesFileFacts(file: UploadedFile, name: string, size: int)
    ensures UploadMetadata(file, Some(map["originalName" := JStr(name), "size" := JNum(size)])) ==
              map["originalName" := JStr(name), "mimeType" := JStr(file.mimetype), "size" := JNum(size)]
  {
    var m := UploadMetadata(file, Some(map["originalName" := JStr(name), "size" := JNum(size)]));
    assert m.Keys == {"originalName", "mimeType", "size"};
  }

  /** `SELECT user_id FROM applications WHERE id = $1` found the application, and it is the caller's. */
  predicate MayUpload(apps: seq<ApplicationRow>, applicationId: Id, userId: Id) {
    FindApplicationById(apps, applicationId).Some? && FindApplicationById(apps, applicationId).value.userId == userId
  }

  /** Whether upload reaches COMMIT: the object is written, then the row inserted (call 2). */
  predicate UploadCommits(apps: seq<ApplicationRow>, applicationId: Id, userId: Id, f: Faults) {
    UploadWritten(apps, applicationId, userId, f) && !Fails(f, 2)
  }

  /** What upload throws when it does not reach COMMIT. */
  function UploadThrown(apps: seq<ApplicationRow>, applicationId: Id, userId: Id, f: Faults): Thrown {
    if Fails(f, 0) then QueryError
    else if FindApplicationById(apps, applicationId).None? then ApplicationNotFound
    else if FindApplicationById(apps, applicationId).value.userId != userId then UnauthorizedAccess
    else if Fails(f, 1) then UploadFailed
    else QueryError
  }

  /**
   * Whether upload gets as far as writing the object: past the lookup
   * (call 0), both checks, and the upload (call 1).
   */
  predicate UploadWritten(apps: seq<ApplicationRow>, applicationId: Id, userId: Id, f: Faults) {
    MayUpload(apps, applicationId, userId) && !Fails(f, 0) && !Fails(f, 1)
  }

  /** The row the insert of upload adds, with id `nextId`. */
  function UploadedRow(nextId: nat, applicationId: Id, docType: string, file: UploadedFile,
                       metadata: Option<map<string, Json>>, f: Faults): DocumentRow
  {
    DocumentRow(nextId, applicationId, docType, f.locations(1), Pending, None, None, Some(UploadMetadata(file, metadata)))
  }

  /**
   * The two refusals come before any storage call: a missing application
   * is a 404 and another user's a 403, and neither writes an object.
   */
  lemma UploadRefusals(apps: seq<ApplicationRow>, applicationId: Id, userId: Id, f: Faults)
    requires !Fails(f, 0)
    ensures !HasApplication(apps, applicationId) ==>
              UploadThrown(apps, applicationId, userId, f) == ApplicationNotFound &&
              !UploadWritten(apps, applicationId, userId, f)
    ensures forall a :: a in apps && a.id == applicationId && a.userId != userId && AppsOrdered(apps) ==>
              UploadThrown(apps, applicationId, userId, f) == UnauthorizedAccess &&
              !UploadWritten(apps, applicationId, userId, f)
  {
    forall a | a in apps && a.id == applicationId && a.userId != userId && AppsOrdered(apps)
      ensures UploadThrown(apps, applicationId, userId, f) == UnauthorizedAccess
    {
      SameIdSameApplication(apps, a, FindApplicationById(apps, applicationId).value);
    }
  }

  /** The part of `uploadDocument` between BEGIN and COMMIT. */
  method UploadSteps(db: Database, store: ObjectStore, applicationId: Id, docType: string, file: UploadedFile,
                     metadata: Option<map<string, Json>>, userId: Id, f: Faults)
    returns (row: DocumentRow, err: Option<Thrown>)
    requires db.Valid() && db.inTransaction
    modifies db, store
    ensures db.Valid() && db.inTransaction && db.saved == old(db.saved) && db.clock == old(db.clock)
    ensures err.None? <==> UploadCommits(old(db.tables.applications), applicationId, userId, f)
    ensures err.Some? ==> err.value == UploadThrown(old(db.tables.applications), applicationId, userId, f)
    ensures store.objects == old(store.objects) +
              (if UploadWritten(old(db.tables.applications), applicationId, userId, f)
               then {UploadKey(f.uuids(1), file.originalname)} else {})
    ensures err.None? ==>
              row == UploadedRow(old(db.nextId), applicationId, docType, file, metadata, f) &&
              db.tables == old(db.tables).(documents := old(db.tables.documents) + [row])
  {
    row := UploadedRow(db.nextId, applicationId, docType, file, metadata, f);
    if Fails(f, 0) {
      return row, Some(QueryError);
    }
    var owner := FindApplicationById(db.tables.applications, applicationId);
    if owner.None? {
      return row, Some(ApplicationNotFound);
    }
    if owner.value.userId != userId {
      return row, Some(UnauthorizedAccess);
    }
    var upload := store.Upload(file, f.uuids(1), f.locations(1), Fails(f, 1));
    if upload.Err? {
      return row, Some(AppErr(upload.error));
    }
    if Fails(f, 2) {
      return row, Some(QueryError);
    }
    row := db.InsertDocument(applicationId, docType, upload.value.location, Some(UploadMetadata(file, metadata)));
    err := None;
  }

  /**
   * `uploadDocument`: BEGIN, the steps, then COMMIT and the mapped row, or
   * ROLLBACK and the throw passed on. The object of a failed insert stays
   * in the bucket.
   */
  method UploadDocument(db: Database, store: ObjectStore, applicationId: Id, docType: string, file: UploadedFile,
                        metadata: Option<map<string, Json>>, userId: Id, f: Faults)
    returns (r: Result<Document, Thrown>)
    requires db.Valid() && !db.inTransaction
    modifies db, store
    ensures db.Valid() && !db.inTransaction && db.clock == old(db.clock) + 1
    ensures r.Ok? <==> UploadCommits(old(db.tables.applications), applicationId, userId, f)
    ensures r.Err? ==>
              r.error == UploadThrown(old(db.tables.applications), applicationId, userId, f) && db.tables == old(db.tables)
    ensures r.Ok? ==>
              var row := UploadedRow(old(db.nextId), applicationId, docType, file, metadata, f);
              r.value == MapDocument(row) && db.tables == old(db.tables).(documents := old(db.tables.documents) + [row])
    ensures store.objects == old(store.objects) +
              (if UploadWritten(old(db.tables.applications), applicationId, userId, f)
               then {UploadKey(f.uuids(1), file.originalname)} else {})
  {
    db.Begin();
    var row, err := UploadSteps(db, store, applicationId, docType, file, metadata, userId, f);
    if err.Some? {
      db.Rollback();
      return Err(err.value);
    }
    db.Commit();
    r := Ok(MapDocument(row));
  }

  // ---- getDocument ----

  /**
   * `SELECT d.* FROM documents d JOIN applications a ON d.application_id =
   * a.id WHERE d.id = $1 AND a.user_id = $2`: the document with this id
   * whose application belongs to the caller.
   */
  function OwnedDocument(t: Tables, id: Id, userId: Id): (r: Option<DocumentRow>)
    ensures r.Some? ==>
              r.value in t.documents && r.value.id == id && FindApplication(t.applications, r.value.applicationId, userId).Some?
    ensures r.None? <==>
              forall d :: d in t.documents && d.id == id ==> FindApplication(t.applications, d.applicationId, userId).None?
  {
    FindFirst(t.documents, (d: DocumentRow) => d.id == id && FindApplication(t.applications, d.applicationId, userId).Some?)
  }

  /**
   * The join hides every document whose application belongs to somebody
   * else, even from a caller who knows its id.
   */
  lemma OthersDocumentsAreHidden(t: Tables, nextId: nat, clock: nat, d: DocumentRow, userId: Id)
    requires WellFormed(t, nextId, clock) && d in t.documents
    requires forall a :: a in t.applications && a.id == d.applicationId ==> a.userId != userId
    ensures OwnedDocument(t, d.id, userId).None?
  {
    forall e | e in t.documents && e.id == d.id
      ensures FindApplication(t.applications, e.applicationId, userId).None?
    {
      var i :| 0 <= i < |t.documents| && t.documents[i] == e;
      var j :| 0 <= j < |t.documents| && t.documents[j] == d;
      assert i == j;
    }
  }

  /** `getDocument` (call 0 is the query). */
  method GetDocument(db: Database, id: Id, userId: Id, f: Faults) returns (r: Result<Document, Thrown>)
    ensures Fails(f, 0) ==> r == Err(QueryError)
    ensures !Fails(f, 0) ==>
              (r.Ok? <==> exists d :: d in db.tables.documents && d.id == id &&
                                      FindApplication(db.tables.applications, d.applicationId, userId).Some?)
    ensures !Fails(f, 0) && r.Err? ==> r.error == DocumentNotFound
    ensures r.Ok? ==>
              RowOf(r.value) in db.tables.documents && r.value.id == id &&
              FindApplication(db.tables.applications, r.value.applicationId, userId).Some?
  {
    if Fails(f, 0) {
      return Err(QueryError);
    }
    var found := OwnedDocument(db.tables, id, userId);
    if found.None? {
      return Err(DocumentNotFound);
    }
    MapDocumentRenamesOnly(found.value, MapDocument(found.value));
    r := Ok(MapDocument(found.value));
  }

  // ---- verifyDocument ----

  /** `SELECT … FROM documents WHERE id = $1`. */
  function FindDocument(docs: seq<DocumentRow>, id: Id): (r: Option<DocumentRow>)
    ensures r.Some? ==> r.value in docs && r.value.id == id
    ensures r.None? <==> forall d :: d in docs ==> d.id != id
  {
    FindFirst(docs, (d: DocumentRow) => d.id == id)
  }

  /** `JSON.stringify(data.notes)`: a string, or undefined, which pg sends as NULL. */
  function NotesParam(notes: Option<string>): (r: Option<Json>)
    ensures r.Some? <==> notes.Some?
    ensures notes.Some? ==> r.value == JStr(notes.value)
  {
    if notes.Some? then Some(JStr(notes.value)) else None
  }

  /** The row `UPDATE documents SET …` writes over `d` at time `now`. */
  function Verified(d: DocumentRow, status: DocumentStatus, verifierId: Id, now: nat, notes: Option<string>): DocumentRow {
    d.(status := status, verifiedAt := Some(now), verifiedBy := Some(verifierId),
       metadata := JsonbSetNotes(d.metadata, NotesParam(notes)))
  }

  /**
   * Without notes the strict `jsonb_set` returns NULL, so the whole
   * metadata (original name, type, size) is lost; with notes every other
   * key is kept.
   */
  lemma VerifyWithoutNotesClearsMetadata(d: DocumentRow, status: DocumentStatus, verifierId: Id, now: nat, notes: string)
    ensures Verified(d, status, verifierId, now, None).metadata == None
    ensures var m := Verified(d, status, verifierId, now, Some(notes)).metadata;
            m.Some? && m.value["verificationNotes"] == JStr(notes) &&
            (d.metadata.Some? ==> forall k :: k in d.metadata.value && k != "verificationNotes" ==>
                                    k in m.value && m.value[k] == d.metadata.value[k])
  {
  }

  /** After the UPDATE, the row with the id is the verified one; with no row there is none. */
  lemma VerifiedRowFound(docs: seq<DocumentRow>, id: Id, status: DocumentStatus, verifierId: Id, now: nat,
                         notes: Option<string>)
    requires DocumentIdsDistinct(docs)
    ensures FindDocument(docs, id).None? ==>
              FindDocument(VerifiedRows(docs, id, status, verifierId, now, NotesParam(notes)), id).None?
    ensures FindDocument(docs, id).Some? ==>
              FindDocument(VerifiedRows(docs, id, status, verifierId, now, NotesParam(notes)), id) ==
                Some(Verified(FindDocument(docs, id).value, status, verifierId, now, notes))
  {
    var rows := VerifiedRows(docs, id, status, verifierId, now, NotesParam(notes));
    if FindDocument(docs, id).None? {
      forall e | e in rows
        ensures e.id != id
      {
        var i :| 0 <= i < |rows| && rows[i] == e;
        assert docs[i] in docs;
      }
    } else {
      var d := FindDocument(docs, id).value;
      var i :| 0 <= i < |docs| && docs[i] == d;
      assert rows[i] == Verified(d, status, verifierId, now, notes);
      FindFirstUnique(rows, (e: DocumentRow) => e.id == id, rows[i]);
    }
  }

  /**
   * `verifyDocument`: BEGIN, the UPDATE (call 0), then COMMIT and the
   * updated row, or ROLLBACK and a 404 when no row has the id. Nobody's
   * ownership is checked: any verifier may verify any document.
   */
  method VerifyDocument(db: Database, id: Id, status: DocumentStatus, notes: Option<string>, verifierId: Id, f: Faults)
    returns (r: Result<Document, Thrown>)
    requires db.Valid() && !db.inTransaction
    modifies db
    ensures db.Valid() && !db.inTransaction && db.clock == old(db.clock) + 1 && db.nextId == old(db.nextId)
    ensures r.Ok? <==> !Fails(f, 0) && FindDocument(old(db.tables.documents), id).Some?
    ensures Fails(f, 0) ==> r == Err(QueryError)
    ensures !Fails(f, 0) && FindDocument(old(db.tables.documents), id).None? ==> r == Err(DocumentNotFound)
    ensures r.Err? ==> db.tables == old(db.tables)
    ensures r.Ok? ==>
              r.value == MapDocument(Verified(FindDocument(old(db.tables.documents), id).value, status, verifierId,
                                              old(db.clock) + 1, notes)) &&
              db.tables == old(db.tables).(documents := VerifiedRows(old(db.tables.documents), id, status, verifierId,
                                                                     old(db.clock) + 1, NotesParam(notes)))
  {
    db.Begin();
    if Fails(f, 0) {
      db.Rollback();
      return Err(QueryError);
    }
    VerifiedRowFound(db.tables.documents, id, status, verifierId, db.clock, notes);
    db.VerifyDocument(id, status, verifierId, NotesParam(notes));
    var returned := FindDocument(db.tables.documents, id);
    if returned.None? {
      db.Rollback();
      return Err(DocumentNotFound);
    }
    db.Commit();
    r := Ok(MapDocument(returned.value));
  }

  // ---- deleteDocument ----

  /**
   * Whether delete gets as far as removing the object: past the lookup
   * (call 0), the caller's document found, its key read from the path, and
   * the deletion (call 1) done.
   */
  predicate ObjectRemoved(t: Tables, id: Id, userId: Id, f: Faults) {
    !Fails(f, 0) && OwnedDocument(t, id, userId).Some? &&
    GetKeyFromUrl(OwnedDocument(t, id, userId).value.path).Ok? && !Fails(f, 1)
  }

  /** Whether delete reaches COMMIT: the object is removed and then the row (call 2). */
  predicate DeleteCommits(t: Tables, id: Id, userId: Id, f: Faults) {
    ObjectRemoved(t, id, userId, f) && !Fails(f, 2)
  }

  /** What delete throws when it does not reach COMMIT; a key that cannot be read from the path is a 400. */
  function DeleteThrown(t: Tables, id: Id, userId: Id, f: Faults): Thrown {
    if Fails(f, 0) then QueryError
    else if OwnedDocument(t, id, userId).None? then DocumentNotFound
    else if GetKeyFromUrl(OwnedDocument(t, id, userId).value.path).Err? then
      AppErr(GetKeyFromUrl(OwnedDocument(t, id, userId).value.path).error)
    else if Fails(f, 1) then DeleteFailed
    else QueryError
  }

  /**
   * The object goes before the row: when the row's DELETE throws, the
   * ROLLBACK keeps the row while its object is already gone.
   */
  lemma RowFailureLeavesDanglingRow(t: Tables, id: Id, userId: Id, f: Faults)
    requires ObjectRemoved(t, id, userId, f) && Fails(f, 2)
    ensures !DeleteCommits(t, id, userId, f) && DeleteThrown(t, id, userId, f) == QueryError
  {
  }

  /** Once the caller's row is found: the key from its path, the object's deletion (call 1), the row's (call 2). */
  method RemoveDocument(db: Database, store: ObjectStore, row: DocumentRow, f: Faults) returns (err: Option<Thrown>)
    requires db.Valid()
    modifies db, store
    ensures db.Valid() && db.inTransaction == old(db.inTransaction) && db.saved == old(db.saved) && db.clock == old(db.clock)
    ensures err.None? <==> GetKeyFromUrl(row.path).Ok? && !Fails(f, 1) && !Fails(f, 2)
    ensures GetKeyFromUrl(row.path).Err? ==> err == Some(AppErr(GetKeyFromUrl(row.path).error))
    ensures GetKeyFromUrl(row.path).Ok? && Fails(f, 1) ==> err == Some(DeleteFailed)
    ensures GetKeyFromUrl(row.path).Ok? && !Fails(f, 1) && Fails(f, 2) ==> err == Some(QueryError)
    ensures store.objects == (if GetKeyFromUrl(row.path).Ok? && !Fails(f, 1)
                              then old(store.objects) - {GetKeyFromUrl(row.path).value} else old(store.objects))
    ensures err.None? ==> db.tables == old(db.tables).(documents := Filter(old(db.tables.documents), DocumentsOtherThan(row.id)))
  {
    var key := GetKeyFromUrl(row.path);
    if key.Err? {
      return Some(AppErr(key.error));
    }
    var deleted := store.Delete(key.value, Fails(f, 1));
    if deleted.Err? {
      return Some(AppErr(deleted.error));
    }
    if Fails(f, 2) {
      return Some(QueryError);
    }
    db.DeleteDocument(row.id);
    err := None;
  }

  /** The part of `deleteDocument` between BEGIN and COMMIT. */
  method DeleteSteps(db: Database, store: ObjectStore, id: Id, userId: Id, f: Faults) returns (err: Option<Thrown>)
    requires db.Valid() && db.inTransaction
    modifies db, store
    ensures db.Valid() && db.inTransaction && db.saved == old(db.saved) && db.clock == old(db.clock)
    ensures err.None? <==> DeleteCommits(old(db.tables), id, userId, f)
    ensures err.Some? ==> err.value == DeleteThrown(old(db.tables), id, userId, f)
    ensures store.objects == (if ObjectRemoved(old(db.tables), id, userId, f)
                              then old(store.objects) - {GetKeyFromUrl(OwnedDocument(old(db.tables), id, userId).value.path).value}
                              else old(store.objects))
    ensures err.None? ==> db.tables == old(db.tables).(documents := Filter(old(db.tables.documents), DocumentsOtherThan(id)))
  {
    if Fails(f, 0) {
      return Some(QueryError);
    }
    var found := OwnedDocument(db.tables, id, userId);
    if found.None? {
      return Some(DocumentNotFound);
    }
    err := RemoveDocument(db, store, found.value, f);
  }

  /**
   * `deleteDocument`: BEGIN, the steps, then COMMIT, or ROLLBACK and the
   * throw passed on. Only the caller's document can go, and only the row
   * with that id goes.
   */
  method DeleteDocument(db: Database, store: ObjectStore, id: Id, userId: Id, f: Faults) returns (r: Result<(), Thrown>)
    requires db.Valid() && !db.inTransaction
    modifies db, store
    ensures db.Valid() && !db.inTransaction && db.clock == old(db.clock) + 1
    ensures r.Ok? <==> DeleteCommits(old(db.tables), id, userId, f)
    ensures r.Err? ==> r.error == DeleteThrown(old(db.tables), id, userId, f) && db.tables == old(db.tables)
    ensures r.Ok? ==> db.tables == old(db.tables).(documents := Filter(old(db.tables.documents), DocumentsOtherThan(id)))
    ensures store.objects == (if ObjectRemoved(old(db.tables), id, userId, f)
                              then old(store.objects) - {GetKeyFromUrl(OwnedDocument(old(db.tables), id, userId).value.path).value}
                              else old(store.objects))
  {
    db.Begin();
    var err := DeleteSteps(db, store, id, userId, f);
    if err.Some? {
      db.Rollback();
      return Err(err.value);
    }
    db.Commit();
    r := Ok(());
  }

  /**
   * A committed delete removes exactly the one document with the id (ids
   * are keys) and leaves every other row of every table as it was.
   */
  lemma DeleteRemovesOnlyThatDocument(t: Tables, nextId: nat, clock: nat, id: Id)
    requires WellFormed(t, nextId, clock)
    ensures var docs := Filter(t.documents, DocumentsOtherThan(id));
            (forall d :: d in docs <==> d in t.documents && d.id != id) &&
            |docs| == |t.documents| - (if FindDocument(t.documents, id).Some? then 1 else 0)
  {
    FilterDropsUnique(t.documents, id);
  }

  /** Filtering out a key that at most one row holds removes that row and no other. */
  lemma {:induction false} FilterDropsUnique(docs: seq<DocumentRow>, id: Id)
    requires DocumentIdsDistinct(docs)
    ensures |Filter(docs, DocumentsOtherThan(id))| == |docs| - (if FindDocument(docs, id).Some? then 1 else 0)
  {
    if docs != [] {
      var tail := docs[1..];
      assert DocumentIdsDistinct(tail) by {
        forall i, j | 0 <= i < j < |tail|
          ensures tail[i].id != tail[j].id
        {
          assert tail[i] == docs[i + 1] && tail[j] == docs[j + 1];
        }
      }
      FilterDropsUnique(tail, id);
      if docs[0].id == id {
        assert forall d :: d in tail ==> d.id != id by {
          forall d | d in tail
            ensures d.id != id
          {
            var j :| 0 <= j < |tail| && tail[j] == d;
            assert docs[j + 1] == d;
          }
        }
        assert FindDocument(tail, id).None?;
      } else {
        assert FindDocument(docs, id) == FindDocument(tail, id);
      }
    }
  }
}
