/** The contract between the two halves of the ingest pipeline: the path the
    client uploads to is the path the trigger parses back into the record
    the client created and listens to, and the trigger's terminal write
    drives the upload screen to its final state. */
module Pipeline {
  import opened Outcomes
  import opened Strings
  import opened Records
  import opened OcrTrigger
  import opened OcrService
  import UploadScreen

  /** The `.jpg` the client appends is exactly what the trigger strips off a
      non-empty document id. */
  lemma StripJpg(docId: string)
    requires docId != "" && '/' !in docId
    ensures StripExtension(docId + ".jpg") == docId
  {
    var file := docId + ".jpg";
    assert file[..|file| - 1] == docId + ".jp";
    assert (docId + ".jp")[..|docId| + 2] == docId + ".j";
    assert (docId + ".j")[..|docId| + 1] == docId + ".";
    assert LastIndexOf(docId + ".", '.') == |docId|;
    assert LastIndexOf(file, '.') == |docId|;
    assert file[..|docId|] == docId;
  }

  /** A single piece without a separator splits to itself. */
  lemma SplitPiece(piece: string)
    requires '/' !in piece
    ensures Split(piece, '/') == [piece]
  {
    SplitJoin([piece], '/');
    assert Join([piece], '/') == piece;
  }

  /** The first piece of `file + tail`, where `tail` is empty or starts a
      new piece, is `file`. */
  lemma FirstPiece(file: string, tail: string)
    requires '/' !in file
    requires tail == "" || tail[0] == '/'
    ensures |Split(file + tail, '/')| >= 1 && Split(file + tail, '/')[0] == file
  {
    if tail == "" {
      assert file + tail == file;
      SplitPiece(file);
    } else {
      assert file + tail == file + ['/'] + tail[1..];
      SplitCons(file, '/', tail[1..]);
    }
  }

  /** The three fixed leading pieces of an upload path split off as
      pieces of their own. */
  lemma SplitUploadsPrefix(userId: string, rest: string)
    requires '/' !in userId
    ensures Split("users/" + userId + "/uploads/" + rest, '/') == ["users", userId, "uploads"] + Split(rest, '/')
  {
    var r3 := "uploads" + ['/'] + rest;
    var r2 := userId + ['/'] + r3;
    assert "users/" + userId + "/uploads/" + rest == "users" + ['/'] + r2 by {
      assert "users/" == "users" + ['/'];
      assert "/uploads/" == ['/'] + "uploads" + ['/'];
    }
    calc {
      Split("users" + ['/'] + r2, '/');
      { SplitCons("users", '/', r2); }
      ["users"] + Split(r2, '/');
      { SplitCons(userId, '/', r3); }
      ["users"] + ([userId] + Split(r3, '/'));
      { SplitCons("uploads", '/', rest); }
      ["users"] + ([userId] + (["uploads"] + Split(rest, '/')));
      ["users", userId, "uploads"] + Split(rest, '/');
    }
  }

  /** The trigger accepts every path of the form
      `users/{userId}/uploads/{file}` with slash-free ids, whatever follows
      as further pieces, and reads back the user id and the file name
      without its extension. */
  lemma ParseAccepts(userId: string, file: string, tail: string)
    requires '/' !in userId && '/' !in file
    requires tail == "" || tail[0] == '/'
    ensures ParsePath("users/" + userId + "/uploads/" + file + tail) == Some(DocKey(userId, StripExtension(file)))
  {
    var p := "users/" + userId + "/uploads/" + file + tail;
    assert p == "users/" + userId + "/uploads/" + (file + tail);
    SplitUploadsPrefix(userId, file + tail);
    FirstPiece(file, tail);
    var parts := Split(p, '/');
    assert parts[0] == "users" && parts[1] == userId && parts[2] == "uploads";
    assert parts[3] == file;
  }

  /** Round trip: the trigger parses the client's storage path back into
      the key of the record the client created. */
  lemma StoragePathRoundTrip(userId: string, docId: string)
    requires '/' !in userId && '/' !in docId && docId != ""
    ensures ParsePath(StoragePath(userId, docId)) == Some(DocKey(userId, docId))
  {
    assert StoragePath(userId, docId) == "users/" + userId + "/uploads/" + (docId + ".jpg") + "";
    ParseAccepts(userId, docId + ".jpg", "");
    StripJpg(docId);
  }

  /** An upload as the client performs it, with both calls succeeding. */
  function Uploaded(currentUid: Option<string>, docId: string, objects: Objects, store: Store, now: int): (u: Upload)
    ensures u.result == Ok(StoragePath(EffectiveUserId(currentUid), docId))
    ensures u.objects == objects[u.result.value := JpegType]
    ensures var key := ListenKey(currentUid, docId);
            u.store == store[key := Merge(Lookup(store, key), InitialRecord(u.result.value, now))]
  {
    UploadImageForOcr(currentUid, docId, objects, store, Ok(()), Ok(()), now)
  }

  /** The "finalized" event Cloud Storage raises for a stored object: its
      path and the content type stored with it. */
  function Finalized(objects: Objects, path: string): (obj: FinalizedObject)
    requires path in objects
    ensures obj.name == path && obj.contentType == Some(objects[path])
  {
    FinalizedObject(path, Some(objects[path]))
  }

  /** Once `putFile` has gone through, the event for the returned path passes
      the trigger's content-type gate and its path parses to the key of the
      record the client writes and watches, whether or not the record write
      that follows succeeds. */
  lemma UploadPassesTriggerGate(currentUid: Option<string>, docId: string, objects: Objects, store: Store,
                                recordWrite: Attempt<()>, now: int)
    requires '/' !in EffectiveUserId(currentUid) && '/' !in docId && docId != ""
    ensures var up := UploadImageForOcr(currentUid, docId, objects, store, Ok(()), recordWrite, now);
            var path := StoragePath(EffectiveUserId(currentUid), docId);
            && path in up.objects
            && IsImage(Finalized(up.objects, path).contentType)
            && ParsePath(Finalized(up.objects, path).name) == Some(ListenKey(currentUid, docId))
  {
    assert "image/" <= JpegType;
    StoragePathRoundTrip(EffectiveUserId(currentUid), docId);
  }

  /** The trigger's run on that event: it writes its terminal fields into
      the record the upload created. */
  lemma TriggerWritesUploadedRecord(currentUid: Option<string>, docId: string, objects: Objects, store: Store,
                                    now: int, scratch: set<string>, tmpdir: string, services: Services, later: int)
    requires '/' !in EffectiveUserId(currentUid) && '/' !in docId && docId != ""
    requires Succeeds(services) || services.failureWrite.Ok?
    ensures var up := Uploaded(currentUid, docId, objects, store, now);
            var run := Handle(Finalized(up.objects, up.result.value), up.store, scratch, tmpdir, services, later);
            var key := ListenKey(currentUid, docId);
            run.store == up.store[key := Merge(up.store[key], TerminalFields(services, later))]
  {
    var key := ListenKey(currentUid, docId);
    var up := Uploaded(currentUid, docId, objects, store, now);
    UploadPassesTriggerGate(currentUid, docId, objects, store, Ok(()), now);
    HandleStore(Finalized(up.objects, up.result.value), up.store, scratch, tmpdir, services, later);
    assert Lookup(up.store, key) == up.store[key];
  }

  /** A delivered `ocr_done` record ends a processing screen as `done`,
      showing that record. */
  lemma DeliveredDone(screen: UploadScreen.Screen, store: Store, key: DocKey)
    requires screen.phase == UploadScreen.Processing && screen.listening
    requires key in store && HasStr(store[key], "status", "ocr_done")
    ensures var after := UploadScreen.Step(screen, UploadScreen.Update(Deliveries([SnapshotOf(store, key)])[0]));
            after.phase == UploadScreen.Done && !after.listening && after.ocrResult == Some(store[key])
  {
    assert Deliveries([SnapshotOf(store, key)])[0] == Some(store[key]);
  }

  /** A delivered `failed` record ends a processing screen as `failed`,
      showing the record's error (or the generic message for an empty one). */
  lemma DeliveredFailure(screen: UploadScreen.Screen, store: Store, key: DocKey, message: string)
    requires screen.phase == UploadScreen.Processing && screen.listening
    requires key in store && HasStr(store[key], "status", "failed") && HasStr(store[key], "error", message)
    ensures var after := UploadScreen.Step(screen, UploadScreen.Update(Deliveries([SnapshotOf(store, key)])[0]));
            && after.phase == UploadScreen.Failed && !after.listening
            && after.errorMessage == Some(OrElse(message, "OCR processing failed"))
  {
    assert Deliveries([SnapshotOf(store, key)])[0] == Some(store[key]);
  }

  /** The fields of the initial record that the trigger relies on. */
  lemma UploadedRecord(prior: Fields, path: string, now: int)
    ensures var rec := Merge(prior, InitialRecord(path, now));
            && HasStr(rec, "storagePath", path) && HasStr(rec, "contentType", "image/jpeg")
            && "createdAt" in rec && rec["createdAt"] == Stamp(now)
  {
    var init := InitialRecord(path, now);
    assert init["storagePath"] == Str(path) && init["contentType"] == Str("image/jpeg");
    assert init["createdAt"] == Stamp(now);
  }

  /** The success write leaves the client's path, content type and
      creation time alone. */
  lemma DoneKeepsClientFields(rec: Fields, text: string, later: int)
    ensures var done := Merge(rec, DoneFields(text, later));
            && HasStr(done, "status", "ocr_done") && HasStr(done, "rawText", text)
            && (forall f :: f in rec && f != "status" && f != "rawText" && f != "updatedAt" ==>
                  f in done && done[f] == rec[f])
  {
    var fields := DoneFields(text, later);
    assert fields.Keys == {"status", "rawText", "updatedAt"};
  }

  /** End to end, successful OCR: the trigger writes into the very record
      the client created and watches; that record ends `ocr_done` with the
      extracted text while keeping the client's fields; and its delivery
      moves a processing upload screen to `done` showing that record. */
  lemma UploadThenOcrDone(currentUid: Option<string>, docId: string, objects: Objects, store: Store,
                          now: int, scratch: set<string>, tmpdir: string, services: Services, later: int,
                          screen: UploadScreen.Screen)
    requires '/' !in EffectiveUserId(currentUid) && '/' !in docId && docId != ""
    requires Succeeds(services)
    requires screen.phase == UploadScreen.Processing && screen.listening
    ensures var up := Uploaded(currentUid, docId, objects, store, now);
            var run := Handle(Finalized(up.objects, up.result.value), up.store, scratch, tmpdir, services, later);
            var key := ListenKey(currentUid, docId);
            && key in run.store
            && HasStr(run.store[key], "status", "ocr_done")
            && HasStr(run.store[key], "rawText", services.ocr.value.GetOr(""))
            && HasStr(run.store[key], "storagePath", StoragePath(EffectiveUserId(currentUid), docId))
            && HasStr(run.store[key], "contentType", "image/jpeg")
            && "createdAt" in run.store[key] && run.store[key]["createdAt"] == Stamp(now)
            && var after := UploadScreen.Step(screen, UploadScreen.Update(Deliveries([SnapshotOf(run.store, key)])[0]));
               after.phase == UploadScreen.Done && !after.listening && after.ocrResult == Some(run.store[key])
  {
    var key := ListenKey(currentUid, docId);
    var up := Uploaded(currentUid, docId, objects, store, now);
    var run := Handle(Finalized(up.objects, up.result.value), up.store, scratch, tmpdir, services, later);
    TriggerWritesUploadedRecord(currentUid, docId, objects, store, now, scratch, tmpdir, services, later);
    var path := StoragePath(EffectiveUserId(currentUid), docId);
    UploadedRecord(Lookup(store, key), path, now);
    var created := up.store[key];
    var text := services.ocr.value.GetOr("");
    DoneKeepsClientFields(created, text, later);
    assert run.store[key] == Merge(created, DoneFields(text, later));
    DeliveredDone(screen, run.store, key);
  }

  /** End to end, failed OCR: the record ends `failed` with the message of
      the call that threw, and its delivery moves a processing upload
      screen to `failed` showing that message (or the generic one when the
      message is empty). */
  lemma UploadThenOcrFailed(currentUid: Option<string>, docId: string, objects: Objects, store: Store,
                            now: int, scratch: set<string>, tmpdir: string, services: Services, later: int,
                            screen: UploadScreen.Screen)
    requires '/' !in EffectiveUserId(currentUid) && '/' !in docId && docId != ""
    requires !Succeeds(services) && services.failureWrite.Ok?
    requires screen.phase == UploadScreen.Processing && screen.listening
    ensures var up := Uploaded(currentUid, docId, objects, store, now);
            var run := Handle(Finalized(up.objects, up.result.value), up.store, scratch, tmpdir, services, later);
            var key := ListenKey(currentUid, docId);
            && key in run.store
            && HasStr(run.store[key], "status", "failed")
            && HasStr(run.store[key], "error", FirstError(services))
            && var after := UploadScreen.Step(screen, UploadScreen.Update(Deliveries([SnapshotOf(run.store, key)])[0]));
               && after.phase == UploadScreen.Failed && !after.listening
               && after.errorMessage == Some(OrElse(FirstError(services), "OCR processing failed"))
  {
    var key := ListenKey(currentUid, docId);
    var up := Uploaded(currentUid, docId, objects, store, now);
    var run := Handle(Finalized(up.objects, up.result.value), up.store, scratch, tmpdir, services, later);
    TriggerWritesUploadedRecord(currentUid, docId, objects, store, now, scratch, tmpdir, services, later);
    var created := up.store[key];
    FailedRecord(created, FirstError(services), later);
    assert run.store[key] == Merge(created, FailedFields(FirstError(services), later));
    DeliveredFailure(screen, run.store, key, FirstError(services));
  }

  /** The failure write gives any record status `failed` with the message. */
  lemma FailedRecord(rec: Fields, message: string, later: int)
    ensures var failed := Merge(rec, FailedFields(message, later));
            HasStr(failed, "status", "failed") && HasStr(failed, "error", message)
  {
    var fields := FailedFields(message, later);
    assert fields["status"] == Str("failed") && fields["error"] == Str(message);
  }
}
