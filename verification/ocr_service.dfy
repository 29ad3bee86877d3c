/** The client half of the pipeline: upload an image to
    `users/{userId}/uploads/{docId}.jpg`, create the `processing` record,
    watch that record, or read it once.

    Firebase Auth, Storage and Firestore are not modelled as behaviour:
    the signed-in uid, the outcome of `putFile` and of each Firestore call,
    and the sequence of snapshots the real-time listener receives are
    inputs. */
module OcrService {
  import opened Outcomes
  import opened Records
  import opened OcrTrigger

  /** The placeholder uid used when nobody is signed in. */
  const DevUserId := "test-user-123"

  /** `auth().currentUser?.uid || 'test-user-123'`: a missing or empty uid
      falls back to the placeholder, so the result is never empty. */
  function EffectiveUserId(currentUid: Option<string>): (u: string)
    ensures u != ""
    ensures currentUid.Some? && currentUid.value != "" ==> u == currentUid.value
    ensures currentUid.None? || currentUid.value == "" ==> u == DevUserId
  {
    match currentUid
    case Some(uid) => OrElse(uid, DevUserId)
    case None => DevUserId
  }

  /** The storage path an upload is written to. */
  function StoragePath(userId: string, docId: string): string
  {
    "users/" + userId + "/uploads/" + docId + ".jpg"
  }

  /** The record created after the image is stored; `now` stands for the
      three `new Date()` values. */
  function InitialRecord(storagePath: string, now: int): Fields
  {
    map[
      "status" := Str("processing"),
      "createdAt" := Stamp(now),
      "updatedAt" := Stamp(now),
      "uploadedAt" := Stamp(now),
      "storagePath" := Str(storagePath),
      "filePath" := Str(storagePath),
      "contentType" := Str("image/jpeg"),
      "nlpStatus" := Str("pending")]
  }

  /** The content type `putFile` stores with the image. */
  const JpegType := "image/jpeg"

  /** Cloud Storage objects: each stored path with its content type. */
  type Objects = map<string, string>

  /** Storage objects and database after an upload, and what the returned
      promise settled to: the storage path, or the message it rejected with. */
  datatype Upload = Upload(objects: Objects, store: Store, result: Attempt<string>)

  /** `uploadImageForOcr(imageUri, docId)`. `put` is how `putFile` went and
      `recordWrite` how the merge-write of the initial record went. The
      record is written only after the image is stored, so a failed upload
      leaves neither an object nor a record. */
  function UploadImageForOcr(currentUid: Option<string>, docId: string, objects: Objects,
                             store: Store, put: Attempt<()>, recordWrite: Attempt<()>, now: int): (r: Upload)
    ensures put.Throws? ==> r == Upload(objects, store, Throws(put.message))
    ensures put.Ok? ==> r.objects == objects[StoragePath(EffectiveUserId(currentUid), docId) := JpegType]
    ensures put.Ok? && recordWrite.Throws? ==> r.store == store && r.result == Throws(recordWrite.message)
    ensures put.Ok? && recordWrite.Ok? ==>
              var path := StoragePath(EffectiveUserId(currentUid), docId);
              var key := DocKey(EffectiveUserId(currentUid), docId);
              && r.result == Ok(path)
              && r.store.Keys == store.Keys + {key}
              && (forall k :: k in store && k != key ==> r.store[k] == store[k])
              && HasStr(r.store[key], "status", "processing")
              && HasStr(r.store[key], "storagePath", path)
              && HasStr(r.store[key], "filePath", path)
              && HasStr(r.store[key], "contentType", "image/jpeg")
              && HasStr(r.store[key], "nlpStatus", "pending")
              && (forall f :: f in Lookup(store, key) && f !in InitialRecord(path, now) ==>
                    f in r.store[key] && r.store[key][f] == Lookup(store, key)[f])
  {
    var userId := EffectiveUserId(currentUid);
    var path := StoragePath(userId, docId);
    match put
    case Throws(m) => Upload(objects, store, Throws(m))
    case Ok(_) =>
      var key := DocKey(userId, docId);
      match recordWrite
      case Throws(m) => Upload(objects[path := JpegType], store, Throws(m))
      case Ok(_) =>
        InitialWrite(store, key, path, now);
        Upload(objects[path := JpegType], store[key := Merge(Lookup(store, key), InitialRecord(path, now))], Ok(path))
  }

  /** The merge-write of the initial record: the record gets its status,
      paths, content type and NLP status, keeps the fields the write does not
      name, and no other record changes. */
  lemma InitialWrite(store: Store, key: DocKey, path: string, now: int)
    ensures var after := store[key := Merge(Lookup(store, key), InitialRecord(path, now))];
            && after.Keys == store.Keys + {key}
            && (forall k :: k in store && k != key ==> after[k] == store[k])
            && HasStr(after[key], "status", "processing")
            && HasStr(after[key], "storagePath", path)
            && HasStr(after[key], "filePath", path)
            && HasStr(after[key], "contentType", "image/jpeg")
            && HasStr(after[key], "nlpStatus", "pending")
            && (forall f :: f in Lookup(store, key) && f !in InitialRecord(path, now) ==>
                  f in after[key] && after[key][f] == Lookup(store, key)[f])
  {
  }

  /** What one `onSnapshot` delivery reports. */
  datatype Snapshot = Exists(data: Fields) | Missing | ListenError

  /** The snapshot of the record under `key` in `store`. */
  function SnapshotOf(store: Store, key: DocKey): (s: Snapshot)
    ensures s.Exists? <==> key in store
    ensures s.Exists? ==> s.data == store[key]
  {
    if key in store then Exists(store[key]) else Missing
  }

  /** The record `listenToOcrStatus(docId, ...)` watches. */
  function ListenKey(currentUid: Option<string>, docId: string): DocKey
  {
    DocKey(EffectiveUserId(currentUid), docId)
  }

  /** What the listener passes its callback for each snapshot: the record
      when it exists, `null` when it does not or when the listener errs. */
  function Deliveries(snapshots: seq<Snapshot>): (r: seq<Option<Fields>>)
    ensures |r| == |snapshots|
    ensures forall i :: 0 <= i < |r| ==> (r[i].Some? <==> snapshots[i].Exists?)
    ensures forall i :: 0 <= i < |r| && snapshots[i].Exists? ==> r[i].value == snapshots[i].data
  {
    if |snapshots| == 0 then []
    else
      var first := match snapshots[0] case Exists(data) => Some(data) case _ => None;
      [first] + Deliveries(snapshots[1..])
  }

  /** `getOcrResult(docId)`: the stored record, `null` when there is none,
      or the message the read rejected with. */
  function GetOcrResult(store: Store, currentUid: Option<string>, docId: string, read: Attempt<()>): (r: Attempt<Option<Fields>>)
    ensures read.Throws? ==> r == Throws(read.message)
    ensures read.Ok? ==> r.Ok?
    ensures read.Ok? ==> (r.value.None? <==> ListenKey(currentUid, docId) !in store)
    ensures read.Ok? && r.value.Some? ==> r.value.value == store[ListenKey(currentUid, docId)]
  {
    match read
    case Throws(m) => Throws(m)
    case Ok(_) =>
      match SnapshotOf(store, ListenKey(currentUid, docId))
      case Exists(data) => Ok(Some(data))
      case _ => Ok(None)
  }

  /** A read after a successful upload finds the `processing` record at the
      path the upload returned. */
  lemma ReadAfterUpload(currentUid: Option<string>, docId: string, objects: Objects, store: Store, now: int)
    ensures var up := UploadImageForOcr(currentUid, docId, objects, store, Ok(()), Ok(()), now);
            var r := GetOcrResult(up.store, currentUid, docId, Ok(()));
            && r.Ok? && r.value.Some?
            && HasStr(r.value.value, "status", "processing")
            && HasStr(r.value.value, "storagePath", up.result.value)
  {
    var key := ListenKey(currentUid, docId);
    InitialWrite(store, key, StoragePath(EffectiveUserId(currentUid), docId), now);
  }

  /** The one-off read returns what the listener delivers for the same
      record: the record when it exists, and `null` when it does not. */
  lemma ReadMatchesListener(store: Store, currentUid: Option<string>, docId: string)
    ensures var r := GetOcrResult(store, currentUid, docId, Ok(()));
            r.Ok? && r.value == Deliveries([SnapshotOf(store, ListenKey(currentUid, docId))])[0]
  {
    var snap := SnapshotOf(store, ListenKey(currentUid, docId));
    var d := Deliveries([snap]);
    assert d[0].Some? <==> snap.Exists?;
  }
}
