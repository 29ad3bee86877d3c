/** The storage trigger `processDocument` of the cloud function: when an
    image lands under `users/{userId}/uploads/`, download it to a scratch
    file, run text detection on it, record the outcome in the document
    `users/{userId}/documents/{docId}` and delete the scratch file.

    Cloud Storage, the Vision API and Firestore are not modelled as
    behaviour: what each awaited call did is an input (`Services`), and the
    database is a map from document key to record. */
module OcrTrigger {
  import opened Outcomes
  import opened Strings
  import opened Records

  /** Where a document record lives: `users/{userId}/documents/{docId}`. */
  datatype DocKey = DocKey(userId: string, docId: string)

  /** The document database, as far as this pipeline touches it. */
  type Store = map<DocKey, Fields>

  /** The `object` of a storage "finalized" event. */
  datatype FinalizedObject = FinalizedObject(name: string, contentType: Option<string>)

  /** How each awaited call of one invocation went. `ocr` resolves with
      `fullTextAnnotation?.text` (`None` when Vision found no annotation).
      `partialDownload` says whether a failed download still left a file at
      the scratch path. */
  datatype Services = Services(
    download: Attempt<()>,
    partialDownload: bool,
    ocr: Attempt<Option<string>>,
    successWrite: Attempt<()>,
    failureWrite: Attempt<()>)

  /** One merge-write to the document database. */
  datatype Write = Write(key: DocKey, fields: Fields)

  /** What an invocation did: the database and scratch directory afterwards,
      whether it started a download, the writes that took effect, and the
      message the handler rejected with, if it escaped. */
  datatype Run = Run(
    store: Store,
    scratch: set<string>,
    downloadStarted: bool,
    writes: seq<Write>,
    rejection: Option<string>)

  /** `contentType && contentType.startsWith("image/")`. */
  predicate IsImage(contentType: Option<string>)
  {
    contentType.Some? && "image/" <= contentType.value
  }

  /** `b` is a whole piece of `p` ending at `k`, followed only by slashes. */
  ghost predicate LastPieceAt(p: string, b: string, k: int)
  {
    && |b| <= k <= |p|
    && p[k - |b|..k] == b
    && (k == |b| || p[k - |b| - 1] == '/')
    && (forall j :: k <= j < |p| ==> p[j] == '/')
  }

  /** Node's `path.basename` on a POSIX path: the last piece after trailing
      slashes are dropped, and "" for a path of slashes only. */
  function Basename(p: string): (b: string)
    ensures '/' !in b
    ensures b == "" <==> forall j :: 0 <= j < |p| ==> p[j] == '/'
    ensures b != "" ==> exists k :: LastPieceAt(p, b, k)
  {
    if |p| > 0 && p[|p| - 1] == '/' then
      var b := Basename(p[..|p| - 1]);
      TrailingSlash(p, p[..|p| - 1], b);
      b
    else
      var b := p[LastIndexOf(p, '/') + 1..];
      NoTrailingSlash(p);
      b
  }

  /** A trailing slash leaves the last piece where it was. */
  lemma TrailingSlash(p: string, q: string, b: string)
    requires |p| > 0 && p[|p| - 1] == '/' && q == p[..|p| - 1]
    requires b == "" <==> forall j :: 0 <= j < |q| ==> q[j] == '/'
    requires b != "" ==> exists k :: LastPieceAt(q, b, k)
    ensures b == "" <==> forall j :: 0 <= j < |p| ==> p[j] == '/'
    ensures b != "" ==> exists k :: LastPieceAt(p, b, k)
  {
    assert forall j :: 0 <= j < |q| ==> q[j] == p[j];
    if b != "" {
      var k :| LastPieceAt(q, b, k);
      assert p[k - |b|..k] == q[k - |b|..k];
      assert LastPieceAt(p, b, k);
    }
  }

  /** Without a trailing slash the last piece is what follows the last slash. */
  lemma NoTrailingSlash(p: string)
    requires |p| == 0 || p[|p| - 1] != '/'
    ensures var b := p[LastIndexOf(p, '/') + 1..];
            && '/' !in b
            && (b == "" <==> forall j :: 0 <= j < |p| ==> p[j] == '/')
            && (b != "" ==> LastPieceAt(p, b, |p|))
  {
    var i := LastIndexOf(p, '/');
    var b := p[i + 1..];
    if i == -1 {
      assert b == p;
    }
    if |p| == 0 {
      assert b == "";
    } else {
      assert b != "" by {
        assert |b| == |p| - (i + 1) > 0;
      }
      assert !(forall j :: 0 <= j < |p| ==> p[j] == '/') by {
        assert p[|p| - 1] != '/';
      }
      LastPieceAfterSlash(p, i);
    }
  }

  /** The text after the last slash is a whole last piece. */
  lemma LastPieceAfterSlash(p: string, i: int)
    requires -1 <= i < |p| - 1
    requires i == -1 || p[i] == '/'
    ensures LastPieceAt(p, p[i + 1..], |p|)
  {
    var b := p[i + 1..];
    assert |p| - |b| == i + 1;
    assert p[|p| - |b|..|p|] == b;
  }

  /** Node's `path.parse(name).name` for a slash-free file name: drop the
      last extension, except that a leading dot (".jpg") or the name ".."
      is not an extension. */
  function StripExtension(file: string): (name: string)
    requires '/' !in file
    ensures name <= file && '/' !in name
    ensures name == file <==> file == ".." || forall k :: 0 < k < |file| ==> file[k] != '.'
    ensures name == file || (0 < |name| && file[|name|] == '.' && '.' !in file[|name| + 1..])
  {
    var i := LastIndexOf(file, '.');
    NoDotAfterFirst(file);
    if i <= 0 || file == ".." then file
    else
      assert forall k :: 0 <= k < i ==> file[..i][k] == file[k];
      assert |file[..i]| < |file|;
      file[..i]
  }

  /** The last dot is at most at the start exactly when no dot follows the
      first character. */
  lemma NoDotAfterFirst(file: string)
    ensures LastIndexOf(file, '.') <= 0 <==> forall k :: 0 < k < |file| ==> file[k] != '.'
  {
    var i := LastIndexOf(file, '.');
    if i == 0 {
      forall k | 0 < k < |file|
        ensures file[k] != '.'
      {
        assert file[k] == file[1..][k - 1];
      }
    } else if i == -1 {
      assert forall k :: 0 <= k < |file| ==> file[k] in file;
    }
  }

  /** The key the trigger reads out of an object path: `None` (skip) unless
      the path has at least four `/`-separated pieces, the first being
      `users` and the third `uploads`; then the user id is the second piece
      and the document id the fourth with its extension stripped. Extra
      pieces after the fourth are ignored. */
  function ParsePath(p: string): (k: Option<DocKey>)
    ensures k.Some? ==> '/' !in k.value.userId && '/' !in k.value.docId
    ensures k.Some? ==> "users/" + k.value.userId + "/uploads/" <= p
    ensures Count(p, '/') < 3 ==> k.None?
    ensures !("users/" <= p) ==> k.None?
  {
    var parts := Split(p, '/');
    if |parts| < 4 || parts[0] != "users" || parts[2] != "uploads" then
      NotUsersPrefix(p);
      None
    else
      UploadsPrefix(p);
      assert '/' !in parts[1] && '/' !in parts[3];
      Some(DocKey(parts[1], StripExtension(parts[3])))
  }

  /** An accepted path starts with `users/{userId}/uploads/`. */
  lemma UploadsPrefix(p: string)
    requires |Split(p, '/')| >= 4
    requires Split(p, '/')[0] == "users" && Split(p, '/')[2] == "uploads"
    ensures "users/" + Split(p, '/')[1] + "/uploads/" <= p
  {
    var parts := Split(p, '/');
    HeadsOfJoin(parts);
  }

  /** A `/`-join of at least four pieces, the first `users` and the third
      `uploads`, begins with `users/{second}/uploads/`. */
  lemma HeadsOfJoin(parts: seq<string>)
    requires |parts| >= 4 && parts[0] == "users" && parts[2] == "uploads"
    ensures "users/" + parts[1] + "/uploads/" <= Join(parts, '/')
  {
    JoinThreePrefix(parts, '/');
    RegroupPrefix(parts[0], parts[1], parts[2]);
    assert parts[0] + ['/'] == "users/";
    assert ['/'] + parts[2] + ['/'] == "/uploads/";
  }

  lemma RegroupPrefix(first: string, middle: string, third: string)
    ensures first + ['/'] + middle + ['/'] + third + ['/'] == (first + ['/']) + middle + (['/'] + third + ['/'])
  {
  }

  /** A path whose first piece is `users`, followed by more, starts with `users/`. */
  lemma NotUsersPrefix(p: string)
    ensures |Split(p, '/')| >= 2 && Split(p, '/')[0] == "users" ==> "users/" <= p
  {
    var parts := Split(p, '/');
    if |parts| >= 2 && parts[0] == "users" {
      assert p == parts[0] + "/" + Join(parts[1..], '/');
    }
  }

  /** `path.join(os.tmpdir(), path.basename(filePath))`; the normalisation
      `path.join` applies to `tmpdir` is not modelled. */
  function ScratchPath(tmpdir: string, objectName: string): string
  {
    tmpdir + "/" + Basename(objectName)
  }

  /** The success write: `{ status: "ocr_done", rawText, updatedAt }`. */
  function DoneFields(rawText: string, now: int): Fields
  {
    map["status" := Str("ocr_done"), "rawText" := Str(rawText), "updatedAt" := Stamp(now)]
  }

  /** The failure write: `{ status: "failed", error, updatedAt }`. */
  function FailedFields(message: string, now: int): Fields
  {
    map["status" := Str("failed"), "error" := Str(message), "updatedAt" := Stamp(now)]
  }

  /** The record stored under `key`, or the empty record a merge-write into
      a missing document starts from. */
  function Lookup(store: Store, key: DocKey): Fields
  {
    if key in store then store[key] else map[]
  }

  /** Apply merge-writes in order. */
  function ApplyWrites(store: Store, writes: seq<Write>): (r: Store)
    ensures r.Keys == store.Keys + set w | w in writes :: w.key
    ensures forall k :: k in store && (forall w :: w in writes ==> w.key != k) ==> r[k] == store[k]
    decreases |writes|
  {
    if |writes| == 0 then store
    else
      var w := writes[0];
      ApplyWrites(store[w.key := Merge(Lookup(store, w.key), w.fields)], writes[1..])
  }

  /** Download, text detection and the success write all went through. */
  predicate Succeeds(services: Services)
  {
    services.download.Ok? && services.ocr.Ok? && services.successWrite.Ok?
  }

  /** The message of the first of the three `try`-block calls that threw. */
  function FirstError(services: Services): string
    requires !Succeeds(services)
  {
    if services.download.Throws? then services.download.message
    else if services.ocr.Throws? then services.ocr.message
    else services.successWrite.message
  }

  /** What the `try` block produced before its write: the extracted text
      (`fullTextAnnotation?.text || ""`) or the message of the first call
      that threw. */
  function Extract(services: Services): (r: Attempt<string>)
    ensures r.Ok? <==> services.download.Ok? && services.ocr.Ok?
    ensures services.download.Throws? ==> r == Throws(services.download.message)
    ensures services.download.Ok? && services.ocr.Throws? ==> r == Throws(services.ocr.message)
    ensures r.Ok? ==> r.value == services.ocr.value.GetOr("")
  {
    match services.download
    case Throws(m) => Throws(m)
    case Ok(_) =>
      match services.ocr
      case Throws(m) => Throws(m)
      case Ok(text) => Ok(OrElse(text.GetOr(""), ""))
  }

  /** The writes of an accepted event: the success write if it went through,
      otherwise the failure write (with the message of whatever threw)
      unless that one threw too. Also the message the handler rejects with. */
  function Terminal(key: DocKey, services: Services, now: int): (r: (seq<Write>, Option<string>))
    ensures Succeeds(services) ==>
              r == ([Write(key, DoneFields(services.ocr.value.GetOr(""), now))], None)
    ensures !Succeeds(services) && services.failureWrite.Ok? ==>
              r == ([Write(key, FailedFields(FirstError(services), now))], None)
    ensures !Succeeds(services) && services.failureWrite.Throws? ==>
              r == ([], Some(services.failureWrite.message))
  {
    var caught :=
      match Extract(services)
      case Throws(m) => Some(m)
      case Ok(text) => if services.successWrite.Ok? then None else Some(services.successWrite.message);
    match caught
    case None => ([Write(key, DoneFields(Extract(services).value, now))], None)
    case Some(m) =>
      match services.failureWrite
      case Ok(_) => ([Write(key, FailedFields(m, now))], None)
      case Throws(m2) => ([], Some(m2))
  }

  /** The handler. A skipped event touches nothing; an accepted one starts
      a download, takes at most one terminal write into its own record, and
      in its `finally` removes the scratch file if it exists. */
  function Handle(obj: FinalizedObject, store: Store, scratch: set<string>, tmpdir: string,
                  services: Services, now: int): (r: Run)
    ensures !IsImage(obj.contentType) || ParsePath(obj.name).None? ==>
              r == Run(store, scratch, false, [], None)
    ensures IsImage(obj.contentType) && ParsePath(obj.name).Some? ==>
              && r.downloadStarted
              && |r.writes| <= 1
              && (services.failureWrite.Ok? ==> |r.writes| == 1 && r.rejection.None?)
              && (forall w :: w in r.writes ==> w.key == ParsePath(obj.name).value)
              && r.store == ApplyWrites(store, r.writes)
              && (Succeeds(services) || services.failureWrite.Ok? ==>
                    r.writes == [Write(ParsePath(obj.name).value, TerminalFields(services, now))]
                    && r.rejection.None?)
              && (!Succeeds(services) && services.failureWrite.Throws? ==>
                    r.writes == [] && r.store == store && r.rejection == Some(services.failureWrite.message))
              && ScratchPath(tmpdir, obj.name) !in r.scratch
              && r.scratch == scratch - {ScratchPath(tmpdir, obj.name)}
  {
    if !IsImage(obj.contentType) then Run(store, scratch, false, [], None)
    else
      match ParsePath(obj.name)
      case None => Run(store, scratch, false, [], None)
      case Some(key) =>
        var tmp := ScratchPath(tmpdir, obj.name);
        var downloaded :=
          if services.download.Ok? || services.partialDownload then scratch + {tmp} else scratch;
        var (writes, rejection) := Terminal(key, services, now);
        TerminalWritesOwnRecord(key, services, now);
        Run(ApplyWrites(store, writes), downloaded - {tmp}, true, writes, rejection)
  }

  /** An accepted event takes at most one write, into its own record, and
      exactly one, without a rejection, when the failure write goes through. */
  lemma TerminalWritesOwnRecord(key: DocKey, services: Services, now: int)
    ensures var (writes, rejection) := Terminal(key, services, now);
            && |writes| <= 1
            && (services.failureWrite.Ok? ==> |writes| == 1 && rejection.None?)
            && (forall w :: w in writes ==> w.key == key)
            && (Succeeds(services) || services.failureWrite.Ok? ==>
                  writes == [Write(key, TerminalFields(services, now))] && rejection.None?)
            && (!Succeeds(services) && services.failureWrite.Throws? ==>
                  writes == [] && rejection == Some(services.failureWrite.message))
  {
  }

  /** One merge-write into the store. */
  lemma ApplyOne(store: Store, w: Write)
    ensures ApplyWrites(store, [w]) == store[w.key := Merge(Lookup(store, w.key), w.fields)]
  {
    var s1 := store[w.key := Merge(Lookup(store, w.key), w.fields)];
    assert [w][1..] == [];
    assert ApplyWrites(s1, []) == s1;
  }

  /** The fields of the terminal write that takes effect. */
  function TerminalFields(services: Services, now: int): Fields
  {
    if Succeeds(services) then DoneFields(services.ocr.value.GetOr(""), now)
    else FailedFields(FirstError(services), now)
  }

  /** When a terminal write takes effect, the database afterwards is the
      prior one with that write merged into the event's record. */
  lemma HandleStore(obj: FinalizedObject, store: Store, scratch: set<string>,
                    tmpdir: string, services: Services, now: int)
    requires IsImage(obj.contentType) && ParsePath(obj.name).Some?
    requires Succeeds(services) || services.failureWrite.Ok?
    ensures var key := ParsePath(obj.name).value;
            var r := Handle(obj, store, scratch, tmpdir, services, now);
            && r.writes == [Write(key, TerminalFields(services, now))]
            && r.store == store[key := Merge(Lookup(store, key), TerminalFields(services, now))]
  {
    var key := ParsePath(obj.name).value;
    ApplyOne(store, Write(key, TerminalFields(services, now)));
  }

  /** The terminal write of an accepted event is a merge: in the event's
      record every field the write does not name keeps its prior value, and
      every other record of the database is untouched. */
  lemma HandleMergesIntoOwnRecord(obj: FinalizedObject, store: Store, scratch: set<string>,
                                  tmpdir: string, services: Services, now: int)
    requires IsImage(obj.contentType) && ParsePath(obj.name).Some?
    requires services.failureWrite.Ok?
    ensures var key := ParsePath(obj.name).value;
            var r := Handle(obj, store, scratch, tmpdir, services, now);
            && key in r.store
            && (forall f :: f in Lookup(store, key) && f !in r.writes[0].fields ==>
                  f in r.store[key] && r.store[key][f] == Lookup(store, key)[f])
            && (forall k :: k != key ==> (k in r.store <==> k in store))
            && (forall k :: k != key && k in store ==> r.store[k] == store[k])
  {
    HandleStore(obj, store, scratch, tmpdir, services, now);
  }

  /** Starting from a record with neither `rawText` nor `error` (the client's
      initial record), an accepted event whose failure write goes through
      leaves exactly one of the two terminal shapes: `ocr_done` with the
      extracted text and no error, or `failed` with the first error and no
      text. */
  lemma HandleLeavesOneTerminalShape(obj: FinalizedObject, store: Store, scratch: set<string>,
                                     tmpdir: string, services: Services, now: int)
    requires IsImage(obj.contentType) && ParsePath(obj.name).Some?
    requires services.failureWrite.Ok?
    requires "rawText" !in Lookup(store, ParsePath(obj.name).value)
    requires "error" !in Lookup(store, ParsePath(obj.name).value)
    ensures var rec := Handle(obj, store, scratch, tmpdir, services, now).store[ParsePath(obj.name).value];
            && (Succeeds(services) <==> HasStr(rec, "status", "ocr_done"))
            && (!Succeeds(services) <==> HasStr(rec, "status", "failed"))
            && (Succeeds(services) ==>
                  "rawText" in rec && rec["rawText"] == Str(services.ocr.value.GetOr("")) && "error" !in rec)
            && (!Succeeds(services) ==>
                  "error" in rec && rec["error"] == Str(FirstError(services)) && "rawText" !in rec)
  {
    var key := ParsePath(obj.name).value;
    HandleStore(obj, store, scratch, tmpdir, services, now);
    TerminalShape(Lookup(store, key), services, now);
  }

  /** The record-level half of the above: the terminal fields merged into a
      record with neither `rawText` nor `error`. */
  lemma TerminalShape(prior: Fields, services: Services, now: int)
    requires "rawText" !in prior && "error" !in prior
    ensures var rec := Merge(prior, TerminalFields(services, now));
            && (Succeeds(services) <==> HasStr(rec, "status", "ocr_done"))
            && (!Succeeds(services) <==> HasStr(rec, "status", "failed"))
            && (Succeeds(services) ==>
                  "rawText" in rec && rec["rawText"] == Str(services.ocr.value.GetOr("")) && "error" !in rec)
            && (!Succeeds(services) ==>
                  "error" in rec && rec["error"] == Str(FirstError(services)) && "rawText" !in rec)
  {
    var t := TerminalFields(services, now);
    var rec := Merge(prior, t);
    assert rec["status"] == t["status"];
  }

  /** Two merge-writes into the same record, one after the other. */
  lemma WriteTwice(store: Store, key: DocKey, first: Fields, second: Fields)
    ensures var once := store[key := Merge(Lookup(store, key), first)];
            once[key := Merge(Lookup(once, key), second)]
              == store[key := Merge(Merge(Lookup(store, key), first), second)]
  {
  }

  /** Two runs that end the same way write the same fields. */
  lemma SameEndingSameFields(first: Services, second: Services, now1: int, now2: int)
    requires Succeeds(first) == Succeeds(second)
    ensures TerminalFields(first, now1).Keys == TerminalFields(second, now2).Keys
  {
  }

  /** A redelivered event whose invocation ends the same way (both succeed or
      both fail) leaves the database exactly as a single run would. */
  lemma RerunIsSingleRun(obj: FinalizedObject, store: Store, scratch: set<string>, tmpdir: string,
                         first: Services, second: Services, now1: int, now2: int)
    requires IsImage(obj.contentType) && ParsePath(obj.name).Some?
    requires first.failureWrite.Ok? && second.failureWrite.Ok?
    requires Succeeds(first) == Succeeds(second)
    ensures var once := Handle(obj, store, scratch, tmpdir, first, now1);
            Handle(obj, once.store, once.scratch, tmpdir, second, now2).store
              == Handle(obj, store, scratch, tmpdir, second, now2).store
  {
    var key := ParsePath(obj.name).value;
    var t1, t2 := TerminalFields(first, now1), TerminalFields(second, now2);
    var once := Handle(obj, store, scratch, tmpdir, first, now1);
    HandleStore(obj, store, scratch, tmpdir, first, now1);
    HandleStore(obj, once.store, once.scratch, tmpdir, second, now2);
    HandleStore(obj, store, scratch, tmpdir, second, now2);
    WriteTwice(store, key, t1, t2);
    SameEndingSameFields(first, second, now1, now2);
    MergeAbsorbs(Lookup(store, key), t1, t2);
  }

  /** The two terminal writes never delete a field, so a failed run followed
      by a successful redelivery leaves an `ocr_done` record that still
      carries the earlier `error`. */
  lemma RerunKeepsStaleError(obj: FinalizedObject, store: Store, scratch: set<string>, tmpdir: string,
                             first: Services, second: Services, now1: int, now2: int)
    requires IsImage(obj.contentType) && ParsePath(obj.name).Some?
    requires first.failureWrite.Ok? && !Succeeds(first) && Succeeds(second)
    ensures var once := Handle(obj, store, scratch, tmpdir, first, now1);
            var rec := Handle(obj, once.store, once.scratch, tmpdir, second, now2).store[ParsePath(obj.name).value];
            HasStr(rec, "status", "ocr_done") && "error" in rec && rec["error"] == Str(FirstError(first))
  {
    var key := ParsePath(obj.name).value;
    var t1, t2 := TerminalFields(first, now1), TerminalFields(second, now2);
    var once := Handle(obj, store, scratch, tmpdir, first, now1);
    HandleStore(obj, store, scratch, tmpdir, first, now1);
    HandleStore(obj, once.store, once.scratch, tmpdir, second, now2);
    WriteTwice(store, key, t1, t2);
    var rec := Merge(Merge(Lookup(store, key), t1), t2);
    assert t1 == FailedFields(FirstError(first), now1);
    assert t2 == DoneFields(second.ocr.value.GetOr(""), now2);
    assert "error" !in t2 && "error" in t1;
  }
}
