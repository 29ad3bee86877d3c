# AutoDoc document pipeline, upload flow and account state — a Dafny model

AutoDoc is a mobile app that photographs documents and turns them into text.
This project models the logic at its core and proves properties of it. The
core has three parts.

**The OCR ingest pipeline.**
- The client (`ocrService.ts`) uploads an image to `users/{userId}/uploads/{docId}.jpg`.
- It then merge-writes a `processing` record at `users/{userId}/documents/{docId}`.
- The storage trigger `processDocument` (`backend-fn/functions/index.js`) parses the path.
- It downloads the image and runs text detection on it.
- It merge-writes at most one terminal outcome into the record: `ocr_done` with `rawText`, or `failed` with `error`. When even the failure write throws, nothing is written and the invocation rejects.
- It always removes its scratch file.

**The upload screen.** Its state runs idle → uploading → processing →
done | failed → idle. It also drives a simulated progress bar and reacts to
the record-status listener. The document list screen shows a status badge
per record, filter tabs with counts, and a text preview.

**Validators and state containers.**
- The form validators, and the login and sign-up screens that use them.
- The two stored-list hooks (documents and websites).
- The authentication context, with its storage and keychain.

Every call into Firebase, Cloud Storage, Vision, AsyncStorage or the keychain
is an input rather than behaviour. Each such call either succeeds, with
whatever value it delivers, or throws with a message. The database is a map
from document key to record. A record is a map from field name to value.
Every merge-write is map union in which the written fields win.

Modules, one per file:
- `outcomes.dfy`: `Option`, `Attempt` (ok or throws) and JavaScript's `||` on strings.
- `strings.dfy`: `indexOf`, `lastIndexOf`, and `split` with its inverse `join`.
- `records.dfy`: records and merge-writes.
- `lists.dfy`: `Array.prototype.filter`.
- `ocr_trigger.dfy`: the storage trigger.
- `ocr_service.dfy`: the client upload, the listener and the one-off read.
- `pipeline.dfy`: the contract between the two halves, end to end.
- `upload_screen.dfy` and `documents_screen.dfy`: the two screens above.
- `validation.dfy`: the form validators.
- `stored_list.dfy`: `useDocuments` and `useWebsites`, which keep their lists in one device storage under the keys `documents` and `websites`.
- `auth_context.dfy`: the authentication context.
- `login_screen.dfy` and `signup_screen.dfy`: the two account forms.

Some behaviours of the code that a reader might not expect:

- The terminal writes never delete fields. A failed run followed by a
  successful rerun leaves a record that is `ocr_done` and still carries the
  old `error`. `rawText` and `error` exclude each other only for a single run
  from a fresh record (`OcrTrigger.HandleLeavesOneTerminalShape`,
  `OcrTrigger.RerunKeepsStaleError`).
- The upload screen falls back to "OCR processing failed" when the record's
  `error` is missing, and also when it is the empty string, because the
  fallback is taken on any falsy value.
- The client's fallback to the user id `test-user-123` applies to an empty
  uid as well as to a missing one.
- The trigger accepts paths with more than four pieces and ignores the extra
  pieces (`Pipeline.ParseAccepts`).

## Model

| member | source | states |
|---|---|---|
| Strings.Split | backend-fn/functions/index.js:29 | `split('/')` yields one more piece than there are separators, no piece contains the separator, and joining the pieces gives back the path |
| Strings.SplitJoin | backend-fn/functions/index.js:29 | splitting a join of separator-free pieces gives back exactly those pieces |
| Records.Merge | backend-fn/functions/index.js:67-73 | a merge-write keeps every field it does not name, takes the written value for every field it names, and adds nothing else |
| Records.MergeAbsorbs | backend-fn/functions/index.js:61-93 | a merge-write that names every field of an earlier one hides that earlier one entirely |
| Records.MergeIdempotent | backend-fn/functions/index.js:67-73 | repeating a merge-write changes nothing |
| OcrTrigger.Basename | backend-fn/functions/index.js:43 | the scratch file name is the last non-empty `/`-free piece of the object path, followed in the path only by slashes; it is empty exactly when the path is slashes only |
| OcrTrigger.StripExtension | backend-fn/functions/index.js:40 | the name is the file name unchanged exactly when the file name is `..` or has no dot after its first character; otherwise it is cut just before the last dot, with no dot after the cut |
| OcrTrigger.ParsePath | backend-fn/functions/index.js:29-40 | an accepted path starts with `users/{userId}/uploads/`, both ids are `/`-free, and a path with fewer than four pieces or not starting with `users/` is skipped |
| OcrTrigger.ApplyWrites | backend-fn/functions/index.js:61-93 | after the writes, the database holds the keys it held plus the written keys, and every record no write names keeps its contents |
| OcrTrigger.Extract | backend-fn/functions/index.js:45-58 | the text is the annotation's text, or "" when there is none, when download and detection both succeed; otherwise it is the message of the first call that threw |
| OcrTrigger.Terminal | backend-fn/functions/index.js:45-93 | the success write when download, detection and that write went through; otherwise the failure write with the first error; no write, and a rejection, when the failure write throws too |
| OcrTrigger.Handle | backend-fn/functions/index.js:17-98 | a non-image or badly shaped path is skipped with no download and no write; an accepted event downloads, lands exactly one write in its own record, the success fields or the failure fields with the first error, unless the run failed and the failure write threw too, in which case the database is untouched and the invocation rejects with that write's message; it leaves no scratch file |
| OcrTrigger.HandleStore | backend-fn/functions/index.js:61-93 | the database after an accepted event is the prior one with the terminal fields merged into that event's record |
| OcrTrigger.HandleMergesIntoOwnRecord | backend-fn/functions/index.js:67-92 | the terminal write keeps every field of the record it does not name and leaves every other record untouched |
| OcrTrigger.HandleLeavesOneTerminalShape | backend-fn/functions/index.js:45-93 | from a record with neither `rawText` nor `error`: `ocr_done` holds iff the run succeeded, with the text and no error; otherwise it is `failed` with the first error and no text |
| OcrTrigger.TerminalShape | backend-fn/functions/index.js:61-90 | either terminal write merged into a record with neither `rawText` nor `error` yields exactly one of the `ocr_done`/`failed` shapes |
| OcrTrigger.RerunIsSingleRun | backend-fn/functions/index.js:61-93 | a redelivered event that ends the same way leaves the database as a single run would |
| OcrTrigger.RerunKeepsStaleError | backend-fn/functions/index.js:77-93 | a failed run followed by a successful rerun leaves `ocr_done` together with the stale `error` |
| OcrService.EffectiveUserId | mobile/AutoDocMobile/src/services/ocrService.ts:26-34 | the signed-in uid when it is non-empty, `test-user-123` otherwise; never empty |
| OcrService.UploadImageForOcr | mobile/AutoDocMobile/src/services/ocrService.ts:37-77 | a failed `putFile` leaves neither object nor record; a stored image carries the `image/jpeg` content type; after a stored image, a failed record write leaves the database alone; on success the path is returned and the `processing` record with path, content type and NLP status is merged into the user's document, all other records unchanged |
| OcrService.InitialWrite | mobile/AutoDocMobile/src/services/ocrService.ts:56-74 | the merge-write of the initial record sets status `processing`, both paths, content type and NLP status, keeps every field it does not name, and adds only its own key |
| OcrService.SnapshotOf | mobile/AutoDocMobile/src/services/ocrService.ts:100-102 | a snapshot exists exactly when the record is in the database, and then carries that record |
| OcrService.Deliveries | mobile/AutoDocMobile/src/services/ocrService.ts:99-119 | for each snapshot the callback receives the record when it exists, and `null` when it does not or the listener errs |
| OcrService.GetOcrResult | mobile/AutoDocMobile/src/services/ocrService.ts:127-145 | `null` when the record is absent, the stored record otherwise, and the read's error when it throws |
| OcrService.ReadAfterUpload | mobile/AutoDocMobile/src/services/ocrService.ts:37-145 | a read after a successful upload finds the `processing` record with the returned storage path |
| OcrService.ReadMatchesListener | mobile/AutoDocMobile/src/services/ocrService.ts:99-145 | the one-off read returns what the listener delivers for the same record |
| Pipeline.StripJpg | backend-fn/functions/index.js:40 | stripping the extension of `{docId}.jpg` gives back a non-empty, `/`-free `docId` |
| Pipeline.ParseAccepts | backend-fn/functions/index.js:29-40 | every `users/{userId}/uploads/{file}` path, with any further pieces, is accepted with `userId` and the stripped file name |
| Pipeline.StoragePathRoundTrip | mobile/AutoDocMobile/src/services/ocrService.ts:44 | the trigger parses the client's storage path back into the same user id and document id |
| Pipeline.UploadPassesTriggerGate | mobile/AutoDocMobile/src/services/ocrService.ts:50-52 | once `putFile` succeeds, the event for the stored object passes the trigger's `image/` content-type check (backend-fn/functions/index.js:20-26) and its path parses to the key of the record the client writes and watches, whether or not the record write succeeds |
| Pipeline.TriggerWritesUploadedRecord | backend-fn/functions/index.js:61-93 | the trigger's terminal write lands in exactly the record the client created |
| Pipeline.UploadedRecord | mobile/AutoDocMobile/src/services/ocrService.ts:62-73 | the created record has the storage path, the JPEG content type and the creation time |
| Pipeline.DoneKeepsClientFields | backend-fn/functions/index.js:67-73 | the success write sets status and text and keeps every other client field |
| Pipeline.DeliveredDone | mobile/AutoDocMobile/src/screens/UploadScreen.tsx:79-101 | a delivered `ocr_done` record moves a processing screen to done, unsubscribed, showing the record |
| Pipeline.DeliveredFailure | mobile/AutoDocMobile/src/screens/UploadScreen.tsx:102-107 | a delivered `failed` record moves a processing screen to failed, unsubscribed, with the record's error or the generic message |
| Pipeline.UploadThenOcrDone | mobile/AutoDocMobile/src/services/ocrService.ts:44-76 | upload then successful OCR: the record ends `ocr_done` with the text and the client's fields, and the screen ends done |
| Pipeline.UploadThenOcrFailed | backend-fn/functions/index.js:77-93 | upload then failed OCR: the record ends `failed` with the first error, and the screen ends failed with that message |
| UploadScreen.Step | mobile/AutoDocMobile/src/screens/UploadScreen.tsx:39-117 | picks are ignored while busy or when cancelled, erroneous or without a URI; a valid pick starts uploading at 0; a tick advances progress by 10 up to 90 while an interval runs and changes nothing else; resolve gives processing at 100; a throw gives failed with the error's message, or 'Failed to upload image' when that is empty; a delivered record becomes the result; `failed` shows the record's error, or 'OCR processing failed' when it is missing or empty; only terminal statuses end the listening; Try Again and OK reset to idle |
| UploadScreen.Advance | mobile/AutoDocMobile/src/screens/UploadScreen.tsx:64-66 | one tick's progress is the smaller of the old progress plus 10 and 90 |
| UploadScreen.OnUpdate | mobile/AutoDocMobile/src/screens/UploadScreen.tsx:78-109 | the record becomes the result; `ocr_done` ends as done and `failed` as failed with the record's error, or 'OCR processing failed' when it is missing or empty, both stopping the listening; any other status changes nothing else |
| UploadScreen.StepAsWritten | mobile/AutoDocMobile/src/screens/UploadScreen.tsx:111-116 | as written, a thrown upload shows its message but leaves its progress interval running; every other event behaves as in the corrected step |
| UploadScreen.StepKeepsConsistent | mobile/AutoDocMobile/src/screens/UploadScreen.tsx:55-116 | one step keeps the invariant: progress within bounds, one interval exactly while uploading, listening exactly while processing, a message when failed |
| UploadScreen.RunKeepsConsistent | mobile/AutoDocMobile/src/screens/UploadScreen.tsx:55-116 | any event sequence keeps that invariant |
| UploadScreen.ReachableIsConsistent | mobile/AutoDocMobile/src/screens/UploadScreen.tsx:34-37 | every screen reachable from the initial one satisfies it |
| UploadScreen.LeakedProgressTimer | mobile/AutoDocMobile/src/screens/UploadScreen.tsx:64-116 | as written: fail, Try Again, succeed, one tick leaves a processing screen at 90 instead of 100 |
| Lists.Filter | mobile/AutoDocMobile/src/screens/DocumentsScreen.tsx:42-48 | keeps exactly the elements the predicate accepts, each as often as before, in their original order |
| Lists.FilterAllKept | mobile/AutoDocMobile/src/screens/DocumentsScreen.tsx:43 | a filter that accepts everything returns its input |
| DocumentsScreen.GetStatusInfo | mobile/AutoDocMobile/src/screens/DocumentsScreen.tsx:23-34 | each known status gets its own caption (iff), every other string the grey "Unknown" badge |
| DocumentsScreen.FilteredDocuments | mobile/AutoDocMobile/src/screens/DocumentsScreen.tsx:42-48 | the All tab shows the list unchanged; a status tab keeps exactly the documents with that status, in order |
| DocumentsScreen.CountsOf | mobile/AutoDocMobile/src/screens/DocumentsScreen.tsx:50-55 | each count is the length of its tab's list, and All counts the whole list |
| DocumentsScreen.StatusCountsCover | mobile/AutoDocMobile/src/screens/DocumentsScreen.tsx:50-55 | the status counts sum to at most All, with equality iff every document has a known status |
| DocumentsScreen.Preview | mobile/AutoDocMobile/src/screens/DocumentsScreen.tsx:245-248 | a preview appears iff `rawText` is a non-empty string, and shows its first min(length, 50) characters followed by "..." |
| Validation.EmailShapeMatchesPattern | mobile/AutoDocMobile/src/utils/validation.ts:3 | the direct check agrees with the pattern: word, `@`, word, `.`, word, with no whitespace or `@` inside a word |
| Validation.Email | mobile/AutoDocMobile/src/utils/validation.ts:2-7 | "Email is required" iff empty; "Invalid email format" iff non-empty and not matching; `null` iff matching |
| Validation.Password | mobile/AutoDocMobile/src/utils/validation.ts:9-16 | `null` iff at least 8 characters with an upper-case letter, a lower-case letter and a digit; otherwise the message of the first failing rule, each one iff exactly its case |
| Validation.Name | mobile/AutoDocMobile/src/utils/validation.ts:18-22 | required iff empty, too short iff one character, `null` iff at least two |
| Validation.ConfirmPassword | mobile/AutoDocMobile/src/utils/validation.ts:24-28 | asks to confirm iff the confirmation is empty, mismatch iff non-empty and different, `null` iff equal and non-empty |
| Validation.ConfirmSamePassword | mobile/AutoDocMobile/src/utils/validation.ts:24-28 | re-typing a non-empty password is always accepted |
| StoredList.Mounted | mobile/AutoDocMobile/src/hooks/useDocuments.ts:8-9 | a hook mounts with an empty list and loading |
| StoredList.Load | mobile/AutoDocMobile/src/hooks/useDocuments.ts:15-26 | loading ends on every outcome; the list is replaced by the one stored under the hook's key only when the read succeeds and finds one, and then it is in sync with storage |
| StoredList.Save | mobile/AutoDocMobile/src/hooks/useDocuments.ts:28-32 | the list in memory becomes the new one; storage changes, under the hook's key only, exactly when the write succeeds |
| StoredList.Remove | mobile/AutoDocMobile/src/hooks/useDocuments.ts:35 | removes every entry with the id and keeps the rest with their multiplicities, in order; an absent id changes nothing |
| StoredList.Patch | mobile/AutoDocMobile/src/hooks/useDocuments.ts:41 | same length; matching entries are merged with the updates, others unchanged |
| StoredList.Add | mobile/AutoDocMobile/src/hooks/useDocuments.ts:28-32 | appends one entry, keeping the others in order; storage changes under no other key, equals the list after a successful write and is untouched after a failed one |
| StoredList.Delete | mobile/AutoDocMobile/src/hooks/useDocuments.ts:34-38 | removes exactly the entries with the id, in order, absent id unchanged; the same storage guarantees as Add |
| StoredList.Update | mobile/AutoDocMobile/src/hooks/useDocuments.ts:40-44 | same length and order; in matching entries the updates win and other fields are kept; others unchanged; the same storage guarantees as Add |
| StoredList.ReloadKeepsSavedChange | mobile/AutoDocMobile/src/hooks/useDocuments.ts:15-44 | after a change whose write succeeded, reloading gives the same list |
| StoredList.OtherKeyUnaffected | mobile/AutoDocMobile/src/hooks/useDocuments.ts:15-44 | a change under one key never alters what a load under another key reads |
| StoredList.DeleteUndoesAdd | mobile/AutoDocMobile/src/hooks/useDocuments.ts:28-38 | deleting an entry just added under a fresh id restores the list, and storage too when it was in sync |
| StoredList.RemoveUndoesAppend | mobile/AutoDocMobile/src/hooks/useDocuments.ts:28-35 | filtering out the id of an entry just appended to a list free of that id gives back the list |
| StoredList.DeleteIdempotent | mobile/AutoDocMobile/src/hooks/useDocuments.ts:34-38 | deleting twice is deleting once, for the list and for storage |
| DocumentsHook.LoadDocuments | mobile/AutoDocMobile/src/hooks/useDocuments.ts:15-26 | loading ends; the list stored under `documents` replaces the documents only on a successful read that finds one |
| DocumentsHook.AddDocument | mobile/AutoDocMobile/src/hooks/useDocuments.ts:28-32 | the new list is the old one with the document at the end, and a successful write stores exactly it under `documents` |
| DocumentsHook.DeleteDocument | mobile/AutoDocMobile/src/hooks/useDocuments.ts:34-38 | no document with the id remains, every other document keeps its multiplicity and order, and a successful write stores the result under `documents` |
| DocumentsHook.UpdateDocument | mobile/AutoDocMobile/src/hooks/useDocuments.ts:40-44 | each document is merged with the updates if its id matches and unchanged otherwise, and a successful write stores the result under `documents` |
| WebsitesHook.LoadWebsites | mobile/AutoDocMobile/src/hooks/useWebsites.ts:15-26 | loading ends; the list stored under `websites` replaces the websites on a successful read that finds one, and nothing else changes otherwise |
| WebsitesHook.AddWebsite | mobile/AutoDocMobile/src/hooks/useWebsites.ts:28-32 | one longer, the old entries first in order, the new one last; storage changes only under `websites` |
| WebsitesHook.DeleteWebsite | mobile/AutoDocMobile/src/hooks/useWebsites.ts:34-38 | removes exactly the entries with that id, preserving the order of the rest; storage changes only under `websites` |
| WebsitesHook.UpdateWebsite | mobile/AutoDocMobile/src/hooks/useWebsites.ts:40-44 | same length and order; non-matching entries unchanged; each matching entry becomes its merge with the updates; storage changes only under `websites` |
| SharedStorage.DocumentChangesLeaveWebsites | mobile/AutoDocMobile/src/hooks/useDocuments.ts:28-44 | adding, deleting or updating documents, whether or not the write succeeds, never changes the website list a load reads |
| SharedStorage.WebsiteChangesLeaveDocuments | mobile/AutoDocMobile/src/hooks/useWebsites.ts:28-44 | adding, deleting or updating websites never changes the document list a load reads |
| AuthContext.CheckAuthStatus | mobile/AutoDocMobile/src/contexts/AuthContext.tsx:35-56 | with a successful read of a non-empty token and a user, the session is restored (biometric on iff stored true); otherwise, and on error, only loading is cleared |
| AuthContext.SignIn | mobile/AutoDocMobile/src/contexts/AuthContext.tsx:70-84 | succeeds iff all three writes complete, then signed in with the mock token and the writes stored; otherwise the state is untouched |
| AuthContext.Login | mobile/AutoDocMobile/src/contexts/AuthContext.tsx:58-90 | on success: authenticated, not loading, biometric off, the mock user and token, the credentials in the keychain; on failure the state is unchanged |
| AuthContext.Signup | mobile/AutoDocMobile/src/contexts/AuthContext.tsx:92-128 | mismatched passwords return false with nothing changed; otherwise as login, with the new user's name and id |
| AuthContext.Logout | mobile/AutoDocMobile/src/contexts/AuthContext.tsx:130-146 | on success user and token are gone, unauthenticated, biometric off, the three keys removed; the keychain entry stays |
| AuthContext.UpdateUser | mobile/AutoDocMobile/src/contexts/AuthContext.tsx:148-154 | no user or a failed write: nothing changes; otherwise only the user changes, to the merge of the updates, in state and storage |
| AuthContext.EnableBiometric | mobile/AutoDocMobile/src/contexts/AuthContext.tsx:156-170 | the flag turns on, in state and storage, iff biometrics are available and the write succeeds; nothing else changes |
| AuthContext.DisableBiometric | mobile/AutoDocMobile/src/contexts/AuthContext.tsx:172-175 | only the flag changes, to false, in state and storage; a failed write changes nothing |
| AuthContext.AuthenticateWithBiometric | mobile/AutoDocMobile/src/contexts/AuthContext.tsx:177-193 | false with nothing changed when no credentials can be read or the check fails; true iff the login that follows succeeds |
| AuthContext.OperationsKeepCoherent | mobile/AutoDocMobile/src/contexts/AuthContext.tsx:35-193 | every operation keeps authenticated iff both user and token are present, with a non-empty token |
| AuthContext.InitialIsCoherent | mobile/AutoDocMobile/src/contexts/AuthContext.tsx:23-29 | the provider mounts unauthenticated, loading and coherent |
| AuthContext.RestartRestoresLogin | mobile/AutoDocMobile/src/contexts/AuthContext.tsx:35-84 | what a successful login stores restores the same session at the next start, except that the biometric flag comes from storage |
| AuthContext.RestartAfterLogout | mobile/AutoDocMobile/src/contexts/AuthContext.tsx:130-142 | after a successful logout the next start finds no session |
| AuthContext.BiometricLoginClearsFlag | mobile/AutoDocMobile/src/contexts/AuthContext.tsx:177-187 | a biometric login shows the flag off while storage keeps it on, so the next start shows it on again |
| LoginScreen.PasswordPresent | mobile/AutoDocMobile/src/screens/LoginScreen.tsx:33 | "Password is required" iff the password is empty |
| LoginScreen.HandleLogin | mobile/AutoDocMobile/src/screens/LoginScreen.tsx:31-60 | login is called iff the email is valid and the password non-empty; otherwise the two errors are set from the checks; a throw clears the email error and shows the message or the default under password; loading ends false |
| LoginScreen.EditEmail | mobile/AutoDocMobile/src/screens/LoginScreen.tsx:85-88 | editing the email sets it and clears only its error |
| LoginScreen.EditPassword | mobile/AutoDocMobile/src/screens/LoginScreen.tsx:98-101 | editing the password sets it and clears only its error |
| LoginScreen.RejectedShowsAnError | mobile/AutoDocMobile/src/screens/LoginScreen.tsx:32-41 | a submission that is not let through shows an error on at least one field |
| SignupScreen.RejectionErrors | mobile/AutoDocMobile/src/screens/SignupScreen.tsx:70-83 | an email-in-use code puts its message under email only, a weak-password code under password only, and any other code leaves all four errors empty |
| SignupScreen.HandleSignup | mobile/AutoDocMobile/src/screens/SignupScreen.tsx:40-87 | signup is called iff all four validators pass; otherwise each error is its validator's message or ""; a throw routes the error code; loading ends false |
| SignupScreen.UpdateField | mobile/AutoDocMobile/src/screens/SignupScreen.tsx:89-92 | changes only that field's value and clears only that field's error |
| SignupScreen.GateMatchesMessages | mobile/AutoDocMobile/src/screens/SignupScreen.tsx:41-56 | the form is let through exactly when every field's error message is empty |
| SignupScreen.ValidMeansPasswordsMatch | mobile/AutoDocMobile/src/screens/SignupScreen.tsx:44-57 | a form that passes the validators has a non-empty password equal to its confirmation |

## Left out

- Firebase, Cloud Storage, Vision, AsyncStorage and the keychain are not modelled as behaviour. What each call did is an input: success with its value, or a throw with a message.
- `Date.now()`, `new Date()` and `serverTimestamp()` are opaque inputs: an integer stamp, or a string for the mock token and user ids.
- OcrService.InitialRecord and AuthContext.Clock: one `now` stands for the three `new Date()` calls of the initial record, and one `millis` for the two `Date.now()` calls of a sign-up. The real calls may differ by a few milliseconds; nothing in the model depends on that.
- Alerts and console logging are left out, and so is the simulated one-second delay in `login` and `signup`.
- The 200 ms interval is modelled as discrete `Tick` events.
- Real-time delivery, asynchronous interleaving and redelivery timing are left out. The listener is modelled as its callback applied to a sequence of snapshots.
- The upload screen's generated document id `doc-{Date.now()}` is not modelled. The pipeline lemmas take any non-empty, `/`-free id.
- OcrTrigger.ScratchPath: `path.join` normalisation of the temporary directory is not modelled; the scratch path is `tmpdir + "/" + basename`.
- Validation.Password, Validation.Name and DocumentsScreen.Preview: JavaScript string length and `substring` count UTF-16 code units, the model counts characters; the two differ only on text outside the Basic Multilingual Plane.
- OcrTrigger.ParsePath: like the code, it accepts an empty user id or file name (`users//uploads/a.jpg`, `users/u/uploads/`). Firestore refuses such an empty document id by throwing, so in reality those events never write and always reject; the model takes the write outcomes as inputs and lets them succeed.
- DocumentsScreen.Preview: a `rawText` that is not a string (the code would call `substring` on it) is treated as no preview.
- The `useState`/`useEffect` machinery is left out. Each hook and context operation is a function from state to state.
- The login and sign-up screens call `login(email, password)` and `signup(email, password, name)`, but the context's functions take credential objects. So the screens treat the call as an opaque outcome: it resolves, or it throws with a message or error code.
- `utils/storage` is not part of this model. Each storage read is modelled as returning what was last written or throwing; each write either completes or throws.
- The list hooks' device storage (`StoredList.Device`) and the authentication context's storage (`AuthContext.Storage`) are separate models. The app keeps both in one store under different keys, so neither can disturb the other. That separation is proved only between the two hooks.
- The partially written file left by a failed download is represented only by a flag. The `finally` block removes the file either way.

## Findings

| source | as written | input that shows it | evidently intended | confidence | as-written member | corrected member |
|---|---|---|---|---|---|---|
| mobile/AutoDocMobile/src/screens/UploadScreen.tsx:64-116 | `clearInterval(progressInterval)` is reached only after the upload resolves; when `uploadImageForOcr` throws, the `catch` block leaves the interval running | pick, upload throws, Try Again, pick, upload resolves, one interval tick: the screen is `processing` with progress 90 instead of 100 | the interval is cleared on both ways the upload settles, so exactly one runs while uploading and none otherwise | not executed | UploadScreen.StepAsWritten, UploadScreen.LeakedProgressTimer | UploadScreen.Step, UploadScreen.RunKeepsConsistent |
