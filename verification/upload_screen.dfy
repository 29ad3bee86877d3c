/** The upload screen's state: `idle -> uploading -> processing -> done | failed
    -> idle`, the simulated progress bar, and the reaction to record updates
    from the status listener.

    Every asynchronous thing that happens to the screen is an `Event`: the
    image picker answering, one firing of the 200 ms progress interval, the
    upload promise settling, one listener delivery, or a button press. */
module UploadScreen {
  import opened Outcomes
  import opened Records

  datatype Phase = Idle | Uploading | Processing | Done | Failed

  /** The screen's state. `listening` says whether the status listener is
      still subscribed; `timers` counts progress intervals still running. */
  datatype Screen = Screen(
    phase: Phase,
    progress: int,
    ocrResult: Option<Fields>,
    errorMessage: Option<string>,
    listening: bool,
    timers: nat)

  const Initial := Screen(Idle, 0, None, None, false, 0)

  /** The fields of an image-picker response the screen reads:
      `didCancel`, `errorCode` and `assets?.[0]?.uri`. */
  datatype PickResponse = PickResponse(didCancel: bool, errorCode: Option<string>, firstUri: Option<string>)

  datatype Event =
    | Pick(response: PickResponse)
    | Tick
    | UploadResolved
    | UploadRejected(message: string)
    | Update(result: Option<Fields>)
    | TryAgain
    | AcknowledgeDone

  /** While uploading or processing, both pick buttons are disabled. */
  predicate Busy(s: Screen)
  {
    s.phase == Uploading || s.phase == Processing
  }

  /** A truthy string: present and non-empty. */
  predicate Truthy(s: Option<string>)
  {
    s.Some? && s.value != ""
  }

  /** A response that gets past the three early returns of
      `handleImagePicked`: not cancelled, no error code, an asset URI. */
  predicate StartsUpload(response: PickResponse)
  {
    !response.didCancel && !Truthy(response.errorCode) && Truthy(response.firstUri)
  }

  /** `Math.min(prev + 10, 90)`. */
  function Advance(progress: int): (a: int)
    ensures a <= 90 && a <= progress + 10
    ensures a == 90 || a == progress + 10
  {
    if progress + 10 < 90 then progress + 10 else 90
  }

  /** The listener callback of `handleImagePicked`. A `null` delivery is
      ignored; any record is stored as the latest result; `ocr_done` and
      `failed` end the listening, other statuses change nothing else. */
  function OnUpdate(s: Screen, rec: Fields): (r: Screen)
    ensures r.ocrResult == Some(rec) && r.progress == s.progress && r.timers == s.timers
    ensures HasStr(rec, "status", "ocr_done") ==> r.phase == Done && !r.listening && r.errorMessage == s.errorMessage
    ensures HasStr(rec, "status", "failed") ==>
              && r.phase == Failed && !r.listening
              && r.errorMessage == Some(OrElse(StrField(rec, "error").GetOr(""), "OCR processing failed"))
    ensures !HasStr(rec, "status", "ocr_done") && !HasStr(rec, "status", "failed") ==>
              r == s.(ocrResult := Some(rec))
  {
    var s1 := s.(ocrResult := Some(rec));
    if HasStr(rec, "status", "ocr_done") then
      s1.(phase := Done, listening := false)
    else if HasStr(rec, "status", "failed") then
      var message := OrElse(StrField(rec, "error").GetOr(""), "OCR processing failed");
      s1.(phase := Failed, errorMessage := Some(message), listening := false)
    else s1
  }

  /** One step of the screen, with the progress interval stopped on both
      ways the upload can settle. */
  function Step(s: Screen, e: Event): (r: Screen)
    ensures e.Pick? && (Busy(s) || !StartsUpload(e.response)) ==> r == s
    ensures e.Pick? && !Busy(s) && StartsUpload(e.response) ==>
              r.phase == Uploading && r.progress == 0 && r.errorMessage.None?
    ensures e.Tick? && s.progress <= 90 ==> r.progress <= 90
    ensures e.Tick? ==> r.progress == if s.timers > 0 then Advance(s.progress) else s.progress
    ensures e.Tick? ==> r.(progress := s.progress) == s
    ensures e.UploadResolved? && s.phase == Uploading ==>
              r.phase == Processing && r.progress == 100 && r.listening
    ensures e.UploadRejected? && s.phase == Uploading ==>
              && r.phase == Failed && r.errorMessage.Some? && r.errorMessage.value != ""
              && r.errorMessage == Some(OrElse(e.message, "Failed to upload image"))
    ensures (e.UploadResolved? || e.UploadRejected?) && s.phase != Uploading ==> r == s
    ensures e.Update? && (!s.listening || e.result.None?) ==> r == s
    ensures e.Update? && s.listening && e.result.Some? ==>
              && r.ocrResult == e.result
              && (HasStr(e.result.value, "status", "failed") ==>
                    r.errorMessage == Some(OrElse(StrField(e.result.value, "error").GetOr(""), "OCR processing failed")))
              && (HasStr(e.result.value, "status", "ocr_done") ==> r.phase == Done && !r.listening)
              && (HasStr(e.result.value, "status", "failed") ==>
                    r.phase == Failed && !r.listening && r.errorMessage.Some? && r.errorMessage.value != "")
              && (!HasStr(e.result.value, "status", "ocr_done") && !HasStr(e.result.value, "status", "failed") ==>
                    r.phase == s.phase && r.listening)
    ensures e.TryAgain? && s.phase == Failed ==>
              r.phase == Idle && r.progress == 0 && r.errorMessage.None?
    ensures e.AcknowledgeDone? && s.phase == Done ==> r.phase == Idle && r.progress == 0
    ensures (e.TryAgain? && s.phase != Failed) || (e.AcknowledgeDone? && s.phase != Done) ==> r == s
  {
    match e
    case Pick(response) =>
      if Busy(s) || !StartsUpload(response) then s
      else s.(phase := Uploading, progress := 0, errorMessage := None, timers := s.timers + 1)
    case Tick =>
      if s.timers > 0 then s.(progress := Advance(s.progress)) else s
    case UploadResolved =>
      if s.phase != Uploading then s
      else s.(phase := Processing, progress := 100, listening := true, timers := StopTimer(s.timers))
    case UploadRejected(message) =>
      if s.phase != Uploading then s
      else s.(phase := Failed, errorMessage := Some(OrElse(message, "Failed to upload image")),
              timers := StopTimer(s.timers))
    case Update(result) =>
      if !s.listening || result.None? then s else OnUpdate(s, result.value)
    case TryAgain =>
      if s.phase != Failed then s else s.(phase := Idle, errorMessage := None, progress := 0)
    case AcknowledgeDone =>
      if s.phase != Done then s else s.(phase := Idle, progress := 0)
  }

  /** `clearInterval` of the interval this upload started. */
  function StopTimer(timers: nat): nat
  {
    if timers > 0 then timers - 1 else 0
  }

  /** The screen as the code is written: when the upload throws, the `catch`
      branch never reaches `clearInterval`, so the interval keeps running. */
  function StepAsWritten(s: Screen, e: Event): (r: Screen)
    ensures e.UploadRejected? && s.phase == Uploading ==>
              && r.timers == s.timers && r.phase == Failed
              && r.errorMessage == Some(OrElse(e.message, "Failed to upload image"))
    ensures !e.UploadRejected? ==> r == Step(s, e)
  {
    match e
    case UploadRejected(message) =>
      if s.phase != Uploading then s
      else s.(phase := Failed, errorMessage := Some(OrElse(message, "Failed to upload image")))
    case _ => Step(s, e)
  }

  /** The screen after a sequence of events. */
  function Run(s: Screen, events: seq<Event>): Screen
    decreases |events|
  {
    if |events| == 0 then s else Run(Step(s, events[0]), events[1..])
  }

  function RunAsWritten(s: Screen, events: seq<Event>): Screen
    decreases |events|
  {
    if |events| == 0 then s else RunAsWritten(StepAsWritten(s, events[0]), events[1..])
  }

  /** What every reachable screen satisfies: the progress bar stays within
      0..100 and at most 90 while uploading, is 100 from the moment the
      upload resolves until the screen is reset and 0 when idle; exactly one
      progress interval runs while uploading and none otherwise; the
      listener is subscribed exactly while processing; a failed screen has
      an error message and an uploading one has none. */
  predicate Consistent(s: Screen)
  {
    && 0 <= s.progress <= 100
    && (s.phase == Uploading ==> s.progress <= 90 && s.errorMessage.None?)
    && (s.phase == Processing || s.phase == Done ==> s.progress == 100)
    && (s.phase == Idle ==> s.progress == 0)
    && (s.timers == if s.phase == Uploading then 1 else 0)
    && (s.listening <==> s.phase == Processing)
    && (s.phase == Failed ==> s.errorMessage.Some?)
  }

  lemma StepKeepsConsistent(s: Screen, e: Event)
    requires Consistent(s)
    ensures Consistent(Step(s, e))
  {
  }

  /** Every screen reachable from the initial one is consistent. */
  lemma {:induction false} RunKeepsConsistent(s: Screen, events: seq<Event>)
    requires Consistent(s)
    ensures Consistent(Run(s, events))
    decreases |events|
  {
    if |events| > 0 {
      StepKeepsConsistent(s, events[0]);
      RunKeepsConsistent(Step(s, events[0]), events[1..]);
    }
  }

  lemma ReachableIsConsistent(events: seq<Event>)
    ensures Consistent(Run(Initial, events))
  {
    RunKeepsConsistent(Initial, events);
  }

  /** A picker response that starts an upload. */
  const SomePick := Pick(PickResponse(false, None, Some("file:///photo.jpg")))

  /** As written, a failed upload leaves its progress interval running: the
      screen is `failed` with one timer still firing, and after "Try Again"
      and a second, successful upload, that stale interval drags the
      progress of the `processing` screen from 100 back to 90. The corrected
      step keeps it at 100. */
  lemma LeakedProgressTimer()
    ensures var failed := RunAsWritten(Initial, [SomePick, UploadRejected("network")]);
            failed.phase == Failed && failed.timers == 1
    ensures var trace := [SomePick, UploadRejected("network"), TryAgain, SomePick, UploadResolved, Tick];
            && RunAsWritten(Initial, trace).phase == Processing
            && RunAsWritten(Initial, trace).progress == 90
            && Run(Initial, trace).phase == Processing
            && Run(Initial, trace).progress == 100
  {
    var pick := SomePick;
    var a1 := StepAsWritten(Initial, pick);
    assert a1 == Screen(Uploading, 0, None, None, false, 1);
    var a2 := StepAsWritten(a1, UploadRejected("network"));
    assert a2 == Screen(Failed, 0, None, Some("network"), false, 1);
    assert RunAsWritten(a2, []) == a2;
    assert RunAsWritten(a1, [UploadRejected("network")]) == a2;
    var a3 := StepAsWritten(a2, TryAgain);
    assert a3 == Screen(Idle, 0, None, None, false, 1);
    var a4 := StepAsWritten(a3, pick);
    assert a4 == Screen(Uploading, 0, None, None, false, 2);
    var a5 := StepAsWritten(a4, UploadResolved);
    assert a5 == Screen(Processing, 100, None, None, true, 1);
    var a6 := StepAsWritten(a5, Tick);
    assert a6 == Screen(Processing, 90, None, None, true, 1);
    assert RunAsWritten(a6, []) == a6;
    assert RunAsWritten(a5, [Tick]) == a6;
    assert RunAsWritten(a4, [UploadResolved, Tick]) == a6;
    assert RunAsWritten(a3, [pick, UploadResolved, Tick]) == a6;
    assert RunAsWritten(a2, [TryAgain, pick, UploadResolved, Tick]) == a6;
    assert RunAsWritten(a1, [UploadRejected("network"), TryAgain, pick, UploadResolved, Tick]) == a6;

    var c1 := Step(Initial, pick);
    var c2 := Step(c1, UploadRejected("network"));
    assert c2 == Screen(Failed, 0, None, Some("network"), false, 0);
    var c3 := Step(c2, TryAgain);
    var c4 := Step(c3, pick);
    var c5 := Step(c4, UploadResolved);
    var c6 := Step(c5, Tick);
    assert c6 == Screen(Processing, 100, None, None, true, 0);
    assert Run(c6, []) == c6;
    assert Run(c5, [Tick]) == c6;
    assert Run(c4, [UploadResolved, Tick]) == c6;
    assert Run(c3, [pick, UploadResolved, Tick]) == c6;
    assert Run(c2, [TryAgain, pick, UploadResolved, Tick]) == c6;
    assert Run(c1, [UploadRejected("network"), TryAgain, pick, UploadResolved, Tick]) == c6;
  }
}
